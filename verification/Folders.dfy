// When two joined paths are the same path, without any condition on the parts:
// exactly when their segments, after blanks are dropped and ".." has cancelled
// what it can, are the same.
module Folders {
  import opened Paths
  import Decimal

  predicate SlashFree(segs: seq<string>) { forall i :: 0 <= i < |segs| ==> '/' !in segs[i] }

  // What is left of segments after cleaning.
  predicate Solid(segs: seq<string>) {
    forall i :: 0 <= i < |segs| ==> '/' !in segs[i] && segs[i] != "" && segs[i] != "."
  }

  function SplitAll(elems: seq<string>): seq<string> {
    if elems == [] then [] else Split(elems[0]) + SplitAll(elems[1..])
  }

  // The cleaned segments of a relative path with these parts.
  function Normal(elems: seq<string>): seq<string> { Normalize(false, [], SplitAll(elems)) }

  function NoBlanks(segs: seq<string>): seq<string> {
    if segs == [] then []
    else if segs[0] == "" then NoBlanks(segs[1..]) else [segs[0]] + NoBlanks(segs[1..])
  }

  // --- Splitting and gluing ---

  lemma {:induction false} SplitSlashFree(p: string)
    ensures SlashFree(Split(p))
    decreases |p|
  {
    if p != [] { SplitSlashFree(p[1..]); }
  }

  lemma {:induction false} SplitAllSlashFree(elems: seq<string>)
    ensures SlashFree(SplitAll(elems))
    decreases |elems|
  {
    if elems != [] {
      SplitSlashFree(elems[0]);
      SplitAllSlashFree(elems[1..]);
    }
  }

  lemma {:induction false} SplitGlueAll(elems: seq<string>)
    requires elems != []
    ensures Split(Glue(elems)) == SplitAll(elems)
    decreases |elems|
  {
    hide Split;
    if |elems| == 1 {
      assert SplitAll(elems) == Split(elems[0]) + [];
    } else {
      SplitGlueAll(elems[1..]);
      SplitAppend(elems[0], Glue(elems[1..]));
    }
  }

  lemma {:induction false} SplitAllSingles(segs: seq<string>)
    requires SlashFree(segs)
    ensures SplitAll(segs) == segs
    decreases |segs|
  {
    if segs != [] {
      SplitSingle(segs[0]);
      SplitAllSingles(segs[1..]);
    }
  }

  // Solid segments can be read back from the path.
  lemma GlueInjective(a: seq<string>, b: seq<string>)
    requires Solid(a) && Solid(b) && Glue(a) == Glue(b)
    ensures a == b
  {
    if a != [] && b != [] {
      SplitGlueAll(a);
      SplitGlueAll(b);
      SplitAllSingles(a);
      SplitAllSingles(b);
    } else {
      GlueNotEmpty(a);
      GlueNotEmpty(b);
    }
  }

  lemma GlueNotEmpty(segs: seq<string>)
    requires Solid(segs)
    ensures Glue(segs) == "" <==> segs == []
    ensures Glue(segs) != "."
  {
    if |segs| > 1 {
      assert Glue(segs) == segs[0] + "/" + Glue(segs[1..]);
      assert '/' in Glue(segs) by { assert Glue(segs)[|segs[0]|] == '/'; }
    }
  }

  // --- Cleaning ---

  lemma {:induction false} NoBlanksAppend(a: seq<string>, b: seq<string>)
    ensures NoBlanks(a + b) == NoBlanks(a) + NoBlanks(b)
    decreases |a|
  {
    if a == [] {
      assert a + b == b;
    } else {
      assert (a + b)[1..] == a[1..] + b;
      NoBlanksAppend(a[1..], b);
    }
  }

  lemma {:induction false} NormalizeNoBlanks(done: seq<string>, todo: seq<string>)
    ensures Normalize(false, done, todo) == Normalize(false, done, NoBlanks(todo))
    decreases |todo|
  {
    if todo != [] {
      var rest := todo[1..];
      if todo[0] == "" {
        NormalizeNoBlanks(done, rest);
      } else {
        assert NoBlanks(todo)[1..] == NoBlanks(rest);
        NormalizeNoBlanks(done, rest);
        NormalizeNoBlanks(done + [todo[0]], rest);
        NormalizeNoBlanks(done + [".."], rest);
        if done != [] { NormalizeNoBlanks(done[..|done|-1], rest); }
      }
    }
  }

  lemma {:induction false} NormalizeAppend(done: seq<string>, a: seq<string>, b: seq<string>)
    ensures Normalize(false, done, a + b) == Normalize(false, Normalize(false, done, a), b)
    decreases |a|
  {
    if a == [] {
      assert a + b == b;
    } else {
      assert (a + b)[1..] == a[1..] + b;
      NormalizeAppend(done, a[1..], b);
      NormalizeAppend(done + [a[0]], a[1..], b);
      NormalizeAppend(done + [".."], a[1..], b);
      if done != [] { NormalizeAppend(done[..|done|-1], a[1..], b); }
    }
  }

  lemma {:induction false} NormalizeSolid(done: seq<string>, todo: seq<string>)
    requires Solid(done) && SlashFree(todo)
    ensures Solid(Normalize(false, done, todo))
    decreases |todo|
  {
    if todo != [] {
      var rest := todo[1..];
      if todo[0] == "" || todo[0] == "." { NormalizeSolid(done, rest); }
      else if todo[0] != ".." { NormalizeSolid(done + [todo[0]], rest); }
      else if done != [] && done[|done|-1] != ".." { NormalizeSolid(done[..|done|-1], rest); }
      else { NormalizeSolid(done + [".."], rest); }
    }
  }

  lemma {:induction false} BlankParts(elems: seq<string>)
    ensures NoBlanks(SplitAll(NonEmpty(elems))) == NoBlanks(SplitAll(elems))
    decreases |elems|
  {
    if elems != [] {
      BlankParts(elems[1..]);
      NoBlanksAppend(Split(elems[0]), SplitAll(elems[1..]));
      if elems[0] == "" {
        assert NoBlanks([""]) == [];
      } else {
        var rest := NonEmpty(elems[1..]);
        assert ([elems[0]] + rest)[1..] == rest;
        NoBlanksAppend(Split(elems[0]), SplitAll(rest));
      }
    }
  }

  // --- Joining ---

  // A joined relative path is its cleaned segments, glued.
  lemma JoinIsNormal(elems: seq<string>)
    requires elems != [] && elems[0] != "" && elems[0][0] != '/'
    ensures Solid(Normal(elems))
    ensures Join(elems) == if Normal(elems) == [] then "." else Glue(Normal(elems))
  {
    var some := NonEmpty(elems);
    var p := Glue(some);
    assert some[0] == elems[0] && p != "" && p[0] == elems[0][0];
    SplitGlueAll(some);
    BlankParts(elems);
    NormalizeNoBlanks([], SplitAll(some));
    NormalizeNoBlanks([], SplitAll(elems));
    assert Normalize(false, [], Split(p)) == Normal(elems);
    SplitAllSlashFree(elems);
    NormalizeSolid([], SplitAll(elems));
    GlueNotEmpty(Normal(elems));
  }

  // Two joined paths are one path exactly when their cleaned segments agree.
  lemma JoinIff(a: seq<string>, b: seq<string>)
    requires a != [] && a[0] != "" && a[0][0] != '/' && b != [] && b[0] != "" && b[0][0] != '/'
    ensures Join(a) == Join(b) <==> Normal(a) == Normal(b)
  {
    JoinIsNormal(a);
    JoinIsNormal(b);
    GlueNotEmpty(Normal(a));
    GlueNotEmpty(Normal(b));
    hide Normal, Join, Glue;
    if Join(a) == Join(b) && Normal(a) != [] && Normal(b) != [] { GlueInjective(Normal(a), Normal(b)); }
  }

  lemma {:induction false} SplitAllAppend(a: seq<string>, b: seq<string>)
    ensures SplitAll(a + b) == SplitAll(a) + SplitAll(b)
    decreases |a|
  {
    if a == [] {
      assert a + b == b;
    } else {
      assert (a + b)[1..] == a[1..] + b;
      SplitAllAppend(a[1..], b);
    }
  }

  // A plain last part is the last segment.
  lemma NormalSnoc(elems: seq<string>, last: string)
    requires '/' !in last && Plain(last)
    ensures Normal(elems + [last]) == Normal(elems) + [last]
  {
    SplitAllAppend(elems, [last]);
    SplitAllSingles([last]);
    NormalizeAppend([], SplitAll(elems), [last]);
    assert [last][1..] == [];
  }

  // --- The folder of a config: everything of its path but the version ---

  function Folder(top: string, site: string, ns: string, name: string): seq<string> {
    Normal([top, site, ns, Stripped(name)])
  }

  predicate IsTop(top: string) { top != "" && top[0] != '/' }

  // Two versions have one file exactly when folder and version agree.
  lemma PathIff(top: string, site: string, ns: string, name: string, version: string,
                top': string, site': string, ns': string, name': string, version': string)
    requires IsTop(top) && IsTop(top') && '/' !in version && Plain(version) && '/' !in version' && Plain(version')
    ensures FilePath(top, site, ns, name, version) == FilePath(top', site', ns', name', version')
       <==> Folder(top, site, ns, name) == Folder(top', site', ns', name') && version == version'
  {
    var (a, b) := ([top, site, ns, Stripped(name)], [top', site', ns', Stripped(name')]);
    assert [top, site, ns, Stripped(name), version] == a + [version];
    assert [top', site', ns', Stripped(name'), version'] == b + [version'];
    JoinIff(a + [version], b + [version']);
    NormalSnoc(a, version);
    NormalSnoc(b, version');
    hide *;
    SnocIff(Normal(a), version, Normal(b), version');
    assert Folder(top, site, ns, name) == Normal(a) &&
      Folder(top', site', ns', name') ==
      Normal(b) by { FolderIs(top, site, ns, name); FolderIs(top', site', ns', name'); }
    assert FilePath(top, site, ns, name, version) == Join(a + [version]) by { PathIs(top, site, ns, name, version); }
    assert FilePath(top', site', ns', name', version') ==
      Join(b + [version']) by { PathIs(top', site', ns', name', version'); }
  }

  lemma FolderIs(top: string, site: string, ns: string, name: string)
    ensures Folder(top, site, ns, name) == Normal([top, site, ns, Stripped(name)])
  {
    hide Normal, Stripped;
  }

  lemma PathIs(top: string, site: string, ns: string, name: string, version: string)
    ensures FilePath(top, site, ns, name, version) == Join([top, site, ns, Stripped(name)] + [version])
  {
    hide Join, Stripped;
    assert [top, site, ns, Stripped(name), version] == [top, site, ns, Stripped(name)] + [version];
  }

  lemma SnocIff(a: seq<string>, x: string, b: seq<string>, y: string)
    ensures a + [x] == b + [y] <==> a == b && x == y
  {
    if a + [x] == b + [y] {
      assert (a + [x])[..|a|] == a && (b + [y])[..|b|] == b;
      assert (a + [x])[|a|] == x && (b + [y])[|b|] == y;
    }
  }

  // The same for numbered versions.
  lemma VersionPathIff(top: string, site: string, ns: string, name: string, v: nat,
                       top': string, site': string, ns': string, name': string, v': nat)
    requires IsTop(top) && IsTop(top')
    ensures FilePath(top, site, ns, name, Decimal.Print(v)) == FilePath(top', site', ns', name', Decimal.Print(v'))
       <==> Folder(top, site, ns, name) == Folder(top', site', ns', name') && v == v'
  {
    DecimalIsPlain(v);
    DecimalIsPlain(v');
    PathIff(top, site, ns, name, Decimal.Print(v), top', site', ns', name', Decimal.Print(v'));
    if Decimal.Print(v) == Decimal.Print(v') { Decimal.PrintInjective(v, v'); }
  }

  lemma SameBlanks(elems: seq<string>, x: string, y: string)
    requires NoBlanks(Split(x)) == NoBlanks(Split(y))
    ensures Normal(elems + [x]) == Normal(elems + [y])
  {
    SplitAllSnoc(elems, x);
    SplitAllSnoc(elems, y);
    hide SplitAll, NoBlanks, Split, Normalize;
    NoBlanksAppend(SplitAll(elems), Split(x));
    NoBlanksAppend(SplitAll(elems), Split(y));
    NormalizeNoBlanks([], SplitAll(elems + [x]));
    NormalizeNoBlanks([], SplitAll(elems + [y]));
  }

  lemma SplitAllSnoc(elems: seq<string>, x: string)
    ensures SplitAll(elems + [x]) == SplitAll(elems) + Split(x)
  {
    SplitAllAppend(elems, [x]);
    assert SplitAll([x]) == Split(x) + [];
  }

  lemma StrippedBlanks(name: string)
    ensures NoBlanks(Split(Stripped(name))) == NoBlanks(Split(name))
  {
    if name != "" && name[0] == '/' {
      assert name == "" + "/" + name[1..];
      SplitAppend("", name[1..]);
      NoBlanksAppend([""], Split(name[1..]));
      assert NoBlanks([""]) == [];
    }
  }

  // Dropping the leading slash makes no difference to the folder.
  lemma StripIsNoMatter(top: string, site: string, ns: string, name: string)
    ensures Folder(top, site, ns, name) == Normal([top, site, ns, name])
  {
    StrippedBlanks(name);
    SameBlanks([top, site, ns], Stripped(name), name);
    FolderIs(top, site, ns, name);
    hide *;
    assert [top, site, ns] + [name] == [top, site, ns, name];
    assert [top, site, ns] + [Stripped(name)] == [top, site, ns, Stripped(name)];
  }

  // Where the slash between namespace and name is makes none either.
  lemma SlashedNameFolder(top: string, site: string, ns: string, name: string)
    ensures Folder(top, site, ns, name) == Normal([top, site, ns + "/" + name])
  {
    StripIsNoMatter(top, site, ns, name);
    SplitAppend(ns, name);
    SplitAllSnoc([top, site], ns + "/" + name);
    SplitAllSnoc([top, site], ns);
    SplitAllSnoc([top, site] + [ns], name);
    hide SplitAll, Split, Normalize, Folder;
    assert [top, site] + [ns + "/" + name] == [top, site, ns + "/" + name];
    assert [top, site] + [ns] + [name] == [top, site, ns, name];
    assert SplitAll([top, site, ns, name]) == SplitAll([top, site, ns + "/" + name]);
  }

  // --- Which configs can live side by side ---

  datatype Key = Key(site: string, ns: string, name: string)

  function FolderOf(top: string, k: Key): seq<string> { Folder(top, k.site, k.ns, k.name) }

  // No version of one ever shares a file with a version of the other.
  predicate Apart(a: Key, b: Key) {
    && FolderOf(CONFIG_TOP, a) != FolderOf(CONFIG_TOP, b) && FolderOf(CONFIG_TOP, a) != FolderOf(REPLACEMENT_TOP, b)
    && FolderOf(REPLACEMENT_TOP, a) != FolderOf(CONFIG_TOP, b) &&
      FolderOf(REPLACEMENT_TOP, a) != FolderOf(REPLACEMENT_TOP, b)
  }

  // Its data and its replacement values do not share files.
  predicate TwoFolders(k: Key) { FolderOf(CONFIG_TOP, k) != FolderOf(REPLACEMENT_TOP, k) }

  // A key that the layout keeps as it is, once the leading slash is dropped.
  predicate Tidy(k: Key) { CleanKey(k.site, k.ns, Stripped(k.name)) }

  lemma TidyFolder(top: string, k: Key)
    requires '/' !in top && Plain(top) && Tidy(k)
    ensures FolderOf(top, k) == [top, k.site, k.ns] + Split(Stripped(k.name))
  {
    var name := Stripped(k.name);
    SplitSingle(top);
    SplitSingle(k.site);
    SplitSingle(k.ns);
    SplitAllSnoc([top, k.site, k.ns], name);
    SplitAllSingles([top, k.site, k.ns]);
    FolderIs(top, k.site, k.ns, k.name);
    hide SplitAll, Split, Stripped, Folder;
    assert [top, k.site, k.ns] + [name] == [top, k.site, k.ns, name];
    var segs := [top, k.site, k.ns] + Split(name);
    assert AllPlain(segs);
    NormalizePlain(false, [], segs);
    assert [] + segs == segs;
  }

  lemma TidyFoldersIff(top: string, a: Key, top': string, b: Key)
    requires '/' !in top && Plain(top) && '/' !in top' && Plain(top') && Tidy(a) && Tidy(b)
    ensures FolderOf(top, a) == FolderOf(top', b) <==>
      top == top' && a.site == b.site && a.ns == b.ns && Stripped(a.name) == Stripped(b.name)
  {
    TidyFolder(top, a);
    TidyFolder(top', b);
    var (x, y) := (Stripped(a.name), Stripped(b.name));
    SameLists(top, a.site, a.ns, Split(x), top', b.site, b.ns, Split(y));
    GlueSplit(x);
    GlueSplit(y);
    hide FolderOf, Tidy, Stripped, Split;
  }

  // Tidy keys are apart exactly when they differ in more than a leading slash.
  lemma TidyApartIff(a: Key, b: Key)
    requires Tidy(a) && Tidy(b)
    ensures TwoFolders(a)
    ensures Apart(a, b) <==> !(a.site == b.site && a.ns == b.ns && Stripped(a.name) == Stripped(b.name))
  {
    hide FolderOf, Tidy, Stripped;
    TidyFoldersIff(CONFIG_TOP, a, REPLACEMENT_TOP, a);
    TidyFoldersIff(CONFIG_TOP, a, CONFIG_TOP, b);
    TidyFoldersIff(CONFIG_TOP, a, REPLACEMENT_TOP, b);
    TidyFoldersIff(REPLACEMENT_TOP, a, CONFIG_TOP, b);
    TidyFoldersIff(REPLACEMENT_TOP, a, REPLACEMENT_TOP, b);
    assert CONFIG_TOP[0] != REPLACEMENT_TOP[0];
  }

  lemma SameLists(t: string, s: string, n: string, x: seq<string>, t': string, s': string, n': string, x': seq<string>)
    ensures [t, s, n] + x == [t', s', n'] + x' <==> t == t' && s == s' && n == n' && x == x'
  {
    var (a, b) := ([t, s, n] + x, [t', s', n'] + x');
    if a == b {
      assert a[0] == t && a[1] == s && a[2] == n && a[3..] == x;
      assert b[0] == t' && b[1] == s' && b[2] == n' && b[3..] == x';
    }
  }

  predicate IsConfigTop(top: string) { top == CONFIG_TOP || top == REPLACEMENT_TOP }

  // Tidy keys share a file exactly when they agree but for a leading slash, in
  // version and in kind.
  lemma TidyPathIff(top: string, a: Key, v: nat, top': string, b: Key, v': nat)
    requires IsConfigTop(top) && IsConfigTop(top') && Tidy(a) && Tidy(b)
    ensures (FilePath(top, a.site, a.ns, a.name, Decimal.Print(v)) ==
             FilePath(top', b.site, b.ns, b.name, Decimal.Print(v')))
       <==> top == top' && a.site == b.site && a.ns == b.ns && Stripped(a.name) == Stripped(b.name) && v == v'
  {
    hide FilePath, Stripped, Tidy, Folder, Decimal.Print;
    VersionPathIff(top, a.site, a.ns, a.name, v, top', b.site, b.ns, b.name, v');
    TidyFoldersIff(top, a, top', b);
    assert FolderOf(top, a) == Folder(top, a.site, a.ns, a.name) &&
      FolderOf(top', b) == Folder(top', b.site, b.ns, b.name);
    hide *;
  }

  // For instance, a slash may stand in the namespace or in the name.
  lemma SlashInNamespaceCollides()
    ensures FilePath(CONFIG_TOP, "s", "a/b", "c", Decimal.Print(1)) ==
      FilePath(CONFIG_TOP, "s", "a", "b/c", Decimal.Print(1))
  {
    SlashedNameFolder(CONFIG_TOP, "s", "a/b", "c");
    SlashedNameFolder(CONFIG_TOP, "s", "a", "b/c");
    assert "a/b" + "/" + "c" == "a" + "/" + "b/c";
    VersionPathIff(CONFIG_TOP, "s", "a/b", "c", 1, CONFIG_TOP, "s", "a", "b/c", 1);
    hide Folder, FilePath;
  }
}
