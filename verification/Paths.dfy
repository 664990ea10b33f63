// Slash-separated path names: the rules of Go's path.Clean and path.Join, and
// the conditions under which joining loses no information.
module Paths {
  import opened Decimal

  function Split(p: string): (segs: seq<string>)
    ensures segs != []
  {
    if p == [] then [""]
    else
      var rest := Split(p[1..]);
      if p[0] == '/' then [""] + rest else [[p[0]] + rest[0]] + rest[1..]
  }

  function Glue(segs: seq<string>): string {
    if segs == [] then ""
    else if |segs| == 1 then segs[0]
    else segs[0] + "/" + Glue(segs[1..])
  }

  // A segment that path.Clean leaves alone.
  predicate Plain(seg: string) { seg != "" && seg != "." && seg != ".." }

  predicate AllPlain(segs: seq<string>) { forall i :: 0 <= i < |segs| ==> Plain(segs[i]) }

  // Removes empty and "." segments and lets ".." cancel the segment before it.
  function Normalize(rooted: bool, done: seq<string>, todo: seq<string>): seq<string>
    decreases |todo|
  {
    if todo == [] then done
    else if todo[0] == "" || todo[0] == "." then Normalize(rooted, done, todo[1..])
    else if todo[0] == ".." then
      if done != [] && done[|done|-1] != ".." then Normalize(rooted, done[..|done|-1], todo[1..])
      else if rooted then Normalize(rooted, done, todo[1..])
      else Normalize(rooted, done + [".."], todo[1..])
    else Normalize(rooted, done + [todo[0]], todo[1..])
  }

  function Clean(p: string): string {
    if p == "" then "."
    else
      var rooted := p[0] == '/';
      var body := Glue(Normalize(rooted, [], Split(p)));
      if rooted then "/" + body else if body == "" then "." else body
  }

  function NonEmpty(elems: seq<string>): seq<string> {
    if elems == [] then []
    else if elems[0] == "" then NonEmpty(elems[1..])
    else [elems[0]] + NonEmpty(elems[1..])
  }

  function Join(elems: seq<string>): string {
    if NonEmpty(elems) == [] then "" else Clean(Glue(NonEmpty(elems)))
  }

  // --- Cleaning a path made of plain segments changes nothing ---

  lemma {:induction false} GlueSplit(p: string)
    ensures Glue(Split(p)) == p
  {
    if p != [] {
      GlueSplit(p[1..]);
      var rest := Split(p[1..]);
      if p[0] == '/' {
        assert ([""] + rest)[1..] == rest;
        assert Glue(Split(p)) == "" + "/" + p[1..];
      } else {
        var segs := Split(p);
        assert segs[1..] == rest[1..];
        if |rest| > 1 {
          assert Glue(segs) == ([p[0]] + rest[0]) + "/" + Glue(rest[1..]);
        }
      }
    }
  }

  lemma {:induction false} NormalizePlain(rooted: bool, done: seq<string>, todo: seq<string>)
    requires AllPlain(todo)
    ensures Normalize(rooted, done, todo) == done + todo
    decreases |todo|
  {
    if todo == [] {
    } else {
      assert Plain(todo[0]);
      assert AllPlain(todo[1..]) by {
        forall i | 0 <= i < |todo[1..]| ensures Plain(todo[1..][i]) { assert todo[1..][i] == todo[i + 1]; }
      }
      NormalizePlain(rooted, done + [todo[0]], todo[1..]);
      assert done + [todo[0]] + todo[1..] == done + todo;
    }
  }

  lemma CleanPlain(p: string)
    requires AllPlain(Split(p))
    ensures p != "" && Clean(p) == p
  {
    assert Plain(Split(p)[0]);
    assert p != "" && p[0] != '/';
    NormalizePlain(false, [], Split(p));
    assert [] + Split(p) == Split(p);
    GlueSplit(p);
  }

  // --- A joined name determines its first and last parts ---

  lemma {:induction false} FirstSegmentUnique(a: string, x: string, b: string, y: string)
    requires '/' !in a && '/' !in b
    requires a + "/" + x == b + "/" + y
    ensures a == b && x == y
    decreases |a|
  {
    var l, r := a + "/" + x, b + "/" + y;
    assert l[0] == (if a == [] then '/' else a[0]);
    assert r[0] == (if b == [] then '/' else b[0]);
    if a == [] {
      assert b == [];
      assert x == l[1..] && y == r[1..];
    } else {
      assert b != [];
      assert l[1..] == a[1..] + "/" + x && r[1..] == b[1..] + "/" + y;
      FirstSegmentUnique(a[1..], x, b[1..], y);
    }
  }

  lemma {:induction false} LastSegmentUnique(x: string, a: string, y: string, b: string)
    requires '/' !in a && '/' !in b
    requires x + "/" + a == y + "/" + b
    ensures x == y && a == b
    decreases |a|
  {
    var l, r := x + "/" + a, y + "/" + b;
    assert l[|l|-1] == (if a == [] then '/' else a[|a|-1]);
    assert r[|r|-1] == (if b == [] then '/' else b[|b|-1]);
    if a == [] {
      assert b == [];
      assert x == l[..|l|-1] && y == r[..|r|-1];
    } else {
      assert b != [];
      assert l[..|l|-1] == x + "/" + a[..|a|-1] && r[..|r|-1] == y + "/" + b[..|b|-1];
      LastSegmentUnique(x, a[..|a|-1], y, b[..|b|-1]);
    }
  }

  // Three parts joined by slashes, the middle one free to contain slashes.
  function Join3(first: string, middle: string, last: string): string {
    first + "/" + middle + "/" + last
  }

  // --- Where the file store keeps one version of one config ---

  const CONFIG_TOP := "configv1"
  const REPLACEMENT_TOP := "replacementv1"

  // StoreConfig and VisitConfig drop one leading slash of the name.
  function Stripped(name: string): string {
    if name != "" && name[0] == '/' then name[1..] else name
  }

  function FilePath(top: string, site: string, ns: string, name: string, version: string): string {
    Join([top, site, ns, Stripped(name), version])
  }

  // A site, namespace and name that the path layout keeps as they are: the site and
  // the namespace are single segments, the name may have several, and none is
  // empty, "." or "..".
  predicate CleanKey(site: string, ns: string, name: string) {
    && '/' !in site && '/' !in ns
    && Plain(site) && Plain(ns) && AllPlain(Split(name))
  }

  lemma {:induction false} SplitAppend(a: string, b: string)
    ensures Split(a + "/" + b) == Split(a) + Split(b)
    decreases |a|
  {
    var whole := a + "/" + b;
    if a == [] {
      assert whole[1..] == b;
    } else {
      assert whole[0] == a[0] && whole[1..] == a[1..] + "/" + b;
      SplitAppend(a[1..], b);
    }
  }

  lemma {:induction false} SplitSingle(a: string)
    requires '/' !in a
    ensures Split(a) == [a]
    decreases |a|
  {
    if a != [] {
      SplitSingle(a[1..]);
      assert [a[0]] + a[1..] == a;
    }
  }

  lemma DecimalIsPlain(v: nat)
    ensures '/' !in Print(v) && Plain(Print(v))
  {
    PrintThenValue(v);
    assert IsDigit(Print(v)[0]) && !IsDigit('.');
  }

  lemma {:induction false} AllNonEmpty(elems: seq<string>)
    requires forall i :: 0 <= i < |elems| ==> elems[i] != ""
    ensures NonEmpty(elems) == elems
    decreases |elems|
  {
    if elems != [] {
      AllNonEmpty(elems[1..]);
    }
  }
}
