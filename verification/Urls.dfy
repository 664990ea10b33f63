// How the request for a file travels: the agent puts site and namespace into the
// URL as they are and only escapes the name; the HTTP client and server cut the
// URL apart, decode it and clean its path before the provider sees it.
module Urls {
  import opened Wrappers
  import opened Paths
  import opened Decimal
  import Folders

  // --- Percent encoding ---

  predicate IsHex(c: char) { '0' <= c <= '9' || 'a' <= c <= 'f' || 'A' <= c <= 'F' }

  function HexValue(c: char): (n: nat)
    requires IsHex(c)
    ensures n < 16
  {
    if c <= '9' then c as int - '0' as int
    else if c <= 'F' then c as int - 'A' as int + 10
    else c as int - 'a' as int + 10
  }

  function HexDigit(n: nat): (c: char)
    requires n < 16
    ensures IsHex(c) && HexValue(c) == n
  {
    if n < 10 then '0' + n as char else 'A' + (n - 10) as char
  }

  // In a query a plus sign stands for a blank.
  function Unescape(s: string, plus: bool): Option<string>
    decreases |s|
  {
    if s == "" then Some("")
    else if s[0] == '%' then
      if |s| < 3 || !IsHex(s[1]) || !IsHex(s[2]) then None
      else Consed((16 * HexValue(s[1]) + HexValue(s[2])) as char, Unescape(s[3..], plus))
    else Consed(if plus && s[0] == '+' then ' ' else s[0], Unescape(s[1..], plus))
  }

  function Consed(c: char, rest: Option<string>): Option<string> {
    if rest.None? then None else Some([c] + rest.value)
  }

  predicate Unreserved(c: char) {
    '0' <= c <= '9' || 'a' <= c <= 'z' || 'A' <= c <= 'Z' || c == '-' || c == '_' || c == '.' || c == '~'
  }

  // Strings are sequences of bytes; a greater character does not occur.
  function Code(c: char): string {
    if Unreserved(c) then [c]
    else if c == ' ' then "+"
    else if c as int < 256 then ['%', HexDigit(c as int / 16), HexDigit(c as int % 16)]
    else [c]
  }

  function EscapeQuery(s: string): string { if s == "" then "" else Code(s[0]) + EscapeQuery(s[1..]) }

  // --- Cutting ---

  function Before(s: string, c: char): string {
    if s == "" || s[0] == c then "" else [s[0]] + Before(s[1..], c)
  }

  function After(s: string, c: char): string { if s == "" then "" else if s[0] == c then s[1..] else After(s[1..], c) }

  predicate IsSeparator(c: char) { c == '&' || c == ';' }

  function Chunks(query: string): (chunks: seq<string>)
    ensures chunks != []
  {
    if query == "" then [""]
    else
      var rest := Chunks(query[1..]);
      if IsSeparator(query[0]) then [""] + rest else [[query[0]] + rest[0]] + rest[1..]
  }

  predicate Sets(chunk: string, key: string) {
    chunk != "" && Unescape(Before(chunk, '='), true) == Some(key) && Unescape(After(chunk, '='), true).Some?
  }

  // The first value of the key, or nothing.
  function FirstValue(chunks: seq<string>, key: string): string {
    if chunks == [] then ""
    else if Sets(chunks[0], key) then Unescape(After(chunks[0], '='), true).value
    else FirstValue(chunks[1..], key)
  }

  function Param(query: string, key: string): string { FirstValue(Chunks(query), key) }

  // --- The request ---

  const ROUTE := ["api", "v1", "provider", "content", "file"]
  const PREFIX := "/api/v1/provider/content/file/"

  function Query(version: string, name: string): string { "version=" + version + "&name=" + EscapeQuery(name) }

  function FileURL(site: string, ns: string, version: string, name: string): string {
    PREFIX + site + "/" + ns + "?" + Query(version, name)
  }

  predicate IsControl(c: char) { c < ' ' || c as int == 127 }

  predicate HasControl(s: string) { exists c :: c in s && IsControl(c) }

  // What the provider is asked for; or the request reaches another route or
  // none; or client or server refuse it as malformed.
  datatype Reading = Asks(site: string, ns: string, version: string, name: string) | Elsewhere | Malformed

  function Routed(segs: seq<string>, query: string): Reading {
    if |segs| == 7 && segs[..5] == ROUTE then Asks(segs[5], segs[6], Param(query, "version"), Param(query, "name"))
    else Elsewhere
  }

  function Reads(url: string): Reading {
    var shown := Before(url, '#');
    var path, query := Unescape(Before(shown, '?'), false), After(shown, '?');
    if HasControl(shown) || Unescape(After(url, '#'), false).None? || path.None? || ' ' in query then Malformed
    else Routed(Normalize(true, [], Split(path.value)), query)
  }

  // --- Cutting and decoding parts ---

  lemma {:induction false} CutAt(a: string, c: char, b: string)
    requires c !in a
    ensures Before(a + [c] + b, c) == a && After(a + [c] + b, c) == b
    decreases |a|
  {
    if a == "" {
      assert "" + [c] + b == [c] + b;
    } else {
      assert (a + [c] + b)[1..] == a[1..] + [c] + b;
      CutAt(a[1..], c, b);
    }
  }

  lemma {:induction false} NothingToCut(a: string, c: char)
    requires c !in a
    ensures Before(a, c) == a && After(a, c) == ""
    decreases |a|
  {
    if a != "" { NothingToCut(a[1..], c); }
  }

  lemma {:induction false} CutLater(a: string, c: char, b: string)
    requires c !in a
    ensures Before(a + b, c) == a + Before(b, c) && After(a + b, c) == After(b, c)
    decreases |a|
  {
    if a == "" {
      assert a + b == b;
    } else {
      assert (a + b)[1..] == a[1..] + b;
      CutLater(a[1..], c, b);
    }
  }

  lemma {:induction false} UnescapePlain(s: string, plus: bool)
    requires '%' !in s && (plus ==> '+' !in s)
    ensures Unescape(s, plus) == Some(s)
    decreases |s|
  {
    if s != "" {
      assert s[0] in s && [s[0]] + s[1..] == s;
      UnescapePlain(s[1..], plus);
    }
  }

  function Both(a: Option<string>, b: Option<string>): Option<string> {
    if a.None? || b.None? then None else Some(a.value + b.value)
  }

  // A text is decoded piece by piece when a piece does not begin with a hex digit.
  lemma {:induction false} UnescapeAppend(a: string, b: string, plus: bool)
    requires '%' in a ==> b != "" && !IsHex(b[0])
    ensures Unescape(a + b, plus) == Both(Unescape(a, plus), Unescape(b, plus))
    decreases |a|
  {
    if a == "" {
      assert a + b == b;
      if Unescape(b, plus).Some? { assert "" + Unescape(b, plus).value == Unescape(b, plus).value; }
    } else if a[0] != '%' {
      assert (a + b)[1..] == a[1..] + b && (a + b)[0] == a[0];
      UnescapeAppend(a[1..], b, plus);
      BothConsed(if plus && a[0] == '+' then ' ' else a[0], Unescape(a[1..], plus), Unescape(b, plus));
    } else if |a| < 3 || !IsHex(a[1]) || !IsHex(a[2]) {
      assert a[0] in a && (a + b)[|a|] == b[0];
      assert forall i :: 0 <= i < |a| ==> (a + b)[i] == a[i];
    } else {
      assert (a + b)[3..] == a[3..] + b && (a + b)[..3] == a[..3];
      assert (a + b)[1] == a[1] && (a + b)[2] == a[2];
      UnescapeAppend(a[3..], b, plus);
      BothConsed((16 * HexValue(a[1]) + HexValue(a[2])) as char, Unescape(a[3..], plus), Unescape(b, plus));
    }
  }

  lemma BothConsed(c: char, a: Option<string>, b: Option<string>)
    ensures Both(Consed(c, a), b) == Consed(c, Both(a, b))
  {
    if a.Some? && b.Some? { assert [c] + a.value + b.value == [c] + (a.value + b.value); }
  }

  // No mark of the syntax.
  predicate Quiet(c: char) {
    c != '#' && c != '?' && !IsSeparator(c) && c != '=' && c != ' ' && c != '/' && !IsControl(c)
  }

  predicate AllQuiet(s: string) { forall c :: c in s ==> Quiet(c) }

  predicate OneChunk(s: string) { forall c :: c in s ==> !IsSeparator(c) }

  lemma CodeSurvives(c: char, rest: string)
    ensures Unescape(Code(c) + rest, true) == Consed(c, Unescape(rest, true)) && AllQuiet(Code(c))
  {
    var n, s := c as int, Code(c) + rest;
    if !Unreserved(c) && c != ' ' && n < 256 {
      assert s[0] == '%' && s[1] == HexDigit(n / 16) && s[2] == HexDigit(n % 16) && s[3..] == rest;
      assert (16 * HexValue(s[1]) + HexValue(s[2])) == n;
      assert forall d :: IsHex(d) ==> Quiet(d);
    } else {
      assert s[1..] == rest;
    }
  }

  // The name arrives as it was.
  lemma {:induction false} NameSurvives(s: string)
    ensures Unescape(EscapeQuery(s), true) == Some(s) && AllQuiet(EscapeQuery(s))
    decreases |s|
  {
    if s != "" {
      NameSurvives(s[1..]);
      CodeSurvives(s[0], EscapeQuery(s[1..]));
      assert [s[0]] + s[1..] == s;
    }
  }

  lemma {:induction false} ChunksAppend(a: string, c: char, b: string)
    requires IsSeparator(c)
    ensures Chunks(a + [c] + b) == Chunks(a) + Chunks(b)
    decreases |a|
  {
    var whole := a + [c] + b;
    if a == "" {
      assert whole[1..] == b;
    } else {
      assert whole[0] == a[0] && whole[1..] == a[1..] + [c] + b;
      ChunksAppend(a[1..], c, b);
    }
  }

  lemma {:induction false} NoSeparator(a: string)
    requires OneChunk(a)
    ensures Chunks(a) == [a]
    decreases |a|
  {
    if a != "" {
      NoSeparator(a[1..]);
      assert [a[0]] + a[1..] == a;
    }
  }

  // --- The query that the agent writes ---

  predicate IsVersion(version: string) { version != "" && AllDigits(version) }

  lemma VersionIsQuiet(version: string)
    requires IsVersion(version)
    ensures AllQuiet(version) && Unescape(version, true) == Some(version)
  {
    UnescapePlain(version, true);
  }

  // A chunk is a key and its value.
  lemma SetsIff(key: string, value: string, wanted: string)
    requires '=' !in key && '%' !in key && '+' !in key && Unescape(value, true).Some?
    ensures Sets(key + "=" + value, wanted) <==> wanted == key
    ensures Sets(key + "=" + value, wanted) ==> Unescape(After(key + "=" + value, '='), true) == Unescape(value, true)
  {
    CutAt(key, '=', value);
    UnescapePlain(key, true);
  }

  lemma NameChunk(name: string, wanted: string)
    ensures var chunk := "name=" + EscapeQuery(name);
      && Chunks(chunk) == [chunk] && FirstValue([chunk], wanted) == if wanted == "name" then name else ""
  {
    NameSurvives(name);
    var chunk := "name=" + EscapeQuery(name);
    assert chunk == "name" + "=" + EscapeQuery(name);
    SetsIff("name", EscapeQuery(name), wanted);
    hide EscapeQuery, Unescape, Sets;
    NoSeparator(chunk);
    assert [chunk][1..] == [];
  }

  lemma VersionChunk(key: string, version: string)
    requires IsVersion(version) && OneChunk(key)
    ensures Chunks(key + "=" + version) == [key + "=" + version]
  {
    VersionIsQuiet(version);
    hide IsVersion;
    NoSeparator(key + "=" + version);
  }

  // After any key in its place, the version is found under that key, the name
  // under its own.
  lemma Parameters(key: string, version: string, name: string, wanted: string)
    requires IsVersion(version) && '=' !in key && '%' !in key && '+' !in key && key != "name"
    requires OneChunk(key)
    ensures Param(key + "=" + version + "&name=" + EscapeQuery(name), wanted) ==
      if wanted == key then version else if wanted == "name" then name else ""
  {
    var a, b := key + "=" + version, "name=" + EscapeQuery(name);
    assert key + "=" + version + "&name=" + EscapeQuery(name) == a + ['&'] + b;
    ChunksAppend(a, '&', b);
    VersionChunk(key, version);
    NameChunk(name, wanted);
    VersionIsQuiet(version);
    SetsIff(key, version, wanted);
    assert ([a] + [b])[1..] == [b];
    hide EscapeQuery, Chunks, Sets;
  }

  lemma QueryIsQuiet(version: string, name: string)
    requires IsVersion(version)
    ensures '#' !in Query(version, name) && ' ' !in Query(version, name) && !HasControl(Query(version, name))
  {
    VersionIsQuiet(version);
    NameSurvives(name);
    hide EscapeQuery, IsVersion;
  }

  // --- What the provider reads ---

  // No character that ends the path of a URL or is refused in it.
  predicate StaysInPath(s: string) { '#' !in s && '?' !in s && !HasControl(s) }

  function Place(site: string, ns: string): string { PREFIX + site + "/" + ns }

  lemma PrefixIsPlain()
    ensures forall c :: c in PREFIX ==> '/' <= c <= '9' || 'a' <= c <= 'z'
  {
  }

  lemma PlaceStays(site: string, ns: string)
    requires StaysInPath(site) && StaysInPath(ns)
    ensures StaysInPath(Place(site, ns))
  {
    PrefixIsPlain();
    StaysTogether(PREFIX, site, ns);
  }

  lemma StaysTogether(prefix: string, site: string, ns: string)
    requires forall c :: c in prefix ==> '/' <= c <= '9' || 'a' <= c <= 'z'
    requires StaysInPath(site) && StaysInPath(ns)
    ensures StaysInPath(prefix + site + "/" + ns)
  {
  }

  // Site and namespace are decoded apart.
  lemma PlaceDecodes(site: string, ns: string)
    ensures var (p, q) := (Unescape(site, false), Unescape(ns, false));
      Unescape(Place(site, ns), false) == if p.None? || q.None? then None else Some(Place(p.value, q.value))
  {
    PrefixIsPlain();
    PartsDecode(PREFIX, site, ns);
  }

  lemma PartsDecode(prefix: string, site: string, ns: string)
    requires '%' !in prefix
    ensures var (p, q) := (Unescape(site, false), Unescape(ns, false));
      Unescape(prefix + site + "/" + ns, false) == if p.None? || q.None? then None
        else Some(prefix + p.value + "/" + q.value)
  {
    hide Unescape;
    UnescapePlain(prefix, false);
    UnescapePlain("/", false);
    UnescapeAppend(site, "/" + ns, false) by { assert !IsHex('/'); }
    UnescapeAppend("/", ns, false);
    UnescapeAppend(prefix, site + ("/" + ns), false);
    assert prefix + site + "/" + ns == prefix + (site + ("/" + ns));
    Regroup(prefix, Unescape(site, false), "/", Unescape(ns, false));
  }

  lemma Regroup(a: string, p: Option<string>, b: string, q: Option<string>)
    ensures Both(Some(a), Both(p, Both(Some(b), q))) ==
      if p.None? || q.None? then None else Some(a + p.value + b + q.value)
  {
    if p.Some? && q.Some? { assert a + p.value + b + q.value == a + (p.value + (b + q.value)); }
  }

  // One more segment in front.
  lemma SegmentFirst(seg: string, p: string, segs: seq<string>)
    requires '/' !in seg && Split(p) == segs
    ensures Split(seg + "/" + p) == [seg] + segs
  {
    SplitSingle(seg);
    SplitAppend(seg, p);
  }

  function Address(x: string): string {
    "api" + "/" + ("v1" + "/" + ("provider" + "/" + ("content" + "/" + ("file" + "/" + x))))
  }

  lemma AddressIs(x: string)
    ensures PREFIX + x == "" + "/" + Address(x)
  {
  }

  lemma AddressSegments(x: string)
    ensures Split(PREFIX + x) == [""] + (ROUTE + Split(x))
  {
    AddressIs(x);
    hide Split;
    SegmentFirst("file", x, Split(x));
    SegmentFirst("content", "file" + "/" + x, ["file"] + Split(x));
    SegmentFirst("provider", "content" + "/" + ("file" + "/" + x), ["content"] + (["file"] + Split(x)));
    RouteIs(Split(x));
    RestOfAddress(x, ["provider"] + (["content"] + (["file"] + Split(x))));
  }

  lemma RestOfAddress(x: string, segs: seq<string>)
    requires Split("provider" + "/" + ("content" + "/" + ("file" + "/" + x))) == segs
    ensures Split("" + "/" + Address(x)) == [""] + (["api"] + (["v1"] + segs))
  {
    hide Split;
    var p := "provider" + "/" + ("content" + "/" + ("file" + "/" + x));
    SegmentFirst("v1", p, segs);
    SegmentFirst("api", "v1" + "/" + p, ["v1"] + segs);
    SegmentFirst("", Address(x), ["api"] + (["v1"] + segs));
  }

  lemma RouteIs(segs: seq<string>)
    ensures ["api"] + (["v1"] + (["provider"] + (["content"] + (["file"] + segs)))) == ROUTE + segs
  {
  }

  // The segments of the request's path once they are cleaned.
  function Segments(site: string, ns: string): seq<string> { Normalize(true, ROUTE, Split(site) + Split(ns)) }

  lemma PathSegments(site: string, ns: string)
    ensures Normalize(true, [], Split(PREFIX + site + "/" + ns)) == Segments(site, ns)
  {
    assert PREFIX + site + "/" + ns == PREFIX + (site + "/" + ns);
    AddressSegments(site + "/" + ns);
    SplitAppend(site, ns);
    var rest := Split(site) + Split(ns);
    assert ([""] + (ROUTE + rest))[1..] == ROUTE + rest;
    assert AllPlain(ROUTE);
    hide Split;
    NormalizeFront(ROUTE, rest);
  }

  lemma NormalizeFront(front: seq<string>, rest: seq<string>)
    requires AllPlain(front)
    ensures Normalize(true, [], front + rest) == Normalize(true, front, rest)
  {
    PlainFirst([], front, rest);
    assert [] + front == front;
  }

  lemma {:induction false} PlainFirst(done: seq<string>, front: seq<string>, rest: seq<string>)
    requires AllPlain(front)
    ensures Normalize(true, done, front + rest) == Normalize(true, done + front, rest)
    decreases |front|
  {
    if front == [] {
      assert front + rest == rest && done + front == done;
    } else {
      assert Plain(front[0]) && (front + rest)[1..] == front[1..] + rest;
      assert forall i :: 0 <= i < |front[1..]| ==> front[1..][i] == front[i + 1];
      PlainFirst(done + [front[0]], front[1..], rest);
      assert done + [front[0]] + front[1..] == done + front;
    }
  }

  // Without marks that end the path: the provider is asked for the file of the
  // two segments that are left of site and namespace once they are decoded and
  // cleaned, if it is two; a broken escape is refused.
  lemma DecodedReads(site: string, ns: string, version: string, name: string)
    requires StaysInPath(site) && StaysInPath(ns) && IsVersion(version)
    ensures var (p, q) := (Unescape(site, false), Unescape(ns, false));
      Reads(FileURL(site, ns, version, name)) ==
        if p.None? || q.None? then Malformed
        else
          var segs := Segments(p.value, q.value);
          if |segs| == 7 && segs[..5] == ROUTE then Asks(segs[5], segs[6], version, name) else Elsewhere
  {
    hide PREFIX, ROUTE, EscapeQuery, Unescape, HasControl, Split, Normalize, Param, IsVersion, IsControl, Reads,
      Segments;
    var (p, q) := (Unescape(site, false), Unescape(ns, false));
    var (place, query) := (Place(site, ns), Query(version, name));
    PlaceStays(site, ns);
    QueryIsQuiet(version, name);
    PlaceDecodes(site, ns);
    QueryParameters(version, name);
    CutReads(place, query);
    assert FileURL(site, ns, version, name) == place + ['?'] + query;
    if p.Some? && q.Some? { PathSegments(p.value, q.value); }
  }

  lemma QueryParameters(version: string, name: string)
    requires IsVersion(version)
    ensures Param(Query(version, name), "version") == version && Param(Query(version, name), "name") == name
  {
    Parameters("version", version, name, "version");
    Parameters("version", version, name, "name");
    assert "version" + "=" + version + "&name=" + EscapeQuery(name) == Query(version, name);
    hide Param, EscapeQuery, IsVersion;
  }

  // Without marks in its parts, a URL is read as path and query.
  lemma CutReads(place: string, query: string)
    requires StaysInPath(place) && '#' !in query && ' ' !in query && !HasControl(query)
    ensures var path := Unescape(place, false);
      Reads(place + ['?'] + query) == if path.None? then Malformed
        else Routed(Normalize(true, [], Split(path.value)), query)
  {
    var url := place + ['?'] + query;
    NothingToCut(url, '#');
    CutAt(place, '?', query);
    ControlIn(place, query);
    UnescapePlain("", false);
    hide Unescape, HasControl, Split, Normalize, Routed, Before, After;
  }

  lemma ControlIn(place: string, query: string)
    requires !HasControl(place) && !HasControl(query)
    ensures !HasControl(place + ['?'] + query)
  {
  }

  // --- Which names arrive as they are ---

  // One segment of the path as it is.
  predicate PlainPart(s: string) { Plain(s) && '/' !in s && '%' !in s && StaysInPath(s) }

  lemma TwoSegments(site: string, ns: string)
    requires Plain(site) && Plain(ns) && '/' !in site && '/' !in ns
    ensures Segments(site, ns) == ROUTE + [site, ns]
  {
    SplitSingle(site);
    SplitSingle(ns);
    assert [site] + [ns] == [site, ns];
    NormalizePlain(true, ROUTE, [site, ns]);
  }

  // Plain names are read as they are, whatever the name of the file.
  lemma PlainReads(site: string, ns: string, version: string, name: string)
    requires PlainPart(site) && PlainPart(ns) && IsVersion(version)
    ensures Reads(FileURL(site, ns, version, name)) == Asks(site, ns, version, name)
  {
    DecodedReads(site, ns, version, name);
    UnescapePlain(site, false);
    UnescapePlain(ns, false);
    TwoSegments(site, ns);
    assert (ROUTE + [site, ns])[..5] == ROUTE;
    hide Reads, FileURL, Segments;
  }

  // --- Slashes and dots ---

  lemma {:induction false} ClimbStays(done: seq<string>, todo: seq<string>)
    requires done != [] && done[0] == ".."
    ensures Normalize(false, done, todo) != [] && Normalize(false, done, todo)[0] == ".."
    decreases |todo|
  {
    if todo != [] {
      var rest := todo[1..];
      if todo[0] == "" || todo[0] == "." { ClimbStays(done, rest); }
      else if todo[0] == ".." && done[|done|-1] != ".." { ClimbStays(done[..|done|-1], rest); }
      else { ClimbStays(done + [todo[0]], rest); }
    }
  }

  // Segments that do not climb out are cleaned alike under any base.
  lemma {:induction false} CleanedUnder(rooted: bool, base: seq<string>, done: seq<string>, todo: seq<string>)
    requires ".." !in done && ".." !in Normalize(false, done, todo)
    ensures Normalize(rooted, base + done, todo) == base + Normalize(false, done, todo)
    decreases |todo|
  {
    if todo != [] {
      var rest := todo[1..];
      if todo[0] == "" || todo[0] == "." {
        CleanedUnder(rooted, base, done, rest);
      } else if todo[0] != ".." {
        CleanedUnder(rooted, base, done + [todo[0]], rest);
        assert base + done + [todo[0]] == base + (done + [todo[0]]);
      } else if done != [] {
        CleanedUnder(rooted, base, done[..|done|-1], rest);
        assert (base + done)[..|base + done|-1] == base + done[..|done|-1];
        assert (base + done)[|base + done|-1] == done[|done|-1];
      } else {
        ClimbStays(done + [".."], rest);
        assert false;
      }
    }
  }

  // What site and namespace are together once they are cleaned.
  function Left(site: string, ns: string): seq<string> { Normalize(false, [], Split(site) + Split(ns)) }

  // With slashes and dots in site and namespace that do not climb out of them,
  // the file is found exactly if two segments are left; it is the right one then.
  lemma SlashesRead(site: string, ns: string, version: string, name: string)
    requires StaysInPath(site) && StaysInPath(ns) && '%' !in site && '%' !in ns && IsVersion(version)
    requires ".." !in Left(site, ns)
    ensures var left := Left(site, ns);
      Reads(FileURL(site, ns, version, name)) == if |left| == 2 then Asks(left[0], left[1], version, name)
        else Elsewhere
  {
    DecodedReads(site, ns, version, name);
    UnescapePlain(site, false);
    UnescapePlain(ns, false);
    CleanedUnder(true, ROUTE, [], Split(site) + Split(ns));
    assert ROUTE + [] == ROUTE;
    assert (ROUTE + Left(site, ns))[..5] == ROUTE;
    hide Reads, FileURL, Normalize, Split;
  }

  lemma SlashesSamePath(top: string, site: string, ns: string, version: string, name: string)
    requires Folders.IsTop(top) && '/' !in top && Plain(top) && '/' !in version && Plain(version)
    requires ".." !in Left(site, ns) && |Left(site, ns)| == 2
    ensures FilePath(top, Left(site, ns)[0], Left(site, ns)[1], name, version) == FilePath(top, site, ns, name, version)
  {
    var left := Left(site, ns);
    LeftIsPlain(site, ns);
    LeftAgain(left[0], left[1]);
    assert [left[0], left[1]] == left;
    SameFolder(top, site, ns, Stripped(name));
    SameFolder(top, left[0], left[1], Stripped(name));
    Folders.PathIff(top, left[0], left[1], name, version, top, site, ns, name, version);
    Folders.FolderIs(top, site, ns, name);
    Folders.FolderIs(top, left[0], left[1], name);
    hide *;
  }

  lemma LeftAgain(site: string, ns: string)
    requires Plain(site) && Plain(ns) && '/' !in site && '/' !in ns
    ensures Left(site, ns) == [site, ns]
  {
    SplitSingle(site);
    SplitSingle(ns);
    assert [site] + [ns] == [site, ns];
    NormalizePlain(false, [], [site, ns]);
  }

  lemma LeftIsPlain(site: string, ns: string)
    requires ".." !in Left(site, ns)
    ensures AllPlain(Left(site, ns)) && Folders.SlashFree(Left(site, ns))
  {
    Folders.SplitSlashFree(site);
    Folders.SplitSlashFree(ns);
    Folders.NormalizeSolid([], Split(site) + Split(ns));
    assert forall i :: 0 <= i < |Left(site, ns)| ==> Left(site, ns)[i] in Left(site, ns);
    hide Normalize, Split;
  }

  // The folder depends on site and namespace only through what is left of them.
  lemma SameFolder(top: string, site: string, ns: string, name: string)
    requires '/' !in top && Plain(top) && ".." !in Left(site, ns)
    ensures Folders.Normal([top, site, ns, name]) == Normalize(false, [top] + Left(site, ns), Split(name))
  {
    var middle := Split(site) + Split(ns);
    CleanedUnder(false, [top], [], middle);
    hide Normalize, Split, Folders.SplitAll;
    FourParts(top, site, ns, name);
    Folders.NormalizeAppend([], [top] + middle, Split(name));
    Folders.NormalizeAppend([], [top], middle);
    assert AllPlain([top]);
    NormalizePlain(false, [], [top]);
    assert [] + [top] == [top] && [top] + [] == [top];
  }

  lemma FourParts(top: string, site: string, ns: string, name: string)
    requires '/' !in top
    ensures Folders.SplitAll([top, site, ns, name]) == [top] + (Split(site) + Split(ns)) + Split(name)
  {
    hide Split, Folders.SplitAll;
    Folders.SplitAllSnoc([top, site, ns], name);
    Folders.SplitAllSnoc([top, site], ns);
    Folders.SplitAllSnoc([top], site);
    Folders.SplitAllSingles([top]);
    assert [top, site, ns] + [name] == [top, site, ns, name] && [top, site] + [ns] == [top, site, ns] &&
      [top] + [site] == [top, site];
  }

  // --- Marks that end the path ---

  // With a '#' in the namespace, neither version nor name is sent: all files of
  // such a namespace get one answer.
  lemma HashIgnoresFile(site: string, ns: string, version: string, name: string, version': string, name': string)
    requires '#' in site + "/" + ns && IsVersion(version) && IsVersion(version')
    ensures Reads(FileURL(site, ns, version, name)) == Reads(FileURL(site, ns, version', name'))
  {
    hide PREFIX, Query, IsVersion;
    var place := Place(site, ns);
    assert '#' in place by { InPlace(PREFIX, site, ns); }
    HashReads(place, version, name);
    HashReads(place, version', name');
    assert FileURL(site, ns, version, name) == place + ['?'] + Query(version, name);
    assert FileURL(site, ns, version', name') == place + ['?'] + Query(version', name');
  }

  lemma InPlace(prefix: string, site: string, ns: string)
    requires '#' in site + "/" + ns
    ensures '#' in prefix + site + "/" + ns
  {
    assert prefix + site + "/" + ns == prefix + (site + "/" + ns);
  }

  // If no '?' comes before it, the provider is not even asked for a name.
  lemma HashAsksNothing(site: string, ns: string, version: string, name: string)
    requires '#' in site + "/" + ns && '?' !in Before(site + "/" + ns, '#') && IsVersion(version)
    ensures var r := Reads(FileURL(site, ns, version, name)); r.Asks? ==> r.version == "" && r.name == ""
  {
    hide PREFIX, Query, IsVersion, Unescape, HasControl;
    var place := Place(site, ns);
    PrefixIsPlain();
    InPlace(PREFIX, site, ns);
    HashReads(place, version, name);
    assert FileURL(site, ns, version, name) == place + ['?'] + Query(version, name);
    assert place == PREFIX + (site + "/" + ns);
    CutLater(PREFIX, '#', site + "/" + ns);
    NothingToCut(Before(place, '#'), '?');
    NoParameters();
  }

  lemma NoParameters()
    ensures Param("", "version") == "" && Param("", "name") == ""
  {
  }

  lemma {:induction false} CutEarly(a: string, c: char, b: string)
    requires c in a
    ensures Before(a + b, c) == Before(a, c) && After(a + b, c) == After(a, c) + b
    decreases |a|
  {
    assert (a + b)[1..] == a[1..] + b && (a + b)[0] == a[0];
    if a[0] != c { CutEarly(a[1..], c, b); }
  }

  lemma HashReads(place: string, version: string, name: string)
    requires '#' in place && IsVersion(version)
    ensures var shown := Before(place, '#');
      var path, query := Unescape(Before(shown, '?'), false), After(shown, '?');
      Reads(place + ['?'] + Query(version, name)) ==
        if HasControl(shown) || Unescape(After(place, '#'), false).None? || path.None? || ' ' in query then Malformed
        else Routed(Normalize(true, [], Split(path.value)), query)
  {
    var query := Query(version, name);
    CutEarly(place, '#', ['?'] + query);
    assert place + ['?'] + query == place + (['?'] + query);
    QueryDecodes(version, name);
    UnescapeAppend(After(place, '#'), ['?'] + query, false);
    hide Unescape, HasControl, Routed, Normalize, Split, Query, Before, After;
  }

  lemma QueryDecodes(version: string, name: string)
    requires IsVersion(version)
    ensures Unescape(['?'] + Query(version, name), false).Some?
  {
    hide Unescape, EscapeQuery;
    EscapedDecodes(name);
    var a, b := "?version=" + version, "&name=" + EscapeQuery(name);
    assert ['?'] + Query(version, name) == a + b;
    assert '%' !in a;
    UnescapePlain(a, false);
    UnescapePlain("&name=", false);
    UnescapeAppend("&name=", EscapeQuery(name), false);
    UnescapeAppend(a, b, false);
  }

  lemma {:induction false} EscapedDecodes(s: string)
    ensures Unescape(EscapeQuery(s), false).Some?
    decreases |s|
  {
    if s != "" {
      EscapedDecodes(s[1..]);
      var n, t := s[0] as int, EscapeQuery(s);
      if !Unreserved(s[0]) && s[0] != ' ' && n < 256 {
        assert t[1] == HexDigit(n / 16) && t[2] == HexDigit(n % 16) && t[3..] == EscapeQuery(s[1..]);
      } else {
        assert t[1..] == EscapeQuery(s[1..]);
      }
    }
  }

  // From the first '?' on the namespace is read as the query.
  lemma QuestionMarkReads(site: string, ns: string, rest: string, version: string, name: string)
    requires PlainPart(site) && PlainPart(ns) && IsVersion(version)
    requires '#' !in rest && ' ' !in rest && !HasControl(rest)
    ensures var query := rest + "?" + Query(version, name);
      Reads(FileURL(site, ns + "?" + rest, version, name)) ==
        Asks(site, ns, Param(query, "version"), Param(query, "name"))
  {
    var (place, query) := (Place(site, ns), rest + "?" + Query(version, name));
    PlaceStays(site, ns);
    QueryIsQuiet(version, name);
    PlaceDecodes(site, ns);
    UnescapePlain(site, false);
    UnescapePlain(ns, false);
    PathSegments(site, ns);
    TwoSegments(site, ns);
    hide PREFIX, Query, Unescape, HasControl, Split, Normalize, Param, IsVersion, IsControl, Segments, ROUTE;
    assert FileURL(site, ns + "?" + rest, version, name) ==
      place + ['?'] + query by { Regrouped(PREFIX, site, ns, rest, Query(version, name)); }
    assert !HasControl(query) by { ControlIn(rest, Query(version, name)); }
    CutReads(place, query);
    assert |ROUTE| == 5 by { RouteIs([]); }
    assert (ROUTE + [site, ns])[..5] == ROUTE;
  }

  lemma Regrouped(prefix: string, site: string, ns: string, rest: string, query: string)
    ensures prefix + site + "/" + (ns + "?" + rest) + "?" + query ==
      prefix + site + "/" + ns + ['?'] + (rest + "?" + query)
  {
  }

  // The version is then asked for under another key, so the provider sees none.
  lemma QuestionMarkLosesVersion(site: string, ns: string, rest: string, version: string, name: string)
    requires PlainPart(site) && PlainPart(ns) && IsVersion(version)
    requires '#' !in rest && ' ' !in rest && !HasControl(rest)
    requires OneChunk(rest) && '=' !in rest && '%' !in rest && '+' !in rest
    ensures Reads(FileURL(site, ns + "?" + rest, version, name)) == Asks(site, ns, "", name)
  {
    hide Reads, FileURL, Param, EscapeQuery, HasControl, PlainPart, IsVersion;
    var key := rest + "?version";
    assert key[|rest|] == '?' && |key| == |rest| + 8;
    QuestionMarkReads(site, ns, rest, version, name);
    Parameters(key, version, name, "version");
    Parameters(key, version, name, "name");
    assert rest + "?" + Query(version, name) == key + "=" + version + "&name=" + EscapeQuery(name);
  }

  // --- Parameters of its own and refusals ---

  // If the namespace brings a version and a name of its own after the '?', they
  // come first and win over those that the agent appends.
  lemma OwnParametersWin(site: string, ns: string, own: string, other: string, version: string, name: string)
    requires PlainPart(site) && PlainPart(ns) && IsVersion(version) && IsVersion(own)
    ensures Reads(FileURL(site, ns + "?" + Query(own, other) + "&", version, name)) == Asks(site, ns, own, other)
  {
    hide Reads, PlainPart, IsVersion, Param, HasControl, EscapeQuery;
    var rest := Query(own, other) + "&";
    QueryIsQuiet(own, other);
    SeparatorIsQuiet(Query(own, other));
    assert ns + "?" + Query(own, other) + "&" == ns + "?" + rest;
    QuestionMarkReads(site, ns, rest, version, name);
    FirstParametersWin(own, other, "?" + Query(version, name));
    assert rest + "?" + Query(version, name) == Query(own, other) + "&" + ("?" + Query(version, name));
  }

  lemma SeparatorIsQuiet(query: string)
    requires '#' !in query && ' ' !in query && !HasControl(query)
    ensures '#' !in query + "&" && ' ' !in query + "&" && !HasControl(query + "&")
  {
  }

  lemma FirstParametersWin(version: string, name: string, more: string)
    requires IsVersion(version)
    ensures Param(Query(version, name) + "&" + more, "version") == version
    ensures Param(Query(version, name) + "&" + more, "name") == name
  {
    hide EscapeQuery, Unescape, IsVersion, Chunks, Sets, FirstValue;
    var (a, b) := ("version=" + version, "name=" + EscapeQuery(name));
    ThreeChunks(a, b, more) by {
      VersionChunk("version", version);
      assert a == "version" + "=" + version;
      NameChunk(name, "name");
    }
    QueryIsTwo(version, name);
    OwnSettings(version, name);
    FirstOfTwo(a, b, Chunks(more), "version");
    FirstOfTwo(a, b, Chunks(more), "name");
  }

  lemma QueryIsTwo(version: string, name: string)
    ensures Query(version, name) == "version=" + version + ['&'] + ("name=" + EscapeQuery(name))
  {
    hide EscapeQuery;
  }

  lemma ThreeChunks(a: string, b: string, more: string)
    requires Chunks(a) == [a] && Chunks(b) == [b]
    ensures Chunks(a + ['&'] + b + "&" + more) == [a] + ([b] + Chunks(more))
  {
    hide Chunks;
    assert a + ['&'] + b + "&" + more == a + ['&'] + (b + ['&'] + more);
    ChunksAppend(a, '&', b + ['&'] + more);
    ChunksAppend(b, '&', more);
  }

  lemma OwnSettings(version: string, name: string)
    requires IsVersion(version)
    ensures var (a, b) := ("version=" + version, "name=" + EscapeQuery(name));
      && Sets(a, "version") && !Sets(a, "name") && Sets(b, "name")
      && Unescape(After(a, '='), true) == Some(version) && Unescape(After(b, '='), true) == Some(name)
  {
    hide EscapeQuery, Unescape, IsVersion, Sets, After;
    VersionIsQuiet(version);
    NameSurvives(name);
    assert "version=" + version == "version" + "=" + version;
    assert "name=" + EscapeQuery(name) == "name" + "=" + EscapeQuery(name);
    SetsIff("version", version, "version");
    SetsIff("version", version, "name");
    SetsIff("name", EscapeQuery(name), "name");
  }

  lemma FirstOfTwo(a: string, b: string, rest: seq<string>, key: string)
    ensures FirstValue([a] + ([b] + rest), key) ==
      if Sets(a, key) then Unescape(After(a, '='), true).value
      else if Sets(b, key) then Unescape(After(b, '='), true).value
      else FirstValue(rest, key)
  {
    hide Sets, Unescape, After;
    assert ([a] + ([b] + rest))[1..] == [b] + rest && ([b] + rest)[1..] == rest;
  }

  // A control character in site or namespace, or a blank after a '?', has every
  // request refused, unless a '#' comes first.
  lemma MarksRefused(site: string, ns: string, version: string, name: string)
    requires IsVersion(version) && '#' !in site && '#' !in ns
    requires HasControl(site) || HasControl(ns) || ('?' !in site && '?' in ns && ' ' in After(ns, '?'))
    ensures Reads(FileURL(site, ns, version, name)) == Malformed
  {
    hide PREFIX, Query, IsVersion, IsControl, Unescape, HasControl, Before, After;
    var query := Query(version, name);
    PrefixIsPlain();
    QueryIsQuiet(version, name);
    var url := FileURL(site, ns, version, name);
    TailOf(PREFIX + site + "/" + ns, query);
    assert url == PREFIX + site + "/" + ns + (['?'] + query);
    assert '#' !in url;
    NothingToCut(url, '#');
    if HasControl(site) || HasControl(ns) {
      ControlInside(PREFIX, site, ns, ['?'] + query);
    } else {
      LateBlank(PREFIX + site + "/", ns, ['?'] + query);
    }
    hide FileURL;
    RefusedURL(url);
  }

  lemma TailOf(place: string, query: string)
    ensures place + "?" + query == place + (['?'] + query) && place + ['?'] + query == place + (['?'] + query)
  {
  }

  lemma RefusedURL(url: string)
    requires Before(url, '#') == url && (HasControl(url) || ' ' in After(url, '?'))
    ensures Reads(url) == Malformed
  {
    hide HasControl, Unescape, Before, After;
  }

  lemma ControlInside(a: string, site: string, ns: string, b: string)
    requires HasControl(site) || HasControl(ns)
    ensures HasControl(a + site + "/" + ns + b)
  {
    hide IsControl;
    if HasControl(site) {
      var c :| c in site && IsControl(c);
      assert c in a + site + "/" + ns + b;
    } else {
      var c :| c in ns && IsControl(c);
      assert c in a + site + "/" + ns + b;
    }
  }

  lemma LateBlank(a: string, ns: string, b: string)
    requires '?' !in a && '?' in ns && ' ' in After(ns, '?')
    ensures ' ' in After(a + ns + b, '?')
  {
    CutLater(a, '?', ns + b);
    CutEarly(ns, '?', b);
    assert a + ns + b == a + (ns + b);
  }

  // Without a version, a name that ends in one reads the file of another config.
  lemma NamedVersionPath(top: string, site: string, ns: string, name: string, version: string)
    requires Folders.IsTop(top) && name != "" && '/' !in version && Plain(version)
    ensures FilePath(top, site, ns, name + "/" + version, "") == FilePath(top, site, ns, name, version)
  {
    hide Split, Folders.SplitAll, Join, Normalize;
    var (long, front) := (name + "/" + version, [top, site, ns]);
    assert Stripped(long) == Stripped(name) + "/" + version;
    var (a, b) := ([top, site, ns, Stripped(long), ""], [top, site, ns, Stripped(name), version]);
    assert a == front + [Stripped(long)] + [""] && b == front + [Stripped(name)] + [version];
    SplitAppend(Stripped(name), version);
    SplitSingle(version);
    SplitSingle("");
    Folders.SplitAllSnoc(front + [Stripped(long)], "");
    Folders.SplitAllSnoc(front, Stripped(long));
    Folders.SplitAllSnoc(front + [Stripped(name)], version);
    Folders.SplitAllSnoc(front, Stripped(name));
    assert Folders.SplitAll(a) == Folders.SplitAll(b) + [""];
    EmptyLast(Folders.SplitAll(b));
    Folders.JoinIff(a, b);
  }

  lemma EmptyLast(segs: seq<string>)
    ensures Normalize(false, [], segs + [""]) == Normalize(false, [], segs)
  {
    Folders.NormalizeAppend([], segs, [""]);
    assert [""][1..] == [];
  }
}
