// The connection a cluster is known by. A connection key is the site's id and
// the second at which the agent started, joined by "@@". Ready and not-ready
// events of several connections may arrive late or out of order; the cluster row
// follows the newest connection.
module Clusters {
  import opened Wrappers
  import opened Decimal

  // --- Keys ---

  // strings.Split at every "@@", from left to right.
  function Split(s: string): (parts: seq<string>)
    ensures parts != []
    decreases |s|
  {
    if |s| < 2 then [s]
    else if s[0] == '@' && s[1] == '@' then [""] + Split(s[2..])
    else
      var rest := Split(s[1..]);
      [[s[0]] + rest[0]] + rest[1..]
  }

  function Key(site: string, stamp: string): string { site + "@@" + stamp }

  predicate NoSplit(s: string) { forall i :: 0 <= i < |s| - 1 ==> !(s[i] == '@' && s[i + 1] == '@') }

  lemma NoSplitTail(s: string)
    requires s != "" && (|s| < 2 || !(s[0] == '@' && s[1] == '@'))
    ensures NoSplit(s) <==> NoSplit(s[1..])
  {
    var t := s[1..];
    if NoSplit(t) {
      forall i | 0 <= i < |s| - 1 ensures !(s[i] == '@' && s[i + 1] == '@') {
        if i > 0 { assert t[i - 1] == s[i] && t[i] == s[i + 1]; }
      }
    }
    if NoSplit(s) {
      forall i | 0 <= i < |t| - 1 ensures !(t[i] == '@' && t[i + 1] == '@') {
        assert t[i] == s[i + 1] && t[i + 1] == s[i + 2];
      }
    }
  }

  lemma {:induction false} SplitHead(site: string, rest: string)
    requires NoSplit(site + "@")
    ensures Split(site + "@@" + rest) == [site] + Split(rest)
    decreases |site|
  {
    var s := site + "@@" + rest;
    if site == "" {
      assert s[2..] == rest;
    } else {
      assert (site + "@")[0] == s[0] && (site + "@")[1] == s[1];
      assert (site + "@")[1..] == site[1..] + "@" && s[1..] == site[1..] + "@@" + rest;
      NoSplitTail(site + "@");
      SplitHead(site[1..], rest);
      assert ([site[1..]] + Split(rest))[1..] == Split(rest);
      assert [s[0]] + site[1..] == site;
    }
  }

  // The first part ends where "@@" occurs first.
  lemma {:induction false} SplitFirst(s: string)
    ensures |Split(s)| == 1 ==> Split(s) == [s] && NoSplit(s)
    ensures |Split(s)| > 1 ==> NoSplit(Split(s)[0] + "@")
    ensures NoSplit(s) ==> Split(s) == [s]
    decreases |s|
  {
    if |s| >= 2 && !(s[0] == '@' && s[1] == '@') {
      SplitFirst(s[1..]);
      NoSplitTail(s);
      var rest := Split(s[1..]);
      assert [s[0]] + s[1..] == s;
      if |rest| > 1 {
        SplitStart(s[1..]);
        var head := Split(s)[0] + "@";
        assert head[1..] == rest[0] + "@";
        NoSplitTail(head);
      }
    }
  }

  lemma SplitStart(s: string)
    requires |Split(s)| > 1
    ensures (Split(s)[0] + "@")[0] == s[0]
  {
  }

  // A key can be taken apart again exactly when the site neither contains "@@"
  // nor ends in '@' and the stamp does not contain "@@".
  lemma KeySplitsIff(site: string, stamp: string)
    ensures Split(Key(site, stamp)) == [site, stamp] <==> NoSplit(site + "@") && NoSplit(stamp)
  {
    if NoSplit(site + "@") {
      SplitHead(site, stamp);
      SplitFirst(stamp);
      if Split(Key(site, stamp)) == [site, stamp] {
        assert |[site] + Split(stamp)| == 2;
        assert ([site] + Split(stamp))[1] == stamp;
      }
    }
    if Split(Key(site, stamp)) == [site, stamp] { SplitFirst(Key(site, stamp)); }
  }

  // The site that the handlers of the config server take the caller for.
  function SiteOfKey(connKey: string): Option<string> {
    var parts := Split(connKey);
    if |parts| == 2 then Some(parts[0]) else None
  }

  // It is the caller's own exactly when the key can be taken apart again.
  lemma SiteOfKeyIff(site: string, stamp: string)
    requires NoSplit(stamp)
    ensures SiteOfKey(Key(site, stamp)) == Some(site) <==> NoSplit(site + "@")
  {
    KeySplitsIff(site, stamp);
    SplitFirst(Key(site, stamp));
    hide Split, Key, NoSplit;
  }

  // --- The order of stamps ---

  // strings.Compare(a, b) < 1.
  predicate LexLe(a: string, b: string) {
    a == "" || (b != "" && (a[0] < b[0] || (a[0] == b[0] && LexLe(a[1..], b[1..]))))
  }

  lemma {:induction false} LexTotal(a: string, b: string)
    ensures LexLe(a, b) || LexLe(b, a)
    ensures LexLe(a, b) && LexLe(b, a) ==> a == b
    decreases |a|
  {
    if a != "" && b != "" {
      LexTotal(a[1..], b[1..]);
      assert [a[0]] + a[1..] == a && [b[0]] + b[1..] == b;
    }
  }

  lemma {:induction false} LexTransitive(a: string, b: string, c: string)
    requires LexLe(a, b) && LexLe(b, c)
    ensures LexLe(a, c)
    decreases |a|
  {
    if a != "" && a[0] == b[0] == c[0] { LexTransitive(a[1..], b[1..], c[1..]); }
  }

  lemma {:induction false} LexRefl(a: string)
    ensures LexLe(a, a)
    decreases |a|
  {
    if a != "" { LexRefl(a[1..]); }
  }

  // Among decimal stamps of one length the string order is the numeric order.
  lemma {:induction false} LexIsNumeric(a: string, b: string)
    requires |a| == |b| && AllDigits(a) && AllDigits(b)
    ensures LexLe(a, b) <==> Value(a) <= Value(b)
    decreases |a|
  {
    if a != "" {
      ValueCons(a);
      ValueCons(b);
      ValueBound(a[1..]);
      ValueBound(b[1..]);
      LexIsNumeric(a[1..], b[1..]);
      LeadingDigitDecides(DigitValue(a[0]), Value(a[1..]), DigitValue(b[0]), Value(b[1..]), Pow10(|a| - 1));
    }
  }

  // A stamp that is not longer is compared with as many leading digits.
  lemma {:induction false} LexPrefix(a: string, b: string)
    requires |a| <= |b|
    ensures LexLe(a, b) <==> LexLe(a, b[..|a|])
    decreases |a|
  {
    if a != "" {
      LexPrefix(a[1..], b[1..]);
      assert b[..|a|][1..] == b[1..][..|a|-1];
    }
  }

  lemma LexByPrefix(a: string, b: string)
    requires |a| <= |b| && AllDigits(a) && AllDigits(b)
    ensures LexLe(a, b) <==> Value(a) <= Value(b[..|a|])
  {
    LexPrefix(a, b);
    LexIsNumeric(a, b[..|a|]);
  }

  // Among numbers printed without leading zeros, a smaller one is not after a
  // greater one in the string order exactly when it is still not greater once
  // both have the same number of digits.
  lemma PrintedOrder(m: nat, n: nat)
    requires m <= n
    ensures |Print(m)| <= |Print(n)|
    ensures LexLe(Print(m), Print(n)) <==> m * Pow10(|Print(n)| - |Print(m)|) <= n
  {
    PrintLengths(m, n);
    PrintThenValue(m);
    PrintThenValue(n);
    var (a, b) := (Print(m), Print(n));
    LexByPrefix(a, b);
    ValueSplit(b, |a|);
    ValueBound(b[|a|..]);
    LeadingDigitDecides(m, 0, Value(b[..|a|]), Value(b[|a|..]), Pow10(|b| - |a|));
  }

  lemma LeadingDigitDecides(x: nat, a: nat, y: nat, b: nat, p: nat)
    requires a < p && b < p
    ensures x < y ==> x * p + a < y * p + b
    ensures y < x ==> y * p + b < x * p + a
    ensures a <= b && x == y ==> x * p + a <= y * p + b
  {
    if x < y { assert (x + 1) * p <= y * p; }
    if y < x { assert (y + 1) * p <= x * p; }
  }

  // --- The rows and the update ---

  const DELETED := "deleted"

  datatype Row = Row(connKey: string, status: string)

  datatype Failure = InvalidKey | NoCluster | InvalidStoredKey

  type Rows = map<string, Row>

  function Updated(rows: Rows, connKey: string, status: string): (Rows, Option<Failure>) {
    var parts := Split(connKey);
    if |parts| != 2 then (rows, Some(InvalidKey))
    else
      var site := parts[0];
      if site !in rows || rows[site].status == DELETED then (rows, Some(NoCluster))
      else if rows[site].connKey == "" then (rows[site := Row(connKey, status)], None)
      else
        var was := Split(rows[site].connKey);
        if |was| != 2 then (rows, Some(InvalidStoredKey))
        else if LexLe(was[1], parts[1]) then (rows[site := Row(connKey, status)], None)
        else (rows, None)
  }

  class Table {
    var rows: Rows

    // One transaction: read the row, compare, perhaps overwrite it.
    method UpdateClusterStatus(connKey: string, status: string) returns (failure: Option<Failure>)
      requires status != ""
      modifies this
      ensures (rows, failure) == Updated(old(rows), connKey, status)
    {
      var parts := Split(connKey);
      if |parts| != 2 { return Some(InvalidKey); }
      var site, stamp := parts[0], parts[1];
      if site !in rows || rows[site].status == DELETED { return Some(NoCluster); }
      var cluster := rows[site];
      if cluster.connKey == "" {
        rows := rows[site := Row(connKey, status)];
        return None;
      }
      var was := Split(cluster.connKey);
      if |was| != 2 { return Some(InvalidStoredKey); }
      if LexLe(was[1], stamp) { rows := rows[site := Row(connKey, status)]; }
      return None;
    }
  }

  // --- Runs ---

  // A ready or not-ready event of the connection of a site that started at stamp.
  datatype Event = Event(site: string, stamp: string, status: string)

  function After(rows: Rows, events: seq<Event>): Rows {
    if events == [] then rows
    else
      var e := events[|events|-1];
      Updated(After(rows, events[..|events|-1]), Key(e.site, e.stamp), e.status).0
  }

  predicate Valid(e: Event) { NoSplit(e.site + "@") && NoSplit(e.stamp) && e.status != DELETED }

  // Event k is the last one of its site with the greatest stamp.
  predicate Newest(events: seq<Event>, k: nat) {
    && k < |events|
    && (forall i :: 0 <= i < |events| && events[i].site == events[k].site ==> LexLe(events[i].stamp, events[k].stamp))
    && (forall i :: k < i < |events| && events[i].site == events[k].site ==> events[i].stamp != events[k].stamp)
  }

  predicate Mentions(events: seq<Event>, site: string) { exists i :: 0 <= i < |events| && events[i].site == site }

  // What one event does to the row of a site whose key, if any, is sound.
  lemma EventEffect(rows: Rows, e: Event, site: string, stamp: string)
    requires Valid(e) && site in rows && rows[site].status != DELETED
    requires rows[site].connKey == "" ||
      (rows[site].connKey == Key(site, stamp) && NoSplit(site + "@") && NoSplit(stamp))
    ensures var after := Updated(rows, Key(e.site, e.stamp), e.status).0;
      site in after &&
      after[site] == if e.site == site && (rows[site].connKey == "" || LexLe(stamp, e.stamp))
                     then Row(Key(site, e.stamp), e.status) else rows[site]
  {
    KeySplitsIff(e.site, e.stamp);
    if rows[site].connKey != "" { KeySplitsIff(site, stamp); }
  }

  // Whatever the order in which the events arrive, the row of a site holds the
  // newest connection and that connection's last status; a site without events
  // keeps its row.
  lemma {:induction false} NewestConnectionWins(rows: Rows, events: seq<Event>, site: string) returns (k: nat)
    requires forall i :: 0 <= i < |events| ==> Valid(events[i])
    requires site in rows && rows[site].connKey == "" && rows[site].status != DELETED
    ensures site in After(rows, events)
    ensures if Mentions(events, site)
            then Newest(events, k) && events[k].site == site &&
              After(rows, events)[site] == Row(Key(site, events[k].stamp), events[k].status)
            else After(rows, events)[site] == rows[site]
    decreases |events|
  {
    k := 0;
    if events != [] {
      hide Updated, LexLe, Key, NoSplit;
      var front, e := events[..|events|-1], events[|events|-1];
      assert events == front + [e] && Valid(e);
      k := NewestConnectionWins(rows, front, site);
      var stamp := if Mentions(front, site) then front[k].stamp else "";
      assert Mentions(front, site) ==> Valid(front[k]);
      EventEffect(After(rows, front), e, site, stamp);
      MentionsMore(front, e, site);
      if Mentions(front, site) && e.site == site { StillNewest(front, e, k); }
      if Mentions(front, site) && e.site != site { NewestUnaffected(front, e, k); }
      if !Mentions(front, site) && e.site == site { FirstIsNewest(front, e); }
      if e.site == site && (!Mentions(front, site) || LexLe(stamp, e.stamp)) { k := |front|; }
    }
  }

  lemma MentionsMore(front: seq<Event>, e: Event, site: string)
    ensures Mentions(front + [e], site) <==> Mentions(front, site) || e.site == site
  {
    var events := front + [e];
    assert forall i :: 0 <= i < |front| ==> events[i] == front[i];
    assert events[|front|] == e;
  }

  lemma NewestUnaffected(front: seq<Event>, e: Event, k: nat)
    requires Newest(front, k) && front[k].site != e.site
    ensures Newest(front + [e], k)
  {
  }

  lemma FirstIsNewest(front: seq<Event>, e: Event)
    requires !Mentions(front, e.site)
    ensures Newest(front + [e], |front|)
  {
    LexRefl(e.stamp);
    assert forall i :: 0 <= i < |front| ==> (front + [e])[i] == front[i];
  }

  lemma StillNewest(front: seq<Event>, e: Event, j: nat)
    requires Newest(front, j) && front[j].site == e.site
    ensures Newest(front + [e], if LexLe(front[j].stamp, e.stamp) then |front| else j)
  {
    var events := front + [e];
    LexRefl(e.stamp);
    LexTotal(front[j].stamp, e.stamp);
    if LexLe(front[j].stamp, e.stamp) {
      forall i | 0 <= i < |front| && front[i].site == e.site ensures LexLe(front[i].stamp, e.stamp) {
        LexTransitive(front[i].stamp, front[j].stamp, e.stamp);
      }
    }
  }

  // A late event of an older connection changes nothing.
  lemma LateEventIgnored(rows: Rows, newer: Event, older: Event)
    requires Valid(newer) && Valid(older) && newer.site == older.site && !LexLe(newer.stamp, older.stamp)
    requires newer.site in rows && rows[newer.site] == Row(Key(newer.site, newer.stamp), newer.status)
    ensures Updated(rows, Key(older.site, older.stamp), older.status) == (rows, None)
  {
    KeySplitsIff(newer.site, newer.stamp);
    KeySplitsIff(older.site, older.stamp);
  }

  // --- Where it fails ---

  // A connection that started later replaces the stored one exactly when its
  // second is not smaller than the stored one filled up with zeros to the same
  // number of digits. With equally many digits it always does.
  lemma NewerReplacesIff(rows: Rows, site: string, m: nat, n: nat, was: string, status: string)
    requires NoSplit(site + "@") && m < n && was != DELETED && status != DELETED
    requires site in rows && rows[site] == Row(Key(site, Print(m)), was)
    ensures |Print(m)| <= |Print(n)|
    ensures var after := Updated(rows, Key(site, Print(n)), status).0;
      site in after && (after[site] == Row(Key(site, Print(n)), status) <==> m * Pow10(|Print(n)| - |Print(m)|) <= n)
  {
    DigitsDoNotSplit(m);
    DigitsDoNotSplit(n);
    PrintedOrder(m, n);
    if Key(site, Print(m)) == Key(site, Print(n)) {
      assert Print(m) == Key(site, Print(m))[|site| + 2..] && Print(n) == Key(site, Print(n))[|site| + 2..];
      PrintInjective(m, n);
    }
    hide Split, LexLe, Print, Key, NoSplit;
    EventEffect(rows, Event(site, Print(n), status), site, Print(m));
  }

  lemma DigitsDoNotSplit(n: nat)
    ensures NoSplit(Print(n))
  {
    PrintThenValue(n);
    hide Print;
  }

  // For instance, second 10 does not replace second 9.
  lemma TenAfterNine(rows: Rows)
    requires "s" in rows && rows["s"] == Row(Key("s", Print(9)), "Ready")
    ensures Updated(rows, Key("s", Print(10)), "Ready").0 == rows
  {
    NewerReplacesIff(rows, "s", 9, 10, "Ready", "Ready");
    assert Print(10) == Print(1) + [DigitChar(0)];
    assert |Print(10)| == 2 && |Print(9)| == 1 && Pow10(1) == 10 * Pow10(0);
    Unchanged(rows, "s", Print(9), Print(10));
  }

  lemma Unchanged(rows: Rows, site: string, stamp: string, later: string)
    requires NoSplit(site + "@") && NoSplit(stamp) && NoSplit(later) && site in rows &&
      rows[site] == Row(Key(site, stamp), "Ready")
    requires site in Updated(rows, Key(site, later), "Ready").0
    requires Updated(rows, Key(site, later), "Ready").0[site] != Row(Key(site, later), "Ready")
    ensures Updated(rows, Key(site, later), "Ready").0 == rows
  {
    KeySplitsIff(site, later);
    hide LexLe, NoSplit;
  }

  // An update is refused exactly for a key that does not come apart, a cluster
  // that is unknown or deleted, or a stored key that does not come apart; a
  // refused update leaves all rows alone.
  lemma RefusedIff(rows: Rows, connKey: string, status: string)
    ensures var (after, failure) := Updated(rows, connKey, status);
      && (failure.Some? ==> after == rows)
      && (failure == Some(InvalidKey) <==> |Split(connKey)| != 2)
      && (failure == Some(NoCluster) <==>
            |Split(connKey)| == 2 && (Split(connKey)[0] !in rows || rows[Split(connKey)[0]].status == "deleted"))
      && (failure == Some(InvalidStoredKey) <==>
            && |Split(connKey)| == 2 && Split(connKey)[0] in rows && rows[Split(connKey)[0]].status != "deleted"
            && rows[Split(connKey)[0]].connKey != "" && |Split(rows[Split(connKey)[0]].connKey)| != 2)
  {
    hide Split, LexLe;
  }

  // No event brings a deleted cluster back.
  lemma DeletedStays(rows: Rows, site: string, stamp: string, status: string)
    requires NoSplit(site + "@") && NoSplit(stamp) && site in rows && rows[site].status == "deleted"
    ensures Updated(rows, Key(site, stamp), status) == (rows, Some(NoCluster))
  {
    KeySplitsIff(site, stamp);
    hide Split, Key, NoSplit;
  }

  // A site whose id ends in '@' never gets its connection stored.
  lemma TrailingAtIsLost(rows: Rows, site: string, stamp: string, status: string)
    requires NoSplit(site) && site != "" && site[|site|-1] == '@' && NoSplit(stamp)
    ensures Split(Key(site, stamp))[0] == site[..|site|-1]
    ensures site[..|site|-1] !in rows ==> Updated(rows, Key(site, stamp), status).0 == rows
  {
    var head := site[..|site|-1];
    assert head + "@" == site;
    assert Key(site, stamp) == head + "@@" + ("@" + stamp);
    SplitHead(head, "@" + stamp);
  }
}
