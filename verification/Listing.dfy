/** Deduplicating artifacts for the list view. */
module Listing {
  import opened Common

  /** `title` is normalised; `day` is the date part of the creation time. */
  datatype Record = Record(id: string, isReport: bool, title: string, day: string)

  datatype DisplayKey = Plain(id: string) | GenericDay(day: string) | TitleDay(title: string, day: string)

  predicate Generic(r: Record) { r.title == "" || r.title == "report" || r.title == "报告" }

  predicate Named(r: Record) { r.isReport && !Generic(r) }

  function NamedDays(records: seq<Record>): set<string> { set r | r in records && Named(r) :: r.day }

  /** The key a record is shown under; none for a generic report on a day that has a named one. */
  function KeyOf(r: Record, named: set<string>): Option<DisplayKey> {
    if !r.isReport then Some(Plain(r.id))
    else if Generic(r) then (if r.day in named then None else Some(GenericDay(r.day)))
    else Some(TitleDay(r.title, r.day))
  }

  ghost predicate UniqueIds(s: seq<Record>) {
    forall i, j :: 0 <= i < |s| && 0 <= j < |s| && s[i].id == s[j].id ==> i == j
  }

  /** Shown, and no later record has the same key. */
  ghost predicate LastOfKey(records: seq<Record>, named: set<string>, i: nat)
    requires i < |records|
  {
    KeyOf(records[i], named).Some? && forall j :: i < j < |records| ==> KeyOf(records[j], named) != KeyOf(records[i], named)
  }

  /** The records from position n on that are the last of their key, in order. */
  ghost function LastFrom(records: seq<Record>, named: set<string>, n: nat): seq<Record>
    requires n <= |records|
    decreases |records| - n
  {
    if n == |records| then [] else
      var rest := LastFrom(records, named, n + 1);
      if LastOfKey(records, named, n) then [records[n]] + rest else rest
  }

  ghost function Deduped(records: seq<Record>): seq<Record> { LastFrom(records, NamedDays(records), 0) }

  ghost predicate Scanned(records: seq<Record>, named: set<string>, latest: map<DisplayKey, nat>) {
    && (forall j :: 0 <= j < |records| && KeyOf(records[j], named).Some? ==>
          KeyOf(records[j], named).value in latest && j <= latest[KeyOf(records[j], named).value])
    && (forall k :: k in latest ==> latest[k] < |records| && KeyOf(records[latest[k]], named) == Some(k))
  }

  /** The key remembered for each record. */
  ghost predicate Keyed(records: seq<Record>, named: set<string>, keys: map<string, DisplayKey>, n: nat)
    requires n <= |records|
  {
    && (forall j :: 0 <= j < n ==> KeyAt(records[j], named, keys))
    && (forall id :: id in keys ==> exists j :: 0 <= j < n && records[j].id == id)
  }

  ghost predicate KeyAt(r: Record, named: set<string>, keys: map<string, DisplayKey>) {
    match KeyOf(r, named) case None => r.id !in keys case Some(k) => r.id in keys && keys[r.id] == k
  }

  lemma KeyedNext(records: seq<Record>, named: set<string>, keys: map<string, DisplayKey>, n: nat)
    requires UniqueIds(records) && n < |records| && Keyed(records, named, keys, n)
    ensures
      var key := KeyOf(records[n], named);
      Keyed(records, named, if key.Some? then keys[records[n].id := key.value] else keys, n + 1)
  {
  }

  lemma ScannedNext(records: seq<Record>, named: set<string>, latest: map<DisplayKey, nat>, n: nat)
    requires n < |records| && Scanned(records[..n], named, latest)
    ensures
      var key := KeyOf(records[n], named);
      Scanned(records[..n + 1], named, if key.Some? then latest[key.value := n] else latest)
  {
    hide KeyOf;
    assert records[..n + 1] == records[..n] + [records[n]];
  }

  /** First pass: the last record of each key and the key of each record. */
  method Scan(records: seq<Record>, named: set<string>) returns (latest: map<DisplayKey, nat>, keys: map<string, DisplayKey>)
    requires UniqueIds(records)
    ensures Scanned(records, named, latest) && Keyed(records, named, keys, |records|)
  {
    hide KeyOf, Scanned, Keyed, UniqueIds;
    latest, keys := map[], map[];
    var i := 0;
    NothingScanned(records, named);
    while i < |records|
      invariant i <= |records| && Scanned(records[..i], named, latest) && Keyed(records, named, keys, i)
    {
      ScannedNext(records, named, latest, i);
      KeyedNext(records, named, keys, i);
      var key := KeyOf(records[i], named);
      if key.Some? {
        latest := latest[key.value := i];
        keys := keys[records[i].id := key.value];
      }
      i := i + 1;
    }
    assert records[..|records|] == records;
  }

  lemma NothingScanned(records: seq<Record>, named: set<string>)
    ensures Scanned(records[..0], named, map[]) && Keyed(records, named, map[], 0)
  {
  }

  /** The two passes of the listing: remember the last record of each key, then emit those, walking backwards. */
  method Dedupe(records: seq<Record>) returns (result: seq<Record>)
    requires UniqueIds(records)
    ensures result == Deduped(records)
  {
    hide KeyOf, UniqueIds, LastOfKey;
    var named := NamedDays(records);
    var latest, keys := Scan(records, named);
    result := [];
    var emitted: set<DisplayKey> := {};
    var i := |records|;
    while i > 0
      invariant 0 <= i <= |records|
      invariant result == LastFrom(records, named, i)
      invariant forall k :: k in emitted ==> k in latest && latest[k] >= i
    {
      i := i - 1;
      var id := records[i].id;
      assert KeyAt(records[i], named, keys);
      if id in keys && keys[id] !in emitted && latest[keys[id]] == i {
        LastAt(records, named, latest, i);
        result := [records[i]] + result;
        emitted := emitted + {keys[id]};
      } else {
        NotLastAt(records, named, latest, keys, emitted, i);
      }
    }
  }

  lemma LastAt(records: seq<Record>, named: set<string>, latest: map<DisplayKey, nat>, i: nat)
    requires Scanned(records, named, latest) && i < |records| && KeyOf(records[i], named).Some?
    requires latest[KeyOf(records[i], named).value] == i
    ensures LastOfKey(records, named, i)
  {
  }

  lemma NotLastAt(records: seq<Record>, named: set<string>, latest: map<DisplayKey, nat>, keys: map<string, DisplayKey>,
                  emitted: set<DisplayKey>, i: nat)
    requires Scanned(records, named, latest) && i < |records|
    requires KeyAt(records[i], named, keys)
    requires forall k :: k in emitted ==> k in latest && latest[k] > i
    requires !(records[i].id in keys && keys[records[i].id] !in emitted && latest[keys[records[i].id]] == i)
    ensures !LastOfKey(records, named, i)
  {
  }

  // ---- What the list shows ----

  lemma {:induction false} LastFromIs(records: seq<Record>, named: set<string>, n: nat)
    requires n <= |records|
    ensures forall r :: r in LastFrom(records, named, n) <==> exists i :: n <= i < |records| && LastOfKey(records, named, i) && records[i] == r
    decreases |records| - n
  {
    hide LastOfKey;
    if n < |records| { LastFromIs(records, named, n + 1); }
  }

  /** p lists ascending positions. */
  ghost predicate Ascending(p: seq<nat>, lo: nat, hi: nat) {
    && (forall i :: 0 <= i < |p| ==> lo <= p[i] < hi)
    && (forall i, j :: 0 <= i < j < |p| ==> p[i] < p[j])
  }

  /** p holds ascending positions from n on, of exactly the last records of their keys; `list` is what stands there. */
  ghost predicate Selects(records: seq<Record>, named: set<string>, n: nat, p: seq<nat>, list: seq<Record>) {
    && Ascending(p, n, |records|) && |p| == |list|
    && (forall i :: 0 <= i < |p| ==> list[i] == records[p[i]] && LastOfKey(records, named, p[i]))
    && (forall k :: n <= k < |records| && LastOfKey(records, named, k) ==> k in p)
  }

  lemma SelectsMore(records: seq<Record>, named: set<string>, n: nat, q: seq<nat>, list: seq<Record>)
    requires n < |records| && Selects(records, named, n + 1, q, list)
    ensures LastOfKey(records, named, n) ==> Selects(records, named, n, [n] + q, [records[n]] + list)
    ensures !LastOfKey(records, named, n) ==> Selects(records, named, n, q, list)
  {
    hide LastOfKey;
    if LastOfKey(records, named, n) {
      var p, more := [n] + q, [records[n]] + list;
      forall i | 0 <= i < |p| ensures more[i] == records[p[i]] && LastOfKey(records, named, p[i]) && n <= p[i] < |records| {
        if i > 0 { assert p[i] == q[i - 1] && more[i] == list[i - 1]; }
      }
      forall k | n <= k < |records| && LastOfKey(records, named, k) ensures k in p {
        if k > n { assert k in q; }
      }
    }
  }

  /** The list is an order-preserving selection: the records at ascending positions, exactly the last ones of their keys. */
  lemma {:induction false} OrderKept(records: seq<Record>, named: set<string>, n: nat) returns (p: seq<nat>)
    requires n <= |records|
    ensures Selects(records, named, n, p, LastFrom(records, named, n))
    decreases |records| - n
  {
    if n == |records| {
      p := [];
    } else {
      hide LastOfKey, Selects;
      var q := OrderKept(records, named, n + 1);
      SelectsMore(records, named, n, q, LastFrom(records, named, n + 1));
      p := if LastOfKey(records, named, n) then [n] + q else q;
    }
  }

  /** Every key that any record has is shown, by the last record with it. */
  lemma {:induction false} KeyShown(records: seq<Record>, named: set<string>, i: nat) returns (j: nat)
    requires i < |records| && KeyOf(records[i], named).Some?
    ensures i <= j < |records| && LastOfKey(records, named, j) && KeyOf(records[j], named) == KeyOf(records[i], named)
    decreases |records| - i
  {
    hide KeyOf;
    if LastOfKey(records, named, i) {
      j := i;
    } else {
      var m :| i < m < |records| && KeyOf(records[m], named) == KeyOf(records[i], named);
      j := KeyShown(records, named, m);
    }
  }

  /** A generic report is left out of the list exactly when its day has a named one, or a later generic report takes its place. */
  lemma GenericDropped(records: seq<Record>, i: nat)
    requires i < |records| && records[i].isReport && Generic(records[i]) && UniqueIds(records)
    ensures records[i] !in Deduped(records) <==>
      || (exists r :: r in records && Named(r) && r.day == records[i].day)
      || (exists j :: i < j < |records| && records[j].isReport && Generic(records[j]) && records[j].day == records[i].day)
  {
    var named := NamedDays(records);
    LastFromIs(records, named, 0);
    if records[i] in Deduped(records) {
      var k :| 0 <= k < |records| && LastOfKey(records, named, k) && records[k] == records[i];
      assert records[k].id == records[i].id;
    } else {
      assert !LastOfKey(records, named, i);
    }
  }

  /** The titles that say nothing. */
  ghost predicate SaysNothing(title: string) { title in {"", "report", "报告"} }

  /**
   * Which records the list shows: everything that is no report, a generic report exactly if its day has no named one and
   * no later generic one, a named report exactly if no later one has its title and day.
   */
  lemma ShownExactly(records: seq<Record>, i: nat)
    requires i < |records| && UniqueIds(records)
    ensures
      var r := records[i];
      r in Deduped(records) <==>
        if !r.isReport then true
        else if SaysNothing(r.title) then
          && (forall s :: s in records && s.isReport && s.day == r.day ==> SaysNothing(s.title))
          && (forall j :: i < j < |records| && records[j].isReport && SaysNothing(records[j].title) ==> records[j].day != r.day)
        else forall j :: i < j < |records| && records[j].isReport && records[j].title == r.title ==> records[j].day != r.day
  {
    var r, named := records[i], NamedDays(records);
    LastFromIs(records, named, 0);
    if r in Deduped(records) {
      var k :| 0 <= k < |records| && LastOfKey(records, named, k) && records[k] == r;
      assert records[k].id == records[i].id;
    }
    assert r in Deduped(records) <==> LastOfKey(records, named, i);
    if r.isReport && SaysNothing(r.title) { GenericDropped(records, i); }
  }

  /** Named reports stay on their days. */
  lemma SameNamedDays(records: seq<Record>)
    ensures NamedDays(Deduped(records)) == NamedDays(records)
  {
    hide LastOfKey;
    var named := NamedDays(records);
    LastFromIs(records, named, 0);
    forall d | d in named ensures d in NamedDays(Deduped(records)) {
      var r :| r in records && Named(r) && r.day == d;
      var i :| 0 <= i < |records| && records[i] == r;
      var j := KeyShown(records, named, i);
      assert records[j] in Deduped(records) && Named(records[j]) && records[j].day == d;
    }
  }

  lemma {:induction false} AllLastStays(s: seq<Record>, named: set<string>, n: nat)
    requires n <= |s| && forall i :: 0 <= i < |s| ==> LastOfKey(s, named, i)
    ensures LastFrom(s, named, n) == s[n..]
    decreases |s| - n
  {
    hide LastOfKey;
    if n < |s| {
      AllLastStays(s, named, n + 1);
      assert s[n..] == [s[n]] + s[n + 1..];
    }
  }

  /** Deduplicating twice is deduplicating once. */
  lemma Idempotent(records: seq<Record>)
    ensures Deduped(Deduped(records)) == Deduped(records)
  {
    hide KeyOf;
    var named := NamedDays(records);
    var s := Deduped(records);
    SameNamedDays(records);
    var p := OrderKept(records, named, 0);
    forall i | 0 <= i < |s| ensures LastOfKey(s, named, i) {
      assert s[i] == records[p[i]] && LastOfKey(records, named, p[i]);
      forall j | i < j < |s| ensures KeyOf(s[j], named) != KeyOf(s[i], named) {
        assert s[j] == records[p[j]] && p[i] < p[j];
      }
    }
    AllLastStays(s, named, 0);
  }
}
