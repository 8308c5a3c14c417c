/** Evidence streams and which artifact of each one is authoritative. */
module Governance {
  import opened Ordering

  datatype Quality = Complete | Partial | Unknown

  /** An artifact record; text fields are stripped. */
  datatype Record = Record(id: string, createdAt: string, runId: string, evidenceKey: string, producer: string, role: string, quality: Quality)

  datatype Authority = Authoritative | Provisional | Incomplete | Historical

  datatype Projection = Projection(
    key: string, quality: Quality, status: Authority, authoritative: string, latest: string, isLatest: bool, version: nat, versions: nat)

  /** The stream a record belongs to; none for plain deliverables. */
  function Key(r: Record): string {
    var producer := if r.producer != "" then r.producer else r.runId;
    if r.evidenceKey != "" && r.evidenceKey != "[REDACTED_SECRET]" then r.evidenceKey
    else if producer != "" && r.role != "" then producer + ":" + r.role
    else ""
  }

  /** By creation time, then by id. */
  predicate Earlier(a: Record, b: Record) {
    StringLe(a.createdAt, b.createdAt) && (a.createdAt == b.createdAt ==> StringLe(a.id, b.id))
  }

  lemma EarlierOrder()
    ensures TotalPreorder(Earlier)
  {
    hide StringLe;
    forall a: Record, b: Record ensures Earlier(a, b) || Earlier(b, a) {
      StringTotal(a.createdAt, b.createdAt);
      StringTotal(a.id, b.id);
    }
    forall a: Record, b: Record, c: Record | Earlier(a, b) && Earlier(b, c) ensures Earlier(a, c) {
      StringTransitive(a.createdAt, b.createdAt, c.createdAt);
      if a.createdAt == c.createdAt {
        StringAntisymmetric(a.createdAt, b.createdAt);
        StringTransitive(a.id, b.id, c.id);
      }
    }
  }

  ghost predicate UniqueIds(s: seq<Record>) {
    forall i, j :: 0 <= i < |s| && 0 <= j < |s| && s[i].id == s[j].id ==> i == j
  }

  function InStream(records: seq<Record>, key: string): seq<Record> {
    if records == [] then [] else
      var rest, r := InStream(records[..|records| - 1], key), records[|records| - 1];
      if Key(r) == key then rest + [r] else rest
  }

  /** The versions of a stream, oldest first. */
  function Stream(records: seq<Record>, key: string): seq<Record> { Sort(InStream(records, key), Earlier) }

  function Completes(s: seq<Record>): seq<Record> {
    if s == [] then [] else
      var rest, r := Completes(s[..|s| - 1]), s[|s| - 1];
      if r.quality == Complete then rest + [r] else rest
  }

  /** The newest complete version, or the newest one when none is complete. */
  function Selected(s: seq<Record>): Record
    requires s != []
  {
    if Completes(s) != [] then Completes(s)[|Completes(s)| - 1] else s[|s| - 1]
  }

  function StatusOf(r: Record, selected: Record): Authority {
    if r.id == selected.id then (if r.quality == Complete then Authoritative else Provisional)
    else if r.quality != Complete then Incomplete else Historical
  }

  function ProjectionAt(s: seq<Record>, i: nat): Projection
    requires i < |s|
  {
    var latest := s[|s| - 1];
    Projection(Key(s[i]), s[i].quality, StatusOf(s[i], Selected(s)), Selected(s).id, latest.id, s[i].id == latest.id, i + 1, |s|)
  }

  // ---- Streams ----

  lemma {:induction false} InStreamIs(records: seq<Record>, key: string)
    ensures forall r :: r in InStream(records, key) <==> r in records && Key(r) == key
    ensures forall r :: multiset(InStream(records, key))[r] == if Key(r) == key then multiset(records)[r] else 0
  {
    if records != [] {
      InStreamIs(records[..|records| - 1], key);
      assert records == records[..|records| - 1] + [records[|records| - 1]];
    }
  }

  /** What a stream is: exactly the records of that key, in order, each as often as it is given. */
  lemma StreamIs(records: seq<Record>, key: string)
    ensures SortedBy(Stream(records, key), Earlier)
    ensures multiset(Stream(records, key)) == multiset(InStream(records, key))
    ensures forall r :: r in Stream(records, key) <==> r in records && Key(r) == key
  {
    hide Earlier, InStream, Sort, SortedBy;
    EarlierOrder();
    SortSorts(InStream(records, key), Earlier);
    SortPermutes(InStream(records, key), Earlier);
    InStreamIs(records, key);
    forall r ensures r in Stream(records, key) <==> r in InStream(records, key) {
      assert r in Stream(records, key) <==> r in multiset(Stream(records, key));
      assert r in InStream(records, key) <==> r in multiset(InStream(records, key));
    }
  }

  lemma {:induction false} UniqueCount(s: seq<Record>, r: Record)
    requires UniqueIds(s)
    ensures multiset(s)[r] <= 1
  {
    if s != [] {
      var front, last := s[..|s| - 1], s[|s| - 1];
      assert s == front + [last];
      assert UniqueIds(front);
      UniqueCount(front, r);
      assert r in multiset(front) <==> r in front;
    }
  }

  lemma StreamUnique(records: seq<Record>, key: string)
    requires UniqueIds(records)
    ensures UniqueIds(Stream(records, key))
  {
    hide Earlier, InStream, Sort, SortedBy;
    var s := Stream(records, key);
    StreamIs(records, key);
    InStreamIs(records, key);
    forall i, j | 0 <= i < j < |s| ensures s[i].id != s[j].id {
      if s[i].id == s[j].id {
        assert s[i] in records && s[j] in records;
        SameRecord(records, s[i], s[j]);
        CountedTwice(s, i, j);
        UniqueCount(records, s[i]);
      }
    }
  }

  lemma SameRecord(records: seq<Record>, a: Record, b: Record)
    requires UniqueIds(records) && a in records && b in records && a.id == b.id
    ensures a == b
  {
  }

  lemma NoTiesInUnique(s: seq<Record>)
    requires UniqueIds(s)
    ensures NoTies(s, Earlier)
  {
    hide StringLe;
    forall i, j | 0 <= i < |s| && 0 <= j < |s| && Earlier(s[i], s[j]) && Earlier(s[j], s[i]) ensures s[i] == s[j] {
      StringAntisymmetric(s[i].createdAt, s[j].createdAt);
      StringAntisymmetric(s[i].id, s[j].id);
    }
  }

  /** Streams do not depend on the order in which the records are given. */
  lemma StreamOrderFree(a: seq<Record>, b: seq<Record>, key: string)
    requires UniqueIds(a) && multiset(a) == multiset(b)
    ensures Stream(a, key) == Stream(b, key)
  {
    hide Earlier, InStream, Sort, SortedBy, NoTies;
    StreamIs(a, key);
    StreamIs(b, key);
    InStreamIs(a, key);
    InStreamIs(b, key);
    assert multiset(InStream(a, key)) == multiset(InStream(b, key));
    StreamUnique(a, key);
    NoTiesInUnique(Stream(a, key));
    SortedUnique(Stream(a, key), Stream(b, key), Earlier);
  }

  // ---- The projection ----

  ghost predicate ProjectedAs(s: seq<Record>, r: Record, p: Projection) {
    exists i :: 0 <= i < |s| && s[i] == r && p == ProjectionAt(s, i)
  }

  /** Exactly the evidence records are projected, each by its place in its stream. */
  ghost predicate Governs(records: seq<Record>, result: map<string, Projection>) {
    && (forall r :: r in records && Key(r) != "" ==> r.id in result && ProjectedAs(Stream(records, Key(r)), r, result[r.id]))
    && (forall id :: id in result ==> exists r :: r in records && Key(r) != "" && r.id == id)
  }

  method GroupStreams(records: seq<Record>) returns (streams: map<string, seq<Record>>)
    ensures forall key :: key in streams <==> key != "" && InStream(records, key) != []
    ensures forall key :: key in streams ==> streams[key] == InStream(records, key)
  {
    streams := map[];
    var i := 0;
    assert records[..0] == [];
    while i < |records|
      invariant i <= |records|
      invariant forall key :: key in streams <==> key != "" && InStream(records[..i], key) != []
      invariant forall key :: key in streams ==> streams[key] == InStream(records[..i], key)
    {
      var key := Key(records[i]);
      assert records[..i + 1][..i] == records[..i];
      if key != "" {
        streams := streams[key := (if key in streams then streams[key] else []) + [records[i]]];
      }
      i := i + 1;
    }
    assert records[..|records|] == records;
  }

  /** `after` adds the projections of one stream to `before` and changes nothing else. */
  ghost predicate Overlays(ordered: seq<Record>, before: map<string, Projection>, after: map<string, Projection>) {
    && (forall i :: 0 <= i < |ordered| ==> ordered[i].id in after && after[ordered[i].id] == ProjectionAt(ordered, i))
    && (forall id :: id in before && (forall i :: 0 <= i < |ordered| ==> ordered[i].id != id) ==> id in after && after[id] == before[id])
    && (forall id :: id in after ==> id in before || exists i :: 0 <= i < |ordered| && ordered[i].id == id)
  }

  method ProjectStream(ordered: seq<Record>, result: map<string, Projection>) returns (r: map<string, Projection>)
    requires UniqueIds(ordered)
    ensures Overlays(ordered, result, r)
  {
    hide Selected, StatusOf, Key;
    r := result;
    var n := 0;
    while n < |ordered|
      invariant n <= |ordered|
      invariant forall i :: 0 <= i < n ==> ordered[i].id in r && r[ordered[i].id] == ProjectionAt(ordered, i)
      invariant forall id :: id in result && (forall i :: 0 <= i < |ordered| ==> ordered[i].id != id) ==> id in r && r[id] == result[id]
      invariant forall id :: id in r ==> id in result || exists i :: 0 <= i < |ordered| && ordered[i].id == id
    {
      r := r[ordered[n].id := ProjectionAt(ordered, n)];
      n := n + 1;
    }
  }

  /** The streams with a key in `done` are projected and nothing else is. */
  ghost predicate GovernsKeys(records: seq<Record>, result: map<string, Projection>, done: set<string>) {
    && (forall r :: r in records && Key(r) in done ==> r.id in result && ProjectedAs(Stream(records, Key(r)), r, result[r.id]))
    && (forall id :: id in result ==> exists r :: r in records && Key(r) in done && r.id == id)
  }

  lemma OneMoreStream(records: seq<Record>, before: map<string, Projection>, done: set<string>, key: string, after: map<string, Projection>)
    requires UniqueIds(records) && GovernsKeys(records, before, done) && Overlays(Stream(records, key), before, after)
    requires key !in done
    ensures GovernsKeys(records, after, done + {key})
  {
    hide ProjectedAs, Stream, Key, UniqueIds, Overlays;
    forall r | r in records && Key(r) in done + {key}
      ensures r.id in after && ProjectedAs(Stream(records, Key(r)), r, after[r.id])
    {
      if Key(r) == key {
        NewlyProjected(records, before, key, after, r);
      } else {
        StillProjected(records, before, key, after, r);
      }
    }
    forall id | id in after ensures exists r :: r in records && Key(r) in done + {key} && r.id == id {
      if id in before {
        var r :| r in records && Key(r) in done && r.id == id;
        assert Key(r) in done + {key};
      } else {
        var r := AddedBy(records, before, key, after, id);
        assert Key(r) in done + {key};
      }
    }
  }

  lemma NewlyProjected(records: seq<Record>, before: map<string, Projection>, key: string, after: map<string, Projection>, r: Record)
    requires Overlays(Stream(records, key), before, after) && r in records && Key(r) == key
    ensures r.id in after && ProjectedAs(Stream(records, key), r, after[r.id])
  {
    hide ProjectionAt, Stream, Key, SortedBy;
    StreamIs(records, key);
    var ordered := Stream(records, key);
    var i :| 0 <= i < |ordered| && ordered[i] == r;
  }

  lemma StillProjected(records: seq<Record>, before: map<string, Projection>, key: string, after: map<string, Projection>, r: Record)
    requires UniqueIds(records) && Overlays(Stream(records, key), before, after) && r in records && Key(r) != key && r.id in before
    ensures r.id in after && after[r.id] == before[r.id]
  {
    hide ProjectionAt, Stream, Key, SortedBy, UniqueIds;
    StreamIs(records, key);
    var ordered := Stream(records, key);
    forall i | 0 <= i < |ordered| ensures ordered[i].id != r.id {
      assert ordered[i] in ordered;
      if ordered[i].id == r.id { SameRecord(records, ordered[i], r); }
    }
  }

  lemma AddedBy(records: seq<Record>, before: map<string, Projection>, key: string, after: map<string, Projection>, id: string) returns (r: Record)
    requires Overlays(Stream(records, key), before, after) && id in after && id !in before
    ensures r in records && Key(r) == key && r.id == id
  {
    hide ProjectionAt, Stream, Key, SortedBy;
    StreamIs(records, key);
    var ordered := Stream(records, key);
    var i :| 0 <= i < |ordered| && ordered[i].id == id;
    r := ordered[i];
    assert r in ordered;
  }

  /** The projection of records with unique ids. */
  method BuildGovernance(records: seq<Record>) returns (result: map<string, Projection>)
    requires UniqueIds(records)
    ensures Governs(records, result)
  {
    hide UniqueIds, GovernsKeys, Key;
    var streams := GroupStreams(records);
    result := map[];
    var left := streams.Keys;
    ghost var done: set<string> := {};
    NoStreams(records);
    while left != {}
      invariant done + left == streams.Keys && done !! left
      invariant GovernsKeys(records, result, done)
      decreases left
    {
      var key :| key in left;
      var ordered := Sort(streams[key], Earlier);
      StreamUnique(records, key);
      ghost var before := result;
      result := ProjectStream(ordered, result);
      OneMoreStream(records, before, done, key, result);
      left, done := left - {key}, done + {key};
    }
    AllStreams(records, result, streams.Keys);
  }

  lemma NoStreams(records: seq<Record>)
    ensures GovernsKeys(records, map[], {})
  {
  }

  lemma AllStreams(records: seq<Record>, result: map<string, Projection>, done: set<string>)
    requires GovernsKeys(records, result, done)
    requires forall key :: key in done <==> key != "" && InStream(records, key) != []
    ensures Governs(records, result)
  {
    hide Key, Stream, ProjectedAs;
    forall r | r in records && Key(r) != "" ensures Key(r) in done {
      InStreamIs(records, Key(r));
      assert r in InStream(records, Key(r));
    }
  }

  // ---- Main results ----

  /** The projection does not depend on the order of its input. */
  lemma OrderFree(a: seq<Record>, b: seq<Record>, ra: map<string, Projection>, rb: map<string, Projection>)
    requires UniqueIds(a) && UniqueIds(b) && multiset(a) == multiset(b) && Governs(a, ra) && Governs(b, rb)
    ensures ra == rb
  {
    hide Key, Stream, ProjectionAt;
    forall r ensures r in a <==> r in b {
      assert r in a <==> r in multiset(a);
      assert r in b <==> r in multiset(b);
    }
    forall r | r in a && Key(r) != "" ensures ra[r.id] == rb[r.id] {
      StreamOrderFree(a, b, Key(r));
      StreamUnique(a, Key(r));
      SamePlace(Stream(a, Key(r)), r, ra[r.id], rb[r.id]);
    }
    assert ra.Keys == rb.Keys;
  }

  lemma SamePlace(s: seq<Record>, r: Record, p: Projection, q: Projection)
    requires UniqueIds(s) && ProjectedAs(s, r, p) && ProjectedAs(s, r, q)
    ensures p == q
  {
  }

  lemma {:induction false} CompletesAre(s: seq<Record>)
    ensures forall r :: multiset(Completes(s))[r] == if r.quality == Complete then multiset(s)[r] else 0
    ensures forall r :: r in Completes(s) <==> r in s && r.quality == Complete
  {
    if s != [] {
      CompletesAre(s[..|s| - 1]);
      assert s == s[..|s| - 1] + [s[|s| - 1]];
    }
  }

  lemma {:induction false} CompletesSorted(s: seq<Record>)
    requires SortedBy(s, Earlier)
    ensures SortedBy(Completes(s), Earlier)
  {
    hide Earlier;
    if s != [] {
      var front, last := s[..|s| - 1], s[|s| - 1];
      CompletesSorted(front);
      CompletesAre(front);
      var c := Completes(front);
      forall i | 0 <= i < |c| ensures Earlier(c[i], last) {
        assert c[i] in c;
        var k :| 0 <= k < |front| && front[k] == c[i];
        assert s[k] == c[i];
      }
    }
  }

  predicate Current(a: Authority) { a == Authoritative || a == Provisional }

  /**
   * Exactly one version of a stream is current. It is authoritative exactly when some version is complete, and then no
   * complete version is later; otherwise it is the latest version of all.
   */
  lemma OneCurrent(s: seq<Record>) returns (c: nat)
    requires s != [] && UniqueIds(s) && SortedBy(s, Earlier)
    ensures c < |s| && s[c] == Selected(s)
    ensures forall i :: 0 <= i < |s| ==> (Current(ProjectionAt(s, i).status) <==> i == c)
    ensures ProjectionAt(s, c).status == Authoritative <==> exists i :: 0 <= i < |s| && s[i].quality == Complete
    ensures forall i :: 0 <= i < |s| && s[i].quality == Complete ==> i <= c
    ensures ProjectionAt(s, c).status == Provisional ==> c == |s| - 1
  {
    hide Earlier, SortedBy, Key;
    CompletesAre(s);
    if Completes(s) == [] {
      c := |s| - 1;
      assert forall i :: 0 <= i < |s| ==> s[i] !in Completes(s) && s[i] in s;
    } else {
      assert Selected(s) in Completes(s);
      c :| 0 <= c < |s| && s[c] == Selected(s);
      forall i | 0 <= i < |s| && s[i].quality == Complete ensures i <= c { LastComplete(s, i, c); }
    }
  }

  /** The last complete version stands behind every other complete one. */
  lemma {:induction false} LastComplete(s: seq<Record>, i: nat, c: nat)
    requires UniqueIds(s) && i < |s| && c < |s| && s[i].quality == Complete
    requires Completes(s) != [] && s[c] == Completes(s)[|Completes(s)| - 1]
    ensures i <= c
  {
    hide Earlier;
    var front := s[..|s| - 1];
    if s[|s| - 1].quality == Complete {
      assert s[c].id == s[|s| - 1].id;
    } else {
      CompletesAre(s);
      assert s[c] in Completes(s);
      assert UniqueIds(front);
      LastComplete(front, i, c);
    }
  }

  /** A record that is not complete never displaces a complete authority, wherever it falls in the stream. */
  lemma IncompleteNeverDisplaces(records: seq<Record>, x: Record, key: string)
    requires UniqueIds(records + [x]) && x.quality != Complete && Completes(Stream(records, key)) != []
    ensures Stream(records + [x], key) != []
    ensures Selected(Stream(records + [x], key)) == Selected(Stream(records, key))
  {
    hide Earlier, Key, Sort, SortedBy, NoTies, InStream, Completes, Stream;
    var s, t := Stream(records, key), Stream(records + [x], key);
    StreamIs(records, key);
    StreamIs(records + [x], key);
    CompletesSorted(s);
    CompletesSorted(t);
    SameCompletes(records, x, key);
    StreamUnique(records + [x], key);
    CompletesNoTies(t);
    SortedUnique(Completes(t), Completes(s), Earlier);
    NoCompletes();
  }

  lemma NoCompletes()
    ensures Completes([]) == []
  {
  }

  lemma SameCompletes(records: seq<Record>, x: Record, key: string)
    requires x.quality != Complete
    ensures multiset(Completes(Stream(records + [x], key))) == multiset(Completes(Stream(records, key)))
  {
    hide Earlier, Key, Sort, SortedBy, InStream, Completes;
    var s, t := Stream(records, key), Stream(records + [x], key);
    StreamIs(records, key);
    StreamIs(records + [x], key);
    InStreamIs(records, key);
    InStreamIs(records + [x], key);
    CompletesAre(s);
    CompletesAre(t);
    forall r ensures multiset(Completes(s))[r] == multiset(Completes(t))[r] {
      assert multiset(records + [x])[r] == multiset(records)[r] + if r == x then 1 else 0;
    }
  }

  lemma CompletesNoTies(t: seq<Record>)
    requires UniqueIds(t)
    ensures NoTies(Completes(t), Earlier)
  {
    hide Earlier;
    NoTiesInUnique(t);
    CompletesAre(t);
    var c := Completes(t);
    forall i, j | 0 <= i < |c| && 0 <= j < |c| && Earlier(c[i], c[j]) && Earlier(c[j], c[i]) ensures c[i] == c[j] {
      assert c[i] in c && c[j] in c;
      var k :| 0 <= k < |t| && t[k] == c[i];
      var l :| 0 <= l < |t| && t[l] == c[j];
    }
  }

  // ---- Summary ----

  function EvidenceIds(records: seq<Record>): set<string> {
    if records == [] then {} else
      var rest, r := EvidenceIds(records[..|records| - 1]), records[|records| - 1];
      if Key(r) != "" then rest + {r.id} else rest
  }

  function Deliverables(records: seq<Record>): nat {
    if records == [] then 0 else
      Deliverables(records[..|records| - 1]) + if Key(records[|records| - 1]) != "" then 0 else 1
  }

  lemma {:induction false} EvidenceMembers(records: seq<Record>, id: string)
    ensures id in EvidenceIds(records) <==> exists r :: r in records && Key(r) != "" && r.id == id
  {
    hide Key;
    if records != [] {
      var front, last := records[..|records| - 1], records[|records| - 1];
      assert records == front + [last];
      EvidenceMembers(front, id);
      if r :| r in front && Key(r) != "" && r.id == id { assert r in records; }
      if Key(last) != "" && last.id == id { assert last in records; }
    }
  }

  lemma {:induction false} EvidenceAndDeliverables(records: seq<Record>)
    requires UniqueIds(records)
    ensures |EvidenceIds(records)| + Deliverables(records) == |records|
    ensures forall id :: id in EvidenceIds(records) <==> exists r :: r in records && Key(r) != "" && r.id == id
  {
    hide Key;
    forall id ensures id in EvidenceIds(records) <==> exists r :: r in records && Key(r) != "" && r.id == id {
      EvidenceMembers(records, id);
    }
    if records != [] {
      var front, last := records[..|records| - 1], records[|records| - 1];
      assert UniqueIds(front);
      EvidenceAndDeliverables(front);
      if r :| r in front && r.id == last.id { SameIdBefore(records, r); }
    }
  }

  lemma SameIdBefore(records: seq<Record>, r: Record)
    requires UniqueIds(records) && records != [] && r in records[..|records| - 1]
    ensures r.id != records[|records| - 1].id
  {
  }

  function WithStatus(result: map<string, Projection>, a: Authority): set<string> { set id | id in result && result[id].status == a }

  function ProjectedStreams(result: map<string, Projection>): set<string> { set id | id in result :: result[id].key }

  ghost function StreamKeys(records: seq<Record>): set<string> { set r | r in records && Key(r) != "" :: Key(r) }

  lemma StatusesPartition(result: map<string, Projection>)
    ensures |WithStatus(result, Authoritative)| + |WithStatus(result, Provisional)| + |WithStatus(result, Incomplete)|
      + |WithStatus(result, Historical)| == |result.Keys|
  {
    var a, p := WithStatus(result, Authoritative), WithStatus(result, Provisional);
    var i, h := WithStatus(result, Incomplete), WithStatus(result, Historical);
    StatusesCover(result);
    hide WithStatus;
    assert |a + p| == |a| + |p|;
    assert |a + p + i| == |a + p| + |i|;
    assert |a + p + i + h| == |a + p + i| + |h|;
  }

  lemma StatusesCover(result: map<string, Projection>)
    ensures
      var a, p := WithStatus(result, Authoritative), WithStatus(result, Provisional);
      var i, h := WithStatus(result, Incomplete), WithStatus(result, Historical);
      result.Keys == a + p + i + h && a !! p && (a + p) !! i && (a + p + i) !! h
  {
  }

  /** The id that stands for a stream. */
  ghost function CurrentId(records: seq<Record>, key: string): string {
    if Stream(records, key) == [] then "" else Selected(Stream(records, key)).id
  }

  lemma CurrentIdIs(records: seq<Record>, result: map<string, Projection>, key: string)
    requires UniqueIds(records) && Governs(records, result) && key in StreamKeys(records)
    ensures exists r :: r in records && Key(r) == key && r.id == CurrentId(records, key)
    ensures CurrentId(records, key) in result && Current(result[CurrentId(records, key)].status)
  {
    hide Key, Earlier, Sort, SortedBy, InStream, Completes, Selected, StatusOf;
    var q :| q in records && Key(q) == key;
    var s := Stream(records, key);
    StreamIs(records, key);
    StreamUnique(records, key);
    assert q in s;
    var c := OneCurrent(s);
    assert s[c] in s;
    var p := result[s[c].id];
    var i :| 0 <= i < |s| && s[i] == s[c] && p == ProjectionAt(s, i);
    assert i == c;
  }

  lemma CurrentIsCurrentId(records: seq<Record>, result: map<string, Projection>, r: Record)
    requires UniqueIds(records) && Governs(records, result) && r in records && Key(r) != "" && Current(result[r.id].status)
    ensures r.id == CurrentId(records, Key(r))
  {
    hide Key, Earlier, Sort, SortedBy, InStream, Completes, Selected, StatusOf;
    var s := Stream(records, Key(r));
    StreamIs(records, Key(r));
    StreamUnique(records, Key(r));
    assert r in s;
    var c := OneCurrent(s);
    var i :| 0 <= i < |s| && s[i] == r && result[r.id] == ProjectionAt(s, i);
  }

  lemma {:induction false} ImageSize(keys: set<string>, f: string -> string)
    requires forall k, l :: k in keys && l in keys && f(k) == f(l) ==> k == l
    ensures |set k | k in keys :: f(k)| == |keys|
  {
    if keys != {} {
      var k :| k in keys;
      ImageSize(keys - {k}, f);
      var rest := set l | l in keys - {k} :: f(l);
      assert (set l | l in keys :: f(l)) == rest + {f(k)};
      assert f(k) !in rest;
    }
  }

  /** Each stream has one current record: the authoritative and provisional ones together are as many as the streams. */
  lemma OneCurrentPerStream(records: seq<Record>, result: map<string, Projection>)
    requires UniqueIds(records) && Governs(records, result)
    ensures |StreamKeys(records)| == |WithStatus(result, Authoritative)| + |WithStatus(result, Provisional)|
  {
    hide Key, Stream, Selected, Governs, CurrentId;
    var keys := StreamKeys(records);
    var f := key => CurrentId(records, key);
    forall k | k in keys
      ensures (exists r :: r in records && Key(r) == k && r.id == f(k)) && f(k) in result && Current(result[f(k)].status)
    {
      CurrentIdIs(records, result, k);
    }
    forall k, l | k in keys && l in keys && f(k) == f(l) ensures k == l {
      var r :| r in records && Key(r) == k && r.id == f(k);
      var q :| q in records && Key(q) == l && q.id == f(l);
      SameRecord(records, r, q);
    }
    ImageSize(keys, f);
    var image := set k | k in keys :: f(k);
    var a, p := WithStatus(result, Authoritative), WithStatus(result, Provisional);
    forall id | id in a + p ensures id in image {
      var r := RecordOf(records, result, id);
      CurrentIsCurrentId(records, result, r);
      assert Key(r) in keys;
    }
    assert image == a + p;
    assert |a + p| == |a| + |p|;
  }

  lemma RecordOf(records: seq<Record>, result: map<string, Projection>, id: string) returns (r: Record)
    requires Governs(records, result) && id in result
    ensures r in records && Key(r) != "" && r.id == id
  {
    r :| r in records && Key(r) != "" && r.id == id;
  }

  /** governance_summary: the four statuses and the deliverables account for every record, and the current ones for every stream. */
  method Summary(records: seq<Record>)
    returns (streams: nat, authoritative: nat, provisional: nat, incomplete: nat, historical: nat, deliverables: nat,
             ghost governed: map<string, Projection>)
    requires UniqueIds(records)
    ensures Governs(records, governed)
    ensures authoritative == |WithStatus(governed, Authoritative)| && provisional == |WithStatus(governed, Provisional)|
    ensures incomplete == |WithStatus(governed, Incomplete)| && historical == |WithStatus(governed, Historical)|
    ensures authoritative + provisional + incomplete + historical + deliverables == |records|
    ensures authoritative + provisional == streams
    ensures deliverables == Deliverables(records)
  {
    hide Key, UniqueIds, Governs, WithStatus, ProjectedStreams, StreamKeys, EvidenceIds, Deliverables;
    var result := BuildGovernance(records);
    governed := result;
    authoritative, provisional := |WithStatus(result, Authoritative)|, |WithStatus(result, Provisional)|;
    incomplete, historical := |WithStatus(result, Incomplete)|, |WithStatus(result, Historical)|;
    streams := |ProjectedStreams(result)|;
    deliverables := CountDeliverables(records, result);
    ProjectedKeys(records, result);
    StatusesPartition(result);
    OneCurrentPerStream(records, result);
    EvidenceAndDeliverables(records);
    ResultKeys(records, result);
  }

  method CountDeliverables(records: seq<Record>, result: map<string, Projection>) returns (count: nat)
    requires UniqueIds(records) && Governs(records, result)
    ensures count == Deliverables(records)
  {
    hide Key, UniqueIds, Governs;
    count := 0;
    var i := 0;
    assert records[..0] == [];
    while i < |records|
      invariant i <= |records| && count == Deliverables(records[..i])
    {
      assert records[..i + 1][..i] == records[..i];
      EvidenceProjected(records, result, records[i]);
      if records[i].id !in result { count := count + 1; }
      i := i + 1;
    }
    assert records[..|records|] == records;
  }

  lemma ProjectedKeys(records: seq<Record>, result: map<string, Projection>)
    requires UniqueIds(records) && Governs(records, result)
    ensures ProjectedStreams(result) == StreamKeys(records)
  {
  }

  lemma EvidenceProjected(records: seq<Record>, result: map<string, Projection>, r: Record)
    requires UniqueIds(records) && Governs(records, result) && r in records
    ensures r.id in result <==> Key(r) != ""
  {
  }

  lemma ResultKeys(records: seq<Record>, result: map<string, Projection>)
    requires UniqueIds(records) && Governs(records, result)
    ensures result.Keys == EvidenceIds(records)
  {
    hide Key, EvidenceIds, Stream, ProjectedAs;
    EvidenceAndDeliverables(records);
    forall id ensures id in result <==> id in EvidenceIds(records) {
      if id in EvidenceIds(records) { var r :| r in records && Key(r) != "" && r.id == id; }
    }
  }
}
