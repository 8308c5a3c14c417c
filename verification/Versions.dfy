/** The evidence projection of a record, said from the records alone, without a sorted stream. */
module Versions {
  import opened Ordering
  import opened Governance

  /** Created before, or at the same time under a smaller id. */
  ghost predicate Precedes(a: Record, b: Record) {
    Less(a.createdAt, b.createdAt) || (a.createdAt == b.createdAt && Less(a.id, b.id))
  }

  ghost function Peers(records: seq<Record>, r: Record): set<Record> { set x | x in records && Key(x) == Key(r) }

  /**
   * Which stream a record belongs to: the one its evidence key names, or else that of its producer, or run, and role. A
   * redacted key names nothing.
   */
  lemma KeyNames(r: Record)
    ensures r.evidenceKey !in {"", "[REDACTED_SECRET]"} ==> Key(r) == r.evidenceKey
    ensures r.evidenceKey in {"", "[REDACTED_SECRET]"} && r.role != "" && r.producer != "" ==> Key(r) == r.producer + ":" + r.role
    ensures r.evidenceKey in {"", "[REDACTED_SECRET]"} && r.role != "" && r.producer == "" && r.runId != "" ==> Key(r) == r.runId + ":" + r.role
    ensures r.evidenceKey in {"", "[REDACTED_SECRET]"} && (r.role == "" || (r.producer == "" && r.runId == "")) ==> Key(r) == ""
  {
  }

  ghost function Members(s: seq<Record>): set<Record> { set x | x in s }

  lemma EarlierPrecedes(a: Record, b: Record)
    requires a.id != b.id
    ensures Earlier(a, b) <==> Precedes(a, b)
    ensures !(Precedes(a, b) && Precedes(b, a))
  {
    hide StringLe, Less;
    StringLeIsLess(a.createdAt, b.createdAt);
    StringLeIsLess(b.createdAt, a.createdAt);
    StringLeIsLess(a.id, b.id);
    StringLeIsLess(b.id, a.id);
    if StringLe(a.createdAt, b.createdAt) && StringLe(b.createdAt, a.createdAt) { StringAntisymmetric(a.createdAt, b.createdAt); }
    if StringLe(a.id, b.id) && StringLe(b.id, a.id) { StringAntisymmetric(a.id, b.id); }
  }

  /** In a stream the positions are the order. */
  lemma PositionsPrecede(s: seq<Record>, i: nat, j: nat)
    requires UniqueIds(s) && SortedBy(s, Earlier) && i < |s| && j < |s|
    ensures Precedes(s[i], s[j]) <==> i < j
  {
    hide Earlier, Precedes;
    if i < j {
      EarlierPrecedes(s[i], s[j]);
    } else if j < i {
      EarlierPrecedes(s[j], s[i]);
    } else {
      NeverItself(s[i]);
    }
  }

  lemma NeverItself(r: Record)
    ensures !Precedes(r, r)
  {
    hide Less;
    StringLeIsLess(r.createdAt, r.createdAt);
    StringLeIsLess(r.id, r.id);
  }

  lemma {:induction false} SizeOf(s: seq<Record>)
    requires UniqueIds(s)
    ensures |Members(s)| == |s|
  {
    if s != [] {
      var front, last := s[..|s| - 1], s[|s| - 1];
      assert s == front + [last];
      assert UniqueIds(front);
      SizeOf(front);
      assert last !in front;
      assert Members(s) == Members(front) + {last};
    }
  }

  /** The one whose evidence counts: complete with no complete one after it, or the latest where none is complete. */
  ghost predicate CountsAmong(peers: set<Record>, a: Record) {
    && a in peers
    && if exists x :: x in peers && x.quality == Complete
       then a.quality == Complete && forall x :: x in peers && x.quality == Complete ==> !Precedes(a, x)
       else forall x :: x in peers ==> !Precedes(a, x)
  }

  ghost predicate LatestAmong(peers: set<Record>, l: Record) { l in peers && forall x :: x in peers ==> !Precedes(l, x) }

  /** Everything the projection of a record says. */
  ghost predicate Told(peers: set<Record>, r: Record, p: Projection) {
    && p.key == Key(r) && p.quality == r.quality
    && p.version == 1 + |set x | x in peers && Precedes(x, r)| && p.versions == |peers|
    && (exists a :: CountsAmong(peers, a) && p.authoritative == a.id)
    && (exists l :: LatestAmong(peers, l) && p.latest == l.id)
    && (p.isLatest <==> r.id == p.latest)
    && p.status == if r.id == p.authoritative then (if r.quality == Complete then Authoritative else Provisional)
                   else if r.quality == Complete then Historical else Incomplete
  }

  /**
   * The projection of every evidence record, for any input order: its version is one more than the number of versions
   * created before it, the authority is the last complete one, or the last where none is complete.
   */
  lemma ProjectionTold(records: seq<Record>, result: map<string, Projection>, r: Record)
    requires UniqueIds(records) && Governs(records, result) && r in records && Key(r) != ""
    ensures r.id in result && Told(Peers(records, r), r, result[r.id])
  {
    hide Earlier, Key, Sort, InStream, SortedBy, Precedes, ProjectionAt;
    var s := Stream(records, Key(r));
    StreamIs(records, Key(r));
    StreamUnique(records, Key(r));
    assert ProjectedAs(s, r, result[r.id]);
    var i :| 0 <= i < |s| && s[i] == r && result[r.id] == ProjectionAt(s, i);
    assert Peers(records, r) == Members(s);
    PlaceTold(s, i);
  }

  lemma PlaceTold(s: seq<Record>, i: nat)
    requires UniqueIds(s) && SortedBy(s, Earlier) && i < |s|
    ensures Told(Members(s), s[i], ProjectionAt(s, i))
  {
    hide Earlier, Key, SortedBy, Precedes, Completes;
    var peers, p := Members(s), ProjectionAt(s, i);
    forall j: nat, k: nat | j < |s| && k < |s| ensures Precedes(s[j], s[k]) <==> j < k { PositionsPrecede(s, j, k); }
    SizeOf(s);
    assert UniqueIds(s[..i]);
    SizeOf(s[..i]);
    BeforePlace(s, i);
    assert LatestAmong(peers, s[|s| - 1]);
    var c := OneCurrent(s);
    CurrentCounts(s, c);
  }

  lemma BeforePlace(s: seq<Record>, i: nat)
    requires UniqueIds(s) && i < |s|
    requires forall j: nat, k: nat :: j < |s| && k < |s| ==> (Precedes(s[j], s[k]) <==> j < k)
    ensures (set x | x in Members(s) && Precedes(x, s[i])) == Members(s[..i])
  {
    hide Precedes;
    forall x ensures x in s && Precedes(x, s[i]) <==> x in s[..i] {
      if x in s && Precedes(x, s[i]) { var j: nat :| j < |s| && s[j] == x; assert s[..i][j] == x; }
      if x in s[..i] { var j: nat :| j < i && s[..i][j] == x; assert s[j] == x; }
    }
  }

  lemma CurrentCounts(s: seq<Record>, c: nat)
    requires UniqueIds(s) && c < |s| && s[c] == Selected(s)
    requires forall j: nat, k: nat :: j < |s| && k < |s| ==> (Precedes(s[j], s[k]) <==> j < k)
    requires forall i :: 0 <= i < |s| && s[i].quality == Complete ==> i <= c
    requires (exists i :: 0 <= i < |s| && s[i].quality == Complete) ==> s[c].quality == Complete
    requires (forall i :: 0 <= i < |s| ==> s[i].quality != Complete) ==> c == |s| - 1
    ensures CountsAmong(Members(s), s[c])
  {
    hide Precedes, Selected;
    var peers := Members(s);
    forall x | x in peers ensures exists j: nat :: j < |s| && s[j] == x {}
  }
}
