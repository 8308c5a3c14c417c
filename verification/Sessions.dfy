/** One session record, its messages, and the tombstone that keeps a deleted session from coming back. */
module Sessions {
  import opened Common
  import opened Ordering

  datatype Session = Session(title: string, status: string, runs: seq<string>, partial: bool)

  /** A stored message: when, the run it came from if any, and the user's words on one line (empty for other roles). */
  datatype Message = Message(at: int, run: string, said: string)

  datatype State = State(tombstoned: bool, meta: Option<Session>, messages: seq<Message>, registry: bool)

  const DEFAULT_TITLE := "新会话"

  // ---- Run ids ----

  /** Appends the ids that are not there yet, in order, skipping empty ones. */
  function Merge(runs: seq<string>, more: seq<string>): seq<string>
    decreases |more|
  {
    if more == [] then runs else
      var r := more[0];
      Merge(if r == "" || r in runs then runs else runs + [r], more[1..])
  }

  lemma {:induction false} MergeExtends(runs: seq<string>, more: seq<string>)
    ensures runs <= Merge(runs, more)
    ensures Distinct(runs) ==> Distinct(Merge(runs, more))
    ensures forall r :: r in Merge(runs, more) <==> r in runs || (r in more && r != "")
    decreases |more|
  {
    if more != [] {
      var r := more[0];
      MergeExtends(if r == "" || r in runs then runs else runs + [r], more[1..]);
      assert more == [r] + more[1..];
    }
  }

  predicate Before(a: Message, b: Message) { a.at <= b.at }

  function RunsOf(messages: seq<Message>): seq<string> {
    seq(|messages|, i requires 0 <= i < |messages| => messages[i].run)
  }

  /** The run ids a repair finds in the messages, oldest first. */
  function FoundRuns(messages: seq<Message>): seq<string> { Merge([], RunsOf(Sort(messages, Before))) }

  /** The first words a user said, cut at 60 characters. */
  function FirstWords(sorted: seq<Message>): string
    decreases |sorted|
  {
    if sorted == [] then ""
    else if sorted[0].said != "" then sorted[0].said[..if |sorted[0].said| < 60 then |sorted[0].said| else 60]
    else FirstWords(sorted[1..])
  }

  function FoundTitle(messages: seq<Message>): string { FirstWords(Sort(messages, Before)) }

  lemma BeforeOrder()
    ensures TotalPreorder(Before)
  {
  }

  /** The messages from oldest to newest. */
  lemma OldestFirst(messages: seq<Message>)
    ensures forall m :: m in Sort(messages, Before) <==> m in messages
    ensures forall i, j :: 0 <= i < j < |Sort(messages, Before)| ==> Sort(messages, Before)[i].at <= Sort(messages, Before)[j].at
  {
    hide Sort;
    BeforeOrder();
    SortSorts(messages, Before);
    SortPermutes(messages, Before);
    var sorted := Sort(messages, Before);
    forall m ensures m in sorted <==> m in messages {
      assert m in sorted <==> m in multiset(sorted);
      assert m in messages <==> m in multiset(messages);
    }
    forall i, j | 0 <= i < j < |sorted| ensures sorted[i].at <= sorted[j].at { assert Before(sorted[i], sorted[j]); }
  }

  /** The title found is what the user said first, if anything, cut at 60 characters. */
  lemma TitleIsFirstSaid(messages: seq<Message>)
    ensures FoundTitle(messages) == "" <==> forall m :: m in messages ==> m.said == ""
    ensures FoundTitle(messages) != "" ==> exists m :: m in messages && SaidFirst(messages, m) && Headline(m.said, FoundTitle(messages))
  {
    hide Sort;
    OldestFirst(messages);
    FirstWordsAre(Sort(messages, Before));
    if FoundTitle(messages) != "" {
      var sorted := Sort(messages, Before);
      var i :| 0 <= i < |sorted| && Headline(sorted[i].said, FoundTitle(messages)) && forall j :: 0 <= j < i ==> sorted[j].said == "";
      forall x | x in messages && x.said != "" ensures sorted[i].at <= x.at {
        assert x in sorted;
        var j :| 0 <= j < |sorted| && sorted[j] == x;
      }
      assert sorted[i] in messages && SaidFirst(messages, sorted[i]);
    }
  }

  ghost predicate SaidFirst(messages: seq<Message>, m: Message) {
    m.said != "" && forall x :: x in messages && x.said != "" ==> m.at <= x.at
  }

  ghost predicate Headline(said: string, title: string) {
    title != "" && title <= said && (|said| <= 60 ==> title == said) && (|said| > 60 ==> |title| == 60)
  }

  lemma {:induction false} FirstWordsAre(sorted: seq<Message>)
    ensures FirstWords(sorted) == "" <==> forall m :: m in sorted ==> m.said == ""
    ensures FirstWords(sorted) != "" ==>
      exists i :: 0 <= i < |sorted| && Headline(sorted[i].said, FirstWords(sorted)) && forall j :: 0 <= j < i ==> sorted[j].said == ""
    decreases |sorted|
  {
    if sorted != [] {
      assert sorted == [sorted[0]] + sorted[1..];
      if sorted[0].said != "" {
        assert Headline(sorted[0].said, FirstWords(sorted));
      } else {
        FirstWordsAre(sorted[1..]);
        if FirstWords(sorted) != "" {
          var i :| 0 <= i < |sorted[1..]| && Headline(sorted[1..][i].said, FirstWords(sorted)) && forall j :: 0 <= j < i ==> sorted[1..][j].said == "";
          forall j | 0 <= j < i + 1 ensures sorted[j].said == "" { if j > 0 { assert sorted[j] == sorted[1..][j - 1]; } }
          assert Headline(sorted[i + 1].said, FirstWords(sorted));
        }
      }
    }
  }

  /** Of two runs found the one listed first has a message no later than any of the other. */
  lemma RunsOldestFirst(messages: seq<Message>, i: nat, j: nat)
    requires i < j < |FoundRuns(messages)|
    ensures exists m :: m in messages && m.run == FoundRuns(messages)[i] && ComesFirst(messages, m, FoundRuns(messages)[j])
    ensures FoundRuns(messages)[i] != "" && FoundRuns(messages)[i] != FoundRuns(messages)[j]
  {
    hide Sort, Merge;
    OldestFirst(messages);
    var sorted := Sort(messages, Before);
    var runs := RunsOf(sorted);
    MergeExtends([], runs);
    assert Distinct<string>([]);
    var k := FoundAt(runs, i, j);
    forall x | x in messages && x.run == FoundRuns(messages)[j] ensures sorted[k].at <= x.at {
      assert x in sorted;
      var l :| 0 <= l < |sorted| && sorted[l] == x;
      assert runs[l] == FoundRuns(messages)[j];
    }
    assert sorted[k] in messages && ComesFirst(messages, sorted[k], FoundRuns(messages)[j]);
    assert FoundRuns(messages)[i] in FoundRuns(messages);
  }

  ghost predicate ComesFirst(messages: seq<Message>, m: Message, run: string) {
    forall x :: x in messages && x.run == run ==> m.at <= x.at
  }

  /** A position of the i-th merged run before every position of the j-th. */
  lemma FoundAt(runs: seq<string>, i: nat, j: nat) returns (k: nat)
    requires i < j < |Merge([], runs)|
    ensures k < |runs| && runs[k] == Merge([], runs)[i]
    ensures forall l :: 0 <= l < |runs| && runs[l] == Merge([], runs)[j] ==> k < l
  {
    k := MergedAt([], runs, i, j);
  }

  lemma {:induction false} MergedAt(runs: seq<string>, more: seq<string>, i: nat, j: nat) returns (k: nat)
    requires |runs| <= i < j < |Merge(runs, more)| && Distinct(runs)
    ensures k < |more| && more[k] == Merge(runs, more)[i]
    ensures forall l :: 0 <= l < |more| && more[l] == Merge(runs, more)[j] ==> k < l
    decreases |more|
  {
    var r := more[0];
    var next := if r == "" || r in runs then runs else runs + [r];
    MergeExtends(next, more[1..]);
    var all := Merge(runs, more);
    if i < |next| {
      k := 0;
      assert all[i] == next[i] == r;
    } else {
      k := MergedAt(next, more[1..], i, j);
      MergeExtends(runs, more);
      assert all[j] in all;
      if r in next {
        var x: nat :| x < |next| && next[x] == r;
        assert all[x] == next[x] && all[x] != all[j];
      }
      forall l | 0 <= l < |more| && more[l] == all[j] ensures k + 1 < l { assert l > 0 && more[l] == more[1..][l - 1]; }
      k := k + 1;
    }
  }

  // ---- Operations under the session lock ----

  function Ensured(s: State, title: string): State {
    if s.tombstoned || s.meta.Some? then s
    else s.(meta := Some(Session(if title == "" then DEFAULT_TITLE else title, "active", [], false)))
  }

  /** `auto` is the title a run suggests for a session that has none. */
  function WithRun(s: State, run: string, auto: string): State {
    if s.tombstoned || s.meta.None? || run in s.meta.value.runs then s
    else
      var m := s.meta.value.(runs := s.meta.value.runs + [run]);
      s.(meta := Some(if m.title == "" then m.(title := auto) else m))
  }

  function Renamed(s: State, title: Option<string>, status: Option<string>): State {
    if s.tombstoned || s.meta.None? then s
    else
      var m := if title.Some? then s.meta.value.(title := title.value) else s.meta.value;
      var known := status.Some? && (status.value == "active" || status.value == "archived" || status.value == "deleted");
      s.(meta := Some(if known then m.(status := status.value) else m))
  }

  function RepairBase(s: State, base: Option<Session>): Session {
    if s.meta.Some? then s.meta.value else if base.Some? then base.value else Session(DEFAULT_TITLE, "active", [], false)
  }

  function FirstOf(a: string, b: string, c: string): string { if a != "" then a else if b != "" then b else c }

  /** A repair merges what messages read earlier hold into the present record, or into the caller's older copy of it. */
  function Repaired(s: State, seen: seq<Message>, base: Option<Session>): State {
    if s.tombstoned || seen == [] then s
    else
      var start := RepairBase(s, base);
      s.(meta := Some(Session(FirstOf(FoundTitle(seen), start.title, DEFAULT_TITLE), FirstOf(start.status, "active", ""),
                              Merge(start.runs, FoundRuns(seen)), false)))
  }

  /** A permanent deletion: the tombstone comes first; each later removal may fail or not happen at all. */
  function Deleted(s: State, metaGone: bool, messagesGone: bool, registryGone: bool): State {
    State(true, if metaGone then None else s.meta, if messagesGone then [] else s.messages, if registryGone then false else s.registry)
  }

  /** A record with what the messages hold: their title if they have one, and their runs behind its own. */
  ghost predicate RebuiltFrom(start: Session, seen: seq<Message>, session: Session) {
    && session.title == (if FoundTitle(seen) != "" then FoundTitle(seen) else if start.title != "" then start.title else "新会话")
    && session.status == (if start.status != "" then start.status else "active")
    && session.runs == Merge(start.runs, FoundRuns(seen))
  }

  function Read(s: State): Option<Session> { if s.tombstoned then None else s.meta }

  predicate Shown(session: Session, status: Option<string>) {
    if status.None? then session.status != "deleted" else session.status == status.value
  }

  /** The grouping by status, and the counts made from it, show a record without repairing it. */
  predicate Grouped(s: State, status: string) {
    s.meta.Some? && s.meta.value.status == status && (status == "active" || status == "archived" || status == "deleted")
  }

  /** Listing repairs a record that is partial or still titled by its id, and rebuilds one that has only messages. */
  predicate WantsRepair(s: State, id: string) {
    s.meta.None? || s.meta.value.partial || s.meta.value.title == id
  }

  function Listed(s: State, id: string): State { if WantsRepair(s, id) then Repaired(s, s.messages, s.meta) else s }

  class SessionStore {
    var tombstoned: bool
    var meta: Option<Session>
    var messages: seq<Message>
    var registry: bool

    function View(): State
      reads this
    {
      State(tombstoned, meta, messages, registry)
    }

    constructor ()
      ensures View() == State(false, None, [], false)
    {
      tombstoned, meta, messages, registry := false, None, [], false;
    }

    method EnsureSession(title: string) returns (result: Option<Session>)
      modifies this
      ensures View() == Ensured(old(View()), title)
      ensures result == if old(tombstoned) then None else meta
      ensures old(tombstoned) || old(meta).Some? ==> View() == old(View())
      ensures !old(tombstoned) && old(meta).None? ==>
        View() == old(View()).(meta := Some(Session(if title == "" then "新会话" else title, "active", [], false)))
    {
      if tombstoned { return None; }
      if meta.None? {
        meta := Some(Session(if title == "" then DEFAULT_TITLE else title, "active", [], false));
      }
      result := meta;
    }

    method GetSession() returns (result: Option<Session>)
      ensures result == Read(View())
      ensures result == if tombstoned then None else meta
    {
      if tombstoned { return None; }
      result := meta;
    }

    method Update(newTitle: Option<string>, newStatus: Option<string>) returns (result: Option<Session>)
      modifies this
      ensures View() == Renamed(old(View()), newTitle, newStatus)
      ensures result == if old(tombstoned) then None else meta
      ensures old(tombstoned) || old(meta).None? ==> View() == old(View())
      ensures !old(tombstoned) && old(meta).Some? ==>
        && meta.Some? && View() == old(View()).(meta := meta)
        && meta.value.title == (if newTitle.Some? then newTitle.value else old(meta).value.title)
        && meta.value.status == (if newStatus in {Some("active"), Some("archived"), Some("deleted")} then newStatus.value else old(meta).value.status)
        && meta.value.runs == old(meta).value.runs && meta.value.partial == old(meta).value.partial
    {
      if tombstoned || meta.None? { return None; }
      var session := meta.value;
      if newTitle.Some? { session := session.(title := newTitle.value); }
      if newStatus.Some? && newStatus.value in ["active", "archived", "deleted"] { session := session.(status := newStatus.value); }
      meta := Some(session);
      result := meta;
    }

    method AddRun(run: string, auto: string) returns (result: Option<Session>)
      modifies this
      ensures View() == WithRun(old(View()), run, auto)
      ensures result == if old(tombstoned) then None else meta
      ensures old(tombstoned) || old(meta).None? || run in old(meta).value.runs ==> View() == old(View())
      ensures !old(tombstoned) && old(meta).Some? && run !in old(meta).value.runs ==>
        && meta.Some? && View() == old(View()).(meta := meta)
        && meta.value.runs == old(meta).value.runs + [run]
        && meta.value.title == (if old(meta).value.title == "" then auto else old(meta).value.title)
        && meta.value.status == old(meta).value.status && meta.value.partial == old(meta).value.partial
    {
      if tombstoned { return None; }
      if meta.Some? && run !in meta.value.runs {
        meta := Some(meta.value.(runs := meta.value.runs + [run]));
        if meta.value.title == "" && auto != "" { meta := Some(meta.value.(title := auto)); }
      }
      result := meta;
    }

    /** The lists built before the lock is taken. */
    method CollectRuns(seen: seq<Message>) returns (found: seq<string>)
      ensures found == FoundRuns(seen)
    {
      var sorted := Sort(seen, Before);
      found := [];
      var i := 0;
      ghost var runs := RunsOf(sorted);
      assert runs[0..] == runs;
      while i < |sorted|
        invariant i <= |sorted| && |runs| == |sorted| && Merge(found, runs[i..]) == Merge([], runs)
      {
        assert runs[i..][0] == sorted[i].run && runs[i..][1..] == runs[i + 1..];
        if sorted[i].run != "" && sorted[i].run !in found { found := found + [sorted[i].run]; }
        i := i + 1;
      }
      assert runs[|sorted|..] == [];
    }

    method CollectTitle(seen: seq<Message>) returns (title: string)
      ensures title == FoundTitle(seen)
    {
      var sorted := Sort(seen, Before);
      title := "";
      var i := 0;
      assert sorted[0..] == sorted;
      while i < |sorted|
        invariant i <= |sorted| && title == "" && FirstWords(sorted[i..]) == FirstWords(sorted)
      {
        if sorted[i].said != "" {
          return sorted[i].said[..if |sorted[i].said| < 60 then |sorted[i].said| else 60];
        }
        assert sorted[i..][1..] == sorted[i + 1..];
        i := i + 1;
      }
    }

    method MergeRuns(runs: seq<string>, found: seq<string>) returns (merged: seq<string>)
      requires "" !in found
      ensures merged == Merge(runs, found)
    {
      merged := runs;
      var i := 0;
      assert found[0..] == found;
      while i < |found|
        invariant i <= |found| && Merge(merged, found[i..]) == Merge(runs, found)
      {
        assert found[i] in found && found[i..][1..] == found[i + 1..];
        if found[i] !in merged { merged := merged + [found[i]]; }
        i := i + 1;
      }
    }

    method Repair(seen: seq<Message>, base: Option<Session>) returns (result: Option<Session>)
      modifies this
      ensures View() == Repaired(old(View()), seen, base)
      ensures result == if seen == [] || old(tombstoned) then None else meta
      ensures seen == [] || old(tombstoned) ==> View() == old(View())
      ensures seen != [] && !old(tombstoned) ==>
        && meta.Some? && View() == old(View()).(meta := meta) && !meta.value.partial
        && (old(meta).Some? ==> RebuiltFrom(old(meta).value, seen, meta.value))
        && (old(meta).None? && base.Some? ==> RebuiltFrom(base.value, seen, meta.value))
        && (old(meta).None? && base.None? ==> RebuiltFrom(Session("新会话", "active", [], false), seen, meta.value))
    {
      if seen == [] { return None; }
      var found := CollectRuns(seen);
      var title := CollectTitle(seen);
      if tombstoned { return None; }
      var session := if meta.Some? then meta.value else if base.Some? then base.value else Session(DEFAULT_TITLE, "active", [], false);
      MergeExtends([], RunsOf(Sort(seen, Before)));
      var merged := MergeRuns(session.runs, found);
      if title == "" { title := session.title; }
      if title == "" { title := DEFAULT_TITLE; }
      meta := Some(Session(title, if session.status != "" then session.status else "active", merged, false));
      result := meta;
    }

    /** This session's entry in a listing; the tombstone is looked at only when a repair is due. */
    method ListEntry(id: string, status: Option<string>) returns (entry: Option<Session>)
      modifies this
      ensures View() == Listed(old(View()), id)
      ensures entry == if View().meta.Some? && Shown(View().meta.value, status) then View().meta else None
      ensures entry.Some? <==>
        meta.Some? && (if status.None? then meta.value.status != "deleted" else meta.value.status == status.value)
      ensures old(tombstoned) || (old(meta).Some? && !old(meta).value.partial && old(meta).value.title != id) ==> View() == old(View())
      ensures !old(tombstoned) && old(messages) != [] && (old(meta).None? || old(meta).value.partial || old(meta).value.title == id) ==>
        meta.Some? && RebuiltFrom(if old(meta).Some? then old(meta).value else Session("新会话", "active", [], false), old(messages), meta.value)
    {
      if meta.Some? && !meta.value.partial && meta.value.title != id {
        entry := meta;
      } else {
        var before := meta;
        entry := Repair(messages, before);
        if entry.None? { entry := before; }
      }
      if entry.Some? && !Shown(entry.value, status) { entry := None; }
    }

    /** The group this session counts in, read straight from its metadata. */
    method StatusGroup() returns (group: Option<string>)
      ensures forall status :: group == Some(status) <==> Grouped(View(), status)
      ensures group == if meta.Some? && meta.value.status in {"active", "archived", "deleted"} then Some(meta.value.status) else None
    {
      group := None;
      if meta.Some? && meta.value.status in ["active", "archived", "deleted"] { group := Some(meta.value.status); }
    }

    /** Deletes in stages; the flags say which of the removals after the tombstone succeed. */
    method DeletePermanently(confirm: bool, runsGone: bool, metaGone: bool, messagesGone: bool, registryGone: bool) returns (complete: bool)
      modifies this
      ensures View() == if confirm then Deleted(old(View()), metaGone, messagesGone, registryGone) else old(View())
      ensures confirm ==>
        && tombstoned && meta == (if metaGone then None else old(meta))
        && messages == (if messagesGone then [] else old(messages)) && (registry <==> old(registry) && !registryGone)
      ensures complete <==>
        && confirm && runsGone && (old(meta).Some? || old(messages) != [] || old(registry))
        && meta.None? && messages == [] && !registry
    {
      if !confirm { return false; }
      var had := meta.Some? || messages != [] || registry;
      if !tombstoned { tombstoned := true; }
      if meta.Some? && metaGone { meta := None; }
      if messages != [] && messagesGone { messages := []; }
      if registry && registryGone { registry := false; }
      complete := runsGone && meta.None? && messages == [] && !registry && had;
    }
  }

  // ---- Every run ----

  datatype Step =
    | Ensure(title: string)
    | AddRun(run: string, auto: string)
    | Update(newTitle: Option<string>, newStatus: Option<string>)
    | Repair(seen: seq<Message>, base: Option<Session>)
    | Arrive(message: Message)
    | OpenRegistry
    | Delete(metaGone: bool, messagesGone: bool, registryGone: bool)

  function Apply(s: State, step: Step): State {
    match step
    case Ensure(title) => Ensured(s, title)
    case AddRun(run, auto) => WithRun(s, run, auto)
    case Update(newTitle, newStatus) => Renamed(s, newTitle, newStatus)
    case Repair(seen, base) => Repaired(s, seen, base)
    case Arrive(message) => s.(messages := s.messages + [message])
    case OpenRegistry => s.(registry := true)
    case Delete(metaGone, messagesGone, registryGone) => Deleted(s, metaGone, messagesGone, registryGone)
  }

  function After(s: State, steps: seq<Step>): State
    decreases |steps|
  {
    if steps == [] then s else After(Apply(s, steps[0]), steps[1..])
  }

  /** Only a deletion takes messages or the request registry away; everything that arrived before is kept, in order. */
  lemma {:induction false} ArrivedIsKept(s: State, steps: seq<Step>)
    ensures (forall i :: 0 <= i < |steps| ==> !(steps[i].Delete? && steps[i].messagesGone)) ==>
      && s.messages <= After(s, steps).messages
      && forall m :: m in After(s, steps).messages <==> m in s.messages || Arrive(m) in steps
    ensures (forall i :: 0 <= i < |steps| ==> !(steps[i].Delete? && steps[i].registryGone)) ==>
      (After(s, steps).registry <==> s.registry || OpenRegistry in steps)
    decreases |steps|
  {
    if steps != [] {
      assert steps == [steps[0]] + steps[1..];
      ArrivedIsKept(Apply(s, steps[0]), steps[1..]);
    }
  }

  predicate RemovesMeta(step: Step) { step.Delete? && step.metaGone }

  predicate MetaRemoved(steps: seq<Step>) { exists i :: 0 <= i < |steps| && RemovesMeta(steps[i]) }

  /**
   * Once tombstoned, whatever was left behind: reads return nothing in every later state, no writer recreates the
   * record, and what a deletion that stopped half way left is never changed, only removed.
   */
  lemma {:induction false} TombstoneIsForever(s: State, steps: seq<Step>)
    requires s.tombstoned
    ensures After(s, steps).tombstoned && Read(After(s, steps)) == None
    ensures After(s, steps).meta == if MetaRemoved(steps) then None else s.meta
    decreases |steps|
  {
    if steps != [] {
      TombstoneIsForever(Apply(s, steps[0]), steps[1..]);
      assert steps == [steps[0]] + steps[1..];
    }
  }

  /**
   * A listing, and likewise the grouping by status, still shows a deleted session exactly when neither its deletion nor a later one could remove the
   * metadata file (and the leftover record passes the status filter): that path never looks at the tombstone.
   */
  lemma ListedAfterDeletionExactly(s: State, gone: Step, steps: seq<Step>, id: string, status: Option<string>)
    requires gone.Delete?
    ensures var t := After(Apply(s, gone), steps);
            && Listed(t, id) == t
            && (t.meta.Some? && Shown(t.meta.value, status) <==>
                  s.meta.Some? && Shown(s.meta.value, status) && !gone.metaGone && !MetaRemoved(steps))
            && (forall group :: Grouped(t, group) <==> Grouped(s, group) && !gone.metaGone && !MetaRemoved(steps))
  {
    TombstoneIsForever(Apply(s, gone), steps);
  }

  const EMPTY := State(false, None, [], false)

  /** From the start: a session is created and its deletion cannot remove the metadata; reads refuse it, listings show it. */
  lemma LeftoverIsListed(title: string, id: string)
    ensures
      var t := After(EMPTY, [Ensure(title), Delete(false, true, true)]);
      && Read(t) == None && t.tombstoned && Grouped(t, "active")
      && Listed(t, id).meta.Some? && Shown(Listed(t, id).meta.value, None)
  {
    var steps := [Ensure(title), Delete(false, true, true)];
    assert steps[1..] == [steps[1]] && steps[1..][1..] == [];
    var s := Apply(EMPTY, steps[0]);
    assert After(EMPTY, steps) == After(s, steps[1..]);
    assert After(s, steps[1..]) == After(Apply(s, steps[1]), []);
    ListedAfterDeletionExactly(s, steps[1], [], id, None);
  }

  /** A repair has an older copy of the record only if the record was there at some earlier moment. */
  ghost predicate BasesWereRead(s: State, steps: seq<Step>, existed: bool)
    decreases |steps|
  {
    steps != [] ==>
      && (steps[0].Repair? && steps[0].base.Some? ==> existed || s.meta.Some?)
      && BasesWereRead(Apply(s, steps[0]), steps[1..], existed || s.meta.Some?)
  }

  ghost predicate Clean(s: State) { s.meta.Some? ==> Distinct(s.meta.value.runs) }

  /** One step keeps the run list free of duplicates and only extends it. */
  lemma StepExtends(s: State, step: Step)
    requires Clean(s)
    requires step.Repair? && step.base.Some? ==> s.meta.Some? || s.tombstoned
    ensures Clean(Apply(s, step))
    ensures s.meta.Some? && !Apply(s, step).tombstoned ==>
      Apply(s, step).meta.Some? && s.meta.value.runs <= Apply(s, step).meta.value.runs
  {
    if step.Repair? {
      MergeExtends(RepairBase(s, step.base).runs, FoundRuns(step.seen));
    }
  }

  /** Until then the run list stays free of duplicates and each earlier list is a prefix of each later one. */
  lemma {:induction false} RunsOnlyGrow(s: State, steps: seq<Step>, existed: bool)
    requires Clean(s) && (existed ==> s.meta.Some? || s.tombstoned)
    requires BasesWereRead(s, steps, existed)
    ensures Clean(After(s, steps))
    ensures s.meta.Some? && !After(s, steps).tombstoned ==>
      After(s, steps).meta.Some? && s.meta.value.runs <= After(s, steps).meta.value.runs
    decreases |steps|
  {
    if steps != [] {
      var t := Apply(s, steps[0]);
      StepExtends(s, steps[0]);
      RunsOnlyGrow(t, steps[1..], existed || s.meta.Some?);
      if !After(s, steps).tombstoned { NotYet(t, steps[1..]); }
    }
  }

  /** A state that is not tombstoned has no tombstoned past. */
  lemma NotYet(s: State, steps: seq<Step>)
    requires !After(s, steps).tombstoned
    ensures !s.tombstoned
  {
    if s.tombstoned { TombstoneIsForever(s, steps); }
  }
}
