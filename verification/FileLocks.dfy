/** The re-entrant inter-process file lock, for one path, taken by any threads of any processes. */
module FileLocks {
  import opened Common

  datatype Id = Id(process: nat, thread: nat)

  /** Where a thread is inside `__enter__` or `__exit__`; Steady is outside both. */
  datatype Stage =
    | Steady
    | HasThreadLock   // entering: took the thread lock of the path
    | HasFd           // entering: opened the lock file, does not hold the process lock yet
    | Unlocked        // leaving: gave the process lock back
    | Popped          // leaving: cleared its held count

  /** `frames`: the entered locks of the thread, outermost first, with whether each was a re-entry. */
  datatype Thread = Thread(frames: seq<bool>, stage: Stage)

  /** Owner and count of a process's re-entrant thread lock. */
  datatype ThreadLock = ThreadLock(owner: nat, count: nat)

  datatype State = State(
    threads: map<Id, Thread>,
    threadLocks: map<nat, ThreadLock>,  // by process; absent when free
    processLock: Option<Id>,            // the thread whose descriptor holds the lock file
    held: map<Id, nat>)                 // thread-local counts; absent is zero

  function ThreadOf(s: State, t: Id): Thread { if t in s.threads then s.threads[t] else Thread([], Steady) }

  function HeldBy(s: State, t: Id): nat { if t in s.held then s.held[t] else 0 }

  predicate CanTakeThreadLock(s: State, t: Id) {
    t.process !in s.threadLocks || s.threadLocks[t.process].owner == t.thread
  }

  function TakeThreadLock(s: State, t: Id): State {
    var count := if t.process in s.threadLocks then s.threadLocks[t.process].count else 0;
    s.(threadLocks := s.threadLocks[t.process := ThreadLock(t.thread, count + 1)])
  }

  function GiveThreadLock(s: State, t: Id): State {
    if t.process !in s.threadLocks || s.threadLocks[t.process].count <= 1 then s.(threadLocks := s.threadLocks - {t.process})
    else s.(threadLocks := s.threadLocks[t.process := ThreadLock(t.thread, s.threadLocks[t.process].count - 1)])
  }

  function SetThread(s: State, t: Id, thread: Thread): State { s.(threads := s.threads[t := thread]) }

  datatype Step =
    | AcquireThread(t: Id)
    | Reenter(t: Id)
    | OpenFile(t: Id)
    | OpenFails(t: Id)
    | AcquireProcess(t: Id)
    | GiveUp(t: Id)
    | ExitInner(t: Id)
    | Unlock(t: Id)
    | ClearHeld(t: Id)
    | ReleaseThread(t: Id)
    | CrashProcess(p: nat)

  predicate Enabled(s: State, step: Step) {
    match step
    case AcquireThread(t) => ThreadOf(s, t).stage == Steady && CanTakeThreadLock(s, t)
    case Reenter(t) => ThreadOf(s, t).stage == HasThreadLock && HeldBy(s, t) > 0
    case OpenFile(t) => ThreadOf(s, t).stage == HasThreadLock && HeldBy(s, t) == 0
    case OpenFails(t) => ThreadOf(s, t).stage == HasThreadLock && HeldBy(s, t) == 0
    case AcquireProcess(t) => ThreadOf(s, t).stage == HasFd && s.processLock == None
    case GiveUp(t) => ThreadOf(s, t).stage == HasFd
    case ExitInner(t) =>
      var th := ThreadOf(s, t);
      th.stage == Steady && th.frames != [] && th.frames[|th.frames| - 1]
    case Unlock(t) =>
      var th := ThreadOf(s, t);
      th.stage == Steady && th.frames != [] && !th.frames[|th.frames| - 1]
    case ClearHeld(t) => ThreadOf(s, t).stage == Unlocked
    case ReleaseThread(t) => ThreadOf(s, t).stage == Popped
    case CrashProcess(p) => true
  }

  function Apply(s: State, step: Step): State
    requires Enabled(s, step)
  {
    match step
    case AcquireThread(t) => SetThread(TakeThreadLock(s, t), t, ThreadOf(s, t).(stage := HasThreadLock))
    case Reenter(t) =>
      SetThread(s.(held := s.held[t := HeldBy(s, t) + 1]), t, Thread(ThreadOf(s, t).frames + [true], Steady))
    case OpenFile(t) => SetThread(s, t, ThreadOf(s, t).(stage := HasFd))
    case OpenFails(t) => SetThread(GiveThreadLock(s, t), t, ThreadOf(s, t).(stage := Steady))
    case AcquireProcess(t) =>
      SetThread(s.(processLock := Some(t), held := s.held[t := 1]), t, Thread(ThreadOf(s, t).frames + [false], Steady))
    case GiveUp(t) => SetThread(GiveThreadLock(s, t), t, ThreadOf(s, t).(stage := Steady))
    case ExitInner(t) =>
      var th := ThreadOf(s, t);
      SetThread(GiveThreadLock(s, t).(held := s.held[t := if HeldBy(s, t) == 0 then 0 else HeldBy(s, t) - 1]), t,
                Thread(th.frames[..|th.frames| - 1], Steady))
    case Unlock(t) =>
      var th := ThreadOf(s, t);
      SetThread(s.(processLock := None), t, Thread(th.frames[..|th.frames| - 1], Unlocked))
    case ClearHeld(t) => SetThread(s.(held := s.held - {t}), t, ThreadOf(s, t).(stage := Popped))
    case ReleaseThread(t) => SetThread(GiveThreadLock(s, t), t, ThreadOf(s, t).(stage := Steady))
    case CrashProcess(p) =>
      State(map t | t in s.threads && t.process != p :: s.threads[t], s.threadLocks - {p},
            if s.processLock.Some? && s.processLock.value.process == p then None else s.processLock,
            map t | t in s.held && t.process != p :: s.held[t])
  }

  // ---- The invariant ----

  function Depth(s: State, t: Id): nat { |ThreadOf(s, t).frames| }

  predicate Busy(s: State, t: Id) { Depth(s, t) > 0 || ThreadOf(s, t).stage != Steady }

  /** Thread locks held through this path: one per entered frame and one while entering or leaving. */
  function Claims(s: State, t: Id): nat { Depth(s, t) + if ThreadOf(s, t).stage == Steady then 0 else 1 }

  /** What holds of a single thread. */
  ghost predicate ThreadGood(s: State, t: Id) {
    var th := ThreadOf(s, t);
    && (th.frames != [] ==> s.processLock == Some(t))
    && (forall i :: 0 <= i < |th.frames| ==> (th.frames[i] <==> i > 0))
    && (th.stage == HasFd || th.stage == Unlocked || th.stage == Popped ==> th.frames == [])
    && HeldBy(s, t) == Depth(s, t) + (if th.stage == Unlocked then 1 else 0)
    && (Busy(s, t) <==> t.process in s.threadLocks && s.threadLocks[t.process].owner == t.thread)
    && (Busy(s, t) ==> s.threadLocks[t.process].count == Claims(s, t))
  }

  ghost predicate Good(s: State) {
    && (forall t :: ThreadGood(s, t))
    && (s.processLock.Some? ==> Depth(s, s.processLock.value) > 0)
  }

  const FREE := State(map[], map[], None, map[])

  /** A step of one thread keeps what holds of it. */
  lemma OwnStep(s: State, step: Step)
    requires Good(s) && Enabled(s, step) && !step.CrashProcess?
    ensures ThreadGood(Apply(s, step), step.t)
    ensures
      var r := Apply(s, step);
      r.processLock.Some? && r.processLock.value == step.t ==> Depth(r, step.t) > 0
  {
    assert ThreadGood(s, step.t);
  }

  /** And what holds of every other thread. */
  lemma OtherStep(s: State, step: Step, t: Id)
    requires Good(s) && Enabled(s, step) && !step.CrashProcess? && t != step.t
    ensures ThreadGood(Apply(s, step), t) && Depth(Apply(s, step), t) == Depth(s, t)
  {
    hide ThreadGood, Apply, Enabled;
    if t.process == step.t.process { NeighbourStep(s, step, t); } else { ForeignStep(s, step, t); }
  }

  lemma ForeignStep(s: State, step: Step, t: Id)
    requires Good(s) && Enabled(s, step) && !step.CrashProcess? && t.process != step.t.process
    ensures ThreadGood(Apply(s, step), t) && Depth(Apply(s, step), t) == Depth(s, t)
  {
    assert ThreadGood(s, step.t) && ThreadGood(s, t);
    Insiders(s, step, t);
    hide ThreadGood;
    Frame(s, Apply(s, step), t);
  }

  /** While a thread is inside, no other one touches the process lock. */
  lemma Insiders(s: State, step: Step, t: Id)
    requires !step.CrashProcess? && t != step.t && Enabled(s, step) && ThreadGood(s, step.t) && ThreadGood(s, t)
    ensures ThreadOf(s, t).frames != [] ==> Apply(s, step).processLock == Some(t)
  {
  }

  /** What holds of a thread depends on its own part of the state alone. */
  lemma Frame(s: State, r: State, t: Id)
    requires ThreadGood(s, t) && ThreadOf(r, t) == ThreadOf(s, t) && HeldBy(r, t) == HeldBy(s, t)
    requires t.process in r.threadLocks <==> t.process in s.threadLocks
    requires t.process in s.threadLocks ==> r.threadLocks[t.process] == s.threadLocks[t.process]
    requires ThreadOf(s, t).frames != [] ==> r.processLock == Some(t)
    ensures ThreadGood(r, t) && Depth(r, t) == Depth(s, t)
  {
  }

  lemma NeighbourStep(s: State, step: Step, t: Id)
    requires Good(s) && Enabled(s, step) && !step.CrashProcess? && t != step.t && t.process == step.t.process
    ensures ThreadGood(Apply(s, step), t) && Depth(Apply(s, step), t) == Depth(s, t)
  {
    assert ThreadGood(s, step.t) && ThreadGood(s, t);
  }

  lemma CrashStep(s: State, p: nat)
    requires Good(s)
    ensures Good(Apply(s, CrashProcess(p)))
  {
    forall t ensures ThreadGood(Apply(s, CrashProcess(p)), t) { assert ThreadGood(s, t); }
  }

  lemma StepGood(s: State, step: Step)
    requires Good(s) && Enabled(s, step)
    ensures Good(Apply(s, step))
  {
    if step.CrashProcess? {
      CrashStep(s, step.p);
    } else {
      hide ThreadGood, Enabled;
      OwnStep(s, step);
      forall t ensures ThreadGood(Apply(s, step), t) {
        if t != step.t { OtherStep(s, step, t); }
      }
      LockHolder(s, step);
    }
  }

  lemma LockHolder(s: State, step: Step)
    requires Good(s) && Enabled(s, step) && !step.CrashProcess?
    ensures
      var r := Apply(s, step);
      r.processLock.Some? ==> Depth(r, r.processLock.value) > 0
  {
    hide ThreadGood;
    OwnStep(s, step);
    var r := Apply(s, step);
    if r.processLock.Some? && r.processLock.value != step.t { OtherStep(s, step, r.processLock.value); }
  }

  ghost predicate Runs(s: State, steps: seq<Step>)
    decreases |steps|
  {
    steps == [] || (Enabled(s, steps[0]) && Runs(Apply(s, steps[0]), steps[1..]))
  }

  ghost function After(s: State, steps: seq<Step>): State
    requires Runs(s, steps)
    decreases |steps|
  {
    if steps == [] then s else After(Apply(s, steps[0]), steps[1..])
  }

  lemma {:induction false} RunGood(s: State, steps: seq<Step>)
    requires Good(s) && Runs(s, steps)
    ensures Good(After(s, steps))
    decreases |steps|
  {
    hide Good, Apply, Enabled;
    if steps != [] {
      StepGood(s, steps[0]);
      RunGood(Apply(s, steps[0]), steps[1..]);
    }
  }

  // ---- Main results ----

  /** At most one thread of all processes is inside, and it holds the process lock. */
  lemma MutualExclusion(steps: seq<Step>, t: Id, u: Id)
    requires Runs(FREE, steps) && Depth(After(FREE, steps), t) > 0 && Depth(After(FREE, steps), u) > 0
    ensures t == u && After(FREE, steps).processLock == Some(t)
  {
    hide Apply, Enabled;
    assert Good(FREE);
    RunGood(FREE, steps);
    assert ThreadGood(After(FREE, steps), t) && ThreadGood(After(FREE, steps), u);
  }

  /** The process lock is held exactly while the thread is inside, and between calls the held count is its depth. */
  lemma CountsAgree(steps: seq<Step>, t: Id)
    requires Runs(FREE, steps)
    ensures
      var s := After(FREE, steps);
      && (s.processLock == Some(t) <==> Depth(s, t) > 0)
      && (ThreadOf(s, t).stage == Steady ==> HeldBy(s, t) == Depth(s, t))
      && (ThreadOf(s, t).stage == Steady && Depth(s, t) > 0 ==>
            t.process in s.threadLocks && s.threadLocks[t.process] == ThreadLock(t.thread, Depth(s, t)))
  {
    hide Apply, Enabled;
    assert Good(FREE);
    RunGood(FREE, steps);
    assert ThreadGood(After(FREE, steps), t);
  }

  /** A failed acquisition leaves the thread holding nothing. */
  lemma FailedAcquisition(steps: seq<Step>, step: Step)
    requires Runs(FREE, steps) && Enabled(After(FREE, steps), step) && (step.OpenFails? || step.GiveUp?)
    ensures
      var s := After(FREE, steps);
      var r := Apply(s, step);
      && Depth(r, step.t) == 0 && HeldBy(r, step.t) == 0 && ThreadOf(r, step.t).stage == Steady
      && step.t.process !in r.threadLocks && r.processLock == s.processLock && r.processLock != Some(step.t)
  {
    assert Good(FREE);
    RunGood(FREE, steps);
    assert ThreadGood(After(FREE, steps), step.t);
  }

  /** A thread inside enters again at once: nothing can keep it out, and it is then one deeper with the same lock. */
  lemma EntersAgain(steps: seq<Step>, t: Id)
    requires Runs(FREE, steps) && Depth(After(FREE, steps), t) > 0
    requires ThreadOf(After(FREE, steps), t).stage == Steady
    ensures
      var s := After(FREE, steps);
      && Enabled(s, AcquireThread(t))
      && var r := Apply(s, AcquireThread(t));
         && Enabled(r, Reenter(t)) && !Enabled(r, OpenFile(t))
         && Depth(Apply(r, Reenter(t)), t) == Depth(s, t) + 1 && Apply(r, Reenter(t)).processLock == Some(t)
         && ThreadOf(Apply(r, Reenter(t)), t).stage == Steady
  {
    assert Good(FREE);
    RunGood(FREE, steps);
    assert ThreadGood(After(FREE, steps), t);
  }

  /** A thread outside re-enters nothing: it must open the file, and gets in exactly when the process lock is free. */
  lemma EntersFirst(steps: seq<Step>, t: Id)
    requires Runs(FREE, steps) && Depth(After(FREE, steps), t) == 0
    ensures
      var s := After(FREE, steps);
      && !Enabled(s, Reenter(t))
      && (ThreadOf(s, t).stage == HasThreadLock ==> Enabled(s, OpenFile(t)))
      && (ThreadOf(s, t).stage == HasFd ==>
            (Enabled(s, AcquireProcess(t)) <==> forall u :: Depth(s, u) == 0))
  {
    hide Apply;
    assert Good(FREE);
    RunGood(FREE, steps);
    var s := After(FREE, steps);
    assert ThreadGood(s, t);
    forall u | Depth(s, u) > 0 ensures s.processLock == Some(u) { assert ThreadGood(s, u); }
  }
}
