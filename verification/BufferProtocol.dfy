/**
 The buffer manager under concurrency: registrations take a library reference and have the
 script server let go of its copy before they wait for the lock, while other threads consume,
 release and sweep. Threads interleave in single steps; a schedule is any list of such steps.
 */
module BufferProtocol {
  import opened Wrappers

  type Thread = int

  /** Where a thread stands in the manager's code. */
  datatype Phase =
    | Idle
    /** Registering: the library reference is held. */
    | Acquired(requestor: string, id: string)
    | Described(requestor: string, id: string)
    | HandedOver(requestor: string, id: string)
    | Undoing(id: string)
    /** Registering, with the lock. */
    | Tracking(requestor: string, id: string)
    /** Consuming or releasing one entry, with the lock: before and after giving the
        reference back. */
    | Dropping(id: string)
    | Deleting(id: string)
    /** Releasing all of a requestor's entries, with the lock. */
    | Sweeping(requestor: string, remaining: set<string>)
    | SweepDeleting(requestor: string, remaining: set<string>, id: string)

  /** Owners of tracked buffers; library references; the lock's holder; what each thread is
      doing; and, for bookkeeping, how often an entry was overwritten. */
  datatype State = State(
    owner: map<string, string>, refs: multiset<string>, lock: Option<Thread>, threads: map<Thread, Phase>,
    overwritten: multiset<string>)

  datatype Action =
    | GetBuffer(requestor: string, id: string)
    | GetMetadata(ok: bool)
    | ReleaseServerCopy(ok: bool)
    | Undo
    | LockToTrack
    | Track
    | LockToConsume(requestor: string, id: string)
    | LockToRelease(id: string)
    | ReleaseReference
    | Delete
    | LockToSweep(requestor: string)
    | SweepSkip(id: string)
    | SweepRelease(id: string)
    | SweepDelete
    | SweepDone

  function PhaseOf(s: State, t: Thread): Phase {
    if t in s.threads then s.threads[t] else Idle
  }

  function Move(s: State, t: Thread, p: Phase): State {
    s.(threads := s.threads[t := p])
  }

  function Locked(s: State, t: Thread, p: Phase): State {
    Move(s, t, p).(lock := Some(t))
  }

  function Unlocked(s: State, t: Thread): State {
    Move(s, t, Idle).(lock := None)
  }

  /** Whether thread `t` can take the step. Calls that fail before they hold anything, or
      find nothing under the lock, change nothing and are not steps. */
  predicate Enabled(s: State, t: Thread, a: Action) {
    var p := PhaseOf(s, t);
    match a
    case GetBuffer(_, _) => p.Idle?
    case GetMetadata(_) => p.Acquired?
    case ReleaseServerCopy(_) => p.Described?
    case Undo => p.Undoing?
    case LockToTrack => p.HandedOver? && s.lock.None?
    case Track => p.Tracking?
    case LockToConsume(requestor, id) => p.Idle? && s.lock.None? && id in s.owner && s.owner[id] == requestor
    case LockToRelease(id) => p.Idle? && s.lock.None? && id in s.owner
    case ReleaseReference => p.Dropping?
    case Delete => p.Deleting?
    case LockToSweep(_) => p.Idle? && s.lock.None?
    case SweepSkip(id) => p.Sweeping? && id in p.remaining && id in s.owner && s.owner[id] != p.requestor
    case SweepRelease(id) => p.Sweeping? && id in p.remaining && id in s.owner && s.owner[id] == p.requestor
    case SweepDelete => p.SweepDeleting?
    case SweepDone => p.Sweeping? && p.remaining == {}
  }

  function Apply(s: State, t: Thread, a: Action): State
    requires Enabled(s, t, a)
  {
    var p := PhaseOf(s, t);
    match a
    case GetBuffer(requestor, id) =>
      Move(s, t, Acquired(requestor, id)).(refs := s.refs + multiset{id})
    case GetMetadata(ok) =>
      Move(s, t, if ok then Described(p.requestor, p.id) else Undoing(p.id))
    case ReleaseServerCopy(ok) =>
      Move(s, t, if ok then HandedOver(p.requestor, p.id) else Undoing(p.id))
    case Undo =>
      Move(s, t, Idle).(refs := s.refs - multiset{p.id})
    case LockToTrack =>
      Locked(s, t, Tracking(p.requestor, p.id))
    case Track =>
      Unlocked(s, t).(owner := s.owner[p.id := p.requestor],
                      overwritten := s.overwritten + if p.id in s.owner then multiset{p.id} else multiset{})
    case LockToConsume(_, id) =>
      Locked(s, t, Dropping(id))
    case LockToRelease(id) =>
      Locked(s, t, Dropping(id))
    case ReleaseReference =>
      Move(s, t, Deleting(p.id)).(refs := s.refs - multiset{p.id})
    case Delete =>
      Unlocked(s, t).(owner := s.owner - {p.id})
    case LockToSweep(requestor) =>
      Locked(s, t, Sweeping(requestor, s.owner.Keys))
    case SweepSkip(id) =>
      Move(s, t, Sweeping(p.requestor, p.remaining - {id}))
    case SweepRelease(id) =>
      Move(s, t, SweepDeleting(p.requestor, p.remaining - {id}, id)).(refs := s.refs - multiset{id})
    case SweepDelete =>
      Move(s, t, Sweeping(p.requestor, p.remaining)).(owner := s.owner - {p.id})
    case SweepDone =>
      Unlocked(s, t)
  }

  const INITIAL: State := State(map[], multiset{}, None, map[], multiset{})

  type Schedule = seq<(Thread, Action)>

  /** The state after a schedule, if each of its steps can be taken. */
  function After(schedule: Schedule): Option<State> {
    if schedule == [] then Some(INITIAL)
    else
      var prev := After(schedule[..|schedule| - 1]);
      var (t, a) := schedule[|schedule| - 1];
      if prev.Some? && Enabled(prev.value, t, a) then Some(Apply(prev.value, t, a)) else None
  }

  // ------------------------------------------------------------------- invariant

  /** The thread has taken a reference to `id` that is not on record yet. */
  predicate Holds(p: Phase, id: string) {
    (p.Acquired? || p.Described? || p.HandedOver? || p.Undoing? || p.Tracking?) && p.id == id
  }

  /** The reference to `id` is gone but the entry still stands. */
  predicate HalfReleased(p: Phase, id: string) {
    (p.Deleting? || p.SweepDeleting?) && p.id == id
  }

  predicate NeedsLock(p: Phase) {
    p.Tracking? || p.Dropping? || p.Deleting? || p.Sweeping? || p.SweepDeleting?
  }

  /** Registrations in flight past their acquisition. */
  function InFlight(s: State, id: string): set<Thread> {
    set t | t in s.threads && Holds(s.threads[t], id)
  }

  function TrackedCount(s: State, id: string): nat {
    if id in s.owner then 1 else 0
  }

  function HalfReleasedCount(s: State, id: string): nat {
    if s.lock.Some? && HalfReleased(PhaseOf(s, s.lock.value), id) then 1 else 0
  }

  /** Exactly the lock's holder is in a phase that needs the lock. */
  ghost predicate MutuallyExcluded(s: State) {
    forall t :: NeedsLock(PhaseOf(s, t)) <==> s.lock == Some(t)
  }

  /** Every entry of the requestor is among `ids`. */
  ghost predicate AllOf(owner: map<string, string>, requestor: string, ids: set<string>) {
    forall id :: id in owner && owner[id] == requestor ==> id in ids
  }

  /** What a phase works on is tracked, and a sweep still has its requestor's entries ahead. */
  ghost predicate WorksOnTracked(owner: map<string, string>, p: Phase) {
    match p
    case Dropping(id) => id in owner
    case Deleting(id) => id in owner
    case Sweeping(requestor, remaining) => remaining <= owner.Keys && AllOf(owner, requestor, remaining)
    case SweepDeleting(requestor, remaining, id) =>
      && id in owner && owner[id] == requestor && remaining <= owner.Keys - {id}
      && AllOf(owner, requestor, remaining + {id})
    case _ => true
  }

  ghost predicate WorkTracked(s: State) {
    s.lock.Some? ==> WorksOnTracked(s.owner, PhaseOf(s, s.lock.value))
  }

  /** Library references held: one for each tracked buffer unless it is just being released,
      one for each registration in flight, and one for each entry that was overwritten. */
  ghost predicate Conserved(s: State) {
    forall id :: ConservedAt(s, id)
  }

  predicate ConservedAt(s: State, id: string) {
    s.refs[id] + HalfReleasedCount(s, id) == TrackedCount(s, id) + |InFlight(s, id)| + s.overwritten[id]
  }

  ghost predicate Inv(s: State) {
    MutuallyExcluded(s) && WorkTracked(s) && Conserved(s)
  }

  lemma InFlightAfterMove(s: State, t: Thread, p: Phase, id: string)
    ensures |InFlight(Move(s, t, p), id)|
         == |InFlight(s, id)| - (if Holds(PhaseOf(s, t), id) then 1 else 0) + if Holds(p, id) then 1 else 0
  {
    var before, after := InFlight(s, id), InFlight(Move(s, t, p), id);
    assert after == if Holds(p, id) then before + {t} else before - {t};
    assert t in before <==> Holds(PhaseOf(s, t), id);
  }

  lemma StepKeepsExclusion(s: State, t: Thread, a: Action)
    requires MutuallyExcluded(s) && Enabled(s, t, a)
    ensures MutuallyExcluded(Apply(s, t, a))
  {
    var s' := Apply(s, t, a);
    assert NeedsLock(PhaseOf(s, t)) <==> s.lock == Some(t);
    forall u
      ensures NeedsLock(PhaseOf(s', u)) <==> s'.lock == Some(u)
    {
      assert NeedsLock(PhaseOf(s, u)) <==> s.lock == Some(u);
    }
  }

  lemma StepKeepsWork(s: State, t: Thread, a: Action)
    requires MutuallyExcluded(s) && WorkTracked(s) && Enabled(s, t, a)
    ensures WorkTracked(Apply(s, t, a))
  {
    assert NeedsLock(PhaseOf(s, t)) <==> s.lock == Some(t);
  }

  lemma SameThreads(s: State, s': State, id: string)
    requires s.threads == s'.threads
    ensures InFlight(s, id) == InFlight(s', id)
  {
  }

  lemma ThreadsAfterLocking(s: State, t: Thread, a: Action)
    requires Enabled(s, t, a) && (WithoutLock(a) || TakesLock(a))
    ensures Apply(s, t, a).threads == s.threads[t := PhaseOf(Apply(s, t, a), t)]
  {
    var s' := Apply(s, t, a);
    assert s'.threads == s.threads[t := s'.threads[t]];
  }

  lemma ThreadsAfterStep(s: State, t: Thread, a: Action)
    requires Enabled(s, t, a)
    ensures Apply(s, t, a).threads == s.threads[t := PhaseOf(Apply(s, t, a), t)]
  {
    if WithoutLock(a) || TakesLock(a) {
      ThreadsAfterLocking(s, t, a);
    } else {
      var s' := Apply(s, t, a);
      assert s'.threads == s.threads[t := s'.threads[t]];
    }
  }

  /** How one step changes the registrations in flight. */
  lemma InFlightAfterStep(s: State, t: Thread, a: Action, id: string)
    requires Enabled(s, t, a)
    ensures
      var p, p' := PhaseOf(s, t), PhaseOf(Apply(s, t, a), t);
      |InFlight(Apply(s, t, a), id)|
      == |InFlight(s, id)| - (if Holds(p, id) then 1 else 0) + if Holds(p', id) then 1 else 0
  {
    var s' := Apply(s, t, a);
    var p' := PhaseOf(s', t);
    ThreadsAfterStep(s, t, a);
    InFlightAfterMove(s, t, p', id);
    SameThreads(Move(s, t, p'), s', id);
  }

  /** The entry that the lock's holder has half released, if that is `t`. */
  lemma HalfReleasedBy(s: State, t: Thread, id: string)
    requires MutuallyExcluded(s)
    ensures NeedsLock(PhaseOf(s, t)) ==> HalfReleasedCount(s, id) == if HalfReleased(PhaseOf(s, t), id) then 1 else 0
    ensures s.lock.None? ==> HalfReleasedCount(s, id) == 0
  {
    assert NeedsLock(PhaseOf(s, t)) <==> s.lock == Some(t);
  }

  lemma HalfReleasedByOther(s: State, s': State, t: Thread, id: string)
    requires MutuallyExcluded(s) && s'.lock == s.lock
    requires !NeedsLock(PhaseOf(s, t)) && forall u | u != t :: PhaseOf(s', u) == PhaseOf(s, u)
    ensures HalfReleasedCount(s', id) == HalfReleasedCount(s, id)
  {
    assert NeedsLock(PhaseOf(s, t)) <==> s.lock == Some(t);
  }

  predicate WithoutLock(a: Action) {
    a.GetBuffer? || a.GetMetadata? || a.ReleaseServerCopy? || a.Undo?
  }

  lemma HalfReleasedIsTracked(s: State, id: string)
    requires WorkTracked(s)
    ensures HalfReleasedCount(s, id) <= TrackedCount(s, id)
  {
  }

  lemma UnlockedStepConserves(s: State, t: Thread, a: Action, id: string)
    requires MutuallyExcluded(s) && WorkTracked(s) && ConservedAt(s, id) && Enabled(s, t, a) && WithoutLock(a)
    ensures ConservedAt(Apply(s, t, a), id)
  {
    InFlightAfterStep(s, t, a, id);
    HalfReleasedByOther(s, Apply(s, t, a), t, id);
    HalfReleasedIsTracked(s, id);
  }

  predicate TakesLock(a: Action) {
    a.LockToTrack? || a.LockToConsume? || a.LockToRelease? || a.LockToSweep?
  }

  lemma LockingConserves(s: State, t: Thread, a: Action, id: string)
    requires MutuallyExcluded(s) && ConservedAt(s, id) && Enabled(s, t, a) && TakesLock(a)
    ensures ConservedAt(Apply(s, t, a), id)
  {
    InFlightAfterStep(s, t, a, id);
    HalfReleasedBy(s, t, id);
    StepKeepsExclusion(s, t, a);
    HalfReleasedBy(Apply(s, t, a), t, id);
  }

  lemma TrackConserves(s: State, t: Thread, id: string)
    requires MutuallyExcluded(s) && ConservedAt(s, id) && Enabled(s, t, Track)
    ensures ConservedAt(Apply(s, t, Track), id)
  {
    InFlightAfterStep(s, t, Track, id);
    HalfReleasedBy(s, t, id);
  }

  predicate ReleasesUnderLock(a: Action) {
    a.ReleaseReference? || a.SweepRelease?
  }

  predicate Deletes(a: Action) {
    a.Delete? || a.SweepDelete?
  }

  lemma ReleasingConserves(s: State, t: Thread, a: Action, id: string)
    requires MutuallyExcluded(s) && WorkTracked(s) && ConservedAt(s, id) && Enabled(s, t, a) && ReleasesUnderLock(a)
    ensures ConservedAt(Apply(s, t, a), id)
  {
    InFlightAfterStep(s, t, a, id);
    assert NeedsLock(PhaseOf(s, t)) <==> s.lock == Some(t);
  }

  lemma DeletingConserves(s: State, t: Thread, a: Action, id: string)
    requires MutuallyExcluded(s) && WorkTracked(s) && ConservedAt(s, id) && Enabled(s, t, a) && Deletes(a)
    ensures ConservedAt(Apply(s, t, a), id)
  {
    InFlightAfterStep(s, t, a, id);
    assert NeedsLock(PhaseOf(s, t)) <==> s.lock == Some(t);
  }

  lemma SweepingConserves(s: State, t: Thread, a: Action, id: string)
    requires MutuallyExcluded(s) && ConservedAt(s, id) && Enabled(s, t, a) && (a.SweepSkip? || a.SweepDone?)
    ensures ConservedAt(Apply(s, t, a), id)
  {
    InFlightAfterStep(s, t, a, id);
    assert NeedsLock(PhaseOf(s, t)) <==> s.lock == Some(t);
  }

  lemma StepConserves(s: State, t: Thread, a: Action, id: string)
    requires MutuallyExcluded(s) && WorkTracked(s) && ConservedAt(s, id) && Enabled(s, t, a)
    ensures ConservedAt(Apply(s, t, a), id)
  {
    if WithoutLock(a) {
      UnlockedStepConserves(s, t, a, id);
    } else if TakesLock(a) {
      LockingConserves(s, t, a, id);
    } else if a.Track? {
      TrackConserves(s, t, id);
    } else if ReleasesUnderLock(a) {
      ReleasingConserves(s, t, a, id);
    } else if Deletes(a) {
      DeletingConserves(s, t, a, id);
    } else {
      SweepingConserves(s, t, a, id);
    }
  }

  // ------------------------------------------------------------------ every run

  lemma StepKeepsInv(s: State, t: Thread, a: Action)
    requires Inv(s) && Enabled(s, t, a)
    ensures Inv(Apply(s, t, a))
  {
    StepKeepsExclusion(s, t, a);
    StepKeepsWork(s, t, a);
    forall id
      ensures ConservedAt(Apply(s, t, a), id)
    {
      assert ConservedAt(s, id);
      StepConserves(s, t, a, id);
    }
  }

  /** The state after a schedule whose steps can all be taken. */
  predicate Runs(schedule: Schedule) {
    After(schedule).Some?
  }

  function StateAfter(schedule: Schedule): State
    requires Runs(schedule)
  {
    After(schedule).value
  }

  /** References are conserved over every interleaving: at every moment of every run the
      library holds one reference for each tracked buffer that is not just being released, one
      for each registration in flight, and one for each overwritten entry. */
  lemma {:induction false} AlwaysConserved(schedule: Schedule)
    requires Runs(schedule)
    ensures Inv(StateAfter(schedule))
  {
    if schedule == [] {
      assert forall id :: InFlight(INITIAL, id) == {};
    } else {
      var init, last := schedule[..|schedule| - 1], schedule[|schedule| - 1];
      AlwaysConserved(init);
      StepKeepsInv(StateAfter(init), last.0, last.1);
    }
  }

  /** The buffer whose library reference a step gives back. */
  function Releases(s: State, t: Thread, a: Action): Option<string>
    requires Enabled(s, t, a)
  {
    match a
    case Undo => Some(PhaseOf(s, t).id)
    case ReleaseReference => Some(PhaseOf(s, t).id)
    case SweepRelease(id) => Some(id)
    case _ => None
  }

  /** No double release: whatever has happened before, a step that gives a reference back
      finds one to give. */
  lemma NoDoubleRelease(schedule: Schedule, t: Thread, a: Action)
    requires Runs(schedule) && Enabled(StateAfter(schedule), t, a)
    requires Releases(StateAfter(schedule), t, a).Some?
    ensures Releases(StateAfter(schedule), t, a).value in StateAfter(schedule).refs
  {
    AlwaysConserved(schedule);
    var s, id := StateAfter(schedule), Releases(StateAfter(schedule), t, a).value;
    assert ConservedAt(s, id);
    HalfReleasedIsTracked(s, id);
    HalfReleasedBy(s, t, id);
    if a.Undo? {
      assert t in InFlight(s, id);
    }
  }

  /** No consuming after release: while a thread is consuming a buffer under the lock, the hub holds
      a reference to it. */
  lemma ReadsAreBacked(schedule: Schedule, t: Thread)
    requires Runs(schedule) && PhaseOf(StateAfter(schedule), t).Dropping?
    ensures PhaseOf(StateAfter(schedule), t).id in StateAfter(schedule).refs
  {
    NoDoubleRelease(schedule, t, ReleaseReference);
  }

  // ---------------------------------------------------------------------- leaks

  ghost predicate Quiescent(s: State) {
    forall t :: PhaseOf(s, t).Idle?
  }

  /** When no call is in progress, what the library holds beyond the tracked buffers is
      exactly what was overwritten. */
  lemma QuiescentReferences(schedule: Schedule)
    requires Runs(schedule) && Quiescent(StateAfter(schedule))
    ensures StateAfter(schedule).refs == multiset(StateAfter(schedule).owner.Keys) + StateAfter(schedule).overwritten
  {
    AlwaysConserved(schedule);
    var s := StateAfter(schedule);
    forall id
      ensures s.refs[id] == TrackedCount(s, id) + s.overwritten[id]
    {
      assert ConservedAt(s, id);
      forall t | t in s.threads
        ensures !Holds(s.threads[t], id)
      {
        assert PhaseOf(s, t).Idle?;
      }
      assert InFlight(s, id) == {};
    }
  }

  /** The step tracks a buffer that is tracked already. */
  predicate OverwritingStep(s: State, t: Thread, a: Action) {
    a.Track? && PhaseOf(s, t).Tracking? && PhaseOf(s, t).id in s.owner
  }

  /** Step `i` of the schedule registers a buffer that is already tracked. */
  predicate Overwrites(schedule: Schedule, i: nat)
    requires i < |schedule| && Runs(schedule[..i])
  {
    OverwritingStep(StateAfter(schedule[..i]), schedule[i].0, schedule[i].1)
  }

  lemma OverwrittenStep(s: State, t: Thread, a: Action)
    requires Enabled(s, t, a)
    ensures Apply(s, t, a).overwritten == multiset{} <==> s.overwritten == multiset{} && !OverwritingStep(s, t, a)
    ensures s.overwritten <= Apply(s, t, a).overwritten
  {
    if OverwritingStep(s, t, a) {
      assert PhaseOf(s, t).id in Apply(s, t, a).overwritten;
    }
  }

  lemma {:induction false} PrefixRuns(schedule: Schedule, i: nat)
    requires i <= |schedule| && Runs(schedule)
    ensures Runs(schedule[..i])
  {
    if i < |schedule| {
      PrefixRuns(schedule[..|schedule| - 1], i);
      assert schedule[..|schedule| - 1][..i] == schedule[..i];
    } else {
      assert schedule[..i] == schedule;
    }
  }

  lemma StepAt(schedule: Schedule, i: nat)
    requires i < |schedule| && Runs(schedule)
    ensures Runs(schedule[..i]) && Runs(schedule[..i + 1])
    ensures Enabled(StateAfter(schedule[..i]), schedule[i].0, schedule[i].1)
    ensures StateAfter(schedule[..i + 1]) == Apply(StateAfter(schedule[..i]), schedule[i].0, schedule[i].1)
  {
    PrefixRuns(schedule, i);
    PrefixRuns(schedule, i + 1);
    assert schedule[..i + 1][..i] == schedule[..i];
  }

  lemma {:induction false} OverwrittenGrows(schedule: Schedule, i: nat)
    requires i <= |schedule| && Runs(schedule) && Runs(schedule[..i])
    ensures StateAfter(schedule[..i]).overwritten <= StateAfter(schedule).overwritten
    decreases |schedule| - i
  {
    if i < |schedule| {
      StepAt(schedule, i);
      OverwrittenStep(StateAfter(schedule[..i]), schedule[i].0, schedule[i].1);
      OverwrittenGrows(schedule, i + 1);
    } else {
      assert schedule[..i] == schedule;
    }
  }

  /** An overwritten reference is lost for good: it is still held at every later moment. */
  lemma LeaksStay(schedule: Schedule, i: nat)
    requires i <= |schedule| && Runs(schedule)
    ensures Runs(schedule[..i])
    ensures StateAfter(schedule[..i]).overwritten <= StateAfter(schedule).refs
  {
    PrefixRuns(schedule, i);
    OverwrittenGrows(schedule, i);
    AlwaysConserved(schedule);
    var s := StateAfter(schedule);
    forall id
      ensures s.overwritten[id] <= s.refs[id]
    {
      assert ConservedAt(s, id);
      HalfReleasedIsTracked(s, id);
    }
  }

  /** No step of the schedule overwrites. */
  predicate NoneOverwrites(schedule: Schedule)
    requires Runs(schedule)
  {
    schedule == [] ||
    var init, last := schedule[..|schedule| - 1], schedule[|schedule| - 1];
    NoneOverwrites(init) && !OverwritingStep(StateAfter(init), last.0, last.1)
  }

  /** Step `i` can be taken, and does not overwrite. */
  predicate HarmlessAt(schedule: Schedule, i: nat)
    requires i < |schedule|
  {
    Runs(schedule[..i]) && !Overwrites(schedule, i)
  }

  lemma HarmlessOfInit(schedule: Schedule, i: nat)
    requires i < |schedule| - 1
    ensures HarmlessAt(schedule, i) <==> HarmlessAt(schedule[..|schedule| - 1], i)
  {
    assert schedule[..|schedule| - 1][..i] == schedule[..i];
  }

  lemma {:induction false} HarmlessWithout(schedule: Schedule, i: nat)
    requires i < |schedule| && Runs(schedule) && NoneOverwrites(schedule)
    ensures HarmlessAt(schedule, i)
  {
    if i < |schedule| - 1 {
      HarmlessWithout(schedule[..|schedule| - 1], i);
      HarmlessOfInit(schedule, i);
    }
  }

  lemma {:induction false} HarmfulStep(schedule: Schedule) returns (i: nat)
    requires Runs(schedule) && !NoneOverwrites(schedule)
    ensures i < |schedule| && !HarmlessAt(schedule, i)
  {
    var n := |schedule| - 1;
    if NoneOverwrites(schedule[..n]) {
      i := n;
    } else {
      i := HarmfulStep(schedule[..n]);
      HarmlessOfInit(schedule, i);
    }
  }

  lemma NoneOverwritesMeans(schedule: Schedule)
    requires Runs(schedule)
    ensures NoneOverwrites(schedule) <==> forall i | 0 <= i < |schedule| :: HarmlessAt(schedule, i)
  {
    if NoneOverwrites(schedule) {
      forall i | 0 <= i < |schedule|
        ensures HarmlessAt(schedule, i)
      {
        HarmlessWithout(schedule, i);
      }
    } else {
      var i := HarmfulStep(schedule);
    }
  }

  lemma {:induction false} OverwrittenCounts(schedule: Schedule)
    requires Runs(schedule)
    ensures StateAfter(schedule).overwritten == multiset{} <==> NoneOverwrites(schedule)
  {
    if schedule != [] {
      var init, last := schedule[..|schedule| - 1], schedule[|schedule| - 1];
      OverwrittenCounts(init);
      OverwrittenStep(StateAfter(init), last.0, last.1);
    }
  }

  /** A run leaks exactly when it re-registers a buffer that is tracked: without that, the
      library holds, whenever no call is in progress, one reference per tracked buffer and no
      other; and with it, it never does again. */
  lemma LeakFreeIffNoOverwrite(schedule: Schedule)
    requires Runs(schedule) && Quiescent(StateAfter(schedule))
    ensures StateAfter(schedule).refs == multiset(StateAfter(schedule).owner.Keys) <==>
            forall i | 0 <= i < |schedule| :: HarmlessAt(schedule, i)
  {
    QuiescentReferences(schedule);
    OverwrittenCounts(schedule);
    NoneOverwritesMeans(schedule);
    NothingMore(multiset(StateAfter(schedule).owner.Keys), StateAfter(schedule).overwritten);
  }

  lemma NothingMore(held: multiset<string>, more: multiset<string>)
    ensures held + more == held <==> more == multiset{}
  {
    if held + more == held {
      forall id
        ensures more[id] == 0
      {
        assert (held + more)[id] == held[id] + more[id];
      }
      assert more == multiset{};
    }
  }

  // ------------------------------------------------------------------- clean-up

  predicate RegistersFor(p: Phase, requestor: string) {
    (p.Acquired? || p.Described? || p.HandedOver? || p.Tracking?) && p.requestor == requestor
  }

  /** The requestor has no registration in flight. */
  ghost predicate Settled(s: State, requestor: string) {
    forall t :: !RegistersFor(PhaseOf(s, t), requestor)
  }

  ghost predicate OwnsNothing(s: State, requestor: string) {
    forall id :: id in s.owner ==> s.owner[id] != requestor
  }

  /** A sweep that ends has left none of its requestor's entries. */
  lemma SweepIsComplete(schedule: Schedule, t: Thread)
    requires Runs(schedule) && Enabled(StateAfter(schedule), t, SweepDone)
    ensures OwnsNothing(Apply(StateAfter(schedule), t, SweepDone), PhaseOf(StateAfter(schedule), t).requestor)
  {
    AlwaysConserved(schedule);
    var s := StateAfter(schedule);
    assert NeedsLock(PhaseOf(s, t)) <==> s.lock == Some(t);
  }

  /** A sweep takes away nobody else's entries. */
  lemma SweepTakesOwn(schedule: Schedule, t: Thread)
    requires Runs(schedule) && Enabled(StateAfter(schedule), t, SweepDelete)
    ensures
      var s := StateAfter(schedule);
      PhaseOf(s, t).id in s.owner && s.owner[PhaseOf(s, t).id] == PhaseOf(s, t).requestor
  {
    AlwaysConserved(schedule);
    var s := StateAfter(schedule);
    assert NeedsLock(PhaseOf(s, t)) <==> s.lock == Some(t);
  }

  lemma NoNewRegistration(s: State, t: Thread, a: Action, requestor: string)
    requires Enabled(s, t, a) && !RegistersFor(PhaseOf(s, t), requestor)
    requires !(a.GetBuffer? && a.requestor == requestor)
    ensures !RegistersFor(PhaseOf(Apply(s, t, a), t), requestor)
  {
  }

  lemma OthersStand(s: State, t: Thread, a: Action, u: Thread)
    requires Enabled(s, t, a) && u != t
    ensures PhaseOf(Apply(s, t, a), u) == PhaseOf(s, u)
  {
  }

  lemma StaysSettled(s: State, t: Thread, a: Action, requestor: string)
    requires Enabled(s, t, a) && Settled(s, requestor) && !(a.GetBuffer? && a.requestor == requestor)
    ensures Settled(Apply(s, t, a), requestor)
  {
    var s' := Apply(s, t, a);
    NoNewRegistration(s, t, a, requestor);
    forall u
      ensures !RegistersFor(PhaseOf(s', u), requestor)
    {
      if u != t {
        OthersStand(s, t, a, u);
      }
    }
  }

  lemma StaysClean(s: State, t: Thread, a: Action, requestor: string)
    requires Enabled(s, t, a) && Settled(s, requestor) && OwnsNothing(s, requestor)
    ensures OwnsNothing(Apply(s, t, a), requestor)
  {
    assert !RegistersFor(PhaseOf(s, t), requestor);
  }

  lemma {:induction false} CleanStays(schedule: Schedule, i: nat, requestor: string)
    requires i <= |schedule| && Runs(schedule) && Runs(schedule[..i])
    requires Settled(StateAfter(schedule[..i]), requestor) && OwnsNothing(StateAfter(schedule[..i]), requestor)
    requires forall j | i <= j < |schedule| :: !(schedule[j].1.GetBuffer? && schedule[j].1.requestor == requestor)
    ensures OwnsNothing(StateAfter(schedule), requestor)
    decreases |schedule| - i
  {
    if i < |schedule| {
      StepAt(schedule, i);
      StaysSettled(StateAfter(schedule[..i]), schedule[i].0, schedule[i].1, requestor);
      StaysClean(StateAfter(schedule[..i]), schedule[i].0, schedule[i].1, requestor);
      CleanStays(schedule, i + 1, requestor);
    } else {
      assert schedule[..i] == schedule;
    }
  }

  /** Clean-up lasts: once a sweep for a requestor has ended, with none of its registrations
      in flight and none started since, nothing is tracked for it at any later moment, however
      the other threads go on. */
  lemma CleanedUpForGood(schedule: Schedule, i: nat, requestor: string)
    requires i < |schedule| && Runs(schedule) && Runs(schedule[..i])
    requires schedule[i].1 == SweepDone
    requires PhaseOf(StateAfter(schedule[..i]), schedule[i].0) == Sweeping(requestor, {})
    requires Settled(StateAfter(schedule[..i]), requestor)
    requires forall j | i < j < |schedule| :: !(schedule[j].1.GetBuffer? && schedule[j].1.requestor == requestor)
    ensures OwnsNothing(StateAfter(schedule), requestor)
  {
    StepAt(schedule, i);
    var s, t := StateAfter(schedule[..i]), schedule[i].0;
    SweepIsComplete(schedule[..i], t);
    StaysSettled(s, t, SweepDone, requestor);
    CleanStays(schedule, i + 1, requestor);
  }

  // --------------------------------------------------- calls that run undisturbed

  /** The state after a thread takes some steps in a row, if it can. */
  function Undisturbed(s: State, t: Thread, actions: seq<Action>): Option<State>
    decreases actions
  {
    if actions == [] then Some(s)
    else if Enabled(s, t, actions[0]) then Undisturbed(Apply(s, t, actions[0]), t, actions[1..])
    else None
  }

  /** A registration that is not disturbed does what the manager's method does: it tracks the
      buffer, takes one reference, and overwrites one if the buffer was tracked. */
  lemma RegistrationAlone(s: State, t: Thread, requestor: string, id: string)
    requires PhaseOf(s, t).Idle? && s.lock.None?
    ensures
      var r := Undisturbed(s, t, [GetBuffer(requestor, id), GetMetadata(true), ReleaseServerCopy(true), LockToTrack,
                                  Track]);
      && r.Some?
      && r.value.owner == s.owner[id := requestor]
      && r.value.refs == s.refs + multiset{id}
      && r.value.overwritten == s.overwritten + (if id in s.owner then multiset{id} else multiset{})
      && r.value.lock.None? && PhaseOf(r.value, t).Idle?
  {
    var s1 := Apply(s, t, GetBuffer(requestor, id));
    var s2 := Apply(s1, t, GetMetadata(true));
    var s3 := Apply(s2, t, ReleaseServerCopy(true));
    var s4 := Apply(s3, t, LockToTrack);
    var s5 := Apply(s4, t, Track);
    var steps := [GetBuffer(requestor, id), GetMetadata(true), ReleaseServerCopy(true), LockToTrack, Track];
    assert Undisturbed(s4, t, steps[4..]) == Some(s5) by {
      assert steps[4..][1..] == [];
    }
    assert Undisturbed(s3, t, steps[3..]) == Some(s5) by {
      assert steps[3..][1..] == steps[4..];
    }
    assert Undisturbed(s2, t, steps[2..]) == Some(s5) by {
      assert steps[2..][1..] == steps[3..];
    }
    assert Undisturbed(s1, t, steps[1..]) == Some(s5) by {
      assert steps[1..][1..] == steps[2..];
    }
  }

  lemma UndisturbedStep(s: State, t: Thread, a: Action, rest: seq<Action>)
    requires Enabled(s, t, a)
    ensures Undisturbed(s, t, [a] + rest) == Undisturbed(Apply(s, t, a), t, rest)
  {
    assert ([a] + rest)[1..] == rest;
  }

  lemma UndoAlone(s: State, t: Thread, id: string)
    requires PhaseOf(s, t) == Undoing(id)
    ensures Undisturbed(s, t, [Undo]) == Some(Apply(s, t, Undo))
  {
    assert [Undo][1..] == [];
  }

  /** The thread is idle again, and all else is as it was. */
  ghost predicate BackTo(s: State, t: Thread, r: Option<State>) {
    r.Some? && r.value == s.(threads := s.threads[t := Idle])
  }

  lemma UndoingGoesBack(s: State, mid: State, t: Thread, id: string)
    requires mid == s.(refs := s.refs + multiset{id}, threads := s.threads[t := Undoing(id)])
    ensures BackTo(s, t, Undisturbed(mid, t, [Undo]))
  {
    UndoAlone(mid, t, id);
    assert s.threads[t := Undoing(id)][t := Idle] == s.threads[t := Idle];
  }

  /** A registration whose metadata cannot be read gives its reference back and changes nothing. */
  lemma MetadataFailureAlone(s: State, t: Thread, requestor: string, id: string)
    requires PhaseOf(s, t).Idle?
    ensures BackTo(s, t, Undisturbed(s, t, [GetBuffer(requestor, id)] + ([GetMetadata(false)] + [Undo])))
  {
    var s1 := Apply(s, t, GetBuffer(requestor, id));
    var s2 := Apply(s1, t, GetMetadata(false));
    UndisturbedStep(s, t, GetBuffer(requestor, id), [GetMetadata(false)] + [Undo]);
    UndisturbedStep(s1, t, GetMetadata(false), [Undo]);
    assert s2.threads == s.threads[t := Undoing(id)];
    UndoingGoesBack(s, s2, t, id);
  }

  /** Nor does one whose buffer the script server does not let go of. */
  lemma HandOverFailureAlone(s: State, t: Thread, requestor: string, id: string)
    requires PhaseOf(s, t).Idle?
    ensures BackTo(s, t, Undisturbed(s, t, [GetBuffer(requestor, id)]
                                           + ([GetMetadata(true)] + ([ReleaseServerCopy(false)] + [Undo]))))
  {
    var s1 := Apply(s, t, GetBuffer(requestor, id));
    var s2 := Apply(s1, t, GetMetadata(true));
    var s3 := Apply(s2, t, ReleaseServerCopy(false));
    UndisturbedStep(s, t, GetBuffer(requestor, id), [GetMetadata(true)] + ([ReleaseServerCopy(false)] + [Undo]));
    UndisturbedStep(s1, t, GetMetadata(true), [ReleaseServerCopy(false)] + [Undo]);
    UndisturbedStep(s2, t, ReleaseServerCopy(false), [Undo]);
    assert s3.threads == s.threads[t := Undoing(id)];
    UndoingGoesBack(s, s3, t, id);
  }

  /** So does a consumption or a release of a tracked buffer. */
  lemma ConsumptionAlone(s: State, t: Thread, requestor: string, id: string)
    requires PhaseOf(s, t).Idle? && s.lock.None? && id in s.owner && s.owner[id] == requestor
    ensures
      var r := Undisturbed(s, t, [LockToConsume(requestor, id), ReleaseReference, Delete]);
      && r.Some? && r.value.owner == s.owner - {id} && r.value.refs == s.refs - multiset{id}
      && r.value.overwritten == s.overwritten && r.value.lock.None? && PhaseOf(r.value, t).Idle?
  {
    var s1 := Apply(s, t, LockToConsume(requestor, id));
    var s2 := Apply(s1, t, ReleaseReference);
    var s3 := Apply(s2, t, Delete);
    var steps := [LockToConsume(requestor, id), ReleaseReference, Delete];
    assert Undisturbed(s2, t, steps[2..]) == Some(s3) by {
      assert steps[2..][1..] == [];
    }
    assert Undisturbed(s1, t, steps[1..]) == Some(s3) by {
      assert steps[1..][1..] == steps[2..];
    }
  }

  function OthersOnly(owner: map<string, string>, requestor: string, ids: set<string>): map<string, string> {
    map id | id in owner && !(id in ids && owner[id] == requestor) :: owner[id]
  }

  lemma OthersOnlySkip(owner: map<string, string>, requestor: string, ids: set<string>, id: string)
    requires id in owner && owner[id] != requestor
    ensures OthersOnly(owner, requestor, ids) == OthersOnly(owner, requestor, ids - {id})
  {
  }

  lemma OthersOnlyDelete(owner: map<string, string>, requestor: string, ids: set<string>, id: string)
    requires id in owner && owner[id] == requestor && id in ids
    ensures OthersOnly(owner, requestor, ids) == OthersOnly(owner - {id}, requestor, ids - {id})
  {
  }

  function OwnAmong(owner: map<string, string>, requestor: string, ids: set<string>): set<string> {
    set id | id in ids && id in owner && owner[id] == requestor
  }

  lemma OwnAmongSkip(owner: map<string, string>, requestor: string, ids: set<string>, id: string)
    requires id in owner && owner[id] != requestor
    ensures OwnAmong(owner, requestor, ids) == OwnAmong(owner, requestor, ids - {id})
  {
  }

  lemma OwnAmongDelete(owner: map<string, string>, requestor: string, ids: set<string>, id: string,
                       refs: multiset<string>)
    requires id in owner && owner[id] == requestor && id in ids
    ensures refs - multiset(OwnAmong(owner, requestor, ids))
         == refs - multiset{id} - multiset(OwnAmong(owner - {id}, requestor, ids - {id}))
  {
    assert OwnAmong(owner, requestor, ids) == OwnAmong(owner - {id}, requestor, ids - {id}) + {id};
    assert id !in OwnAmong(owner - {id}, requestor, ids - {id});
  }

  /** The steps of a sweep that meets the entries in the given order. */
  function SweepSteps(owner: map<string, string>, requestor: string, order: seq<string>): seq<Action> {
    if order == [] then [SweepDone]
    else if order[0] in owner && owner[order[0]] == requestor
      then [SweepRelease(order[0])] + ([SweepDelete] + SweepSteps(owner - {order[0]}, requestor, order[1..]))
    else [SweepSkip(order[0])] + SweepSteps(owner, requestor, order[1..])
  }

  ghost predicate Enumerates(order: seq<string>, ids: set<string>) {
    (forall id :: id in order <==> id in ids) && forall i, j | 0 <= i < j < |order| :: order[i] != order[j]
  }

  lemma EnumeratesRest(order: seq<string>, ids: set<string>)
    requires Enumerates(order, ids) && order != []
    ensures order[0] in ids && Enumerates(order[1..], ids - {order[0]})
  {
  }

  /** What a sweep leaves: the entries of the others, and one reference less for each of its
      own. */
  ghost predicate Swept(s: State, t: Thread, requestor: string, remaining: set<string>, r: Option<State>) {
    && r.Some? && r.value.owner == OthersOnly(s.owner, requestor, remaining)
    && r.value.refs == s.refs - multiset(OwnAmong(s.owner, requestor, remaining))
    && r.value.overwritten == s.overwritten && r.value.lock.None? && PhaseOf(r.value, t).Idle?
  }

  lemma SweepSkipAlone(s: State, t: Thread, requestor: string, remaining: set<string>, id: string, rest: seq<Action>)
    requires PhaseOf(s, t) == Sweeping(requestor, remaining) && id in remaining
    requires id in s.owner && s.owner[id] != requestor
    requires Swept(Apply(s, t, SweepSkip(id)), t, requestor, remaining - {id},
                   Undisturbed(Apply(s, t, SweepSkip(id)), t, rest))
    ensures Swept(s, t, requestor, remaining, Undisturbed(s, t, [SweepSkip(id)] + rest))
  {
    UndisturbedStep(s, t, SweepSkip(id), rest);
    OthersOnlySkip(s.owner, requestor, remaining, id);
    OwnAmongSkip(s.owner, requestor, remaining, id);
  }

  lemma SweepDeleteAlone(s: State, t: Thread, requestor: string, remaining: set<string>, id: string, rest: seq<Action>)
    requires PhaseOf(s, t) == Sweeping(requestor, remaining) && id in remaining
    requires id in s.owner && s.owner[id] == requestor
    requires
      var next := Apply(Apply(s, t, SweepRelease(id)), t, SweepDelete);
      Swept(next, t, requestor, remaining - {id}, Undisturbed(next, t, rest))
    ensures Swept(s, t, requestor, remaining, Undisturbed(s, t, [SweepRelease(id)] + ([SweepDelete] + rest)))
  {
    var mid := Apply(s, t, SweepRelease(id));
    UndisturbedStep(s, t, SweepRelease(id), [SweepDelete] + rest);
    UndisturbedStep(mid, t, SweepDelete, rest);
    OthersOnlyDelete(s.owner, requestor, remaining, id);
    OwnAmongDelete(s.owner, requestor, remaining, id, s.refs);
  }

  lemma SweepEndAlone(s: State, t: Thread, requestor: string)
    requires PhaseOf(s, t) == Sweeping(requestor, {})
    ensures Swept(s, t, requestor, {}, Undisturbed(s, t, [SweepDone]))
  {
    assert [SweepDone][1..] == [];
    assert OthersOnly(s.owner, requestor, {}) == s.owner;
    assert OwnAmong(s.owner, requestor, {}) == {};
  }

  /** And so does a sweep, in any order in which it may meet the entries. */
  lemma {:induction false} SweepAlone(s: State, t: Thread, requestor: string, remaining: set<string>,
                                      order: seq<string>)
    requires PhaseOf(s, t) == Sweeping(requestor, remaining) && remaining <= s.owner.Keys
    requires Enumerates(order, remaining)
    ensures Swept(s, t, requestor, remaining, Undisturbed(s, t, SweepSteps(s.owner, requestor, order)))
    decreases |order|
  {
    if order == [] {
      assert remaining == {};
      SweepEndAlone(s, t, requestor);
    } else {
      var id := order[0];
      EnumeratesRest(order, remaining);
      if s.owner[id] != requestor {
        SweepAlone(Apply(s, t, SweepSkip(id)), t, requestor, remaining - {id}, order[1..]);
        SweepSkipAlone(s, t, requestor, remaining, id, SweepSteps(s.owner, requestor, order[1..]));
      } else {
        var next := Apply(Apply(s, t, SweepRelease(id)), t, SweepDelete);
        SweepAlone(next, t, requestor, remaining - {id}, order[1..]);
        SweepDeleteAlone(s, t, requestor, remaining, id, SweepSteps(s.owner - {id}, requestor, order[1..]));
      }
    }
  }
}
