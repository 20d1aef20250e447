/**
 Several measurements at once on one buffer manager. Thread `t` runs measurement number `t`: it
 registers and consumes buffers under its own id, sweeps once, and does nothing after that; the
 threads interleave in single steps.
 */
module Measurements {
  import opened Wrappers
  import opened BufferProtocol
  import DispatchProtocol

  /** Numbers that the counter gives out before it wraps. */
  predicate IsMeasurement(t: Thread) {
    0 < t < WIDTH
  }

  function IdOf(t: Thread): string
    requires IsMeasurement(t)
  {
    DispatchProtocol.MeasurementId(t)
  }

  lemma IdsDiffer(t: Thread, u: Thread)
    requires IsMeasurement(t) && IsMeasurement(u) && t != u
    ensures IdOf(t) != IdOf(u)
  {
    DispatchProtocol.UnwrappedIds(t, u);
  }

  // ----------------------------------------------------------------- the program

  /** What a measurement may do, before and after it has begun to sweep. */
  predicate Allowed(t: Thread, swept: bool, a: Action) {
    && IsMeasurement(t)
    && match a
       case GetBuffer(requestor, _) => requestor == IdOf(t) && !swept
       case LockToConsume(requestor, _) => requestor == IdOf(t) && !swept
       case LockToSweep(requestor) => requestor == IdOf(t) && !swept
       case LockToRelease(_) => false
       case _ => true
  }

  predicate HasSwept(schedule: Schedule, t: Thread) {
    schedule != [] &&
    var last := schedule[|schedule| - 1];
    HasSwept(schedule[..|schedule| - 1], t) || (last.0 == t && last.1.LockToSweep?)
  }

  /** Every thread keeps to the program of its measurement. */
  predicate KeepsToProgram(schedule: Schedule) {
    schedule == [] ||
    var init, last := schedule[..|schedule| - 1], schedule[|schedule| - 1];
    KeepsToProgram(init) && Allowed(last.0, HasSwept(init, last.0), last.1)
  }

  /** The phases that a measurement goes through, all under its own id. */
  predicate Fits(t: Thread, swept: bool, p: Phase) {
    p.Idle? ||
    (&& IsMeasurement(t)
     && match p
        case Undoing(_) => !swept
        case Dropping(_) => !swept
        case Deleting(_) => !swept
        case Sweeping(requestor, _) => swept && requestor == IdOf(t)
        case SweepDeleting(requestor, _, _) => swept && requestor == IdOf(t)
        case Idle => true
        case _ => !swept && p.requestor == IdOf(t))
  }

  lemma FitsStep(s: State, t: Thread, a: Action, swept: bool)
    requires Enabled(s, t, a) && Allowed(t, swept, a) && Fits(t, swept, PhaseOf(s, t))
    ensures Fits(t, swept || a.LockToSweep?, PhaseOf(Apply(s, t, a), t))
  {
  }

  ghost predicate AllFit(schedule: Schedule, s: State) {
    forall t :: Fits(t, HasSwept(schedule, t), PhaseOf(s, t))
  }

  lemma {:induction false} AlwaysFits(schedule: Schedule)
    requires Runs(schedule) && KeepsToProgram(schedule)
    ensures AllFit(schedule, StateAfter(schedule))
  {
    if schedule != [] {
      var init, last := schedule[..|schedule| - 1], schedule[|schedule| - 1];
      AlwaysFits(init);
      var s := StateAfter(init);
      forall t
        ensures Fits(t, HasSwept(schedule, t), PhaseOf(StateAfter(schedule), t))
      {
        assert Fits(t, HasSwept(init, t), PhaseOf(s, t));
        if t == last.0 {
          FitsStep(s, t, last.1, HasSwept(init, t));
        } else {
          OthersStand(s, last.0, last.1, t);
        }
      }
    }
  }

  // ---------------------------------------------------------------- clean-up

  /** Once a measurement has begun to sweep, it has no registration in flight. */
  lemma SweptIsSettled(schedule: Schedule, u: Thread)
    requires Runs(schedule) && KeepsToProgram(schedule) && IsMeasurement(u) && HasSwept(schedule, u)
    ensures Settled(StateAfter(schedule), IdOf(u))
  {
    AlwaysFits(schedule);
    var s := StateAfter(schedule);
    forall t
      ensures !RegistersFor(PhaseOf(s, t), IdOf(u))
    {
      assert Fits(t, HasSwept(schedule, t), PhaseOf(s, t));
      if t != u && IsMeasurement(t) {
        IdsDiffer(t, u);
      }
    }
  }

  /** The measurement has swept, and has ended. */
  predicate Finished(schedule: Schedule, u: Thread)
    requires Runs(schedule)
  {
    HasSwept(schedule, u) && PhaseOf(StateAfter(schedule), u).Idle?
  }

  /** In every interleaving of measurements, nothing is tracked for one that has ended, and never
      will be. */
  lemma {:induction false} EachCleansUp(schedule: Schedule, u: Thread)
    requires Runs(schedule) && KeepsToProgram(schedule) && IsMeasurement(u) && Finished(schedule, u)
    ensures OwnsNothing(StateAfter(schedule), IdOf(u))
  {
    var init := schedule[..|schedule| - 1];
    var (t, a) := schedule[|schedule| - 1];
    var s := StateAfter(init);
    AlwaysFits(init);
    assert Fits(u, HasSwept(init, u), PhaseOf(s, u));
    if t == u {
      SweepIsComplete(init, u);
    } else {
      OthersStand(s, t, a, u);
      EachCleansUp(init, u);
      SweptIsSettled(init, u);
      StaysClean(s, t, a, IdOf(u));
    }
  }

  // --------------------------------------------------------- as if it ran alone

  /** What the lock's holder is consuming is its own. */
  ghost predicate ConsumesOwn(s: State) {
    s.lock.Some? && IsMeasurement(s.lock.value) ==>
      var p := PhaseOf(s, s.lock.value);
      p.Dropping? || p.Deleting? ==> p.id in s.owner && s.owner[p.id] == IdOf(s.lock.value)
  }

  lemma ConsumesOwnStep(s: State, t: Thread, a: Action, swept: bool)
    requires MutuallyExcluded(s) && ConsumesOwn(s) && Enabled(s, t, a) && Allowed(t, swept, a)
    ensures ConsumesOwn(Apply(s, t, a))
  {
    assert NeedsLock(PhaseOf(s, t)) <==> s.lock == Some(t);
  }

  lemma {:induction false} AlwaysConsumesOwn(schedule: Schedule)
    requires Runs(schedule) && KeepsToProgram(schedule)
    ensures ConsumesOwn(StateAfter(schedule))
  {
    if schedule != [] {
      var init, last := schedule[..|schedule| - 1], schedule[|schedule| - 1];
      AlwaysConsumesOwn(init);
      AlwaysConserved(init);
      ConsumesOwnStep(StateAfter(init), last.0, last.1, HasSwept(init, last.0));
    }
  }

  /** The step registers a buffer that is tracked for `u`, for somebody else. */
  predicate StealsFrom(s: State, t: Thread, a: Action, u: Thread)
    requires IsMeasurement(u)
  {
    && t != u && a.Track? && PhaseOf(s, t).Tracking? && PhaseOf(s, t).id in s.owner
    && s.owner[PhaseOf(s, t).id] == IdOf(u)
  }

  /** No step of the schedule takes a tracked buffer away from `u` by registering it again. */
  predicate NothingStolen(schedule: Schedule, u: Thread)
    requires Runs(schedule) && IsMeasurement(u)
  {
    schedule == [] ||
    var init, last := schedule[..|schedule| - 1], schedule[|schedule| - 1];
    NothingStolen(init, u) && !StealsFrom(StateAfter(init), last.0, last.1, u)
  }

  /** The steps of one measurement, without those that pass over the entries of others. */
  function Alone(schedule: Schedule, u: Thread): Schedule {
    if schedule == [] then []
    else
      var init, last := Alone(schedule[..|schedule| - 1], u), schedule[|schedule| - 1];
      if last.0 == u && !last.1.SweepSkip? then init + [last] else init
  }

  function OwnEntries(owner: map<string, string>, requestor: string): map<string, string> {
    map id | id in owner && owner[id] == requestor :: owner[id]
  }

  /** A phase as it would be if there were only the measurement's own entries. */
  function OwnPhase(own: set<string>, p: Phase): Phase {
    match p
    case Sweeping(requestor, remaining) => Sweeping(requestor, remaining * own)
    case SweepDeleting(requestor, remaining, id) => SweepDeleting(requestor, remaining * own, id)
    case _ => p
  }

  /** What measurement `u` can see of `s` is what there is when it runs alone. */
  ghost predicate SeesAlone(s: State, alone: State, u: Thread)
    requires IsMeasurement(u)
  {
    && alone.owner == OwnEntries(s.owner, IdOf(u))
    && PhaseOf(alone, u) == OwnPhase(alone.owner.Keys, PhaseOf(s, u))
    && (alone.lock == if s.lock == Some(u) then Some(u) else None)
  }

  predicate Sweeps(a: Action) {
    a.LockToSweep? || a.SweepRelease? || a.SweepDelete? || a.SweepDone?
  }

  lemma OwnSweepStep(s: State, alone: State, u: Thread, a: Action, swept: bool)
    requires MutuallyExcluded(s) && WorkTracked(s) && Enabled(s, u, a) && Allowed(u, swept, a) && Sweeps(a)
    requires Fits(u, swept, PhaseOf(s, u)) && SeesAlone(s, alone, u)
    ensures Enabled(alone, u, a) && SeesAlone(Apply(s, u, a), Apply(alone, u, a), u)
  {
    assert NeedsLock(PhaseOf(s, u)) <==> s.lock == Some(u);
    if a.SweepDelete? {
      OwnDeleteStep(s, alone, u, IdOf(u));
    }
  }

  lemma OwnDeleteStep(s: State, alone: State, u: Thread, requestor: string)
    requires WorksOnTracked(s.owner, PhaseOf(s, u)) && Enabled(s, u, SweepDelete)
    requires PhaseOf(s, u).requestor == requestor && alone.owner == OwnEntries(s.owner, requestor)
    requires PhaseOf(alone, u) == OwnPhase(alone.owner.Keys, PhaseOf(s, u))
    ensures Enabled(alone, u, SweepDelete)
    ensures Apply(alone, u, SweepDelete).owner == OwnEntries(Apply(s, u, SweepDelete).owner, requestor)
    ensures PhaseOf(Apply(alone, u, SweepDelete), u)
         == OwnPhase(Apply(alone, u, SweepDelete).owner.Keys, PhaseOf(Apply(s, u, SweepDelete), u))
  {
  }

  lemma OwnEntryStep(s: State, alone: State, u: Thread, a: Action, swept: bool)
    requires MutuallyExcluded(s) && WorkTracked(s) && ConsumesOwn(s) && Enabled(s, u, a) && Allowed(u, swept, a)
    requires a.Track? || a.LockToConsume? || a.ReleaseReference? || a.Delete?
    requires Fits(u, swept, PhaseOf(s, u)) && SeesAlone(s, alone, u)
    ensures Enabled(alone, u, a) && SeesAlone(Apply(s, u, a), Apply(alone, u, a), u)
  {
    assert NeedsLock(PhaseOf(s, u)) <==> s.lock == Some(u);
  }

  /** An own step that is not passed over can be taken alone, and keeps the two alike. */
  lemma OwnStep(s: State, alone: State, u: Thread, a: Action, swept: bool)
    requires MutuallyExcluded(s) && WorkTracked(s) && ConsumesOwn(s)
    requires Enabled(s, u, a) && Allowed(u, swept, a) && Fits(u, swept, PhaseOf(s, u)) && !a.SweepSkip?
    requires SeesAlone(s, alone, u)
    ensures Enabled(alone, u, a) && SeesAlone(Apply(s, u, a), Apply(alone, u, a), u)
  {
    if Sweeps(a) {
      OwnSweepStep(s, alone, u, a, swept);
    } else if a.Track? || a.LockToConsume? || a.ReleaseReference? || a.Delete? {
      OwnEntryStep(s, alone, u, a, swept);
    } else {
      assert NeedsLock(PhaseOf(s, u)) <==> s.lock == Some(u);
    }
  }

  /** Passing over an entry of another makes no difference to what is seen. */
  lemma OwnSkip(s: State, alone: State, u: Thread, a: Action, swept: bool)
    requires MutuallyExcluded(s) && Enabled(s, u, a) && a.SweepSkip? && Fits(u, swept, PhaseOf(s, u))
    requires IsMeasurement(u) && SeesAlone(s, alone, u)
    ensures SeesAlone(Apply(s, u, a), alone, u)
  {
    assert NeedsLock(PhaseOf(s, u)) <==> s.lock == Some(u);
  }

  lemma ForeignAdded(owner: map<string, string>, requestor: string, id: string, other: string)
    requires other != requestor && (id in owner ==> owner[id] != requestor)
    ensures OwnEntries(owner[id := other], requestor) == OwnEntries(owner, requestor)
  {
  }

  lemma ForeignRemoved(owner: map<string, string>, requestor: string, id: string)
    requires id in owner ==> owner[id] != requestor
    ensures OwnEntries(owner - {id}, requestor) == OwnEntries(owner, requestor)
  {
  }

  lemma OthersKeepEntries(s: State, t: Thread, a: Action, swept: bool, u: Thread)
    requires MutuallyExcluded(s) && WorkTracked(s) && ConsumesOwn(s)
    requires Enabled(s, t, a) && Allowed(t, swept, a) && Fits(t, swept, PhaseOf(s, t))
    requires IsMeasurement(u) && t != u && !StealsFrom(s, t, a, u)
    ensures OwnEntries(Apply(s, t, a).owner, IdOf(u)) == OwnEntries(s.owner, IdOf(u))
  {
    assert NeedsLock(PhaseOf(s, t)) <==> s.lock == Some(t);
    IdsDiffer(t, u);
    match a {
      case Track => ForeignAdded(s.owner, IdOf(u), PhaseOf(s, t).id, PhaseOf(s, t).requestor);
      case Delete => ForeignRemoved(s.owner, IdOf(u), PhaseOf(s, t).id);
      case SweepDelete => ForeignRemoved(s.owner, IdOf(u), PhaseOf(s, t).id);
      case _ =>
    }
  }

  lemma StolenIsGone(s: State, t: Thread, a: Action, swept: bool, u: Thread)
    requires Enabled(s, t, a) && Allowed(t, swept, a) && Fits(t, swept, PhaseOf(s, t))
    requires IsMeasurement(u) && StealsFrom(s, t, a, u)
    ensures OwnEntries(Apply(s, t, a).owner, IdOf(u)) != OwnEntries(s.owner, IdOf(u))
  {
    IdsDiffer(t, u);
    var id := PhaseOf(s, t).id;
    assert id in OwnEntries(s.owner, IdOf(u)) && id !in OwnEntries(Apply(s, t, a).owner, IdOf(u));
  }

  /** The steps of others change nothing that is seen, if and only if they do not steal. */
  lemma OtherStep(s: State, alone: State, t: Thread, a: Action, swept: bool, u: Thread)
    requires MutuallyExcluded(s) && WorkTracked(s) && ConsumesOwn(s)
    requires Enabled(s, t, a) && Allowed(t, swept, a) && Fits(t, swept, PhaseOf(s, t))
    requires IsMeasurement(u) && t != u && SeesAlone(s, alone, u)
    ensures SeesAlone(Apply(s, t, a), alone, u) <==> !StealsFrom(s, t, a, u)
  {
    if StealsFrom(s, t, a, u) {
      StolenIsGone(s, t, a, swept, u);
    } else {
      OthersKeepEntries(s, t, a, swept, u);
    }
    OthersStand(s, t, a, u);
    assert NeedsLock(PhaseOf(s, t)) <==> s.lock == Some(t);
  }

  /** At every moment of the schedule, `u` sees its own entries as if it ran alone. */
  ghost predicate AlwaysAlone(schedule: Schedule, u: Thread)
    requires Runs(schedule) && IsMeasurement(u)
  {
    && Runs(Alone(schedule, u)) && SeesAlone(StateAfter(schedule), StateAfter(Alone(schedule, u)), u)
    && (schedule == [] || AlwaysAlone(schedule[..|schedule| - 1], u))
  }

  lemma NextMoment(init: Schedule, t: Thread, a: Action, u: Thread)
    requires Runs(init + [(t, a)]) && Runs(init) && Enabled(StateAfter(init), t, a)
    requires KeepsToProgram(init) && Allowed(t, HasSwept(init, t), a) && IsMeasurement(u)
    requires Runs(Alone(init, u)) && SeesAlone(StateAfter(init), StateAfter(Alone(init, u)), u)
    ensures Runs(Alone(init + [(t, a)], u))
    ensures SeesAlone(Apply(StateAfter(init), t, a), StateAfter(Alone(init + [(t, a)], u)), u) <==>
            !StealsFrom(StateAfter(init), t, a, u)
  {
    var s, before, swept := StateAfter(init), Alone(init, u), HasSwept(init, t);
    AlwaysConserved(init);
    AlwaysConsumesOwn(init);
    AlwaysFits(init);
    assert Fits(t, swept, PhaseOf(s, t));
    assert (init + [(t, a)])[..|init|] == init;
    if t != u {
      OtherStep(s, StateAfter(before), t, a, swept, u);
    } else if a.SweepSkip? {
      OwnSkip(s, StateAfter(before), u, a, swept);
    } else {
      OwnStep(s, StateAfter(before), u, a, swept);
      assert (before + [(t, a)])[..|before|] == before;
    }
  }

  /** Whatever the interleaving, a measurement goes through the run that it would make alone, and
      at every moment sees its own entries as they would be then, if and only if none of them is
      stolen. So nobody else's sweep or consumption takes an entry of its, or leaves one behind. */
  lemma {:induction false} EachRunsAsAlone(schedule: Schedule, u: Thread)
    requires Runs(schedule) && KeepsToProgram(schedule) && IsMeasurement(u)
    ensures AlwaysAlone(schedule, u) <==> NothingStolen(schedule, u)
  {
    if schedule == [] {
      assert OwnEntries(map[], IdOf(u)) == map[];
    } else {
      var init := schedule[..|schedule| - 1];
      var (t, a) := schedule[|schedule| - 1];
      assert schedule == init + [(t, a)];
      EachRunsAsAlone(init, u);
      if AlwaysAlone(init, u) {
        NextMoment(init, t, a, u);
      }
    }
  }

  // ------------------------------------------------------------ unshared buffers

  /** Measurement `t` has asked for the buffer. */
  predicate Got(schedule: Schedule, t: Thread, id: string) {
    schedule != [] &&
    var last := schedule[|schedule| - 1];
    Got(schedule[..|schedule| - 1], t, id) || (last.0 == t && last.1.GetBuffer? && last.1.id == id)
  }

  /** No two measurements are sent the same buffer. */
  ghost predicate Unshared(schedule: Schedule) {
    forall t, u, id :: Got(schedule, t, id) && Got(schedule, u, id) ==> t == u
  }

  /** What is tracked or about to be tracked for a measurement, it has asked for. */
  ghost predicate OnlyGot(schedule: Schedule, s: State) {
    && (forall t :: RegistersAnything(PhaseOf(s, t)) ==> Got(schedule, t, PhaseOf(s, t).id))
    && forall u, id :: IsMeasurement(u) && id in s.owner && s.owner[id] == IdOf(u) ==> Got(schedule, u, id)
  }

  predicate RegistersAnything(p: Phase) {
    p.Acquired? || p.Described? || p.HandedOver? || p.Tracking?
  }

  lemma PhaseGot(init: Schedule, t: Thread, a: Action, u: Thread)
    requires Runs(init) && Enabled(StateAfter(init), t, a) && OnlyGot(init, StateAfter(init))
    requires RegistersAnything(PhaseOf(Apply(StateAfter(init), t, a), u))
    ensures Got(init + [(t, a)], u, PhaseOf(Apply(StateAfter(init), t, a), u).id)
  {
    assert (init + [(t, a)])[..|init|] == init;
    if t != u {
      OthersStand(StateAfter(init), t, a, u);
    }
  }

  lemma EntryGot(init: Schedule, t: Thread, a: Action, u: Thread, id: string)
    requires Runs(init) && Enabled(StateAfter(init), t, a) && OnlyGot(init, StateAfter(init))
    requires Fits(t, HasSwept(init, t), PhaseOf(StateAfter(init), t)) && IsMeasurement(t) && IsMeasurement(u)
    requires id in Apply(StateAfter(init), t, a).owner && Apply(StateAfter(init), t, a).owner[id] == IdOf(u)
    ensures Got(init + [(t, a)], u, id)
  {
    assert (init + [(t, a)])[..|init|] == init;
    if t != u {
      IdsDiffer(t, u);
    }
  }

  lemma {:induction false} AlwaysGot(schedule: Schedule)
    requires Runs(schedule) && KeepsToProgram(schedule)
    ensures OnlyGot(schedule, StateAfter(schedule))
  {
    if schedule != [] {
      var init := schedule[..|schedule| - 1];
      var (t, a) := schedule[|schedule| - 1];
      var s' := StateAfter(schedule);
      assert schedule == init + [(t, a)];
      AlwaysGot(init);
      AlwaysFits(init);
      assert Fits(t, HasSwept(init, t), PhaseOf(StateAfter(init), t));
      forall u | RegistersAnything(PhaseOf(s', u))
        ensures Got(schedule, u, PhaseOf(s', u).id)
      {
        PhaseGot(init, t, a, u);
      }
      forall u, id | IsMeasurement(u) && id in s'.owner && s'.owner[id] == IdOf(u)
        ensures Got(schedule, u, id)
      {
        EntryGot(init, t, a, u, id);
      }
    }
  }

  lemma UnsharedPrefix(init: Schedule, last: (Thread, Action))
    requires Unshared(init + [last])
    ensures Unshared(init)
  {
    assert (init + [last])[..|init|] == init;
    forall t, u, id | Got(init, t, id) && Got(init, u, id)
      ensures t == u
    {
      assert Got(init + [last], t, id) && Got(init + [last], u, id);
    }
  }

  lemma UnsharedIsNotStolen(init: Schedule, t: Thread, a: Action, u: Thread)
    requires Runs(init) && Unshared(init) && OnlyGot(init, StateAfter(init)) && IsMeasurement(u)
    ensures !StealsFrom(StateAfter(init), t, a, u)
  {
  }

  /** When no two measurements are sent the same buffer, each of them runs as if it were alone. */
  lemma {:induction false} UnsharedRunAsAlone(schedule: Schedule, u: Thread)
    requires Runs(schedule) && KeepsToProgram(schedule) && IsMeasurement(u) && Unshared(schedule)
    ensures NothingStolen(schedule, u) && AlwaysAlone(schedule, u)
  {
    EachRunsAsAlone(schedule, u);
    if schedule != [] {
      var init := schedule[..|schedule| - 1];
      var (t, a) := schedule[|schedule| - 1];
      assert schedule == init + [(t, a)];
      UnsharedPrefix(init, (t, a));
      UnsharedRunAsAlone(init, u);
      AlwaysGot(init);
      UnsharedIsNotStolen(init, t, a, u);
    }
  }

  // --------------------------------------------------------- when all have ended

  ghost predicate TrackedFor(schedule: Schedule, owner: string, id: string, u: Thread) {
    IsMeasurement(u) && owner == IdOf(u) && Got(schedule, u, id)
  }

  /** Whatever is tracked is tracked for a measurement that has asked for it. */
  ghost predicate AllTrackedFor(schedule: Schedule, s: State) {
    forall id | id in s.owner :: exists u :: TrackedFor(schedule, s.owner[id], id, u)
  }

  lemma TrackedNext(init: Schedule, t: Thread, a: Action, id: string)
    requires Runs(init) && Enabled(StateAfter(init), t, a) && IsMeasurement(t)
    requires Fits(t, HasSwept(init, t), PhaseOf(StateAfter(init), t))
    requires OnlyGot(init, StateAfter(init)) && AllTrackedFor(init, StateAfter(init))
    requires id in Apply(StateAfter(init), t, a).owner
    ensures exists u :: TrackedFor(init + [(t, a)], Apply(StateAfter(init), t, a).owner[id], id, u)
  {
    var s := StateAfter(init);
    assert (init + [(t, a)])[..|init|] == init;
    if a.Track? && PhaseOf(s, t).id == id {
      assert TrackedFor(init + [(t, a)], IdOf(t), id, t);
    } else {
      var u :| TrackedFor(init, s.owner[id], id, u);
      assert TrackedFor(init + [(t, a)], s.owner[id], id, u);
    }
  }

  lemma {:induction false} AlwaysTrackedFor(schedule: Schedule)
    requires Runs(schedule) && KeepsToProgram(schedule)
    ensures AllTrackedFor(schedule, StateAfter(schedule))
  {
    if schedule != [] {
      var init := schedule[..|schedule| - 1];
      var (t, a) := schedule[|schedule| - 1];
      assert schedule == init + [(t, a)];
      AlwaysTrackedFor(init);
      AlwaysGot(init);
      AlwaysFits(init);
      assert Fits(t, HasSwept(init, t), PhaseOf(StateAfter(init), t));
      forall id | id in StateAfter(schedule).owner
        ensures exists u :: TrackedFor(schedule, StateAfter(schedule).owner[id], id, u)
      {
        TrackedNext(init, t, a, id);
      }
    }
  }

  /** When all measurements that asked for a buffer have ended, nothing is tracked any more, and
      the library holds no reference if and only if no tracked buffer was ever registered again. */
  lemma AllCleanUp(schedule: Schedule)
    requires Runs(schedule) && KeepsToProgram(schedule) && Quiescent(StateAfter(schedule))
    requires forall u, id :: Got(schedule, u, id) ==> HasSwept(schedule, u)
    ensures StateAfter(schedule).owner == map[]
    ensures StateAfter(schedule).refs == multiset{} <==>
            forall i | 0 <= i < |schedule| :: HarmlessAt(schedule, i)
  {
    var s := StateAfter(schedule);
    AlwaysTrackedFor(schedule);
    forall id
      ensures id !in s.owner
    {
      if id in s.owner {
        var u :| TrackedFor(schedule, s.owner[id], id, u);
        assert PhaseOf(s, u).Idle?;
        EachCleansUp(schedule, u);
        assert false;
      }
    }
    assert s.owner.Keys == {};
    LeakFreeIffNoOverwrite(schedule);
  }
}
