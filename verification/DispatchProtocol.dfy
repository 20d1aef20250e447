/**
 Dispatching a list of measurements to concurrent workers: each takes an id from a global
 counter, runs its script, registers the buffers that the script returned, and writes its own
 slot of the results. Workers interleave with each other and with other dispatchers.
 */
module DispatchProtocol {
  import opened Wrappers
  import opened WireCodec
  import opened Decoder

  datatype Request = Request(script: string, variables: seq<Variable>)

  // ------------------------------------------------------------------------- ids

  function Digit(d: nat): char
    requires d < 10
  {
    "0123456789"[d]
  }

  function Decimal(n: nat): string {
    if n < 10 then [Digit(n)] else Decimal(n / 10) + [Digit(n % 10)]
  }

  /** The id for the `number`-th call of the counter, which is a uint64. */
  function MeasurementId(number: nat): string {
    "measurement-" + Decimal(Uint64(number))
  }

  /** The number that a string of digits stands for. */
  function NumberIn(s: string): int {
    if s == [] then 0 else NumberIn(s[..|s| - 1]) * 10 + (s[|s| - 1] as int - '0' as int)
  }

  lemma DigitReads(d: nat)
    requires d < 10
    ensures Digit(d) as int - '0' as int == d
  {
  }

  lemma {:induction false} DecimalReads(n: nat)
    ensures NumberIn(Decimal(n)) == n
  {
    DigitReads(n % 10);
    if n < 10 {
      assert [Digit(n)][..0] == [];
    } else {
      var init := Decimal(n / 10);
      assert (init + [Digit(n % 10)])[..|init|] == init;
      DecimalReads(n / 10);
    }
  }

  /** The rendering can be read back, so no two numbers have the same. */
  lemma DecimalInjective(m: nat, n: nat)
    ensures NumberIn(Decimal(n)) == n
    ensures Decimal(m) == Decimal(n) <==> m == n
  {
    DecimalReads(m);
    DecimalReads(n);
  }

  /** How ids look. */
  lemma FirstIds()
    ensures MeasurementId(1) == "measurement-1" && MeasurementId(42) == "measurement-42"
  {
    assert Decimal(42) == Decimal(4) + [Digit(2)];
  }

  /** Two calls of the counter get the same id exactly when it has gone all the way round
      between them. */
  lemma IdsRepeatAfterWrapping(m: nat, n: nat)
    ensures MeasurementId(m) == MeasurementId(n) <==> Uint64(m) == Uint64(n)
  {
    var prefix := "measurement-";
    if MeasurementId(m) == MeasurementId(n) {
      assert MeasurementId(m)[|prefix|..] == Decimal(Uint64(m));
      assert MeasurementId(n)[|prefix|..] == Decimal(Uint64(n));
      DecimalInjective(Uint64(m), Uint64(n));
    }
  }

  // --------------------------------------------------------- one measurement alone

  function IdsOfReturns(rs: seq<Return>): seq<string> {
    if rs == [] then [] else IdsOfReturns(rs[..|rs| - 1]) + IdsIn(rs[|rs| - 1].value)
  }

  /** The buffers that a script returned, in call and return order. */
  function ReturnedIds(calls: seq<Call>): seq<string> {
    if calls == [] then [] else ReturnedIds(calls[..|calls| - 1]) + IdsOfReturns(calls[|calls| - 1].values)
  }

  datatype Event =
    | Executed(worker: int, id: string, request: Request)
    | Registered(worker: int, owner: string, buffer: string, failure: Option<string>)

  /** What became of running a script, and of the registrations made until one failed. */
  datatype History = History(measured: Result<seq<Call>, string>, failures: seq<Option<string>>)

  /** Registrations stop at the first failure, and otherwise cover all returned buffers. */
  predicate Complete(h: History) {
    match h.measured
    case Err(_) => h.failures == []
    case Ok(calls) =>
      && |h.failures| <= |ReturnedIds(calls)|
      && (forall j | 0 <= j < |h.failures| - 1 :: h.failures[j].None?)
      && (|h.failures| < |ReturnedIds(calls)| ==> h.failures != [] && h.failures[|h.failures| - 1].Some?)
  }

  datatype MeasurementOutcome = MeasurementOutcome(id: string, results: Result<seq<Call>, string>)

  /** The result of one measurement. */
  function OutcomeOf(id: string, h: History): MeasurementOutcome {
    if h.measured.Ok? && h.failures != [] && h.failures[|h.failures| - 1].Some?
    then MeasurementOutcome(id, Err(h.failures[|h.failures| - 1].value))
    else MeasurementOutcome(id, h.measured)
  }

  function RegistrationEvents(worker: int, id: string, ids: seq<string>, failures: seq<Option<string>>): seq<Event>
    requires |failures| <= |ids|
  {
    seq(|failures|, j requires 0 <= j < |failures| => Registered(worker, id, ids[j], failures[j]))
  }

  /** What one measurement does when it runs alone: it executes its request once, and then
      registers the returned buffers in order, each under the measurement's own id. */
  function EventsAlone(worker: int, id: string, request: Request, h: History): seq<Event>
    requires h.measured.Ok? ==> |h.failures| <= |ReturnedIds(h.measured.value)|
  {
    [Executed(worker, id, request)]
    + if h.measured.Ok? then RegistrationEvents(worker, id, ReturnedIds(h.measured.value), h.failures) else []
  }

  // ------------------------------------------------------------------- the machine

  /** Where a worker stands; `number` is its call of the counter. */
  datatype Worker =
    | Waiting
    | Ready(number: nat)
    | Registering(number: nat, calls: seq<Call>, registered: nat)
    | Done(number: nat, history: History)

  datatype State = State(counter: nat, workers: seq<Worker>, results: seq<Option<MeasurementOutcome>>, log: seq<Event>)

  /** A step of a worker, with the answer of the script server or the buffer manager; or
      another dispatcher taking an id. */
  datatype Action =
    | TakeId
    | Measure(answer: Result<seq<Call>, string>)
    | Register(failure: Option<string>)
    | Finish
    | OtherTakesId

  function Initial(requests: seq<Request>): State {
    State(0, seq(|requests|, i => Waiting), seq(|requests|, i => None), [])
  }

  predicate Enabled(s: State, i: int, a: Action) {
    if a.OtherTakesId? then true
    else
      && 0 <= i < |s.workers|
      && match a
         case TakeId => s.workers[i].Waiting?
         case Measure(_) => s.workers[i].Ready?
         case Register(_) => s.workers[i].Registering? && s.workers[i].registered < |ReturnedIds(s.workers[i].calls)|
         case Finish => s.workers[i].Registering? && s.workers[i].registered == |ReturnedIds(s.workers[i].calls)|
         case OtherTakesId => true
  }

  function Ended(s: State, i: int, number: nat, h: History): State
    requires 0 <= i < |s.workers| && |s.results| == |s.workers|
  {
    s.(workers := s.workers[i := Done(number, h)],
       results := s.results[i := Some(OutcomeOf(MeasurementId(number), h))])
  }

  function Successes(n: nat): (r: seq<Option<string>>)
    ensures |r| == n && forall j | 0 <= j < n :: r[j] == None
  {
    seq(n, j => None)
  }

  function Apply(requests: seq<Request>, s: State, i: int, a: Action): State
    requires |s.workers| == |s.results| == |requests| && Enabled(s, i, a)
  {
    match a
    case OtherTakesId => s.(counter := s.counter + 1)
    case TakeId => s.(counter := s.counter + 1, workers := s.workers[i := Ready(s.counter + 1)])
    case Measure(answer) =>
      var number := s.workers[i].number;
      var logged := s.(log := s.log + [Executed(i, MeasurementId(number), requests[i])]);
      match answer {
        case Err(_) => Ended(logged, i, number, History(answer, []))
        case Ok(calls) => logged.(workers := s.workers[i := Registering(number, calls, 0)])
      }
    case Register(failure) =>
      var w := s.workers[i];
      var id := MeasurementId(w.number);
      var logged := s.(log := s.log + [Registered(i, id, ReturnedIds(w.calls)[w.registered], failure)]);
      if failure.Some?
      then Ended(logged, i, w.number, History(Ok(w.calls), Successes(w.registered) + [failure]))
      else logged.(workers := s.workers[i := w.(registered := w.registered + 1)])
    case Finish =>
      var w := s.workers[i];
      Ended(s, i, w.number, History(Ok(w.calls), Successes(w.registered)))
  }

  type Schedule = seq<(int, Action)>

  function After(requests: seq<Request>, schedule: Schedule): (r: Option<State>)
    ensures r.Some? ==> |r.value.workers| == |r.value.results| == |requests|
  {
    if schedule == [] then Some(Initial(requests))
    else
      var prev := After(requests, schedule[..|schedule| - 1]);
      var (i, a) := schedule[|schedule| - 1];
      if prev.Some? && Enabled(prev.value, i, a) then Some(Apply(requests, prev.value, i, a)) else None
  }

  // ------------------------------------------------------------------- invariant

  function EventsOf(log: seq<Event>, i: int): seq<Event> {
    if log == [] then []
    else
      var last := log[|log| - 1];
      EventsOf(log[..|log| - 1], i) + if last.worker == i then [last] else []
  }

  lemma EventsOfSnoc(log: seq<Event>, e: Event, i: int)
    ensures EventsOf(log + [e], i) == EventsOf(log, i) + if e.worker == i then [e] else []
  {
    assert (log + [e])[..|log|] == log;
  }

  /** What a worker has done so far is the beginning of what it would do alone. */
  ghost predicate WorkerInv(w: Worker, i: int, request: Request, result: Option<MeasurementOutcome>, events: seq<Event>,
                            counter: nat) {
    match w
    case Waiting => result.None? && events == []
    case Ready(number) => result.None? && events == [] && number <= counter
    case Registering(number, calls, registered) =>
      && result.None? && number <= counter && registered <= |ReturnedIds(calls)|
      && events == EventsAlone(i, MeasurementId(number), request, History(Ok(calls), Successes(registered)))
    case Done(number, h) =>
      && Complete(h) && number <= counter
      && result == Some(OutcomeOf(MeasurementId(number), h))
      && events == EventsAlone(i, MeasurementId(number), request, h)
  }

  ghost predicate WorkersInv(requests: seq<Request>, s: State) {
    && |s.workers| == |s.results| == |requests|
    && forall i | 0 <= i < |requests| ::
         WorkerInv(s.workers[i], i, requests[i], s.results[i], EventsOf(s.log, i), s.counter)
  }

  /** No two workers have the same call of the counter. */
  predicate NumbersDistinct(s: State) {
    forall i, j | 0 <= i < j < |s.workers| ::
      s.workers[i].Waiting? || s.workers[j].Waiting? || s.workers[i].number != s.workers[j].number
  }

  lemma EventsAloneSnoc(i: int, id: string, request: Request, calls: seq<Call>, n: nat, failure: Option<string>)
    requires n < |ReturnedIds(calls)|
    ensures EventsAlone(i, id, request, History(Ok(calls), Successes(n) + [failure]))
         == EventsAlone(i, id, request, History(Ok(calls), Successes(n)))
            + [Registered(i, id, ReturnedIds(calls)[n], failure)]
  {
    var ids := ReturnedIds(calls);
    assert RegistrationEvents(i, id, ids, Successes(n) + [failure])
        == RegistrationEvents(i, id, ids, Successes(n)) + [Registered(i, id, ids[n], failure)];
  }

  lemma TakeIdStep(requests: seq<Request>, s: State, i: int)
    requires WorkersInv(requests, s) && Enabled(s, i, TakeId)
    ensures
      var s' := Apply(requests, s, i, TakeId);
      WorkerInv(s'.workers[i], i, requests[i], s'.results[i], EventsOf(s'.log, i), s'.counter)
  {
    assert WorkerInv(s.workers[i], i, requests[i], s.results[i], EventsOf(s.log, i), s.counter);
  }

  lemma MeasureStep(requests: seq<Request>, s: State, i: int, answer: Result<seq<Call>, string>)
    requires WorkersInv(requests, s) && Enabled(s, i, Measure(answer))
    ensures
      var s' := Apply(requests, s, i, Measure(answer));
      WorkerInv(s'.workers[i], i, requests[i], s'.results[i], EventsOf(s'.log, i), s'.counter)
  {
    var id := MeasurementId(s.workers[i].number);
    assert WorkerInv(s.workers[i], i, requests[i], s.results[i], EventsOf(s.log, i), s.counter);
    EventsOfSnoc(s.log, Executed(i, id, requests[i]), i);
    if answer.Ok? {
      assert RegistrationEvents(i, id, ReturnedIds(answer.value), Successes(0)) == [];
      assert EventsAlone(i, id, requests[i], History(answer, Successes(0))) == [Executed(i, id, requests[i])];
    } else {
      assert EventsAlone(i, id, requests[i], History(answer, [])) == [Executed(i, id, requests[i])];
    }
  }

  lemma RegisterStep(requests: seq<Request>, s: State, i: int, failure: Option<string>)
    requires WorkersInv(requests, s) && Enabled(s, i, Register(failure))
    ensures
      var s' := Apply(requests, s, i, Register(failure));
      WorkerInv(s'.workers[i], i, requests[i], s'.results[i], EventsOf(s'.log, i), s'.counter)
  {
    var w := s.workers[i];
    var id := MeasurementId(w.number);
    assert WorkerInv(w, i, requests[i], s.results[i], EventsOf(s.log, i), s.counter);
    EventsOfSnoc(s.log, Registered(i, id, ReturnedIds(w.calls)[w.registered], failure), i);
    EventsAloneSnoc(i, id, requests[i], w.calls, w.registered, failure);
    if failure.None? {
      assert Successes(w.registered) + [failure] == Successes(w.registered + 1);
    } else {
      assert Complete(History(Ok(w.calls), Successes(w.registered) + [failure]));
    }
  }

  lemma FinishStep(requests: seq<Request>, s: State, i: int)
    requires WorkersInv(requests, s) && Enabled(s, i, Finish)
    ensures
      var s' := Apply(requests, s, i, Finish);
      WorkerInv(s'.workers[i], i, requests[i], s'.results[i], EventsOf(s'.log, i), s'.counter)
  {
    var w := s.workers[i];
    assert WorkerInv(w, i, requests[i], s.results[i], EventsOf(s.log, i), s.counter);
    assert Complete(History(Ok(w.calls), Successes(w.registered)));
  }

  lemma Unaffected(requests: seq<Request>, s: State, i: int, a: Action, u: int)
    requires |s.workers| == |s.results| == |requests| && Enabled(s, i, a)
    requires 0 <= u < |requests| && (u != i || a.OtherTakesId?)
    ensures
      var s' := Apply(requests, s, i, a);
      && s'.workers[u] == s.workers[u] && s'.results[u] == s.results[u] && s'.counter >= s.counter
      && EventsOf(s'.log, u) == EventsOf(s.log, u)
  {
    var s' := Apply(requests, s, i, a);
    if a.Measure? || a.Register? {
      var e := s'.log[|s.log|];
      assert s'.log == s.log + [e] && e.worker == i;
      EventsOfSnoc(s.log, e, u);
    }
  }

  lemma WorkersStep(requests: seq<Request>, s: State, i: int, a: Action)
    requires WorkersInv(requests, s) && Enabled(s, i, a)
    ensures WorkersInv(requests, Apply(requests, s, i, a))
  {
    var s' := Apply(requests, s, i, a);
    forall u | 0 <= u < |requests|
      ensures WorkerInv(s'.workers[u], u, requests[u], s'.results[u], EventsOf(s'.log, u), s'.counter)
    {
      if u != i || a.OtherTakesId? {
        assert WorkerInv(s.workers[u], u, requests[u], s.results[u], EventsOf(s.log, u), s.counter);
        Unaffected(requests, s, i, a, u);
      } else {
        match a {
          case TakeId => TakeIdStep(requests, s, i);
          case Measure(answer) => MeasureStep(requests, s, i, answer);
          case Register(failure) => RegisterStep(requests, s, i, failure);
          case Finish => FinishStep(requests, s, i);
        }
      }
    }
  }

  lemma NumbersStep(requests: seq<Request>, s: State, i: int, a: Action)
    requires WorkersInv(requests, s) && NumbersDistinct(s) && Enabled(s, i, a)
    ensures NumbersDistinct(Apply(requests, s, i, a))
  {
    var s' := Apply(requests, s, i, a);
    forall u, v | 0 <= u < v < |s'.workers|
      ensures s'.workers[u].Waiting? || s'.workers[v].Waiting? || s'.workers[u].number != s'.workers[v].number
    {
      assert WorkerInv(s.workers[u], u, requests[u], s.results[u], EventsOf(s.log, u), s.counter);
      assert WorkerInv(s.workers[v], v, requests[v], s.results[v], EventsOf(s.log, v), s.counter);
    }
  }

  predicate LogInv(requests: seq<Request>, s: State) {
    forall k | 0 <= k < |s.log| :: 0 <= s.log[k].worker < |requests|
  }

  /** In every interleaving each worker keeps to what it would do alone. */
  lemma {:induction false} AlwaysSequential(requests: seq<Request>, schedule: Schedule)
    requires After(requests, schedule).Some?
    ensures WorkersInv(requests, After(requests, schedule).value)
    ensures NumbersDistinct(After(requests, schedule).value) && LogInv(requests, After(requests, schedule).value)
  {
    if schedule != [] {
      var init, last := schedule[..|schedule| - 1], schedule[|schedule| - 1];
      AlwaysSequential(requests, init);
      WorkersStep(requests, After(requests, init).value, last.0, last.1);
      NumbersStep(requests, After(requests, init).value, last.0, last.1);
    }
  }

  // -------------------------------------------------------------------- results

  predicate AllDone(s: State) {
    forall i | 0 <= i < |s.workers| :: s.workers[i].Done?
  }

  /** The slot holds the outcome of its own request, run as it would be alone. */
  ghost predicate RanAlone(i: int, request: Request, outcome: MeasurementOutcome, events: seq<Event>) {
    exists h ::
      Complete(h) && outcome == OutcomeOf(outcome.id, h) && events == EventsAlone(i, outcome.id, request, h)
  }

  /** Concurrent dispatch refines a sequential map over the requests: whatever the
      interleaving, once all workers are done every slot of the results holds the outcome of
      its own request, and what was done for that request is what running it alone does. */
  lemma DispatchIsSequential(requests: seq<Request>, schedule: Schedule, i: int)
    requires After(requests, schedule).Some? && AllDone(After(requests, schedule).value)
    requires 0 <= i < |requests|
    ensures
      var s := After(requests, schedule).value;
      s.results[i].Some? && RanAlone(i, requests[i], s.results[i].value, EventsOf(s.log, i))
  {
    AlwaysSequential(requests, schedule);
    var s := After(requests, schedule).value;
    assert WorkerInv(s.workers[i], i, requests[i], s.results[i], EventsOf(s.log, i), s.counter);
    var id, h := MeasurementId(s.workers[i].number), s.workers[i].history;
    assert Complete(h) && s.results[i].value == OutcomeOf(id, h);
    assert EventsOf(s.log, i) == EventsAlone(i, id, requests[i], h);
  }

  /** The script server's answer to request `i`, if it has come. */
  function AnswerTo(schedule: Schedule, i: int): Option<Result<seq<Call>, string>> {
    if schedule == [] then None
    else
      var (j, a) := schedule[|schedule| - 1];
      if j == i && a.Measure? then Some(a.answer) else AnswerTo(schedule[..|schedule| - 1], i)
  }

  /** What a worker has been answered. */
  predicate Answered(w: Worker, answer: Option<Result<seq<Call>, string>>) {
    match w
    case Waiting => answer.None?
    case Ready(_) => answer.None?
    case Registering(_, calls, _) => answer == Some(Ok(calls))
    case Done(_, h) => answer == Some(h.measured)
  }

  ghost predicate AllAnswered(schedule: Schedule, s: State) {
    forall i | 0 <= i < |s.workers| :: Answered(s.workers[i], AnswerTo(schedule, i))
  }

  lemma {:induction false} AlwaysAnswered(requests: seq<Request>, schedule: Schedule)
    requires After(requests, schedule).Some?
    ensures AllAnswered(schedule, After(requests, schedule).value)
  {
    if schedule != [] {
      var init := schedule[..|schedule| - 1];
      var (j, a) := schedule[|schedule| - 1];
      AlwaysAnswered(requests, init);
      var s, s' := After(requests, init).value, After(requests, schedule).value;
      forall i | 0 <= i < |s'.workers|
        ensures Answered(s'.workers[i], AnswerTo(schedule, i))
      {
        assert Answered(s.workers[i], AnswerTo(init, i));
      }
    }
  }

  /** The log has, after the execution of the request, one registration after the other of the
      returned buffers, each under the measurement's id; only the last of them can have failed. */
  ghost predicate RegistersInOrder(i: int, id: string, ids: seq<string>, events: seq<Event>) {
    && |events| <= |ids| + 1
    && forall k | 1 <= k < |events| ::
         && events[k].Registered? && events[k] == Registered(i, id, ids[k - 1], events[k].failure)
         && (events[k].failure.Some? ==> k == |events| - 1)
  }

  /** When a slot is an error, in terms of the answer and the log. A slot holds the returned calls
      if and only if the script answered with them and all buffers they return have been
      registered without a failure; otherwise it holds the script's message, or that of the last
      registration. */
  lemma SlotsAreExact(requests: seq<Request>, schedule: Schedule, i: int)
    requires After(requests, schedule).Some? && 0 <= i < |requests|
    requires After(requests, schedule).value.workers[i].Done?
    ensures
      var s := After(requests, schedule).value;
      var id, events := MeasurementId(s.workers[i].number), EventsOf(s.log, i);
      && AnswerTo(schedule, i).Some? && s.results[i].Some? && s.results[i].value.id == id
      && events != [] && events[0] == Executed(i, id, requests[i])
      && match AnswerTo(schedule, i).value
         case Err(message) => s.results[i].value.results == Err(message) && |events| == 1
         case Ok(calls) =>
           var ids, last := ReturnedIds(calls), events[|events| - 1];
           && RegistersInOrder(i, id, ids, events)
           && (s.results[i].value.results == Ok(calls) <==>
                 |events| == |ids| + 1 && (last.Registered? ==> last.failure.None?))
           && (s.results[i].value.results.Err? ==>
                 last.Registered? && last.failure == Some(s.results[i].value.results.error))
  {
    AlwaysSequential(requests, schedule);
    AlwaysAnswered(requests, schedule);
    var s := After(requests, schedule).value;
    assert WorkerInv(s.workers[i], i, requests[i], s.results[i], EventsOf(s.log, i), s.counter);
    assert Answered(s.workers[i], AnswerTo(schedule, i));
    HistoryIsExact(i, MeasurementId(s.workers[i].number), requests[i], s.workers[i].history);
  }

  lemma HistoryIsExact(i: int, id: string, request: Request, h: History)
    requires Complete(h)
    ensures
      var events, results := EventsAlone(i, id, request, h), OutcomeOf(id, h).results;
      && OutcomeOf(id, h).id == id && events != [] && events[0] == Executed(i, id, request)
      && match h.measured
         case Err(message) => results == Err(message) && |events| == 1
         case Ok(calls) =>
           var ids, last := ReturnedIds(calls), events[|events| - 1];
           && RegistersInOrder(i, id, ids, events)
           && (results == Ok(calls) <==> |events| == |ids| + 1 && (last.Registered? ==> last.failure.None?))
           && (results.Err? ==> last.Registered? && last.failure == Some(results.error))
  {
    if h.measured.Ok? {
      var ids := ReturnedIds(h.measured.value);
      var registrations := RegistrationEvents(i, id, ids, h.failures);
      forall k | 0 <= k < |registrations|
        ensures registrations[k] == Registered(i, id, ids[k], h.failures[k])
      {
      }
    }
  }

  lemma ResultId(requests: seq<Request>, s: State, i: int)
    requires WorkersInv(requests, s) && AllDone(s) && 0 <= i < |requests|
    ensures s.results[i].Some? && s.results[i].value.id == MeasurementId(s.workers[i].number)
    ensures s.workers[i].number <= s.counter
  {
    assert WorkerInv(s.workers[i], i, requests[i], s.results[i], EventsOf(s.log, i), s.counter);
  }

  lemma UnwrappedIds(m: nat, n: nat)
    requires m < WIDTH && n < WIDTH && m != n
    ensures MeasurementId(m) != MeasurementId(n)
  {
    IdsRepeatAfterWrapping(m, n);
  }

  /** The ids of the results are pairwise distinct, as long as the counter has not wrapped. */
  lemma IdsAreDistinct(requests: seq<Request>, schedule: Schedule, i: int, j: int)
    requires After(requests, schedule).Some? && AllDone(After(requests, schedule).value)
    requires After(requests, schedule).value.counter < WIDTH
    requires 0 <= i < j < |requests|
    ensures
      var s := After(requests, schedule).value;
      s.results[i].Some? && s.results[j].Some? && s.results[i].value.id != s.results[j].value.id
  {
    AlwaysSequential(requests, schedule);
    var s := After(requests, schedule).value;
    ResultId(requests, s, i);
    ResultId(requests, s, j);
    UnwrappedIds(s.workers[i].number, s.workers[j].number);
  }

  lemma {:induction false} EventInProjection(log: seq<Event>, k: nat)
    requires k < |log|
    ensures log[k] in EventsOf(log, log[k].worker)
  {
    var init, last := log[..|log| - 1], log[|log| - 1];
    if k < |log| - 1 {
      EventInProjection(init, k);
      assert init[k] == log[k];
    }
  }

  /** Every buffer registered while a request runs is registered under the id that ends up in
      the request's own slot. */
  lemma BuffersAreOwned(requests: seq<Request>, schedule: Schedule, k: nat)
    requires After(requests, schedule).Some? && AllDone(After(requests, schedule).value)
    requires k < |After(requests, schedule).value.log| && After(requests, schedule).value.log[k].Registered?
    ensures
      var s := After(requests, schedule).value;
      var e := s.log[k];
      0 <= e.worker < |requests| && s.results[e.worker].Some? && e.owner == s.results[e.worker].value.id
  {
    AlwaysSequential(requests, schedule);
    var s := After(requests, schedule).value;
    var e := s.log[k];
    DispatchIsSequential(requests, schedule, e.worker);
    EventInProjection(s.log, k);
    var outcome := s.results[e.worker].value;
    var h :| Complete(h) && outcome == OutcomeOf(outcome.id, h)
             && EventsOf(s.log, e.worker) == EventsAlone(e.worker, outcome.id, requests[e.worker], h);
    assert e in EventsAlone(e.worker, outcome.id, requests[e.worker], h);
  }

  /** No interleaving gets stuck: a worker that is not done can always take a step, whatever
      it is answered. */
  lemma NeverStuck(requests: seq<Request>, schedule: Schedule, i: int, answer: Result<seq<Call>, string>,
                   failure: Option<string>)
    requires After(requests, schedule).Some? && 0 <= i < |requests|
    requires !After(requests, schedule).value.workers[i].Done?
    ensures exists a | a in {TakeId, Measure(answer), Register(failure), Finish} ::
              Enabled(After(requests, schedule).value, i, a)
  {
    AlwaysSequential(requests, schedule);
    var s := After(requests, schedule).value;
    assert WorkerInv(s.workers[i], i, requests[i], s.results[i], EventsOf(s.log, i), s.counter);
    var a := match s.workers[i]
             case Waiting => TakeId
             case Ready(_) => Measure(answer)
             case Registering(_, calls, n) => if n < |ReturnedIds(calls)| then Register(failure) else Finish
             case Done(_, _) => Finish;
    assert Enabled(s, i, a);
  }
}
