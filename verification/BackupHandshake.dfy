/** The streaming backup's handshake between worker thread and JS thread.

The worker posts one event, lends its buffer, and waits for an ack, polling for
teardown; on the JS thread a trampoline copies the bytes, calls `emit` and
attaches a continuation; completion, the function's finalizer and continuations
each own a reference to the shared state. Touching the state after it was freed,
freeing it twice, or reading a chunk whose buffer is no longer lent sets `fault`. */
module BackupHandshake {

  datatype Event = Event(id: nat, chunk: bool)

  datatype Worker =
    | Unstarted
    | Reading             // in the read loop, no event out
    | Posting(e: Event)
    | Waiting(e: Event)
    | Stopped             // emit returned false
    | Finished            // execute is over

  /** The JS thread runs one callback at a time. */
  datatype Js = Free | Taken(e: Event) | Built(e: Event) | Called(e: Event) | Attaching(e: Event)

  datatype Tsfn = Live | Released | Finalized

  datatype State = State(
    worker: Worker, js: Js, queue: seq<Event>, continuations: set<nat>,
    ackReady: bool, aborted: bool, closing: bool,
    lent: set<nat>,       // events whose borrowed bytes are still there
    tsfn: Tsfn, completed: bool,
    refs: int, frees: nat, posted: nat, fault: bool)

  datatype Step =
    | Begin | Emit(chunk: bool) | PostOk | PostFail | SeeAck | Abandon | Finish
    | Take | Build | Call | Acquire | Attach | TrampolineFails | AttachFails
    | Settle(e: nat, ok: bool) | Complete | Finalize | Teardown

  /** Created with the completion's and the function's reference. */
  const CREATED := State(Unstarted, Free, [], {}, false, false, false, {}, Live, false, 2, 0, 0, false)

  predicate Can(s: State, a: Step) {
    match a
    case Begin => s.worker.Unstarted? && !s.completed
    case Emit(chunk) => s.worker.Reading?
    case PostOk => s.worker.Posting?
    case PostFail => s.worker.Posting?
    case SeeAck => s.worker.Waiting? && s.ackReady
    case Abandon => s.worker.Waiting? && !s.ackReady && s.closing
    case Finish => s.worker.Reading? || s.worker.Stopped?
    case Take => s.js.Free? && s.queue != []
    case Build => s.js.Taken?
    case Call => s.js.Built?
    case Acquire => s.js.Called?
    case Attach => s.js.Attaching?
    case TrampolineFails => s.js.Taken? || s.js.Built? || s.js.Called?
    case AttachFails => s.js.Attaching?
    case Settle(e, ok) => s.js.Free? && e in s.continuations
    // A cancelled work item completes without ever executing.
    case Complete => s.js.Free? && !s.completed && (s.worker.Finished? || s.worker.Unstarted?)
    // Node-API finalizes after the release, once every queued call has drained.
    case Finalize => s.js.Free? && s.tsfn.Released? && s.queue == []
    case Teardown => true
  }

  function Touch(s: State): State { if s.frees > 0 then s.(fault := true) else s }

  function SignalAck(s: State, ok: bool): State { Touch(s).(ackReady := true, aborted := s.aborted || !ok) }

  function Acquired(s: State): State { Touch(s).(refs := s.refs + 1) }

  function Release(s: State): State {
    var t := Touch(s);
    t.(refs := s.refs - 1, frees := if s.refs == 1 then s.frees + 1 else s.frees)
  }

  /** Under the ack mutex: copy a chunk's bytes unless the worker has given up. */
  function Copy(s: State, e: Event): State {
    if !e.chunk then s.(js := Built(e))
    else if s.aborted then Touch(s).(js := Free)
    else if e.id in s.lent then Touch(s).(js := Built(e))
    else s.(fault := true)
  }

  function Do(s: State, a: Step): State
    requires Can(s, a)
  {
    match a
    case Begin => Touch(s).(worker := Reading)
    case Emit(chunk) =>
      Touch(s).(worker := Posting(Event(s.posted, chunk)), ackReady := false, lent := s.lent + {s.posted},
                posted := s.posted + 1)
    case PostOk => Touch(s).(worker := Waiting(s.worker.e), queue := s.queue + [s.worker.e])
    case PostFail => Touch(s).(worker := Stopped, aborted := true, lent := s.lent - {s.worker.e.id})
    case SeeAck => Touch(s).(worker := if s.aborted then Stopped else Reading, lent := s.lent - {s.worker.e.id})
    case Abandon => Touch(s).(worker := Stopped, aborted := true, lent := s.lent - {s.worker.e.id})
    case Finish => Touch(s).(worker := Finished)
    case Take => s.(js := Taken(s.queue[0]), queue := s.queue[1..])
    case Build => Copy(s, s.js.e)
    case Call => s.(js := Called(s.js.e))
    case Acquire => Acquired(s).(js := Attaching(s.js.e))
    case Attach => s.(js := Free, continuations := s.continuations + {s.js.e.id})
    case TrampolineFails => SignalAck(s, false).(js := Free)
    case AttachFails => Release(SignalAck(s, false)).(js := Free)
    case Settle(e, ok) => Release(SignalAck(s, ok)).(continuations := s.continuations - {e})
    case Complete => Release(s).(tsfn := Released, completed := true)
    case Finalize => Release(s).(tsfn := Finalized)
    case Teardown => s.(closing := true)
  }

  predicate Runs(s: State, run: seq<Step>, s': State)
    decreases |run|
  {
    if run == [] then s == s' else Can(s, run[0]) && Runs(Do(s, run[0]), run[1..], s')
  }

  // ---- The invariant

  /** The JS thread holds a reference between acquiring it and attaching. */
  function Owners(s: State): int {
    (if s.completed then 0 else 1) + (if s.tsfn.Finalized? then 0 else 1)
    + |s.continuations| + (if s.js.Attaching? then 1 else 0)
  }

  /** The events posted and not yet acked: queued (never more than one), in the
  trampoline, or awaiting settlement. */
  function InFlight(s: State): set<nat> {
    (if s.queue == [] then {} else {s.queue[0].id}) + s.continuations + (if s.js.Free? then {} else {s.js.e.id})
  }

  /** Which worker and JS threads may still run agrees with who has let go. */
  ghost predicate Lifetime(s: State) {
    && s.refs == Owners(s)
    && s.frees == (if s.refs == 0 then 1 else 0)
    && (s.completed ==> s.worker.Finished? || s.worker.Unstarted?)
    && (!s.completed <==> s.tsfn.Live?)
    && (s.tsfn.Finalized? ==> s.js.Free? && s.queue == [])
  }

  /** One event at a time: the worker waits for exactly the event in flight, and an
  event left behind means that the worker has published its abort. */
  ghost predicate OneAtATime(s: State) {
    && |s.queue| <= 1
    && (s.queue != [] ==> s.js.Free? && s.continuations == {})
    && (!s.js.Free? ==> s.continuations == {})
    && (s.continuations != {} ==> exists e :: s.continuations == {e})
    && match s.worker
       case Unstarted => InFlight(s) == {} && !s.aborted
       case Reading => InFlight(s) == {} && !s.aborted
       case Posting(e) => InFlight(s) == {} && !s.aborted && !s.ackReady && e.id in s.lent
       case Waiting(e) =>
         && e.id in s.lent && (!s.ackReady ==> !s.aborted)
         && (if s.ackReady then InFlight(s) == {} else InFlight(s) == {e.id})
       case Stopped => InFlight(s) != {} ==> s.aborted
       case Finished => InFlight(s) != {} ==> s.aborted
  }

  ghost predicate Inv(s: State) { !s.fault && Lifetime(s) && OneAtATime(s) }

  lemma NothingInFlight(s: State)
    ensures InFlight(s) == {} <==> s.queue == [] && s.continuations == {} && s.js.Free?
  {
    if s.queue != [] { assert s.queue[0].id in InFlight(s); }
    else if !s.js.Free? { assert s.js.e.id in InFlight(s); }
  }

  lemma PostKeeps(s: State)
    requires Inv(s) && Can(s, PostOk)
    ensures Inv(Do(s, PostOk))
  {
    var s' := Do(s, PostOk);
    assert s.frees == 0;
    NothingInFlight(s);
    assert s'.queue == [s.worker.e] && InFlight(s') == {s.worker.e.id};
  }

  lemma WorkerMovesKeeps(s: State, a: Step)
    requires Inv(s) && Can(s, a) && (a.Begin? || a.Emit? || a.PostFail? || a.SeeAck?)
    ensures Inv(Do(s, a))
  {
    assert s.frees == 0;
    assert InFlight(Do(s, a)) == InFlight(s);
  }

  lemma AbandonKeeps(s: State)
    requires Inv(s) && Can(s, Abandon)
    ensures Inv(Do(s, Abandon))
  {
    assert s.frees == 0;
    assert InFlight(Do(s, Abandon)) == InFlight(s);
  }

  lemma FinishKeeps(s: State)
    requires Inv(s) && Can(s, Finish)
    ensures Inv(Do(s, Finish))
  {
    assert s.frees == 0;
    assert InFlight(Do(s, Finish)) == InFlight(s);
  }

  lemma TeardownKeeps(s: State)
    requires Inv(s)
    ensures Inv(Do(s, Teardown))
  {
    assert InFlight(Do(s, Teardown)) == InFlight(s);
  }

  lemma TrampolineKeeps(s: State, a: Step)
    requires Inv(s) && Can(s, a) && (a.Take? || a.Build? || a.Call?)
    ensures Inv(Do(s, a))
  {
    var s' := Do(s, a);
    if a.Take? { assert s.queue == [s.queue[0]] && InFlight(s) == {s.queue[0].id}; }
    if a.Build? && s.js.e.chunk && !s.aborted { assert s.js.e.id in InFlight(s); }
    if s'.js.Free? { assert InFlight(s') == {}; } else { assert InFlight(s') == InFlight(s); }
  }

  lemma AttachKeeps(s: State, a: Step)
    requires Inv(s) && Can(s, a) && (a.Acquire? || a.Attach?)
    ensures Inv(Do(s, a))
  {
    var s' := Do(s, a);
    if a.Attach? { assert s'.continuations == {s.js.e.id}; }
    assert InFlight(s') == InFlight(s);
  }

  lemma SettleKeeps(s: State, e: nat, ok: bool)
    requires Inv(s) && Can(s, Settle(e, ok))
    ensures Inv(Do(s, Settle(e, ok)))
  {
    var s' := Do(s, Settle(e, ok));
    assert s.frees == 0 && e in InFlight(s);
    assert s.continuations == {e};
    assert InFlight(s') == {};
  }

  lemma CallFailsKeeps(s: State, a: Step)
    requires Inv(s) && Can(s, a) && (a.TrampolineFails? || a.AttachFails?)
    ensures Inv(Do(s, a))
  {
    var s' := Do(s, a);
    assert s.frees == 0 && s.js.e.id in InFlight(s);
    assert InFlight(s') == {};
  }

  lemma LetGoKeeps(s: State, a: Step)
    requires Inv(s) && Can(s, a) && (a.Complete? || a.Finalize?)
    ensures Inv(Do(s, a))
  {
    assert InFlight(Do(s, a)) == InFlight(s);
  }

  lemma {:induction false} RunKeeps(s: State, run: seq<Step>, s': State)
    requires Inv(s) && Runs(s, run, s')
    ensures Inv(s')
    decreases |run|
  {
    if run != [] {
      var a := run[0];
      if a.Take? || a.Build? || a.Call? { TrampolineKeeps(s, a); }
      else if a.Acquire? || a.Attach? { AttachKeeps(s, a); }
      else if a.Settle? { SettleKeeps(s, a.e, a.ok); }
      else if a.TrampolineFails? || a.AttachFails? { CallFailsKeeps(s, a); }
      else if a.Complete? || a.Finalize? { LetGoKeeps(s, a); }
      else if a.PostOk? { PostKeeps(s); }
      else if a.Begin? || a.Emit? || a.PostFail? || a.SeeAck? { WorkerMovesKeeps(s, a); }
      else if a.Abandon? { AbandonKeeps(s); }
      else if a.Finish? { FinishKeeps(s); }
      else { TeardownKeeps(s); }
      RunKeeps(Do(s, a), run[1..], s');
    }
  }

  /** In every interleaving, teardown included: the state is never touched after it
  was freed and no chunk is copied from a buffer the worker has taken back
  (neither fault occurs); it is freed exactly when completion, finalizer and
  every continuation have let go, and never twice. */
  lemma SharedStateIsSafe(run: seq<Step>, s: State)
    requires Runs(CREATED, run, s)
    ensures !s.fault && s.frees <= 1
    ensures s.frees == 1 <==> s.completed && s.tsfn.Finalized? && s.continuations == {}
  {
    assert InFlight(CREATED) == {};
    RunKeeps(CREATED, run, s);
  }

  /** The worker is never left waiting without somebody to ack: its own event is
  still queued, in the trampoline, or awaiting settlement. */
  lemma WaitingWorkerIsServed(run: seq<Step>, s: State)
    requires Runs(CREATED, run, s) && s.worker.Waiting? && !s.ackReady
    ensures InFlight(s) == {s.worker.e.id} && s.worker.e.id in s.lent
  {
    assert InFlight(CREATED) == {};
    RunKeeps(CREATED, run, s);
  }

  // ---- What an ack tells the worker

  /** The consumer refused the event: the promise was rejected or never came about. */
  predicate Rejects(a: Step) { (a.Settle? && !a.ok) || a.TrampolineFails? || a.AttachFails? }

  predicate EndsStream(a: Step) { Rejects(a) || a.PostFail? || a.Abandon? }

  predicate SomeReject(run: seq<Step>) { exists i :: 0 <= i < |run| && Rejects(run[i]) }

  predicate SomeEnd(run: seq<Step>) { exists i :: 0 <= i < |run| && EndsStream(run[i]) }

  lemma WorkerAborts(s: State, a: Step)
    requires Can(s, a) && (s.worker.Stopped? ==> s.aborted)
    requires a.Begin? || a.Emit? || a.PostOk? || a.PostFail? || a.SeeAck? || a.Abandon? || a.Finish?
    ensures Do(s, a).aborted <==> s.aborted || EndsStream(a)
    ensures Do(s, a).worker.Stopped? ==> Do(s, a).aborted
  {
  }

  lemma AckAborts(s: State, a: Step)
    requires Can(s, a) && (a.Settle? || a.TrampolineFails? || a.AttachFails?)
    ensures (Do(s, a).aborted <==> s.aborted || EndsStream(a)) && Do(s, a).worker == s.worker
  {
  }

  lemma StepAborts(s: State, a: Step)
    requires Can(s, a) && (s.worker.Stopped? ==> s.aborted)
    ensures Do(s, a).aborted <==> s.aborted || EndsStream(a)
    ensures Do(s, a).worker.Stopped? ==> Do(s, a).aborted
  {
    if a.Begin? || a.Emit? || a.PostOk? || a.PostFail? || a.SeeAck? || a.Abandon? || a.Finish? { WorkerAborts(s, a); }
    else if a.Settle? || a.TrampolineFails? || a.AttachFails? { AckAborts(s, a); }
    else { assert Do(s, a).aborted == s.aborted && Do(s, a).worker == s.worker; }
  }

  lemma {:induction false} RunAborts(s: State, run: seq<Step>, s': State)
    requires Runs(s, run, s') && (s.worker.Stopped? ==> s.aborted)
    ensures s'.aborted <==> s.aborted || SomeEnd(run)
    ensures s'.worker.Stopped? ==> s'.aborted
    decreases |run|
  {
    if run != [] {
      StepAborts(s, run[0]);
      RunAborts(Do(s, run[0]), run[1..], s');
      assert run == [run[0]] + run[1..];
    }
  }

  /** In every run: a worker that goes on reading, or waits without an ack, has had no
  event refused; a worker that stopped has had one refused, or could not post, or
  gave up at teardown. An acked worker stops if and only if one of these happened. */
  lemma RejectionStopsTheWorker(run: seq<Step>, s: State)
    requires Runs(CREATED, run, s)
    ensures s.worker.Reading? || s.worker.Posting? || (s.worker.Waiting? && !s.ackReady) ==>
              !SomeEnd(run) && !SomeReject(run)
    ensures s.worker.Stopped? ==> SomeEnd(run)
    ensures Can(s, SeeAck) ==>
              var w := Do(s, SeeAck).worker; (w.Stopped? <==> SomeEnd(run)) && (w.Reading? <==> !SomeEnd(run))
  {
    assert InFlight(CREATED) == {};
    RunKeeps(CREATED, run, s);
    RunAborts(CREATED, run, s);
    assert SomeReject(run) ==> SomeEnd(run);
  }

  /** An event can be delivered: from a reading worker the steps of a hand-over lead
  back to reading, the bytes copied and the buffer given back. */
  lemma EventCanBeDelivered(s: State, chunk: bool) returns (run: seq<Step>, s': State)
    requires Inv(s) && s.worker.Reading?
    ensures Runs(s, run, s') && s'.worker.Reading? && s'.posted == s.posted + 1 && s.posted !in s'.lent
    ensures Build in run && Call in run
  {
    assert s.frees == 0;
    NothingInFlight(s);
    var e := Event(s.posted, chunk);
    var s1 := Do(Do(s, Emit(chunk)), PostOk);
    var s2 := Do(Do(s1, Take), Build);
    run, s' := BuiltIsAcked(s2, e);
    OneMore(Do(s1, Take), Build, run, s');
    run := [Build] + run;
    OneMore(s1, Take, run, s');
    run := [Take] + run;
    OneMore(Do(s, Emit(chunk)), PostOk, run, s');
    run := [PostOk] + run;
    OneMore(s, Emit(chunk), run, s');
    run := [Emit(chunk)] + run;
  }

  lemma BuiltIsAcked(s: State, e: Event) returns (run: seq<Step>, s': State)
    requires s.js == Built(e) && s.worker == Waiting(e) && s.continuations == {} && s.frees == 0
    requires !s.aborted && !s.ackReady
    ensures Runs(s, run, s') && s'.worker.Reading? && s'.posted == s.posted && e.id !in s'.lent && Call in run
  {
    var s1 := Do(Do(s, Call), Acquire);
    var s2 := Do(s1, Attach);
    var s3 := Do(s2, Settle(e.id, true));
    s' := Do(s3, SeeAck);
    assert Runs(s', [], s');
    OneMore(s3, SeeAck, [], s');
    run := [SeeAck] + [];
    OneMore(s2, Settle(e.id, true), run, s');
    run := [Settle(e.id, true)] + run;
    OneMore(s1, Attach, run, s');
    run := [Attach] + run;
    OneMore(Do(s, Call), Acquire, run, s');
    run := [Acquire] + run;
    OneMore(s, Call, run, s');
    run := [Call] + run;
  }

  lemma {:induction false} OneMore(s: State, a: Step, run: seq<Step>, s': State)
    requires Can(s, a) && Runs(Do(s, a), run, s')
    ensures Runs(s, [a] + run, s')
  {
    assert ([a] + run)[1..] == run;
  }

  /** Teardown never leaves the worker waiting: an acked worker sees its ack, any other
  gives up, and either way takes its buffer back. */
  lemma TeardownFreesTheWorker(run: seq<Step>, s: State)
    requires Runs(CREATED, run, s) && s.worker.Waiting?
    ensures var t := Do(s, Teardown);
            var a := if s.ackReady then SeeAck else Abandon;
            && Can(s, Teardown) && Can(t, a) && !Do(t, a).worker.Waiting? && s.worker.e.id !in Do(t, a).lent
            && (!s.ackReady ==> Do(t, a).worker.Stopped? && Do(t, a).aborted)
  {
  }

  /** Once the worker is done and nothing is in flight, completion and finalizer can run
  and the state is freed. */
  lemma EndFreesTheState(run: seq<Step>, s: State)
    requires Runs(CREATED, run, s) && !s.completed && InFlight(s) == {}
    requires s.worker.Reading? || s.worker.Stopped? || s.worker.Finished?
    ensures var s1 := if s.worker.Finished? then s else Do(s, Finish);
            && (s.worker.Finished? || Can(s, Finish)) && Can(s1, Complete)
            && Can(Do(s1, Complete), Finalize) && Do(Do(s1, Complete), Finalize).frees == 1
  {
    assert InFlight(CREATED) == {};
    RunKeeps(CREATED, run, s);
    NothingInFlight(s);
  }
}
