/** Closing a database while operations are in flight.

Operations count themselves in, then check the closing flag; whoever brings the
count to zero while closing notifies. An asynchronous operation hands its claim
to a worker, which then owns the decrement, possibly before the JS thread has
noted the hand-off. One closer wins the flag and waits for the count. Every
atomic access is a step of its own. */
module CloseDrain {

  /** After a decrement: reached zero and still to test the flag, still to notify, or finished. */
  datatype After = Zeroed | Notifying | Over

  datatype Js =
    | Counted             // counted in, flag not yet checked
    | Refused             // saw the flag
    | Running             // passed the check
    | Queued              // worker started, hand-off not yet noted
    | HandedOff
    | Left(after: After)  // this thread did the decrement
    | Skipped             // the worker owned it

  datatype Worker = NoWork | Working | Ended(after: After)

  datatype Op = Op(js: Js, worker: Worker)

  datatype Closer =
    | Refusal                // somebody else is closing
    | Draining               // about to load the count
    | Loaded(seen: int)      // saw a nonzero count, about to wait
    | Asleep(seen: int)
    | Roused(seen: int)      // notified, about to compare again
    | Drained                // left the wait loop

  datatype State = State(closing: bool, count: int, ops: map<nat, Op>, closers: map<nat, Closer>)

  datatype Step =
    | Enter(o: nat) | Check(o: nat) | Queue(o: nat) | NoteHandOff(o: nat) | Leave(o: nat)
    | JsTest(o: nat) | JsNotify(o: nat)
    | Finish(o: nat) | WorkerTest(o: nat) | WorkerNotify(o: nat)
    | BeginClose(c: nat) | Load(c: nat) | Wait(c: nat) | Rouse(c: nat) | Compare(c: nat)

  const OPEN := State(false, 0, map[], map[])

  predicate JsAt(s: State, o: nat, js: Js) { o in s.ops && s.ops[o].js == js }
  predicate WorkerAt(s: State, o: nat, w: Worker) { o in s.ops && s.ops[o].worker == w }

  predicate Can(s: State, a: Step) {
    match a
    case Enter(o) => o !in s.ops
    case Check(o) => JsAt(s, o, Counted)
    case Queue(o) => JsAt(s, o, Running)
    case NoteHandOff(o) => JsAt(s, o, Queued)
    case Leave(o) => JsAt(s, o, Refused) || JsAt(s, o, Running) || JsAt(s, o, HandedOff)
    case JsTest(o) => JsAt(s, o, Left(Zeroed))
    case JsNotify(o) => JsAt(s, o, Left(Notifying))
    case Finish(o) => WorkerAt(s, o, Working)
    case WorkerTest(o) => WorkerAt(s, o, Ended(Zeroed))
    case WorkerNotify(o) => WorkerAt(s, o, Ended(Notifying))
    case BeginClose(c) => c !in s.closers
    case Load(c) => c in s.closers && s.closers[c].Draining?
    case Wait(c) => c in s.closers && s.closers[c].Loaded?
    case Rouse(c) => c in s.closers && s.closers[c].Asleep?
    case Compare(c) => c in s.closers && s.closers[c].Roused?
  }

  function SetJs(s: State, o: nat, js: Js): State
    requires o in s.ops
  {
    s.(ops := s.ops[o := s.ops[o].(js := js)])
  }

  function SetWorker(s: State, o: nat, w: Worker): State
    requires o in s.ops
  {
    s.(ops := s.ops[o := s.ops[o].(worker := w)])
  }

  function Down(count: int): After { if count == 1 then Zeroed else Over }

  function Tested(s: State): After { if s.closing then Notifying else Over }

  /** `notify_all`: every sleeper gets to compare again. */
  function NotifyAll(s: State): State {
    s.(closers := map c | c in s.closers :: if s.closers[c].Asleep? then Roused(s.closers[c].seen) else s.closers[c])
  }

  /** The wait sleeps only if the count is still the one it was given. */
  function Compared(s: State, c: nat, n: int): State {
    s.(closers := s.closers[c := if s.count == n then Asleep(n) else Draining])
  }

  function Do(s: State, a: Step): State
    requires Can(s, a)
  {
    match a
    case Enter(o) => s.(count := s.count + 1, ops := s.ops[o := Op(Counted, NoWork)])
    case Check(o) => SetJs(s, o, if s.closing then Refused else Running)
    case Queue(o) => s.(ops := s.ops[o := Op(Queued, Working)])
    case NoteHandOff(o) => SetJs(s, o, HandedOff)
    case Leave(o) =>
      if s.ops[o].js.HandedOff? then SetJs(s, o, Skipped)
      else SetJs(s, o, Left(Down(s.count))).(count := s.count - 1)
    case JsTest(o) => SetJs(s, o, Left(Tested(s)))
    case JsNotify(o) => NotifyAll(SetJs(s, o, Left(Over)))
    case Finish(o) => SetWorker(s, o, Ended(Down(s.count))).(count := s.count - 1)
    case WorkerTest(o) => SetWorker(s, o, Ended(Tested(s)))
    case WorkerNotify(o) => NotifyAll(SetWorker(s, o, Ended(Over)))
    case BeginClose(c) => s.(closing := true, closers := s.closers[c := if s.closing then Refusal else Draining])
    case Load(c) => s.(closers := s.closers[c := if s.count == 0 then Drained else Loaded(s.count)])
    case Wait(c) => Compared(s, c, s.closers[c].seen)
    case Rouse(c) => s.(closers := s.closers[c := Roused(s.closers[c].seen)])
    case Compare(c) => Compared(s, c, s.closers[c].seen)
  }

  predicate Runs(s: State, run: seq<Step>, s': State)
    decreases |run|
  {
    if run == [] then s == s' else Can(s, run[0]) && Runs(Do(s, run[0]), run[1..], s')
  }

  // ---- The invariant

  /** The operation still owes its one decrement. */
  predicate Holding(op: Op) { op.js.Counted? || op.js.Refused? || op.js.Running? || op.worker.Working? }

  /** The operation passed its check and may be using the database. */
  predicate Active(op: Op) { op.js.Running? || op.worker.Working? }

  predicate Pending(op: Op) {
    op.js == Left(Zeroed) || op.js == Left(Notifying) || op.worker == Ended(Zeroed) || op.worker == Ended(Notifying)
  }

  /** Only after the worker took over does the JS thread leave without decrementing. */
  predicate Paired(op: Op) {
    op.worker.NoWork? <==> !(op.js.Queued? || op.js.HandedOff? || op.js.Skipped?)
  }

  ghost function Holders(ops: map<nat, Op>): set<nat> { set o | o in ops && Holding(ops[o]) }

  ghost predicate NotifyDue(ops: map<nat, Op>) { exists o :: o in ops && Pending(ops[o]) }

  predicate Closing(c: Closer) { !c.Refusal? }

  ghost predicate Inv(s: State) {
    && (forall o :: o in s.ops ==> Paired(s.ops[o]))
    && s.count == |Holders(s.ops)|
    && (forall c :: c in s.closers ==> s.closing)
    && (forall c, d :: c in s.closers && d in s.closers && Closing(s.closers[c]) && Closing(s.closers[d]) ==> c == d)
    && (forall c :: c in s.closers && (s.closers[c].Loaded? || s.closers[c].Asleep? || s.closers[c].Roused?) ==>
          s.closers[c].seen != 0)
    && (forall c :: c in s.closers && s.closers[c].Asleep? && s.count == 0 ==> NotifyDue(s.ops))
    && (forall c :: c in s.closers && s.closers[c].Drained? ==> forall o :: o in s.ops ==> !Active(s.ops[o]))
  }

  lemma HoldersUpdate(ops: map<nat, Op>, o: nat, op: Op)
    ensures |Holders(ops[o := op])|
            == |Holders(ops)| - (if o in ops && Holding(ops[o]) then 1 else 0) + (if Holding(op) then 1 else 0)
  {
    var before := Holders(ops);
    if Holding(op) { assert Holders(ops[o := op]) == before + {o}; }
    else { assert Holders(ops[o := op]) == before - {o}; }
  }

  lemma NobodyHolds(ops: map<nat, Op>)
    requires |Holders(ops)| == 0
    ensures forall o :: o in ops ==> !Active(ops[o])
  {
    forall o | o in ops ensures !Active(ops[o]) { assert o !in Holders(ops); }
  }

  lemma EnterStepKeeps(s: State, a: Step)
    requires Inv(s) && Can(s, a) && (a.Enter? || a.Check? || a.Queue? || a.NoteHandOff?)
    ensures Inv(Do(s, a))
  {
    var s' := Do(s, a);
    HoldersUpdate(s.ops, a.o, s'.ops[a.o]);
    if NotifyDue(s.ops) {
      var o :| o in s.ops && Pending(s.ops[o]);
      assert o in s'.ops && Pending(s'.ops[o]);
    }
  }

  lemma LeaveStepKeeps(s: State, a: Step)
    requires Inv(s) && Can(s, a) && (a.Leave? || a.Finish?)
    ensures Inv(Do(s, a))
  {
    var s' := Do(s, a);
    HoldersUpdate(s.ops, a.o, s'.ops[a.o]);
    if NotifyDue(s.ops) {
      var o :| o in s.ops && Pending(s.ops[o]);
      assert o in s'.ops && Pending(s'.ops[o]);
    }
    if s.count == 1 && s'.count == 0 { assert Pending(s'.ops[a.o]); }
  }

  lemma NotifyStepKeeps(s: State, a: Step)
    requires Inv(s) && Can(s, a) && (a.JsTest? || a.JsNotify? || a.WorkerTest? || a.WorkerNotify?)
    ensures Inv(Do(s, a))
  {
    var s' := Do(s, a);
    HoldersUpdate(s.ops, a.o, s'.ops[a.o]);
    if (a.JsTest? || a.WorkerTest?) && s.closing { assert Pending(s'.ops[a.o]); }
  }

  lemma CloserStepKeeps(s: State, a: Step)
    requires Inv(s) && Can(s, a) && (a.BeginClose? || a.Load? || a.Wait? || a.Rouse? || a.Compare?)
    ensures Inv(Do(s, a))
  {
    if a.Load? && s.count == 0 { NobodyHolds(s.ops); }
  }

  lemma {:induction false} RunKeeps(s: State, run: seq<Step>, s': State)
    requires Inv(s) && Runs(s, run, s')
    ensures Inv(s')
    decreases |run|
  {
    if run != [] {
      var a := run[0];
      if a.BeginClose? || a.Load? || a.Wait? || a.Rouse? || a.Compare? { CloserStepKeeps(s, a); }
      else if a.JsTest? || a.JsNotify? || a.WorkerTest? || a.WorkerNotify? { NotifyStepKeeps(s, a); }
      else if a.Leave? || a.Finish? { LeaveStepKeeps(s, a); }
      else { EnterStepKeeps(s, a); }
      RunKeeps(Do(s, a), run[1..], s');
    }
  }

  /** In every run the count is the number of operations that still owe their one
  decrement; at most one closer drains; once it has left the wait loop no
  operation that passed its check is active, then or ever after; and a sleeping
  closer with the count at zero always has a notification due. */
  lemma DrainIsSafe(run: seq<Step>, s: State)
    requires Runs(OPEN, run, s)
    ensures s.count == |Holders(s.ops)|
    ensures forall c, d :: c in s.closers && d in s.closers && Closing(s.closers[c]) && Closing(s.closers[d]) ==> c == d
    ensures forall c, o :: c in s.closers && s.closers[c].Drained? && o in s.ops ==> !Active(s.ops[o])
    ensures forall c :: c in s.closers && s.closers[c].Asleep? && s.count == 0 ==> NotifyDue(s.ops)
  {
    assert Holders(OPEN.ops) == {};
    RunKeeps(OPEN, run, s);
  }

  /** A due notification is carried out: whoever owes it can move, and after at most
  the flag test and the notify itself no closer is asleep. */
  lemma NotifyWakesEveryCloser(run: seq<Step>, s: State, c: nat)
    requires Runs(OPEN, run, s) && c in s.closers && s.closers[c].Asleep? && s.count == 0
    ensures exists more, s' ::
              Runs(s, more, s') && |more| <= 2 && forall d :: d in s'.closers ==> !s'.closers[d].Asleep?
  {
    assert Holders(OPEN.ops) == {};
    RunKeeps(OPEN, run, s);
    var o :| o in s.ops && Pending(s.ops[o]);
    var mine := s.ops[o].js.Left? && !s.ops[o].js.after.Over?;
    var notify := if mine then JsNotify(o) else WorkerNotify(o);
    if s.ops[o].js == Left(Notifying) || (!mine && s.ops[o].worker == Ended(Notifying)) {
      assert [notify][1..] == [];
      assert Runs(s, [notify], Do(s, notify));
    } else {
      var test := if mine then JsTest(o) else WorkerTest(o);
      var s1 := Do(s, test);
      assert [test, notify][1..] == [notify] && [notify][1..] == [];
      assert Runs(s1, [notify], Do(s1, notify));
      assert Runs(s, [test, notify], Do(s1, notify));
    }
  }

  // ---- Admission and the end of the wait

  predicate CloseBegan(run: seq<Step>) { exists i :: 0 <= i < |run| && run[i].BeginClose? }

  /** The closer that won: the one that is not refused. */
  ghost predicate Won(s: State) { exists c :: c in s.closers && Closing(s.closers[c]) }

  lemma ClosingStep(s: State, a: Step)
    requires Can(s, a) && (s.closing ==> Won(s)) && (forall c :: c in s.closers ==> s.closing)
    ensures Do(s, a).closing <==> s.closing || a.BeginClose?
    ensures Do(s, a).closing ==> Won(Do(s, a))
    ensures forall c :: c in Do(s, a).closers ==> Do(s, a).closing
  {
    var s' := Do(s, a);
    if s.closing {
      var c :| c in s.closers && Closing(s.closers[c]);
      assert c in s'.closers && Closing(s'.closers[c]);
    } else if a.BeginClose? {
      assert a.c in s'.closers && Closing(s'.closers[a.c]);
    }
  }

  lemma {:induction false} ClosingRun(s: State, run: seq<Step>, s': State)
    requires Runs(s, run, s') && (s.closing ==> Won(s)) && (forall c :: c in s.closers ==> s.closing)
    ensures s'.closing <==> s.closing || CloseBegan(run)
    ensures s'.closing ==> Won(s')
    decreases |run|
  {
    if run != [] {
      ClosingStep(s, run[0]);
      ClosingRun(Do(s, run[0]), run[1..], s');
      assert run == [run[0]] + run[1..];
    }
  }

  /** In every run an operation that checks passes if and only if no close has begun;
  and once one has, exactly one closer is not refused. */
  lemma AdmittedExactlyWhileOpen(run: seq<Step>, s: State, o: nat)
    requires Runs(OPEN, run, s)
    ensures o !in s.ops ==> Can(s, Enter(o)) && Can(Do(s, Enter(o)), Check(o))
    ensures Can(s, Check(o)) ==> (Active(Do(s, Check(o)).ops[o]) <==> !CloseBegan(run))
    ensures CloseBegan(run) <==> Won(s)
    ensures forall c, d :: c in s.closers && d in s.closers && Closing(s.closers[c]) && Closing(s.closers[d]) ==> c == d
  {
    assert Holders(OPEN.ops) == {};
    RunKeeps(OPEN, run, s);
    ClosingRun(OPEN, run, s);
  }

  lemma {:induction false} OneMore(s: State, a: Step, run: seq<Step>, s': State)
    requires Can(s, a) && Runs(Do(s, a), run, s')
    ensures Runs(s, [a] + run, s')
  {
    assert ([a] + run)[1..] == run;
  }

  /** A closer that is awake leaves the wait loop within two steps once the count is zero. */
  lemma AwakeCloserLeaves(s: State, c: nat) returns (run: seq<Step>, s': State)
    requires c in s.closers && Closing(s.closers[c]) && !s.closers[c].Asleep? && s.count == 0
    requires s.closers[c].Loaded? || s.closers[c].Roused? ==> s.closers[c].seen != 0
    ensures Runs(s, run, s') && |run| <= 2 && c in s'.closers && s'.closers[c].Drained?
  {
    if s.closers[c].Drained? {
      run, s' := [], s;
    } else {
      var first := if s.closers[c].Loaded? then Wait(c) else Compare(c);
      var s1 := if s.closers[c].Draining? then s else Do(s, first);
      s' := Do(s1, Load(c));
      OneMore(s1, Load(c), [], s');
      run := [Load(c)] + [];
      if !s.closers[c].Draining? {
        OneMore(s, first, run, s');
        run := [first] + run;
      }
    }
  }

  /** With the count at zero the closer, awake or asleep, can always come to leave its
  wait loop, by the due notification and its own steps. */
  lemma CloserDrains(run: seq<Step>, s: State, c: nat)
    requires Runs(OPEN, run, s) && c in s.closers && Closing(s.closers[c]) && s.count == 0
    ensures exists more, s' :: Runs(s, more, s') && |more| <= 4 && c in s'.closers && s'.closers[c].Drained?
  {
    assert Holders(OPEN.ops) == {};
    RunKeeps(OPEN, run, s);
    if s.closers[c].Asleep? {
      var o :| o in s.ops && Pending(s.ops[o]);
      var mine := s.ops[o].js.Left? && !s.ops[o].js.after.Over?;
      var notify := if mine then JsNotify(o) else WorkerNotify(o);
      var test := if mine then JsTest(o) else WorkerTest(o);
      var due := s.ops[o].js == Left(Notifying) || (!mine && s.ops[o].worker == Ended(Notifying));
      var s1 := if due then s else Do(s, test);
      var s2 := Do(s1, notify);
      var more, s' := AwakeCloserLeaves(s2, c);
      OneMore(s1, notify, more, s');
      if !due { OneMore(s, test, [notify] + more, s'); }
    } else {
      var more, s' := AwakeCloserLeaves(s, c);
    }
  }

  /** An admitted operation can finish, on its own thread or through a worker, and then
  owes nothing. */
  lemma OperationCanFinish(run: seq<Step>, s: State, o: nat)
    requires Runs(OPEN, run, s) && o in s.ops && s.ops[o].js.Running?
    ensures Can(s, Leave(o)) && !Holding(Do(s, Leave(o)).ops[o])
    ensures Can(s, Queue(o)) && Can(Do(s, Queue(o)), Finish(o)) && !Holding(Do(Do(s, Queue(o)), Finish(o)).ops[o])
    ensures var s1 := Do(s, Queue(o));
            && Can(s1, NoteHandOff(o)) && Can(Do(s1, NoteHandOff(o)), Leave(o))
            && Do(Do(s1, NoteHandOff(o)), Leave(o)).count == s.count
  {
    assert Holders(OPEN.ops) == {};
    RunKeeps(OPEN, run, s);
  }
}
