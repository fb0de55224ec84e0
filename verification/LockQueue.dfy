/** The per-key callback queue behind `withLock`.

The registry maps each locked key to a handle: a queue of callbacks and a flag
that one of them is running. Its three mutex-protected sections are the methods
of `LockRegistry`; each touches one key only. For one key, any number of threads
calling `withLock` and any number of completions form the step system below. */
module LockQueue {
  import opened Wrappers

  datatype LockHandle = LockHandle(running: bool, queue: seq<nat>)
  datatype Entry = Missing | Locked(handle: LockHandle)
  datatype Taken = Nothing | Callback(c: nat)

  // ---- The critical sections, on the entry of one key

  /** `lockEnqueueCallback`: a missing handle is created, whether or not there is a
  function to enqueue. */
  function Enqueue(e: Entry, c: Option<nat>): Entry {
    var handle := if e.Missing? then LockHandle(false, []) else e.handle;
    Locked(if c.Some? then handle.(queue := handle.queue + [c.value]) else handle)
  }

  /** The second half of `lockCall` and of `onCallbackComplete`: claim the running
  flag, take the next callback, or remove a handle with nothing left. */
  function TakeNext(e: Entry): (Entry, Taken) {
    if e.Missing? || e.handle.running then (e, Nothing)
    else if e.handle.queue == [] then (Missing, Nothing)
    else (Locked(LockHandle(true, e.handle.queue[1..])), Callback(e.handle.queue[0]))
  }

  /** The first half of `onCallbackComplete`. */
  function Complete(e: Entry): Entry {
    if e.Missing? then e else Locked(e.handle.(running := false))
  }

  class LockRegistry {
    var locks: map<string, LockHandle>

    function EntryOf(key: string): Entry
      reads this
    {
      if key in locks then Locked(locks[key]) else Missing
    }

    constructor ()
      ensures locks == map[]
    {
      locks := map[];
    }

    method EnqueueCallback(key: string, c: Option<nat>) returns (isNewLock: bool)
      modifies this
      ensures isNewLock <==> key !in old(locks)
      ensures EntryOf(key) == Enqueue(old(EntryOf(key)), c)
      ensures forall other :: other != key ==> EntryOf(other) == old(EntryOf(other))
    {
      isNewLock := key !in locks;
      if isNewLock { locks := locks[key := LockHandle(false, [])]; }
      if c.Some? { locks := locks[key := locks[key].(queue := locks[key].queue + [c.value])]; }
    }

    method StartNext(key: string) returns (next: Taken)
      modifies this
      ensures (EntryOf(key), next) == TakeNext(old(EntryOf(key)))
      ensures forall other :: other != key ==> EntryOf(other) == old(EntryOf(other))
    {
      if key !in locks { return Nothing; }
      if locks[key].running { return Nothing; }
      locks := locks[key := locks[key].(running := true)];
      if locks[key].queue == [] {
        locks := locks - {key};
        return Nothing;
      }
      next := Callback(locks[key].queue[0]);
      locks := locks[key := locks[key].(queue := locks[key].queue[1..])];
    }

    method MarkComplete(key: string) returns (found: bool)
      modifies this
      ensures found <==> key in old(locks)
      ensures EntryOf(key) == Complete(old(EntryOf(key)))
      ensures forall other :: other != key ==> EntryOf(other) == old(EntryOf(other))
    {
      found := key in locks;
      if found { locks := locks[key := locks[key].(running := false)]; }
    }
  }

  // ---- One key, many threads

  datatype Agent =
    | Starting                // created the handle, about to start its callback
    | Dispatching(c: nat)     // took a callback, about to hand it to JS
    | InCallback(c: nat)      // the callback is running
    | Completing              // the callback is over, flag not yet cleared
    | Advancing               // flag cleared, about to take the next one

  /** `lost` records whether a hand-over was lost; no step looks at it. */
  datatype State = State(entry: Entry, agents: map<nat, Agent>, enqueued: seq<nat>, taken: seq<nat>, lost: bool)

  /** How handing a callback to JS ends: it will run; it failed and completes at
  once; or it is lost and nobody completes it, because the environment is closing,
  there is no function, or the wrapper on the JS thread gives up before calling it. */
  datatype HandOver = Delivered | Failed | Lost

  datatype Step =
    | Call(t: nat, c: Option<nat>)
    | Start(t: nat)
    | Dispatch(t: nat, how: HandOver)
    | Return(t: nat)
    | Clear(t: nat)
    | Advance(t: nat)

  const UNLOCKED := State(Missing, map[], [], [], false)

  predicate Can(s: State, a: Step) {
    match a
    case Call(t, c) => t !in s.agents
    case Start(t) => t in s.agents && s.agents[t].Starting?
    case Dispatch(t, how) => t in s.agents && s.agents[t].Dispatching?
    case Return(t) => t in s.agents && s.agents[t].InCallback?
    case Clear(t) => t in s.agents && s.agents[t].Completing?
    case Advance(t) => t in s.agents && s.agents[t].Advancing?
  }

  function Stop(s: State, t: nat): State { s.(agents := s.agents - {t}) }

  function Take(s: State, t: nat): State {
    var (entry, next) := TakeNext(s.entry);
    match next
    case Nothing => Stop(s, t).(entry := entry)
    case Callback(c) => s.(entry := entry, agents := s.agents[t := Dispatching(c)], taken := s.taken + [c])
  }

  function Handed(s: State, t: nat, how: HandOver): State
    requires t in s.agents && s.agents[t].Dispatching?
  {
    match how
    case Delivered => s.(agents := s.agents[t := InCallback(s.agents[t].c)])
    case Failed => s.(agents := s.agents[t := Completing])
    case Lost => Stop(s, t).(lost := true)
  }

  function Do(s: State, a: Step): State
    requires Can(s, a)
  {
    match a
    case Call(t, c) =>
      var enqueued := if c.Some? then s.enqueued + [c.value] else s.enqueued;
      var s' := s.(entry := Enqueue(s.entry, c), enqueued := enqueued);
      if s.entry.Missing? then s'.(agents := s.agents[t := Starting]) else s'
    case Start(t) => Take(s, t)
    case Dispatch(t, how) => Handed(s, t, how)
    case Return(t) => s.(agents := s.agents[t := Completing])
    case Clear(t) =>
      if s.entry.Missing? then Stop(s, t)
      else s.(entry := Complete(s.entry), agents := s.agents[t := Advancing])
    case Advance(t) => Take(s, t)
  }

  predicate Runs(s: State, run: seq<Step>, s': State)
    decreases |run|
  {
    if run == [] then s == s' else Can(s, run[0]) && Runs(Do(s, run[0]), run[1..], s')
  }

  predicate Loses(a: Step) { a.Dispatch? && a.how.Lost? }

  predicate LosesOne(run: seq<Step>) { exists i :: 0 <= i < |run| && Loses(run[i]) }

  function Waiting(e: Entry): seq<nat> { if e.Missing? then [] else e.handle.queue }

  predicate Busy(a: Agent) { a.Dispatching? || a.InCallback? || a.Completing? }

  /** The handle exists exactly while one agent is responsible for it, and its flag
  is set exactly while that agent is between taking a callback and clearing. */
  ghost predicate Tended(s: State) {
    && (s.entry.Missing? ==> s.agents == map[])
    && (s.entry.Locked? ==> exists t :: s.agents.Keys == {t} && (s.entry.handle.running <==> Busy(s.agents[t])))
  }

  /** After a lost hand-over the handle is left behind, its flag set for good. */
  predicate Abandoned(s: State) { s.agents == map[] && s.entry.Locked? && s.entry.handle.running }

  ghost predicate Inv(s: State) {
    s.enqueued == s.taken + Waiting(s.entry) && (if s.lost then Abandoned(s) else Tended(s))
  }

  lemma CallKeeps(s: State, t: nat, c: Option<nat>)
    requires Inv(s) && Can(s, Call(t, c))
    ensures Inv(Do(s, Call(t, c)))
  {
    var s' := Do(s, Call(t, c));
    if !s.lost {
      if s.entry.Locked? { var owner :| s.agents.Keys == {owner}; assert s'.agents.Keys == {owner}; }
      else { assert s'.agents.Keys == {t}; }
    }
  }

  lemma AgentKeeps(s: State, a: Step)
    requires Inv(s) && Can(s, a) && !a.Call?
    ensures Inv(Do(s, a)) && !s.lost
  {
    var s' := Do(s, a);
    assert s.agents.Keys == {a.t};
    if a.t in s'.agents { assert s'.agents.Keys == {a.t}; } else { assert s'.agents == map[]; }
    assert Waiting(s.entry) != [] ==> Waiting(s.entry) == [Waiting(s.entry)[0]] + Waiting(s.entry)[1..];
  }

  lemma StepKeeps(s: State, a: Step)
    requires Inv(s) && Can(s, a)
    ensures Inv(Do(s, a)) && (Do(s, a).lost <==> s.lost || Loses(a))
    ensures s.lost ==> Do(s, a).taken == s.taken
  {
    if a.Call? { CallKeeps(s, a.t, a.c); } else { AgentKeeps(s, a); }
  }

  lemma {:induction false} RunKeeps(s: State, run: seq<Step>, s': State)
    requires Inv(s) && Runs(s, run, s')
    ensures Inv(s') && (s'.lost <==> s.lost || LosesOne(run))
    ensures s.lost ==> s'.taken == s.taken
    decreases |run|
  {
    if run != [] {
      StepKeeps(s, run[0]);
      RunKeeps(Do(s, run[0]), run[1..], s');
      assert LosesOne(run) <==> Loses(run[0]) || LosesOne(run[1..]) by {
        assert run == [run[0]] + run[1..];
      }
    }
  }

  /** An agent can go on, unless it waits for its callback to return. */
  predicate Moves(s: State, t: nat) {
    || (t in s.agents && s.agents[t].InCallback?)
    || Can(s, Start(t)) || Can(s, Dispatch(t, Delivered)) || Can(s, Clear(t)) || Can(s, Advance(t))
  }

  /** In every run of `withLock` on a key, across removal and re-creation of its
  handle: callbacks are taken in enqueue order, none is dropped, and at most one is
  running. Somebody is responsible for the key for as long as its handle exists,
  and so nothing is stranded, if and only if no hand-over was lost. */
  lemma CallbacksRunInTurn(run: seq<Step>, s: State)
    requires Runs(UNLOCKED, run, s)
    ensures s.enqueued == s.taken + Waiting(s.entry)
    ensures forall t, u :: t in s.agents && u in s.agents ==> t == u
    ensures forall t :: t in s.agents ==> Moves(s, t)
    ensures (s.entry.Locked? ==> s.agents != map[]) <==> !LosesOne(run)
  {
    RunKeeps(UNLOCKED, run, s);
    if s.entry.Locked? && !s.lost {
      var owner :| s.agents.Keys == {owner};
      assert owner in s.agents;
      assert forall t :: t in s.agents ==> t in s.agents.Keys;
    }
  }

  /** After a lost hand-over no callback of the key is ever taken again, however
  many are still enqueued. */
  lemma LostHandOverStrands(run: seq<Step>, s: State, more: seq<Step>, s': State)
    requires Runs(UNLOCKED, run, s) && LosesOne(run) && Runs(s, more, s')
    ensures s'.taken == s.taken && s'.agents == map[] && s'.entry.Locked?
  {
    RunKeeps(UNLOCKED, run, s);
    RunKeeps(s, more, s');
  }

  /** Once no thread has anything left to do, every callback has been taken and the
  handle is gone, if and only if no hand-over was lost. */
  lemma QuietMeansEmpty(run: seq<Step>, s: State)
    requires Runs(UNLOCKED, run, s) && s.agents == map[]
    ensures s.entry.Missing? <==> !LosesOne(run)
    ensures !LosesOne(run) ==> s.taken == s.enqueued
  {
    RunKeeps(UNLOCKED, run, s);
    forall t ensures s.agents.Keys != {t} { assert t in {t} && t !in s.agents.Keys; }
  }
}
