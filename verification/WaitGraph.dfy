/**
 Who waits for whom: callers, the lifecycle queue, the JVM thread, the monitors of Java peers and the event queues
 of channels.

 `dispatch_sync` runs a block on the thread that asks for it, so a serial queue is a lock that is not re-entrant. A
 thread is a stack of the calls it is in. Code may call whatever it likes (`disciplined` is false), or keep to what
 is proved to be enough for waits to have no cycle:
   - a block on the JVM thread, and Java code, make no synchronous call into the JVM and do not close the JVM;
   - a host processor, which runs on the event queue of its channel, makes no synchronous call and closes nothing;
   - code under the monitor of a peer enters no second monitor.
 */
module WaitGraph {
  import opened Wrappers

  /** What a thread may wait for. */
  datatype Resource = Lifecycle | Jvm | Monitor(peer: nat) | EventQueue(channel: nat)

  function Rank(r: Resource): nat {
    match r
    case Lifecycle => 1
    case Jvm => 2
    case Monitor(_) => 3
    case EventQueue(_) => 4
  }

  /** A command: the block of a call, or the poison pill. */
  datatype Command = Block(id: nat) | Pill

  /** What a thread is in the middle of.
      `Application`: application code, and completion blocks. `Java`: Java code on a thread of its own, such as the
      finalizer's. `Initialising`: the wait for the start signal. `Running`: a block on the JVM thread. `Sync`:
      callJvmSync* that has seen isShutdown clear; once its block is queued it waits on its semaphore. `Close`: close of
      EJJvm; `waits`: it has appended a pill. `Peer`: close of a Java peer, or its creation of a processor. `Callback`:
      callJvmToHost. `CloseChannel`: close of a native channel. The last four first wait for a lock and then hold it. */
  datatype Frame =
    | Application
    | Java
    | Initialising
    | Running(id: nat)
    | Sync(id: nat, queued: bool)
    | Close(held: bool, waits: bool)
    | Peer(peer: nat, held: bool)
    | Callback(channel: nat, held: bool)
    | CloseChannel(channel: nat, held: bool)
  {
    predicate TakesLock() {
      Close? || Peer? || Callback? || CloseChannel?
    }

    function Lock(): Resource
      requires TakesLock()
    {
      match this
      case Close(_, _) => Lifecycle
      case Peer(peer, _) => Monitor(peer)
      case Callback(channel, _) => EventQueue(channel)
      case CloseChannel(channel, _) => EventQueue(channel)
    }

    predicate Owns(r: Resource) {
      TakesLock() && held && Lock() == r
    }

    /** Inside the lock. `shut`: isShutdown is visible there. */
    function Entered(shut: bool): Frame
      requires TakesLock()
    {
      match this
      case Close(_, _) => Close(true, !shut)
      case Peer(peer, _) => Peer(peer, true)
      case Callback(channel, _) => Callback(channel, true)
      case CloseChannel(channel, _) => CloseChannel(channel, true)
    }
  }

  /** Where the JVM thread is between its blocks: before its start signal, in its main loop, out of it, past the store
      to isShutdown, past its end signal. */
  datatype Phase = Starting | Looping | Leaving | Shut | Ended

  /** Thread 0 is the JVM thread; its stack is empty outside blocks. `requested`: the poison pill has run. `issued`: the
      blocks named so far; `done`: those that have ended. */
  datatype State = State(
    threads: seq<seq<Frame>>,
    commands: seq<Command>,
    issued: set<nat>,
    done: set<nat>,
    requested: bool,
    phase: Phase)

  predicate ShutdownVisible(s: State) {
    s.phase.Shut? || s.phase.Ended?
  }

  datatype Event =
    | NewThread(java: bool)
    | Append(thread: nat, id: nat)         // an asynchronous call
    | Queue(thread: nat)                   // a synchronous call appends its block
    | Call(thread: nat, frame: Frame)
    | Enter(thread: nat)                   // the lock is taken
    | Return(thread: nat)
    | Start                                // the JVM thread posts the start signal
    | Take                                 // and removes a command
    | Stop                                 // and has seen the queue empty and the shutdown requested
    | StoreShutdown                        // and stores isShutdown
    | End                                  // and posts the end signal

  const Initial: State := State([[]], [], {}, {}, false, Starting)

  function Top(stack: seq<Frame>): Frame
    requires stack != []
  {
    stack[|stack| - 1]
  }

  predicate Busy(s: State, t: nat) {
    t < |s.threads| && s.threads[t] != []
  }

  /** Code that may call: everything that is neither waiting nor the inside of a close. */
  predicate IsCode(f: Frame) {
    f.Application? || f.Java? || f.Running? || (f.Peer? && f.held) || (f.Callback? && f.held)
  }

  /** What code of each sort may call when it keeps the discipline. */
  predicate Disciplined(caller: Frame, f: Frame) {
    match caller
    case Application => f.Initialising? || f.Sync? || f.Close? || f.CloseChannel?
    case Java => f.Peer? || f.Callback? || f.CloseChannel?
    case Running(_) => f.Peer? || f.Callback? || f.CloseChannel?
    case Peer(_, _) => f.Callback? || f.CloseChannel?
    case _ => false
  }

  predicate Fresh(f: Frame) {
    f.Initialising? || (f.Sync? && !f.queued) || (f.TakesLock() && !f.held)
  }

  predicate HasLock(s: State, t: nat, r: Resource) {
    t < |s.threads| && exists i :: 0 <= i < |s.threads[t]| && s.threads[t][i].Owns(r)
  }

  /** A monitor may be entered again by the thread that has it; a queue may not. */
  predicate Taken(s: State, t: nat, r: Resource) {
    exists u: nat :: u < |s.threads| && HasLock(s, u, r) && (u == t ==> !r.Monitor?)
  }

  /** The call that thread `t` is in has what it waits for. */
  predicate MayReturn(s: State, f: Frame) {
    match f
    case Initialising => !s.phase.Starting?
    case Sync(id, _) => id in s.done
    case Close(held, waits) => held && (waits ==> s.phase.Ended?)
    case Peer(_, held) => held
    case Callback(_, held) => held
    case CloseChannel(_, held) => held
    case _ => true
  }

  predicate MayEnter(s: State, t: nat, f: Frame) {
    f.TakesLock() && !f.held && !Taken(s, t, f.Lock())
  }

  /** The JVM thread is between blocks. */
  predicate Idle(s: State) {
    s.threads != [] && s.threads[0] == []
  }

  predicate Enabled(s: State, e: Event, disciplined: bool) {
    match e
    case NewThread(_) => true
    case Append(t, id) => Busy(s, t) && IsCode(Top(s.threads[t])) && id !in s.issued && !ShutdownVisible(s)
    case Call(t, f) =>
      Busy(s, t) && IsCode(Top(s.threads[t])) && Fresh(f) &&
      (f.Sync? ==> f.id !in s.issued && !ShutdownVisible(s)) &&
      (disciplined ==> Disciplined(Top(s.threads[t]), f))
    case Queue(t) => Busy(s, t) && Top(s.threads[t]).Sync? && !Top(s.threads[t]).queued
    case Enter(t) => Busy(s, t) && MayEnter(s, t, Top(s.threads[t]))
    case Return(t) => Busy(s, t) && MayReturn(s, Top(s.threads[t]))
    case Start => Idle(s) && s.phase.Starting?
    case Take => Idle(s) && s.phase.Looping? && s.commands != []
    case Stop => Idle(s) && s.phase.Looping? && s.commands == [] && s.requested
    case StoreShutdown => Idle(s) && s.phase.Leaving?
    case End => Idle(s) && s.phase.Shut?
  }

  function Push(s: State, t: nat, f: Frame): State
    requires t < |s.threads|
  {
    s.(threads := s.threads[t := s.threads[t] + [f]])
  }

  function Pop(s: State, t: nat): State
    requires Busy(s, t)
  {
    s.(threads := s.threads[t := s.threads[t][..|s.threads[t]| - 1]])
  }

  function Apply(s: State, e: Event, disciplined: bool): State
    requires Enabled(s, e, disciplined)
  {
    match e
    case NewThread(java) => s.(threads := s.threads + [[if java then Java else Application]])
    case Append(_, id) => s.(commands := s.commands + [Block(id)], issued := s.issued + {id})
    case Call(t, f) => Push(if f.Sync? then s.(issued := s.issued + {f.id}) else s, t, f)
    case Queue(t) =>
      var id := Top(s.threads[t]).id;
      Push(Pop(s, t), t, Sync(id, true)).(commands := s.commands + [Block(id)])
    case Enter(t) =>
      var f := Top(s.threads[t]).Entered(ShutdownVisible(s));
      var s' := Push(Pop(s, t), t, f);
      if f.Close? && f.waits then s'.(commands := s.commands + [Pill]) else s'
    case Return(t) =>
      var f := Top(s.threads[t]);
      if f.Running? then Pop(s, t).(done := s.done + {f.id}) else Pop(s, t)
    case Take =>
      var rest := s.(commands := s.commands[1..]);
      if s.commands[0].Pill? then rest.(requested := true) else Push(rest, 0, Running(s.commands[0].id))
    case Start => s.(phase := Looping)
    case Stop => s.(phase := Leaving)
    case StoreShutdown => s.(phase := Shut)
    case End => s.(phase := Ended)
  }

  function Replay(es: seq<Event>, disciplined: bool): Option<State> {
    if es == [] then Some(Initial)
    else
      var r := Replay(es[..|es| - 1], disciplined);
      if r.Some? && Enabled(r.value, es[|es| - 1], disciplined) then
        Some(Apply(r.value, es[|es| - 1], disciplined))
      else
        None
  }

  // ---------- waiting

  /** What thread `t` waits for. */
  function Wanted(s: State, t: nat): Option<Resource> {
    if !Busy(s, t) then None
    else
      var f := Top(s.threads[t]);
      if f.Initialising? && s.phase.Starting? then Some(Jvm)
      else if f.Sync? && f.queued && f.id !in s.done then Some(Jvm)
      else if f.Close? && f.held && f.waits && !s.phase.Ended? then Some(Jvm)
      else if f.TakesLock() && !f.held && Taken(s, t, f.Lock()) then Some(f.Lock())
      else None
  }

  /** Thread `t` cannot go on before thread `u` has: only the JVM thread runs blocks, and only who holds a lock gives
      it back. */
  predicate WaitsFor(s: State, t: nat, u: nat) {
    match Wanted(s, t)
    case None => false
    case Some(Jvm) => u == 0
    case Some(r) => HasLock(s, u, r) && (u == t ==> !r.Monitor?)
  }

  // ---------- invariants

  /** A thread that owns a lock asks only for higher ones. */
  ghost predicate Ascending(stack: seq<Frame>) {
    forall i, j :: 0 <= i < j < |stack| && stack[i].TakesLock() ==>
      stack[i].held && !stack[i].Close? && stack[j].TakesLock() && Rank(stack[i].Lock()) < Rank(stack[j].Lock())
  }

  /** Only application code makes synchronous calls and closes the JVM, and the JVM thread runs none. */
  ghost predicate Placed(stack: seq<Frame>, jvm: bool) {
    forall i :: 0 <= i < |stack| ==>
      && (stack[i].Sync? || stack[i].Close? || stack[i].Application? || stack[i].Initialising? ==> !jvm)
      && (stack[i].Running? ==> jvm && i == 0)
      && (IsCode(stack[i]) || i == |stack| - 1)
  }

  ghost predicate Inv(s: State) {
    && s.threads != []
    && (forall t :: 0 <= t < |s.threads| ==> Ascending(s.threads[t]) && Placed(s.threads[t], t == 0))
  }

  /** What a waiting caller waits for is on its way: its block is in the queue or running, and so is a poison pill. */
  ghost predicate OnItsWay(s: State, f: Frame) {
    && (f.Sync? && f.queued ==> f.id in s.done || Block(f.id) in s.commands
                                || (s.threads != [] && s.threads[0] != [] && s.threads[0][0] == Running(f.id)))
    && (f.Close? && f.held && f.waits ==> s.phase.Ended? || s.requested || Pill in s.commands)
  }

  ghost predicate Served(s: State) {
    forall t, i :: 0 <= t < |s.threads| && 0 <= i < |s.threads[t]| ==> OnItsWay(s, s.threads[t][i])
  }

  // ---------- every step keeps them

  lemma AscendingPush(stack: seq<Frame>, f: Frame)
    requires Ascending(stack) && stack != [] && IsCode(Top(stack)) && Disciplined(Top(stack), f) && Fresh(f)
    ensures Ascending(stack + [f])
  {
    var top := |stack| - 1;
    assert !stack[top].TakesLock() ==> forall i :: 0 <= i < top ==> !stack[i].TakesLock();
  }

  lemma NewStack(s: State, t: nat, stack: seq<Frame>)
    requires Inv(s) && t < |s.threads| && Ascending(stack) && Placed(stack, t == 0)
    ensures Inv(s.(threads := s.threads[t := stack]))
  {
  }

  lemma CallKeepsInv(s: State, t: nat, f: Frame)
    requires Inv(s) && Enabled(s, Call(t, f), true)
    ensures Inv(Push(s, t, f))
  {
    AscendingPush(s.threads[t], f);
    NewStack(s, t, s.threads[t] + [f]);
  }

  lemma EnterKeepsInv(s: State, t: nat)
    requires Inv(s) && Enabled(s, Enter(t), true)
    ensures Inv(Push(Pop(s, t), t, Top(s.threads[t]).Entered(ShutdownVisible(s))))
  {
    var stack := s.threads[t];
    assert Ascending(stack) && Placed(stack, t == 0);
    ReturnKeepsInv(s, t);
    NewStack(Pop(s, t), t, stack[..|stack| - 1] + [Top(stack).Entered(ShutdownVisible(s))]);
  }

  lemma ReturnKeepsInv(s: State, t: nat)
    requires Inv(s) && Busy(s, t)
    ensures Inv(Pop(s, t))
  {
    var stack := s.threads[t];
    assert Ascending(stack) && Placed(stack, t == 0);
    NewStack(s, t, stack[..|stack| - 1]);
  }

  lemma QueueKeepsInv(s: State, t: nat)
    requires Inv(s) && Enabled(s, Queue(t), true)
    ensures Inv(Push(Pop(s, t), t, Sync(Top(s.threads[t]).id, true)))
  {
    var stack := s.threads[t];
    assert Ascending(stack) && Placed(stack, t == 0);
    ReturnKeepsInv(s, t);
    NewStack(Pop(s, t), t, stack[..|stack| - 1] + [Sync(Top(stack).id, true)]);
  }

  lemma StepKeepsInv(s: State, e: Event)
    requires Inv(s) && Enabled(s, e, true)
    ensures Inv(Apply(s, e, true))
  {
    match e
    case Call(t, f) => CallKeepsInv(s, t, f);
    case Enter(t) => EnterKeepsInv(s, t);
    case Queue(t) => QueueKeepsInv(s, t);
    case Return(t) => ReturnKeepsInv(s, t);
    case _ =>
  }

  lemma {:induction false} ReachableInv(es: seq<Event>, s: State)
    requires Replay(es, true) == Some(s)
    ensures Inv(s) && Served(s)
  {
    if es != [] {
      var before := Replay(es[..|es| - 1], true).value;
      ReachableInv(es[..|es| - 1], before);
      StepKeepsInv(before, es[|es| - 1]);
      StepKeepsServed(before, es[|es| - 1]);
    }
  }

  lemma StepKeepsServed(s: State, e: Event)
    requires Inv(s) && Served(s) && Enabled(s, e, true)
    ensures Served(Apply(s, e, true))
  {
    hide Inv, Enabled, Apply, OnItsWay;
    var s' := Apply(s, e, true);
    forall t, i | 0 <= t < |s'.threads| && 0 <= i < |s'.threads[t]| ensures OnItsWay(s', s'.threads[t][i]) {
      if t < |s.threads| && i < |s.threads[t]| && s'.threads[t][i] == s.threads[t][i] {
        StillOnItsWay(s, e, t, i);
      } else {
        NewOnItsWay(s, e, t, i);
      }
    }
  }

  lemma NewOnItsWay(s: State, e: Event, t: nat, i: nat)
    requires Inv(s) && Enabled(s, e, true)
    requires t < |Apply(s, e, true).threads| && i < |Apply(s, e, true).threads[t]|
    requires t >= |s.threads| || i >= |s.threads[t]| || Apply(s, e, true).threads[t][i] != s.threads[t][i]
    ensures OnItsWay(Apply(s, e, true), Apply(s, e, true).threads[t][i])
  {
  }

  lemma StillOnItsWay(s: State, e: Event, t: nat, i: nat)
    requires Inv(s) && Served(s) && Enabled(s, e, true) && t < |s.threads| && i < |s.threads[t]|
    ensures OnItsWay(Apply(s, e, true), s.threads[t][i])
  {
    var f := s.threads[t][i];
    assert OnItsWay(s, f) && Placed(s.threads[0], true);
  }

  // ---------- the theorems

  /** What the thread at the end of a wait waits for itself ranks higher. */
  lemma WaitRises(s: State, t: nat, u: nat)
    requires Inv(s) && WaitsFor(s, t, u) && Wanted(s, u).Some?
    ensures Rank(Wanted(s, t).value) < Rank(Wanted(s, u).value)
  {
    var stack := s.threads[u];
    assert Ascending(stack) && Placed(stack, u == 0);
    var r := Wanted(s, t).value;
    if r != Jvm {
      var i :| 0 <= i < |stack| && stack[i].Owns(r);
      if i < |stack| - 1 {
        assert Rank(stack[i].Lock()) < Rank(Top(stack).Lock());
      }
    }
  }

  ghost predicate WaitPath(s: State, path: seq<nat>) {
    path != [] && forall k :: 0 <= k < |path| - 1 ==> WaitsFor(s, path[k], path[k + 1])
  }

  lemma {:induction false} PathRises(s: State, path: seq<nat>, k: nat)
    requires Inv(s) && WaitPath(s, path) && k < |path| && Wanted(s, path[k]).Some?
    ensures Wanted(s, path[0]).Some? && Rank(Wanted(s, path[0]).value) + k <= Rank(Wanted(s, path[k]).value)
  {
    if k > 0 {
      assert WaitsFor(s, path[k - 1], path[k]);
      PathRises(s, path, k - 1);
      WaitRises(s, path[k - 1], path[k]);
    }
  }

  /** In no run that keeps the discipline is there a cycle of waits, of any length, nor a chain of more than four. */
  lemma NoCycle(es: seq<Event>, s: State, path: seq<nat>)
    requires Replay(es, true) == Some(s) && WaitPath(s, path)
    ensures |path| <= 5
    ensures |path| >= 2 ==> path[0] != path[|path| - 1]
  {
    ReachableInv(es, s);
    var last := |path| - 1;
    if last >= 1 {
      assert WaitsFor(s, path[last - 1], path[last]);
      PathRises(s, path, last - 1);
      if path[0] == path[last] {
        PathRises(s, path, 0);
        WaitRises(s, path[last - 1], path[last]);
      }
    }
  }

  /** Thread `t` gets further with what it is in: it takes its lock, queues its block, returns, or as the JVM thread
      starts, takes a command or ends. A further call does not count. */
  predicate GetsOn(e: Event, t: nat) {
    match e
    case Enter(thread) => thread == t
    case Queue(thread) => thread == t
    case Return(thread) => thread == t
    case NewThread(_) => false
    case Append(_, _) => false
    case Call(_, _) => false
    case _ => t == 0
  }

  ghost predicate CanStep(s: State, t: nat) {
    exists e :: GetsOn(e, t) && Enabled(s, e, true)
  }

  /** A thread in the middle of something that waits for nothing has a step to take. */
  lemma FreeCanStep(s: State, t: nat)
    requires Busy(s, t) && Wanted(s, t).None?
    ensures CanStep(s, t)
  {
    var f := Top(s.threads[t]);
    var e := if f.TakesLock() && !f.held then Enter(t) else if f.Sync? && !f.queued then Queue(t) else Return(t);
    assert GetsOn(e, t) && Enabled(s, e, true);
  }

  /** A thread that waits for the JVM thread finds it busy, or with a step to take, or ended. It has ended only
      before a synchronous caller whose block it left in the queue. */
  lemma JvmThreadIsThere(s: State, t: nat)
    requires Inv(s) && Served(s) && Wanted(s, t) == Some(Jvm)
    ensures Busy(s, 0) || CanStep(s, 0) || Stranded(s, t)
  {
    var f := Top(s.threads[t]);
    assert OnItsWay(s, f);
    if !Busy(s, 0) && !s.phase.Ended? {
      var e := NextStep(s);
      assert GetsOn(e, 0) && Enabled(s, e, true);
    }
  }

  /** The step of the JVM thread between blocks. */
  function NextStep(s: State): Event {
    match s.phase
    case Starting => Start
    case Looping => if s.commands == [] then Stop else Take
    case Leaving => StoreShutdown
    case Shut => End
    case Ended => End
  }

  ghost predicate Stranded(s: State, t: nat) {
    Busy(s, t) && Top(s.threads[t]).Sync? && s.phase.Ended? && Block(Top(s.threads[t]).id) in s.commands
  }

  /** From every waiting thread a chain of waits leads to a thread that can take a step, or to a synchronous caller
      whose block the JVM thread left behind when it ended. */
  lemma EveryWaitLeadsToAStep(es: seq<Event>, s: State, t: nat)
    requires Replay(es, true) == Some(s) && Busy(s, t)
    ensures exists path :: WaitPath(s, path) && path[0] == t
                           && (CanStep(s, path[|path| - 1]) || Stranded(s, path[|path| - 1]))
  {
    ReachableInv(es, s);
    var path := FollowWaits(s, t);
  }

  lemma FollowWaits(s: State, t: nat) returns (path: seq<nat>)
    requires Inv(s) && Served(s) && Busy(s, t)
    ensures WaitPath(s, path) && path[0] == t
    ensures CanStep(s, path[|path| - 1]) || Stranded(s, path[|path| - 1])
    decreases if Wanted(s, t).None? then 0 else 5 - Rank(Wanted(s, t).value)
  {
    path := [t];
    if Wanted(s, t).None? {
      FreeCanStep(s, t);
      return;
    }
    var u: nat := 0;
    if Wanted(s, t) == Some(Jvm) {
      JvmThreadIsThere(s, t);
      if Stranded(s, t) {
        return;
      }
    } else {
      u :| u < |s.threads| && HasLock(s, u, Wanted(s, t).value) && (u == t ==> !Wanted(s, t).value.Monitor?);
    }
    var rest := [u];
    if Busy(s, u) {
      if Wanted(s, u).Some? {
        WaitRises(s, t, u);
      }
      rest := FollowWaits(s, u);
    }
    path := [t] + rest;
    forall k | 0 <= k < |path| - 1 ensures WaitsFor(s, path[k], path[k + 1]) {
      if k > 0 {
        assert WaitsFor(s, rest[k - 1], rest[k]);
      }
    }
  }

  // ---------- what waits and locks are, whatever code does

  /** Event `e` is a step of thread `t`. */
  predicate IsStepOf(e: Event, t: nat) {
    match e
    case NewThread(_) => false
    case Append(thread, _) => thread == t
    case Call(thread, _) => thread == t
    case _ => GetsOn(e, t)
  }

  /** No two frames own the same lock, but for a monitor that its thread has entered again. Blocks run on the JVM
      thread. */
  ghost predicate Exclusive(s: State) {
    && (forall t, i, u, j :: 0 <= t < |s.threads| && 0 <= i < |s.threads[t]|
                             && 0 <= u < |s.threads| && 0 <= j < |s.threads[u]| ==>
          Compatible(s.threads[t][i], t, i, s.threads[u][j], u, j))
    && (forall t, i :: 0 <= t < |s.threads| && 0 <= i < |s.threads[t]| && s.threads[t][i].Running? ==> t == 0)
  }

  predicate Compatible(f: Frame, t: nat, i: nat, g: Frame, u: nat, j: nat) {
    f.TakesLock() && g.TakesLock() && f.held && g.held && f.Lock() == g.Lock() ==>
      t == u && (f.Lock().Monitor? || i == j)
  }

  lemma StepKeepsExclusive(s: State, e: Event, disciplined: bool)
    requires s.threads != [] && Exclusive(s) && Enabled(s, e, disciplined)
    ensures Apply(s, e, disciplined).threads != [] && Exclusive(Apply(s, e, disciplined))
  {
    hide Enabled, Apply, Compatible;
    var s' := Apply(s, e, disciplined);
    if e.Enter? {
      EnterWrites(s, e.thread, disciplined);
      EnterKeepsExclusive(s, e.thread, s'.threads);
    } else {
      forall t, i | 0 <= t < |s'.threads| && 0 <= i < |s'.threads[t]| ensures NotNew(s, t, i, s'.threads[t][i]) {
        NothingNew(s, e, disciplined, t, i);
      }
      OldStaysExclusive(s, s'.threads);
    }
    ThreadsStay(s, e, disciplined);
  }

  lemma ThreadsStay(s: State, e: Event, disciplined: bool)
    requires Enabled(s, e, disciplined)
    ensures |s.threads| <= |Apply(s, e, disciplined).threads|
  {
  }

  lemma EnterWrites(s: State, t: nat, disciplined: bool)
    requires Enabled(s, Enter(t), disciplined)
    ensures Busy(s, t) && MayEnter(s, t, Top(s.threads[t]))
    ensures Apply(s, Enter(t), disciplined).threads ==
            s.threads[t := s.threads[t][..|s.threads[t]| - 1] + [Top(s.threads[t]).Entered(ShutdownVisible(s))]]
  {
  }

  /** Frame `f` at place `i` of thread `t` was there before, or neither owns a lock nor is a block outside the JVM
      thread. */
  predicate NotNew(s: State, t: nat, i: nat, f: Frame) {
    (f.TakesLock() && f.held) || (f.Running? && t != 0) ==>
      t < |s.threads| && i < |s.threads[t]| && s.threads[t][i] == f
  }

  lemma NothingNew(s: State, e: Event, disciplined: bool, t: nat, i: nat)
    requires Enabled(s, e, disciplined) && !e.Enter?
    requires t < |Apply(s, e, disciplined).threads| && i < |Apply(s, e, disciplined).threads[t]|
    ensures NotNew(s, t, i, Apply(s, e, disciplined).threads[t][i])
  {
  }

  lemma OldStaysExclusive(s: State, threads: seq<seq<Frame>>)
    requires Exclusive(s)
    requires forall t, i :: 0 <= t < |threads| && 0 <= i < |threads[t]| ==> NotNew(s, t, i, threads[t][i])
    ensures Exclusive(s.(threads := threads))
  {
    forall t, i, u, j | 0 <= t < |threads| && 0 <= i < |threads[t]| && 0 <= u < |threads| && 0 <= j < |threads[u]|
      ensures Compatible(threads[t][i], t, i, threads[u][j], u, j)
    {
      assert NotNew(s, t, i, threads[t][i]) && NotNew(s, u, j, threads[u][j]);
    }
    forall t, i | 0 <= t < |threads| && 0 <= i < |threads[t]| ensures threads[t][i].Running? ==> t == 0 {
      assert NotNew(s, t, i, threads[t][i]);
    }
  }

  lemma EnterKeepsExclusive(s: State, t: nat, threads: seq<seq<Frame>>)
    requires Exclusive(s) && Busy(s, t) && MayEnter(s, t, Top(s.threads[t]))
    requires exists shut :: threads ==
               s.threads[t := s.threads[t][..|s.threads[t]| - 1] + [Top(s.threads[t]).Entered(shut)]]
    ensures Exclusive(s.(threads := threads))
  {
    var top := |s.threads[t]| - 1;
    var r := s.threads[t][top].Lock();
    forall u, j | 0 <= u < |threads| && 0 <= j < |threads[u]| && (u != t || j != top)
      ensures threads[u][j] == s.threads[u][j] && Compatible(threads[t][top], t, top, threads[u][j], u, j)
    {
      assert s.threads[u][j].Owns(r) ==> HasLock(s, u, r);
    }
  }

  lemma {:induction false} AlwaysExclusive(es: seq<Event>, s: State, disciplined: bool)
    requires Replay(es, disciplined) == Some(s)
    ensures s.threads != [] && Exclusive(s)
  {
    if es != [] {
      var before := Replay(es[..|es| - 1], disciplined).value;
      AlwaysExclusive(es[..|es| - 1], before, disciplined);
      StepKeepsExclusive(before, es[|es| - 1], disciplined);
    }
  }

  /** In every run a lock has one owner; a queue is not even entered twice by the same thread. */
  lemma MutualExclusion(es: seq<Event>, s: State, disciplined: bool, r: Resource, t: nat, i: nat, u: nat, j: nat)
    requires Replay(es, disciplined) == Some(s)
    requires t < |s.threads| && i < |s.threads[t]| && s.threads[t][i].Owns(r)
    requires u < |s.threads| && j < |s.threads[u]| && s.threads[u][j].Owns(r)
    ensures t == u && (r.Monitor? || i == j)
  {
    AlwaysExclusive(es, s, disciplined);
    assert Compatible(s.threads[t][i], t, i, s.threads[u][j], u, j);
  }

  predicate OnEventQueue(f: Frame, channel: nat) {
    f == Callback(channel, true) || f == CloseChannel(channel, true)
  }

  /** So at most one close of the JVM is on the lifecycle queue, at most one host processor or close on the event queue
      of a channel, and at most one thread under the monitor of a peer. */
  lemma Serialised(es: seq<Event>, s: State, disciplined: bool, t: nat, i: nat, u: nat, j: nat)
    requires Replay(es, disciplined) == Some(s)
    requires t < |s.threads| && i < |s.threads[t]| && u < |s.threads| && j < |s.threads[u]|
    ensures s.threads[t][i].Close? && s.threads[t][i].held && s.threads[u][j].Close? && s.threads[u][j].held ==>
              t == u && i == j
    ensures forall channel :: OnEventQueue(s.threads[t][i], channel) && OnEventQueue(s.threads[u][j], channel) ==>
              t == u && i == j
    ensures s.threads[t][i].Peer? && s.threads[t][i].held && s.threads[u][j] == s.threads[t][i] ==> t == u
  {
    AlwaysExclusive(es, s, disciplined);
    assert Compatible(s.threads[t][i], t, i, s.threads[u][j], u, j);
  }

  /** A caller whose block has not run, a closer with a pill before the end of the JVM thread, and the initialiser
      before the start signal have no step to take and wait for the JVM thread. */
  lemma WaitsForTheJvm(s: State, t: nat, disciplined: bool)
    requires Busy(s, t)
    requires
      || (Top(s.threads[t]) == Initialising && s.phase.Starting?)
      || (Top(s.threads[t]).Sync? && Top(s.threads[t]).queued && Top(s.threads[t]).id !in s.done)
      || (Top(s.threads[t]) == Close(true, true) && !s.phase.Ended?)
    ensures WaitsFor(s, t, 0) && Wanted(s, t) == Some(Jvm)
    ensures forall e :: IsStepOf(e, t) ==> !Enabled(s, e, disciplined)
  {
    WaitsIffNoStep(s, t, disciplined);
  }

  /** A thread before a lock that another frame owns, of another thread or of a lock that is not re-entrant, has no step
      to take and waits for the owner. */
  lemma LockedOut(s: State, t: nat, u: nat, i: nat, disciplined: bool)
    requires Busy(s, t) && Top(s.threads[t]).TakesLock() && !Top(s.threads[t]).held
    requires u < |s.threads| && i < |s.threads[u]| && s.threads[u][i].Owns(Top(s.threads[t]).Lock())
    requires u != t || !Top(s.threads[t]).Lock().Monitor?
    ensures WaitsFor(s, t, u) && Wanted(s, t) == Some(Top(s.threads[t]).Lock())
    ensures forall e :: IsStepOf(e, t) ==> !Enabled(s, e, disciplined)
  {
    assert HasLock(s, u, Top(s.threads[t]).Lock());
  }

  /** And if there is no such frame it can enter. */
  lemma NotLockedOut(s: State, t: nat, disciplined: bool)
    requires Busy(s, t) && Top(s.threads[t]).TakesLock() && !Top(s.threads[t]).held
    requires forall u, i :: 0 <= u < |s.threads| && 0 <= i < |s.threads[u]|
                            && s.threads[u][i].Owns(Top(s.threads[t]).Lock()) ==>
                              u == t && Top(s.threads[t]).Lock().Monitor?
    ensures Enabled(s, Enter(t), disciplined) && Wanted(s, t).None?
  {
  }

  /** A thread in the middle of something waits exactly when it has no step at all to take. */
  lemma WaitsIffNoStep(s: State, t: nat, disciplined: bool)
    requires Busy(s, t)
    ensures Wanted(s, t).Some? <==> forall e :: IsStepOf(e, t) ==> !Enabled(s, e, disciplined)
    ensures Wanted(s, t).Some? <==> !CanStep(s, t)
  {
    if Wanted(s, t).None? {
      FreeCanStep(s, t);
      var e :| GetsOn(e, t) && Enabled(s, e, true);
      assert IsStepOf(e, t) && Enabled(s, e, disciplined);
    }
  }

  lemma OthersKeepStack(s: State, e: Event, disciplined: bool, t: nat)
    requires Enabled(s, e, disciplined) && t < |s.threads| && !IsStepOf(e, t)
    ensures t < |Apply(s, e, disciplined).threads| && Apply(s, e, disciplined).threads[t] == s.threads[t]
  {
  }

  lemma OthersKeepJvm(s: State, e: Event, disciplined: bool)
    requires Exclusive(s) && Enabled(s, e, disciplined) && !IsStepOf(e, 0)
    ensures Apply(s, e, disciplined).phase == s.phase && Apply(s, e, disciplined).done == s.done
  {
    if e.Return? {
      assert !Top(s.threads[e.thread]).Running?;
    }
  }

  /** Only who is waited for can end a wait: whatever any other thread does, it goes on. */
  lemma OnlyTheOwnerHelps(es: seq<Event>, s: State, e: Event, disciplined: bool, t: nat, u: nat)
    requires Replay(es, disciplined) == Some(s) && Enabled(s, e, disciplined)
    requires WaitsFor(s, t, u) && !IsStepOf(e, u)
    ensures WaitsFor(Apply(s, e, disciplined), t, u) && Wanted(Apply(s, e, disciplined), t) == Wanted(s, t)
  {
    hide Enabled, Apply, Exclusive;
    AlwaysExclusive(es, s, disciplined);
    WaitsIffNoStep(s, t, disciplined);
    var s' := Apply(s, e, disciplined);
    OthersKeepStack(s, e, disciplined, t);
    var r := Wanted(s, t).value;
    if r == Jvm {
      OthersKeepJvm(s, e, disciplined);
    } else {
      assert HasLock(s, u, r);
      OthersKeepStack(s, e, disciplined, u);
      assert HasLock(s', u, r);
    }
  }

  /** A cycle of waits is for ever: no continuation of the run ends any of them. */
  lemma {:induction false} CycleIsForever(es: seq<Event>, s: State, path: seq<nat>, more: seq<Event>, s': State,
                                          disciplined: bool)
    requires Replay(es, disciplined) == Some(s) && Replay(es + more, disciplined) == Some(s')
    requires WaitPath(s, path) && |path| >= 2 && path[0] == path[|path| - 1]
    ensures WaitPath(s', path)
  {
    if more == [] {
      assert es + more == es;
      return;
    }
    var last := |more| - 1;
    assert (es + more)[..|es + more| - 1] == es + more[..last];
    var before := Replay(es + more[..last], disciplined).value;
    CycleIsForever(es, s, path, more[..last], before, disciplined);
    forall k | 0 <= k < |path| - 1 ensures WaitsFor(s', path[k], path[k + 1]) {
      var next := if k + 1 < |path| - 1 then k + 1 else 0;
      assert WaitsFor(before, path[k], path[k + 1]) && WaitsFor(before, path[next], path[next + 1]);
      WaitsIffNoStep(before, path[next], disciplined);
      OnlyTheOwnerHelps(es + more[..last], before, more[last], disciplined, path[k], path[k + 1]);
    }
  }

  /** Once shutdown is visible nothing new is begun: no block is named, and a close appends no pill. */
  lemma NothingBeginsAfterShutdown(s: State, e: Event, disciplined: bool)
    requires (s.phase.Shut? || s.phase.Ended?) && Enabled(s, e, disciplined)
    ensures var s' := Apply(s, e, disciplined);
            && (s'.phase.Shut? || s'.phase.Ended?) && s'.issued == s.issued
            && s'.commands == if e.Queue? then s.commands + [Block(Top(s.threads[e.thread]).id)] else s.commands
  {
  }

  /** What code of each sort stands on: the JVM thread, a monitor or an event queue; application code on nothing. */
  function Ground(caller: Frame): nat
    requires IsCode(caller)
  {
    match caller
    case Application => 0
    case Java => Rank(Jvm)
    case Running(_) => Rank(Jvm)
    case Peer(peer, _) => Rank(Monitor(peer))
    case Callback(channel, _) => Rank(EventQueue(channel))
  }

  /** The discipline forbids nothing but calls that may wait for something no higher than what the caller stands on, and
      Java methods to code that is not Java. */
  lemma DisciplineIsRank(caller: Frame, f: Frame)
    requires IsCode(caller) && Fresh(f)
    ensures Disciplined(caller, f) <==>
            && Ground(caller) < (if f.TakesLock() then Rank(f.Lock()) else Rank(Jvm))
            && !(caller.Application? && (f.Peer? || f.Callback?))
  {
  }

  // ---------- what goes wrong without the discipline

  lemma Follow(es: seq<Event>, s: State, e: Event) returns (es': seq<Event>, s': State)
    requires Replay(es, false) == Some(s) && Enabled(s, e, false)
    ensures Replay(es', false) == Some(s') && s' == Apply(s, e, false)
  {
    es', s' := es + [e], Apply(s, e, false);
    assert es'[..|es|] == es;
  }

  /** The JVM thread, with an application thread beside it, has the calls `stack` under way in block 0. */
  ghost predicate Inside(es: seq<Event>, s: State, stack: seq<Frame>) {
    && Replay(es, false) == Some(s)
    && |s.threads| == 2 && s.threads[0] == stack && s.threads[1] == [Application]
    && stack != [] && s.issued == {0} && s.done == {} && s.phase.Looping?
  }

  lemma InsideBlock() returns (es: seq<Event>, s: State)
    ensures Inside(es, s, [Running(0)])
  {
    es, s := Follow([], Initial, NewThread(false));
    es, s := Follow(es, s, Append(1, 0));
    es, s := Follow(es, s, Start);
    assert s.threads[0] == [] && s.commands == [Block(0)];
    es, s := Follow(es, s, Take);
    assert s.threads[0] == [] + [Running(0)];
  }

  lemma InsideCall(es: seq<Event>, s: State, stack: seq<Frame>, f: Frame) returns (es': seq<Event>, s': State)
    requires Inside(es, s, stack) && IsCode(Top(stack)) && f.TakesLock() && !f.held
    ensures Inside(es', s', stack + [f])
  {
    es', s' := Follow(es, s, Call(0, f));
  }

  lemma InsideCallback(channel: nat) returns (es: seq<Event>, s: State)
    ensures Inside(es, s, [Running(0)] + [Callback(channel, false)])
    ensures !Taken(s, 0, EventQueue(channel))
  {
    es, s := InsideBlock();
    es, s := InsideCall(es, s, [Running(0)], Callback(channel, false));
    assert s.threads[0][..1] == [Running(0)];
    assert !HasLock(s, 0, EventQueue(channel)) && !HasLock(s, 1, EventQueue(channel));
  }

  lemma InsideProcessor(channel: nat) returns (es: seq<Event>, s: State)
    ensures Inside(es, s, [Running(0)] + [Callback(channel, true)]) && HasLock(s, 0, EventQueue(channel))
  {
    hide Taken;
    es, s := InsideCallback(channel);
    assert s.threads[0][..1] == [Running(0)];
    es, s := Follow(es, s, Enter(0));
    assert s.threads[0][1].Owns(EventQueue(channel));
  }

  lemma SyncHangs(es: seq<Event>, s: State, stack: seq<Frame>) returns (es': seq<Event>, s': State)
    requires Inside(es, s, stack) && IsCode(Top(stack))
    ensures Replay(es', false) == Some(s') && WaitsFor(s', 0, 0)
    ensures s'.threads != [] && s'.threads[0] == stack + [Sync(1, true)]
  {
    es', s' := Follow(es, s, Call(0, Sync(1, false)));
    assert Top(s'.threads[0]) == Sync(1, false) && s'.threads[0][..|stack|] == stack;
    es', s' := Follow(es', s', Queue(0));
    WaitsForTheJvm(s', 0, false);
  }

  /** A block that calls back into the JVM synchronously waits for its own thread. */
  lemma SyncCallInBlockHangs()
    ensures exists es, s :: Replay(es, false) == Some(s) && WaitsFor(s, 0, 0)
  {
    var es, s := InsideBlock();
    es, s := SyncHangs(es, s, [Running(0)]);
  }

  /** A host processor that calls into the JVM synchronously waits for the JVM thread, which runs it. */
  lemma SyncCallInProcessorHangs(channel: nat)
    ensures exists es, s :: Replay(es, false) == Some(s) && WaitsFor(s, 0, 0) && HasLock(s, 0, EventQueue(channel))
  {
    hide Taken, Enabled, Apply, WaitsFor, Wanted;
    var es, s := InsideProcessor(channel);
    es, s := SyncHangs(es, s, [Running(0)] + [Callback(channel, true)]);
    assert s.threads[0][1].Owns(EventQueue(channel));
  }

  /** A host processor that closes its own channel waits for the queue it runs on. */
  lemma CloseInProcessorHangs(channel: nat)
    ensures exists es, s :: Replay(es, false) == Some(s) && WaitsFor(s, 0, 0)
                            && Wanted(s, 0) == Some(EventQueue(channel))
  {
    hide Taken, Enabled, Apply, WaitsFor, Wanted;
    var es, s := InsideProcessor(channel);
    es, s := InsideCall(es, s, [Running(0)] + [Callback(channel, true)], CloseChannel(channel, false));
    assert s.threads[0][1].Owns(EventQueue(channel));
    LockedOut(s, 0, 0, 1, false);
  }

  /** A block that closes the JVM waits for its own thread. */
  lemma CloseInBlockHangs()
    ensures exists es, s :: Replay(es, false) == Some(s) && WaitsFor(s, 0, 0) && Top(s.threads[0]) == Close(true, true)
  {
    hide Taken, Enabled, Apply, WaitsFor;
    var es, s := InsideClose();
    es, s := Follow(es, s, Enter(0));
    WaitsForTheJvm(s, 0, false);
  }

  lemma InsideClose() returns (es: seq<Event>, s: State)
    ensures Replay(es, false) == Some(s) && Enabled(s, Enter(0), false)
    ensures var s' := Apply(s, Enter(0), false);
            Busy(s', 0) && Top(s'.threads[0]) == Close(true, true) && !s'.phase.Ended?
  {
    es, s := InsideBlock();
    es, s := InsideCall(es, s, [Running(0)], Close(false, false));
    NotLockedOut(s, 0, false);
  }

  /** Two Java threads are under way with the calls `first` and `second`. */
  ghost predicate Two(es: seq<Event>, s: State, first: seq<Frame>, second: seq<Frame>) {
    Replay(es, false) == Some(s) && s.threads == [[], [Java] + first, [Java] + second]
  }

  lemma TwoCall(es: seq<Event>, s: State, first: seq<Frame>, second: seq<Frame>, t: nat, peer: nat)
    returns (es': seq<Event>, s': State)
    requires Two(es, s, first, second) && (t == 1 || t == 2) && IsCode(Top([Java] + if t == 1 then first else second))
    ensures if t == 1 then Two(es', s', first + [Peer(peer, false)], second)
            else Two(es', s', first, second + [Peer(peer, false)])
  {
    es', s' := Follow(es, s, Call(t, Peer(peer, false)));
    assert [Java] + first + [Peer(peer, false)] == [Java] + (first + [Peer(peer, false)]);
    assert [Java] + second + [Peer(peer, false)] == [Java] + (second + [Peer(peer, false)]);
  }

  /** Code under one monitor that enters another can meet its mirror image: two threads wait for each other. */
  lemma TwoMonitorsHang(p: nat, q: nat)
    requires p != q
    ensures exists es, s :: Replay(es, false) == Some(s) && WaitsFor(s, 1, 2) && WaitsFor(s, 2, 1)
  {
    var es, s := Follow([], Initial, NewThread(true));
    es, s := Follow(es, s, NewThread(true));
    assert [Java] + [] == [Java];
    es, s := TwoCall(es, s, [], [], 1, p);
    es, s := TwoCall(es, s, [] + [Peer(p, false)], [], 2, q);
    es, s := TwoEnter(es, s, p, q);
    es, s := TwoCall(es, s, [Peer(p, true)], [Peer(q, true)], 1, q);
    es, s := TwoCall(es, s, [Peer(p, true)] + [Peer(q, false)], [Peer(q, true)], 2, p);
    assert s.threads[1][1].Owns(Monitor(p)) && s.threads[2][1].Owns(Monitor(q));
    LockedOut(s, 1, 2, 1, false);
    LockedOut(s, 2, 1, 1, false);
  }

  lemma TwoEnter(es: seq<Event>, s: State, p: nat, q: nat) returns (es': seq<Event>, s': State)
    requires p != q && Two(es, s, [] + [Peer(p, false)], [] + [Peer(q, false)])
    ensures Two(es', s', [Peer(p, true)], [Peer(q, true)])
  {
    assert [Java] + ([] + [Peer(p, false)]) == [Java, Peer(p, false)];
    assert [Java] + ([] + [Peer(q, false)]) == [Java, Peer(q, false)];
    es', s' := EnterMonitor(es, s, 1, p);
    assert s'.threads == [[], [Java, Peer(p, true)], [Java, Peer(q, false)]];
    es', s' := EnterMonitor(es', s', 2, q);
    assert s'.threads == [[], [Java, Peer(p, true)], [Java, Peer(q, true)]];
    assert [Java] + [Peer(p, true)] == [Java, Peer(p, true)] && [Java] + [Peer(q, true)] == [Java, Peer(q, true)];
  }

  lemma EnterMonitor(es: seq<Event>, s: State, t: nat, peer: nat) returns (es': seq<Event>, s': State)
    requires Replay(es, false) == Some(s) && t < |s.threads| && s.threads[t] == [Java, Peer(peer, false)]
    requires forall u, i :: 0 <= u < |s.threads| && 0 <= i < |s.threads[u]| ==> !s.threads[u][i].Owns(Monitor(peer))
    ensures Replay(es', false) == Some(s') && s'.threads == s.threads[t := [Java, Peer(peer, true)]]
  {
    hide Enabled, Apply, Wanted;
    NotLockedOut(s, t, false);
    EnterWrites(s, t, false);
    es', s' := Follow(es, s, Enter(t));
    assert s.threads[t][..1] + [Peer(peer, true)] == [Java, Peer(peer, true)];
  }
}
