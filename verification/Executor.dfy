/**
 The command executor of `EJJvm` as a step machine.

 Any number of caller threads append blocks to a locked queue, signal a run-loop source and possibly wait
 on a semaphore of their own. One JVM thread drains the queue. Every critical section, property access,
 source signal, wakeup, semaphore post and semaphore wait is one step; steps of different threads
 interleave freely.

 What is assumed of the platform:
   - memory is sequentially consistent;
   - a version-0 run-loop source has one level flag, cleared just before its perform callback is called,
     and a wakeup that finds nobody asleep is kept for the next sleeper;
   - a block handed to the executor does not itself spin the JVM thread's run loop;
   - what a block throws is an `NSException`, so that `doCommand` catches it.
 */
module Executor {
  import opened Wrappers

  /** What one user block does: the JVM state it leaves, the value it returns (`None`: it threw) and
      whether it leaves a Java exception pending. */
  datatype Outcome<J, V> = Outcome(state: J, result: Option<V>, pending: bool)

  /** Which method of `EJJvm` a call instance is. `completion`: the completion argument is not nil. */
  datatype Kind =
    | Sync
    | AsyncVoid(completion: bool)
    | AsyncValue(completion: bool)
    | Close

  /** Everything that does not change during a run. A call instance is named by a number; `kind` says which
      method it calls and `body` what its block does. `escapes`: other threads hold a reference to the object
      before its initialiser has returned, so calls may begin at any time. */
  datatype World<!J, !V> = World(
    kind: nat -> Kind,
    body: (nat, J) -> Outcome<J, V>,
    jvm: J,
    zero: V,
    escapes: bool)

  /** Where a call instance stands. */
  datatype CallPc =
    | Start                  // about to read isShutdown; close: about to enter the lifecycle queue
    | InLifecycle            // close only: on the lifecycle queue, about to read isShutdown
    | BeforeAppend
    | AfterAppend            // about to read runLoop
    | SawLoop                // about to read runLoopSource
    | BeforeSignal
    | BeforeWake
    | Waiting                // sync: on its own semaphore; close: on mainThreadEndSignal
    | MarkShutdown           // close only: about to store isShutdown
    | Leaving(ran: bool)     // close only: about to leave the lifecycle queue
    | Returned               // came back after its block was appended
    | Refused                // came back because isShutdown was visible

  /** The local state of one call instance: its semaphore, its result variable, the completion block it has
      put on the global queue, and the values its completion has been invoked with so far. After them history:
      whether a nil completion was called for it, and whether it has signalled the source and woken the run loop. */
  datatype Call<V> = Call(
    pc: CallPc,
    sem: nat,
    ret: V,
    dispatched: Option<V>,
    invoked: seq<V>,
    nilCalled: bool,
    announced: bool)

  /** A call that has just begun; its result variable holds 0 or nil. */
  function NewCall<V>(zero: V): Call<V> {
    Call(Start, 0, zero, None, [], false, false)
  }

  /** The three places from which the JVM thread calls doCommand. */
  datatype Context = Startup | Perform | AfterRun

  /** Where the JVM thread stands in `mainThreadLoop` and `doCommand`. */
  datatype ThreadPc<V> =
    | CreateJvm
    | FailShutdown | FailError | FailSignal | FailedEnd
    | SetRunLoop | CreateSource | AddSource | Connect | SignalStart
    | Fetch(ctx: Context)                                    // about to take the queue lock
    | Begin(ctx: Context, cmd: nat)                          // holds a command it has removed
    | Running(ctx: Context, cmd: nat)                        // inside the user block
    | Finally(ctx: Context, cmd: nat, result: Option<V>)     // the user block has ended
    | Clear(ctx: Context)                                    // about to test for a pending exception
    | LoopTest
    | RunMode                                                // about to run the run loop
    | CheckSource                                            // in the run loop, about to test the source
    | Asleep                                                 // parked in the run loop
    | ExitShutdown | ExitRemove | ExitSource | ExitLoop | ExitDestroy | ExitSignal | Ended

  /** The thread that runs the initialiser, from the wait for the start signal on. */
  datatype InitPc = AwaitStart | Woken | Succeeded | FailedWith(startError: bool)

  /** The shared state, and after it six pieces of history that no step reads. */
  datatype State<!J, V> = State(
    commands: seq<nat>,
    shutdownRequested: bool,
    isShutdown: bool,
    startError: bool,
    runLoop: bool,             // the property is not nil
    runLoopSource: bool,       // the property is not nil
    signalled: bool,
    wake: bool,
    startSem: nat,
    endSem: nat,
    lifecycle: Option<nat>,    // the close call that occupies the lifecycle queue
    init: InitPc,
    thread: ThreadPc<V>,
    threadTerminated: bool,
    created: bool,
    jvm: J,
    pending: bool,
    calls: map<nat, Call<V>>,
    // history
    appended: seq<nat>,        // every command ever appended, in order
    done: seq<nat>,            // every command whose block has ended, in order
    drained: nat,              // |appended| when a drain last saw the queue empty
    endTaken: bool,            // somebody has consumed mainThreadEndSignal
    printPending: bool,        // printMethods left a Java exception pending
    decided: seq<bool>)        // did the run loop start, was the sleeper woken: each time, in order

  /** One step of one thread.
      `Init`: the thread that runs the initialiser. `BeginCall`: a thread calls a method. `Advance`: a call takes
      its next step. `Complete`: the global queue runs the completion block of a call. `Thread`: the JVM thread;
      `choice` is what the environment decides where it has a say: whether JNI_CreateJavaVM succeeds, whether
      printMethods leaves a Java exception pending, whether the run loop starts, and whether the sleeper is woken
      (or times out). */
  datatype Event =
    | Init
    | BeginCall(id: nat)
    | Advance(id: nat)
    | Complete(id: nat)
    | Thread(choice: bool)

  function Initial<J, V>(w: World<J, V>): State<J, V> {
    State([], false, false, false, false, false, false, false, 0, 0, None, AwaitStart, CreateJvm, false, false,
          w.jvm, false, map[], [], [], 0, false, false, [])
  }

  predicate IsAsync(k: Kind) {
    k.AsyncVoid? || k.AsyncValue?
  }

  // ---------- callers

  predicate At<J, V>(s: State<J, V>, id: nat, pc: CallPc) {
    id in s.calls && s.calls[id].pc == pc
  }

  /** A call can take its next step. It blocks on the lifecycle queue and on its semaphore. */
  predicate CanAdvance<J, V>(w: World<J, V>, s: State<J, V>, id: nat) {
    && id in s.calls
    && match s.calls[id].pc
       case Start => w.kind(id).Close? ==> s.lifecycle.None?
       case Waiting => if w.kind(id).Close? then s.endSem > 0 else s.calls[id].sem > 0
       case Returned => false
       case Refused => false
       case _ => true
  }

  /** Where a call goes once `enqueueCommand` has returned. */
  function AfterEnqueue(k: Kind): CallPc {
    if IsAsync(k) then Returned else Waiting
  }

  /** A call that sees isShutdown comes back with 0 or nil; an asynchronous one calls its completion inline, nil or
      not. */
  function Refuse<V>(k: Kind, c: Call<V>, zero: V): Call<V> {
    c.(pc := Refused,
       invoked := if IsAsync(k) && k.completion then c.invoked + [zero] else c.invoked,
       nilCalled := c.nilCalled || (IsAsync(k) && !k.completion))
  }

  /** The local state of a call after its next step. */
  function NextCall<J, V>(w: World<J, V>, s: State<J, V>, id: nat): Call<V>
    requires CanAdvance(w, s, id)
  {
    var c := s.calls[id];
    var k := w.kind(id);
    match c.pc
    case Start =>
      if k.Close? then c.(pc := InLifecycle)
      else if s.isShutdown then Refuse(k, c, w.zero)
      else c.(pc := BeforeAppend)
    case InLifecycle => c.(pc := if s.isShutdown then Leaving(false) else BeforeAppend)
    case BeforeAppend => c.(pc := AfterAppend)
    case AfterAppend => c.(pc := if s.runLoop then SawLoop else AfterEnqueue(k))
    case SawLoop => c.(pc := if s.runLoopSource then BeforeSignal else AfterEnqueue(k))
    case BeforeSignal => c.(pc := BeforeWake)
    case BeforeWake => c.(pc := AfterEnqueue(k), announced := true)
    case Waiting => if k.Close? then c.(pc := MarkShutdown) else c.(pc := Returned, sem := c.sem - 1)
    case MarkShutdown => c.(pc := Leaving(true))
    case Leaving(ran) => c.(pc := if ran then Returned else Refused)
  }

  /** The step of call `id`, field by field. */
  function AdvanceCall<J, V>(w: World<J, V>, s: State<J, V>, id: nat): State<J, V>
    requires CanAdvance(w, s, id)
  {
    var pc := s.calls[id].pc;
    var k := w.kind(id);
    s.(calls := s.calls[id := NextCall(w, s, id)],
       commands := if pc.BeforeAppend? then s.commands + [id] else s.commands,
       appended := if pc.BeforeAppend? then s.appended + [id] else s.appended,
       signalled := s.signalled || (pc.BeforeSignal? && s.runLoopSource),
       wake := s.wake || (pc.BeforeWake? && s.runLoop),
       isShutdown := s.isShutdown || pc.MarkShutdown?,
       lifecycle := if pc.Start? && k.Close? then Some(id) else if pc.Leaving? then None else s.lifecycle,
       endSem := if pc.Waiting? && k.Close? then s.endSem - 1 else s.endSem,
       endTaken := s.endTaken || (pc.Waiting? && k.Close?))
  }

  /** The global queue runs the completion block that call `id` dispatched. */
  function RunCompletion<J, V>(w: World<J, V>, s: State<J, V>, id: nat): State<J, V>
    requires id in s.calls && s.calls[id].dispatched.Some?
  {
    var c := s.calls[id];
    var given := IsAsync(w.kind(id)) && w.kind(id).completion;
    s.(calls := s.calls[id := c.(dispatched := None,
                                 invoked := if given then c.invoked + [c.dispatched.value] else c.invoked,
                                 nilCalled := c.nilCalled || !given)])
  }

  // ---------- the JVM thread

  /** The JVM thread can take a step. Woken from its sleep it can go on only if a wakeup is pending. */
  predicate CanRun<V>(pc: ThreadPc<V>, wake: bool, choice: bool) {
    !pc.FailedEnd? && !pc.Ended? && (pc.Asleep? && choice ==> wake)
  }

  /** What the block of command `id` does to the JVM. The poison pill of `close` leaves the JVM alone. */
  function Exec<J, V>(w: World<J, V>, id: nat, jvm: J): Outcome<J, V> {
    if w.kind(id).Close? then Outcome(jvm, Some(w.zero), false) else w.body(id, jvm)
  }

  /** Where the JVM thread goes when doCommand returns: the perform callback returns into the run loop, which
      returns to the main loop because it has handled a source. */
  function AfterDoCommand<V>(ctx: Context): ThreadPc<V> {
    if ctx.Perform? then Fetch(AfterRun) else LoopTest
  }

  function NextPc<J, V>(w: World<J, V>, s: State<J, V>, choice: bool): ThreadPc<V> {
    match s.thread
    case CreateJvm => if choice then SetRunLoop else FailShutdown
    case FailShutdown => FailError
    case FailError => FailSignal
    case FailSignal => FailedEnd
    case FailedEnd => FailedEnd
    case SetRunLoop => CreateSource
    case CreateSource => AddSource
    case AddSource => Connect
    case Connect => SignalStart
    case SignalStart => Fetch(Startup)
    case Fetch(ctx) => if s.commands == [] then AfterDoCommand(ctx) else Begin(ctx, s.commands[0])
    case Begin(ctx, cmd) => Running(ctx, cmd)
    case Running(ctx, cmd) => Finally(ctx, cmd, Exec(w, cmd, s.jvm).result)
    case Finally(ctx, _, _) => Clear(ctx)
    case Clear(ctx) => Fetch(ctx)
    case LoopTest => if !s.threadTerminated && !s.shutdownRequested then RunMode else ExitShutdown
    case RunMode => if choice then CheckSource else Fetch(AfterRun)
    case CheckSource => if s.signalled then Fetch(Perform) else Asleep
    case Asleep => if choice then CheckSource else Fetch(AfterRun)
    case ExitShutdown => ExitRemove
    case ExitRemove => ExitSource
    case ExitSource => ExitLoop
    case ExitLoop => ExitDestroy
    case ExitDestroy => ExitSignal
    case ExitSignal => Ended
    case Ended => Ended
  }

  /** A sync block stores what it returns; a block that throws stores nothing. */
  function StoreResult<V>(k: Kind, c: Call<V>, result: Option<V>): Call<V> {
    if k.Sync? then c.(ret := result.GetOr(c.ret)) else c
  }

  /** What the wrapper around a user block does after the block: a sync wrapper posts its semaphore whether or
      not the block threw; an async wrapper dispatches its completion only if the block returned. */
  function Post<V>(k: Kind, c: Call<V>, result: Option<V>): Call<V> {
    match k
    case Sync => c.(sem := c.sem + 1)
    case AsyncVoid(completion) => if result.Some? && completion then c.(dispatched := result) else c
    case AsyncValue(_) => if result.Some? then c.(dispatched := result) else c
    case Close => c
  }

  /** The step of the JVM thread, field by field. */
  function RunThread<J, V>(w: World<J, V>, s: State<J, V>, choice: bool): State<J, V> {
    var pc := s.thread;
    s.(thread := NextPc(w, s, choice),
       created := s.created || (pc.CreateJvm? && choice),
       isShutdown := s.isShutdown || pc.FailShutdown? || pc.ExitShutdown?,
       startError := s.startError || pc.FailError?,
       startSem := s.startSem + Count(pc.FailSignal? || pc.SignalStart?),
       endSem := s.endSem + Count(pc.ExitSignal?),
       runLoop := if pc.ExitRemove? || pc.ExitLoop? then false else s.runLoop || pc.SetRunLoop? || pc.AddSource?,
       runLoopSource := if pc.ExitSource? then false else s.runLoopSource || pc.CreateSource?,
       threadTerminated := s.threadTerminated || (pc.RunMode? && !choice),
       signalled := s.signalled && !pc.CheckSource?,
       wake := s.wake && !(pc.Asleep? && choice),
       commands := if pc.Fetch? && s.commands != [] then s.commands[1..] else s.commands,
       drained := if pc.Fetch? && s.commands == [] then |s.appended| else s.drained,
       jvm := if pc.Running? then Exec(w, pc.cmd, s.jvm).state else s.jvm,
       done := if pc.Running? then s.done + [pc.cmd] else s.done,
       shutdownRequested := s.shutdownRequested || (pc.Running? && w.kind(pc.cmd).Close?),
       pending :=
         if pc.Clear? || pc.ExitDestroy? then false
         else if pc.Connect? then choice
         else if pc.Running? && !w.kind(pc.cmd).Close? then Exec(w, pc.cmd, s.jvm).pending
         else s.pending,
       printPending := if pc.Connect? then choice else s.printPending,
       decided := if pc.RunMode? || pc.Asleep? then s.decided + [choice] else s.decided,
       calls :=
         if pc.Running? && pc.cmd in s.calls then
           s.calls[pc.cmd := StoreResult(w.kind(pc.cmd), s.calls[pc.cmd], Exec(w, pc.cmd, s.jvm).result)]
         else if pc.Finally? && pc.cmd in s.calls then
           s.calls[pc.cmd := Post(w.kind(pc.cmd), s.calls[pc.cmd], pc.result)]
         else s.calls)
  }

  // ---------- runs

  predicate Enabled<J, V>(w: World<J, V>, s: State<J, V>, e: Event) {
    match e
    case Init => s.init.Woken? || (s.init.AwaitStart? && s.startSem > 0)
    case BeginCall(id) => id !in s.calls && (w.escapes || s.init.Succeeded? || s.init.FailedWith?)
    case Advance(id) => CanAdvance(w, s, id)
    case Complete(id) => id in s.calls && s.calls[id].dispatched.Some?
    case Thread(choice) => CanRun(s.thread, s.wake, choice)
  }

  /** The initialiser waits for the start signal, then tests isShutdown. */
  function RunInit<J, V>(s: State<J, V>): State<J, V>
    requires s.init.AwaitStart? ==> s.startSem > 0
  {
    s.(startSem := if s.init.AwaitStart? then s.startSem - 1 else s.startSem,
       init := if s.init.AwaitStart? then Woken else if s.isShutdown then FailedWith(s.startError) else Succeeded)
  }

  function Apply<J, V>(w: World<J, V>, s: State<J, V>, e: Event): State<J, V>
    requires Enabled(w, s, e)
  {
    match e
    case Init => RunInit(s)
    case BeginCall(id) => s.(calls := s.calls[id := NewCall(w.zero)])
    case Advance(id) => AdvanceCall(w, s, id)
    case Complete(id) => RunCompletion(w, s, id)
    case Thread(choice) => RunThread(w, s, choice)
  }

  /** The state after the events `es` in turn from `s`, if each of them is possible when its turn comes. */
  function Replay<J, V>(w: World<J, V>, s: State<J, V>, es: seq<Event>): Option<State<J, V>> {
    if es == [] then Some(s)
    else
      var r := Replay(w, s, es[..|es| - 1]);
      if r.Some? && Enabled(w, r.value, es[|es| - 1]) then Some(Apply(w, r.value, es[|es| - 1])) else None
  }

  /** `s` is what the run `es` of world `w` leads to. */
  ghost predicate Reaches<J, V>(w: World<J, V>, es: seq<Event>, s: State<J, V>) {
    Replay(w, Initial(w), es) == Some(s)
  }
}
