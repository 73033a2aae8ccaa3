/** Runs that show which exceptions in the theorems about the executor are real. */
module ExecutorRuns {
  import opened Wrappers
  import opened Executor
  import opened ExecutorInvariant
  import opened ExecutorSteps

  /** What stays as it is when the JVM thread takes a step. */
  ghost predicate ThreadFrame<J, V>(s: State<J, V>, s': State<J, V>) {
    && s'.init == s.init && s'.lifecycle == s.lifecycle && s'.calls.Keys == s.calls.Keys
    && forall id :: id in s.calls ==> s'.calls[id].pc == s.calls[id].pc
  }

  lemma ThreadStep<J, V>(w: World<J, V>, es: seq<Event>, s: State<J, V>, choice: bool)
    returns (es': seq<Event>, s': State<J, V>)
    requires Reaches(w, es, s) && CanRun(s.thread, s.wake, choice)
    ensures Reaches(w, es', s') && ThreadFrame(s, s') && s'.thread == NextPc(w, s, choice)
    ensures s'.commands == if s.thread.Fetch? && s.commands != [] then s.commands[1..] else s.commands
    ensures s'.shutdownRequested <==> s.shutdownRequested || (s.thread.Running? && w.kind(s.thread.cmd).Close?)
    ensures s'.threadTerminated <==> s.threadTerminated || (s.thread.RunMode? && !choice)
    ensures s'.isShutdown <==> s.isShutdown || s.thread.FailShutdown? || s.thread.ExitShutdown?
    ensures s'.startError <==> s.startError || s.thread.FailError?
    ensures s'.created <==> s.created || (s.thread.CreateJvm? && choice)
    ensures s'.startSem == s.startSem + Count(s.thread.FailSignal? || s.thread.SignalStart?)
    ensures s.thread.Connect? ==> s'.pending == choice
    ensures s.thread.SignalStart? || s.thread.Fetch? ==> s'.pending == s.pending
  {
    hide Reaches;
    Extend(w, es, s, Thread(choice));
    es', s' := es + [Thread(choice)], RunThread(w, s, choice);
  }

  /** What a step of a call leaves alone. */
  ghost predicate CallFrame<J, V>(s: State<J, V>, s': State<J, V>, id: nat) {
    && s'.thread == s.thread && s'.init == s.init && s'.pending == s.pending && s'.isShutdown == s.isShutdown
    && s'.shutdownRequested == s.shutdownRequested && s'.threadTerminated == s.threadTerminated
    && s'.created == s.created && s'.calls.Keys == s.calls.Keys + {id}
    && forall other :: other in s.calls && other != id ==>
         other in s'.calls && s'.calls[other].pc == s.calls[other].pc
  }

  lemma Beginning<J, V>(w: World<J, V>, es: seq<Event>, s: State<J, V>, id: nat)
    returns (es': seq<Event>, s': State<J, V>)
    requires Reaches(w, es, s) && (s.init.Succeeded? || s.init.FailedWith?) && id !in s.calls
    ensures Reaches(w, es', s') && CallFrame(s, s', id) && id in s'.calls && s'.calls[id] == NewCall(w.zero)
    ensures s'.commands == s.commands && s'.lifecycle == s.lifecycle
  {
    hide Reaches;
    Extend(w, es, s, BeginCall(id));
    es', s' := es + [BeginCall(id)], Apply(w, s, BeginCall(id));
  }

  lemma CallStep<J, V>(w: World<J, V>, es: seq<Event>, s: State<J, V>, id: nat)
    returns (es': seq<Event>, s': State<J, V>)
    requires Reaches(w, es, s) && CanAdvance(w, s, id) && !s.calls[id].pc.MarkShutdown?
    ensures Reaches(w, es', s') && CallFrame(s, s', id) && id in s'.calls && s'.calls[id] == NextCall(w, s, id)
    ensures s'.commands == if s.calls[id].pc.BeforeAppend? then s.commands + [id] else s.commands
    ensures !w.kind(id).Close? && !s.calls[id].pc.Leaving? ==> s'.lifecycle == s.lifecycle
  {
    hide Reaches, NextCall;
    Extend(w, es, s, Advance(id));
    es', s' := es + [Advance(id)], AdvanceCall(w, s, id);
  }

  /** A call begins and goes as far as its append. */
  lemma CallToAppend<J, V>(w: World<J, V>, es: seq<Event>, s: State<J, V>, id: nat)
    returns (es': seq<Event>, s': State<J, V>)
    requires Reaches(w, es, s) && s.init.Succeeded? && id !in s.calls && !s.isShutdown && s.lifecycle.None?
    ensures Reaches(w, es', s') && CallFrame(s, s', id) && At(s', id, BeforeAppend) && s'.commands == s.commands
    ensures !w.kind(id).Close? ==> s'.lifecycle == s.lifecycle
  {
    hide Reaches;
    es', s' := Beginning(w, es, s, id);
    es', s' := CallStep(w, es', s', id);
    if w.kind(id).Close? {
      es', s' := CallStep(w, es', s', id);
    }
  }

  lemma InitStep<J, V>(w: World<J, V>, es: seq<Event>, s: State<J, V>) returns (es': seq<Event>, s': State<J, V>)
    requires Reaches(w, es, s) && s.init.AwaitStart? && s.startSem == 1
    ensures Reaches(w, es', s')
    ensures s' == s.(startSem := 0, init := if s.isShutdown then FailedWith(s.startError) else Succeeded)
  {
    hide Reaches;
    Extend(w, es, s, Init);
    es', s' := es + [Init], RunInit(s);
    Extend(w, es', s', Init);
    es', s' := es' + [Init], RunInit(s');
  }

  /** The JVM thread up to its first drain; `left`: printMethods leaves an exception pending. */
  lemma Started<J, V>(w: World<J, V>, left: bool) returns (es: seq<Event>, s: State<J, V>)
    ensures Reaches(w, es, s) && s.thread == Fetch(Startup) && s.init.AwaitStart? && s.startSem == 1
    ensures s.commands == [] && s.calls.Keys == {} && s.lifecycle.None? && s.pending == left && s.created
    ensures !s.isShutdown && !s.shutdownRequested && !s.threadTerminated && !s.startError
  {
    hide Reaches;
    es, s := Begun(w);
    for i := 0 to 6
      invariant Reaches(w, es, s) && s.thread == StartPath<V>()[i]
      invariant s.init.AwaitStart? && s.startSem == (if i == 6 then 1 else 0) && (i >= 5 ==> s.pending == left)
      invariant s.commands == [] && s.calls.Keys == {} && s.lifecycle.None? && (i > 0 ==> s.created)
      invariant !s.isShutdown && !s.shutdownRequested && !s.threadTerminated && !s.startError
    {
      es, s := ThreadStep(w, es, s, i != 4 || left);
    }
  }

  function StartPath<V>(): seq<ThreadPc<V>> {
    [CreateJvm, SetRunLoop, CreateSource, AddSource, Connect, SignalStart, Fetch(Startup)]
  }

  lemma Begun<J, V>(w: World<J, V>) returns (es: seq<Event>, s: State<J, V>)
    ensures Reaches(w, es, s) && s == Initial(w)
  {
    es, s := [], Initial(w);
  }

  /** Construction can fail although the JVM has been created, and then with no error: the run loop fails to start, and
      the JVM thread has stored isShutdown before the initialiser, already signalled, looks. */
  lemma FailsWithoutError<J, V>(w: World<J, V>)
    ensures exists es, s :: Reaches(w, es, s) && s.init == FailedWith(false)
  {
    hide Reaches;
    var es, s := Started(w, false);
    es, s := LoopFails(w, es, s);
    es, s := InitStep(w, es, s);
  }

  /** A close call can come back while the JVM thread is still taking the JVM down: the run loop has failed, isShutdown
      is stored first, and the closer asks for no more. */
  lemma CloseReturnsBeforeTheEnd<J, V>(w: World<J, V>)
    requires w.kind(0).Close?
    ensures exists es, s :: Reaches(w, es, s) && s.created && s.thread.ExitRemove? && At(s, 0, Refused)
  {
    hide Reaches;
    var es, s := Started(w, false);
    es, s := InitStep(w, es, s);
    es, s := LoopFails(w, es, s);
    es, s := CloserRefused(w, es, s, 0);
  }

  lemma CloserRefused<J, V>(w: World<J, V>, es: seq<Event>, s: State<J, V>, id: nat)
    returns (es': seq<Event>, s': State<J, V>)
    requires Reaches(w, es, s) && s.init.Succeeded? && id !in s.calls && s.isShutdown && s.lifecycle.None?
    requires w.kind(id).Close?
    ensures Reaches(w, es', s') && s'.thread == s.thread && s'.created == s.created && At(s', id, Refused)
  {
    hide Reaches;
    es', s' := Beginning(w, es, s, id);
    for i := 0 to 3
      invariant Reaches(w, es', s') && id in s'.calls && s'.isShutdown
      invariant s'.thread == s.thread && s'.created == s.created
      invariant s'.calls[id].pc == [Start, InLifecycle, Leaving(false), Refused][i]
      invariant i == 0 ==> s'.lifecycle.None?
    {
      es', s' := CallStep(w, es', s', id);
    }
  }

  lemma LoopFails<J, V>(w: World<J, V>, es: seq<Event>, s: State<J, V>) returns (es': seq<Event>, s': State<J, V>)
    requires Reaches(w, es, s) && s.thread == Fetch(Startup) && s.commands == [] && s.calls.Keys == {}
    requires !s.isShutdown && !s.shutdownRequested && !s.threadTerminated
    ensures Reaches(w, es', s') && s'.thread.ExitRemove? && s'.isShutdown && s'.calls.Keys == {}
    ensures s'.init == s.init && s'.startSem == s.startSem && s'.startError == s.startError && s'.created == s.created
    ensures s'.lifecycle == s.lifecycle
  {
    hide Reaches;
    es', s' := es, s;
    for i := 0 to 6
      invariant Reaches(w, es', s') && s'.thread == FailingPath<V>()[i] && s'.commands == [] && s'.calls.Keys == {}
      invariant s'.init == s.init && s'.startSem == s.startSem && s'.startError == s.startError
      invariant s'.created == s.created
      invariant s'.lifecycle == s.lifecycle && !s'.shutdownRequested
      invariant (s'.threadTerminated <==> i >= 3) && (s'.isShutdown <==> i == 6)
    {
      es', s' := ThreadStep(w, es', s', i != 2);
    }
  }

  /** A drain, the loop test, a run loop that does not start, another drain, the loop test, and out. */
  function FailingPath<V>(): seq<ThreadPc<V>> {
    [Fetch(Startup), LoopTest, RunMode, Fetch(AfterRun), LoopTest, ExitShutdown, ExitRemove]
  }

  /** The first block can begin with a Java exception pending: what printMethods leaves behind is cleared only after
      that block. */
  lemma FirstBlockCanStartDirty<J, V>(w: World<J, V>)
    ensures exists es, s :: Reaches(w, es, s) && s.thread == Begin(Startup, 0) && s.pending
  {
    hide Reaches;
    var es, s := Started(w, true);
    es, s := InitStep(w, es, s);
    es, s := CallToAppend(w, es, s, 0);
    es, s := CallStep(w, es, s, 0);
    es, s := ThreadStep(w, es, s, true);
  }

  /** Where the initialiser stands, and call 1 if it has begun. */
  ghost function Bystanders<J, V>(s: State<J, V>): (InitPc, Option<CallPc>) {
    (s.init, if 1 in s.calls then Some(s.calls[1].pc) else None)
  }

  /** A step of the JVM thread leaves them alone. */
  lemma StepBeside<J, V>(w: World<J, V>, es: seq<Event>, s: State<J, V>) returns (es': seq<Event>, s': State<J, V>)
    requires Reaches(w, es, s) && CanRun(s.thread, s.wake, true)
    ensures Reaches(w, es', s') && s'.thread == NextPc(w, s, true) && Bystanders(s') == Bystanders(s)
    ensures s'.commands == if s.thread.Fetch? && s.commands != [] then s.commands[1..] else s.commands
    ensures s'.shutdownRequested <==> s.shutdownRequested || (s.thread.Running? && w.kind(s.thread.cmd).Close?)
    ensures s'.isShutdown <==> s.isShutdown || s.thread.FailShutdown? || s.thread.ExitShutdown?
    ensures s'.threadTerminated == s.threadTerminated
  {
    hide Reaches;
    es', s' := ThreadStep(w, es, s, true);
  }

  /** The poison pill of close call 0 runs, and the JVM thread leaves its main loop. */
  lemma PillToEnd<J, V>(w: World<J, V>, es: seq<Event>, s: State<J, V>) returns (es': seq<Event>, s': State<J, V>)
    requires Reaches(w, es, s) && w.kind(0).Close? && s.thread == Fetch(Startup) && s.commands == [0]
    requires !s.threadTerminated
    ensures Reaches(w, es', s') && s'.thread == ExitShutdown && s'.commands == [] && Bystanders(s') == Bystanders(s)
    ensures !s'.threadTerminated
  {
    hide Reaches, Bystanders;
    es', s' := es, s;
    for i := 0 to 7
      invariant Reaches(w, es', s') && s'.thread == PillPath(w)[i] && s'.commands == (if i == 0 then [0] else [])
      invariant Bystanders(s') == Bystanders(s) && !s'.threadTerminated && (i >= 3 ==> s'.shutdownRequested)
    {
      es', s' := StepBeside(w, es', s');
    }
  }

  /** The pill is removed and runs, the queue is empty, the loop test fails. */
  function PillPath<J, V>(w: World<J, V>): seq<ThreadPc<V>> {
    var ctx := Startup;
    [Fetch(ctx), Begin(ctx, 0), Running(ctx, 0), Finally(ctx, 0, Some(w.zero)), Clear(ctx), Fetch(ctx), LoopTest,
     ExitShutdown]
  }

  /** The way of the JVM thread from its main loop to its end. */
  function ExitPath<V>(): seq<ThreadPc<V>> {
    [ExitShutdown, ExitRemove, ExitSource, ExitLoop, ExitDestroy, ExitSignal, Ended]
  }

  lemma ExitToEnd<J, V>(w: World<J, V>, es: seq<Event>, s: State<J, V>) returns (es': seq<Event>, s': State<J, V>)
    requires Reaches(w, es, s) && s.thread == ExitShutdown && s.commands == [] && !s.threadTerminated
    ensures Reaches(w, es', s') && s'.thread == Ended && s'.commands == [] && Bystanders(s') == Bystanders(s)
    ensures !s'.threadTerminated && s'.isShutdown
  {
    hide Reaches, Bystanders;
    es', s' := es, s;
    for i := 0 to 6
      invariant Reaches(w, es', s') && s'.thread == ExitPath<V>()[i] && s'.commands == []
      invariant Bystanders(s') == Bystanders(s) && !s'.threadTerminated && (i > 0 ==> s'.isShutdown)
    {
      es', s' := StepBeside(w, es', s');
    }
  }

  /** The JVM thread has been closed by call 0, in a run in which its run loop never failed. `before`: call 1 has begun
      before that, and stands before its append. */
  lemma ClosedBeside<J, V>(w: World<J, V>, before: bool) returns (es: seq<Event>, s: State<J, V>)
    requires w.kind(0).Close? && !w.kind(1).Close?
    ensures Reaches(w, es, s) && s.thread.Ended? && s.commands == [] && !s.threadTerminated && s.isShutdown
    ensures Bystanders(s) == (Succeeded, if before then Some(BeforeAppend) else None)
  {
    hide Reaches;
    es, s := Started(w, false);
    es, s := InitStep(w, es, s);
    if before {
      es, s := CallToAppend(w, es, s, 1);
    }
    es, s := CallToAppend(w, es, s, 0);
    es, s := CallStep(w, es, s, 0);
    es, s := PillToEnd(w, es, s);
    es, s := ExitToEnd(w, es, s);
  }

  /** A caller can be left behind although the run loop never fails: it has seen isShutdown clear, and appends after the
      JVM thread has ended. */
  lemma CallerCanBeLeftBehind<J, V>(w: World<J, V>)
    requires w.kind(0).Close? && w.kind(1).Sync?
    ensures exists es, s :: Reaches(w, es, s) && s.thread.Ended? && !s.threadTerminated && s.commands == [1]
  {
    hide Reaches;
    var es, s := ClosedBeside(w, true);
    es, s := CallStep(w, es, s, 1);
  }

  /** callJvmAsyncVoid without a completion, which is how a channel is closed, calls nil once the JVM is closed. */
  lemma NilCompletionIsCalled<J, V>(w: World<J, V>)
    requires w.kind(0).Close? && w.kind(1) == AsyncVoid(false)
    ensures exists es, s :: Reaches(w, es, s) && !s.threadTerminated && 1 in s.calls && s.calls[1].nilCalled
  {
    hide Reaches;
    var es, s := ClosedBeside(w, false);
    es, s := Beginning(w, es, s, 1);
    es, s := CallStep(w, es, s, 1);
  }
}
