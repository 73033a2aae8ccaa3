/**
 `EJJvm` itself: its properties as fields, its methods as code.

 Between any two atomic pieces of a method the other threads take steps; which ones is given by a schedule, a
 sequence of lists of events, of which each such point consumes the first list. `Valid` says that what has
 happened to the object so far is a run of the step machine in module Executor; every method keeps it, so each
 theorem about runs holds of the object between any two statements.
 */
module EmbeddedJvm {
  import opened Wrappers
  import opened Executor
  import opened ExecutorInvariant
  import opened ExecutorTheorems
  import opened ExecutorSteps

  type Schedule = seq<seq<Event>>

  /** The number of events in a schedule. */
  function Size(others: Schedule): nat {
    if others == [] then 0 else |others[0]| + Size(others[1..])
  }

  /** The events of a schedule are steps of other threads than `me`; `None` is the JVM thread. */
  ghost predicate Foreign(others: Schedule, me: Option<nat>) {
    forall k :: 0 <= k < |others| ==> ForeignEvents(others[k], me)
  }

  ghost predicate ForeignEvents(es: seq<Event>, me: Option<nat>) {
    forall i :: 0 <= i < |es| ==> ForeignEvent(es[i], me)
  }

  ghost predicate ForeignEvent(e: Event, me: Option<nat>) {
    if me.None? then !e.Thread? else e != Advance(me.value)
  }

  /** What a step of another thread leaves to the thread `me`: its place, and for the JVM thread the head of the
      queue and everything but at most one append. */
  ghost predicate Left<J, V>(s: State<J, V>, s': State<J, V>, me: Option<nat>, steps: nat) {
    && (s.isShutdown ==> s'.isShutdown)
    && match me
       case None =>
         && s'.thread == s.thread && s'.decided == s.decided
         && s.commands <= s'.commands && |s'.commands| <= |s.commands| + steps
       case Some(id) =>
         id in s.calls ==>
           id in s'.calls && s'.calls[id].pc == s.calls[id].pc && s'.calls[id].announced == s.calls[id].announced
  }

  lemma ForeignStepLeaves<J, V>(w: World<J, V>, s: State<J, V>, e: Event, me: Option<nat>)
    requires Enabled(w, s, e) && ForeignEvent(e, me)
    ensures Left(s, Apply(w, s, e), me, 1)
  {
    match e
    case Advance(id) => assert Left(s, AdvanceCall(w, s, id), me, 1);
    case Complete(id) => assert Left(s, RunCompletion(w, s, id), me, 1);
    case Thread(choice) => assert Left(s, RunThread(w, s, choice), me, 1);
    case _ =>
  }

  /** The two states agree on the properties of the object. */
  ghost predicate SameProperties<J, V>(s: State<J, V>, t: State<J, V>) {
    && s.commands == t.commands && s.shutdownRequested == t.shutdownRequested && s.isShutdown == t.isShutdown
    && s.startError == t.startError && s.runLoop == t.runLoop && s.runLoopSource == t.runLoopSource
    && s.startSem == t.startSem && s.endSem == t.endSem && s.lifecycle == t.lifecycle && s.jvm == t.jvm
  }

  lemma LeftAtFirst<J, V>(s: State<J, V>, me: Option<nat>)
    ensures Left(s, s, me, 0)
  {
  }

  lemma LeftFurther<J, V>(s: State<J, V>, before: State<J, V>, after: State<J, V>, me: Option<nat>, steps: nat)
    requires Left(s, before, me, steps) && Left(before, after, me, 1)
    ensures Left(s, after, me, steps + 1)
  {
  }

  lemma OwnFields<J, V>(s: State<J, V>)
    ensures s.(commands := s.commands, shutdownRequested := s.shutdownRequested, isShutdown := s.isShutdown,
               startError := s.startError, runLoop := s.runLoop, runLoopSource := s.runLoopSource,
               startSem := s.startSem, endSem := s.endSem, lifecycle := s.lifecycle, jvm := s.jvm) == s
  {
  }

  class EJJvm<J, V> {
    const w: World<J, V>

    // the properties of the object
    var commands: seq<nat>
    var shutdownRequested: bool
    var isShutdown: bool
    var startError: bool
    var runLoop: bool
    var runLoopSource: bool
    var mainThreadStartSignal: nat
    var mainThreadEndSignal: nat
    var lifecycleQueue: Option<nat>
    var jvm: J

    /** What lies around the object: the run-loop source, the local state of the calls, where the threads stand,
        and the history. Its copies of the fields above mean nothing. */
    var around: State<J, V>

    ghost var trace: seq<Event>

    /** The turns that the other threads have had. */
    ghost var passed: Schedule

    function State(): State<J, V>
      reads `commands, `shutdownRequested, `isShutdown, `startError, `runLoop, `runLoopSource
      reads `mainThreadStartSignal, `mainThreadEndSignal, `lifecycleQueue, `jvm, `around
    {
      around.(commands := commands, shutdownRequested := shutdownRequested, isShutdown := isShutdown,
              startError := startError, runLoop := runLoop, runLoopSource := runLoopSource,
              startSem := mainThreadStartSignal, endSem := mainThreadEndSignal, lifecycle := lifecycleQueue,
              jvm := jvm)
    }

    /** The object is where a run of the step machine leads. */
    ghost predicate Valid()
      reads this
    {
      Reaches(w, trace, State()) && Passed(w, trace, passed)
    }

    /** Exactly the step `e` has happened: with `Valid` this fixes the new state. */
    twostate predicate Did(e: Event)
      reads this
    {
      trace == old(trace) + [e] && passed == old(passed) && Valid()
    }

    constructor (w: World<J, V>)
      ensures Valid() && State() == Initial(w) && this.w == w && trace == [] && passed == []
    {
      this.w := w;
      commands, shutdownRequested, isShutdown, startError := [], false, false, false;
      runLoop, runLoopSource := false, false;
      mainThreadStartSignal, mainThreadEndSignal, lifecycleQueue, jvm := 0, 0, None, w.jvm;
      around, trace, passed := Initial(w), [], [];
    }

    // ---------- the other threads

    method Load(s: State<J, V>)
      modifies this
      ensures State() == s && trace == old(trace) && passed == old(passed)
    {
      around := s;
      LoadQueues(s);
      LoadFlags(s);
      OwnFields(s);
    }

    method LoadQueues(s: State<J, V>)
      modifies `commands, `jvm, `mainThreadStartSignal, `mainThreadEndSignal, `lifecycleQueue
      ensures commands == s.commands && jvm == s.jvm
      ensures mainThreadStartSignal == s.startSem && mainThreadEndSignal == s.endSem && lifecycleQueue == s.lifecycle
    {
      commands, jvm := s.commands, s.jvm;
      mainThreadStartSignal, mainThreadEndSignal, lifecycleQueue := s.startSem, s.endSem, s.lifecycle;
    }

    method LoadFlags(s: State<J, V>)
      modifies `shutdownRequested, `isShutdown, `startError, `runLoop, `runLoopSource
      ensures shutdownRequested == s.shutdownRequested && isShutdown == s.isShutdown && startError == s.startError
      ensures runLoop == s.runLoop && runLoopSource == s.runLoopSource
    {
      shutdownRequested, isShutdown, startError := s.shutdownRequested, s.isShutdown, s.startError;
      runLoop, runLoopSource := s.runLoop, s.runLoopSource;
    }

    /** The other threads have a turn: of the first list that the schedule has for them they take every step that is
        possible when its turn comes. */
    method Yield(others: Schedule, ghost me: Option<nat>) returns (rest: Schedule)
      requires Valid() && Foreign(others, me)
      modifies this
      ensures Valid() && Foreign(rest, me)
      ensures rest == if others == [] then [] else others[1..]
      ensures State() == if others == [] then old(State()) else After(w, old(State()), others[0])
      ensures passed + rest == old(passed) + others
      ensures me.None? ==> around.thread == old(around.thread) && old(commands) <= commands
      ensures me.None? ==> |commands| - |old(commands)| <= Size(others) - Size(rest)
      ensures me.None? ==> around.decided == old(around.decided)
      ensures old(isShutdown) ==> isShutdown
      ensures me.Some? && me.value in old(around.calls) ==>
                me.value in around.calls && around.calls[me.value].pc == old(around.calls[me.value].pc)
                && around.calls[me.value].announced == old(around.calls[me.value].announced)
    {
      hide Passed, After;
      if others == [] {
        return others;
      }
      rest := others[1..];
      TakeTurn(others[0], me);
      assert others == [others[0]] + rest;
    }

    method TakeTurn(es: seq<Event>, ghost me: Option<nat>)
      requires Valid() && ForeignEvents(es, me)
      modifies this
      ensures Valid() && Left(old(State()), State(), me, |es|)
      ensures State() == After(w, old(State()), es) && passed == old(passed) + [es]
    {
      hide Reaches, Passed, After, Taken, Apply, Enabled, Left;
      LeftAtFirst(State(), me);
      NoTurn(w, State());
      assert es[..0] == [];
      for i := 0 to |es|
        invariant Reaches(w, trace, State()) && trace == old(trace) + Taken(w, old(State()), es[..i])
        invariant State() == After(w, old(State()), es[..i]) && passed == old(passed)
        invariant Left(old(State()), State(), me, i)
      {
        TurnStep(w, old(State()), es, i);
        ghost var before := State();
        TakeOrSkip(es[i], me);
        LeftFurther(old(State()), before, State(), me, i);
      }
      assert es[..|es|] == es;
      PassedTurn(w, old(trace), old(State()), old(passed), es);
      passed := passed + [es];
    }

    method TakeOrSkip(e: Event, ghost me: Option<nat>)
      requires Reaches(w, trace, State()) && ForeignEvent(e, me)
      modifies this
      ensures Reaches(w, trace, State()) && passed == old(passed) && Left(old(State()), State(), me, 1)
      ensures if Enabled(w, old(State()), e) then State() == Apply(w, old(State()), e) && trace == old(trace) + [e]
              else State() == old(State()) && trace == old(trace)
    {
      hide Reaches, Apply, Enabled;
      if Enabled(w, State(), e) {
        ForeignStepLeaves(w, State(), e, me);
        Extend(w, trace, State(), e);
        trace := trace + [e];
        Load(Apply(w, State(), e));
      }
    }

    /** A step of the JVM thread, and one of a call, that writes none of the properties of the object: `after` is the
        state it leaves. */
    method RunTo(ghost choice: bool, after: State<J, V>)
      requires Valid() && CanRun(around.thread, around.wake, choice) && after == RunThread(w, State(), choice)
      requires SameProperties(State(), after)
      modifies `around, `trace
      ensures Did(Thread(choice)) && State() == after && around == after
    {
      hide Reaches, Passed, After, RunThread, CanRun;
      RunStep(w, trace, passed, State(), choice);
      trace := trace + [Thread(choice)];
      around := after;
      OwnFields(after);
    }

    method AdvanceTo(id: nat, after: State<J, V>)
      requires Valid() && CanAdvance(w, State(), id) && after == AdvanceCall(w, State(), id)
      requires SameProperties(State(), after)
      modifies `around, `trace
      ensures Did(Advance(id)) && State() == after && around == after
    {
      hide Reaches, Passed, After, AdvanceCall, CanAdvance;
      CallStep(w, trace, passed, State(), id);
      trace := trace + [Advance(id)];
      around := after;
      OwnFields(after);
    }

    // ---------- doCommand, one atomic piece after the other

    /** The critical section: remove the first command, if there is one. */
    method TakeCommand(ctx: Context) returns (command: Option<nat>)
      requires Valid() && around.thread == Fetch(ctx)
      modifies this
      ensures Did(Thread(true))
      ensures around.decided == old(around.decided)
      ensures old(commands) == [] ==> command == None && commands == []
      ensures old(commands) == [] ==> around.thread == AfterDoCommand(ctx) && around.drained == |around.appended|
      ensures old(commands) != [] ==> command == Some(old(commands)[0]) && commands == old(commands)[1..]
      ensures old(commands) != [] ==> around.thread == Begin(ctx, old(commands)[0])
    {
      if |commands| > 0 {
        command := Some(commands[0]);
        RemoveFirst(ctx);
      } else {
        command := None;
        SeeEmpty(ctx);
      }
    }

    method RemoveFirst(ctx: Context)
      requires Valid() && around.thread == Fetch(ctx) && commands != []
      modifies `commands, `around, `trace
      ensures Did(Thread(true))
      ensures around.decided == old(around.decided)
      ensures commands == old(commands)[1..] && around.thread == Begin(ctx, old(commands)[0])
    {
      hide Reaches, Passed, After, RunThread, CanRun;
      RemoveWrites(w, State(), ctx);
      RunStep(w, trace, passed, State(), true);
      trace := trace + [Thread(true)];
      around := around.(thread := Begin(ctx, commands[0]));
      commands := commands[1..];
    }

    method SeeEmpty(ctx: Context)
      requires Valid() && around.thread == Fetch(ctx) && commands == []
      modifies `around, `trace
      ensures Did(Thread(true)) && commands == []
      ensures around.decided == old(around.decided)
      ensures around.thread == AfterDoCommand(ctx) && around.drained == |around.appended|
    {
      hide Reaches, Passed, After, RunThread, CanRun;
      EmptyWrites(w, State(), ctx);
      var after := State().(thread := AfterDoCommand(ctx), drained := |around.appended|);
      RunTo(true, after);
    }

    method EnterBlock(ctx: Context, cmd: nat)
      requires Valid() && around.thread == Begin(ctx, cmd)
      modifies `around, `trace
      ensures Did(Thread(true)) && around.thread == Running(ctx, cmd) && commands == old(commands)
      ensures around.decided == old(around.decided)
    {
      hide Reaches, Passed, After, RunThread, CanRun;
      EnterWrites(w, State(), ctx, cmd);
      var after := State().(thread := Running(ctx, cmd));
      RunTo(true, after);
    }

    /** The block runs to its end: the user's, or the poison pill. */
    method RunBlock(ctx: Context, cmd: nat) returns (result: Option<V>)
      requires Valid() && around.thread == Running(ctx, cmd) && cmd in around.calls
      modifies this
      ensures Did(Thread(true)) && around.thread == Finally(ctx, cmd, result) && commands == old(commands)
      ensures around.decided == old(around.decided)
      ensures w.kind(cmd).Close? ==> shutdownRequested && jvm == old(jvm)
      ensures !w.kind(cmd).Close? ==>
                jvm == w.body(cmd, old(jvm)).state && result == w.body(cmd, old(jvm)).result
                && shutdownRequested == old(shutdownRequested)
    {
      if w.kind(cmd).Close? {
        RunPill(ctx, cmd);
        result := Some(w.zero);
      } else {
        result := RunUserBlock(ctx, cmd);
      }
    }

    method RunPill(ctx: Context, cmd: nat)
      requires Valid() && around.thread == Running(ctx, cmd) && cmd in around.calls && w.kind(cmd).Close?
      modifies `shutdownRequested, `around, `trace
      ensures Did(Thread(true)) && around.thread == Finally(ctx, cmd, Some(w.zero)) && commands == old(commands)
      ensures around.decided == old(around.decided)
      ensures shutdownRequested && jvm == old(jvm)
    {
      hide Reaches, Passed, After, RunThread, CanRun;
      PillWrites(w, State(), ctx, cmd);
      RunStep(w, trace, passed, State(), true);
      trace := trace + [Thread(true)];
      shutdownRequested := true;
      around := around.(done := around.done + [cmd], thread := Finally(ctx, cmd, Some(w.zero)));
    }

    /** A user block; a sync one stores what it returns, and nothing if it throws. */
    method RunUserBlock(ctx: Context, cmd: nat) returns (result: Option<V>)
      requires Valid() && around.thread == Running(ctx, cmd) && cmd in around.calls && !w.kind(cmd).Close?
      modifies `jvm, `around, `trace
      ensures Did(Thread(true)) && around.thread == Finally(ctx, cmd, result) && commands == old(commands)
      ensures around.decided == old(around.decided)
      ensures jvm == w.body(cmd, old(jvm)).state && result == w.body(cmd, old(jvm)).result
      ensures shutdownRequested == old(shutdownRequested)
    {
      hide Reaches, Passed, After, RunThread, CanRun;
      var out := w.body(cmd, jvm);
      UserBlockWrites(w, State(), ctx, cmd, out);
      RunStep(w, trace, passed, State(), true);
      trace := trace + [Thread(true)];
      jvm := out.state;
      result := out.result;
      around := around.(calls := around.calls[cmd := StoreResult(w.kind(cmd), around.calls[cmd], result)],
                        done := around.done + [cmd], thread := Finally(ctx, cmd, result), pending := out.pending);
    }

    /** The end of the wrapper around the block: post the semaphore, or dispatch the completion. */
    method EndWrapper(ctx: Context, cmd: nat, result: Option<V>)
      requires Valid() && around.thread == Finally(ctx, cmd, result) && cmd in around.calls
      modifies `around, `trace
      ensures Did(Thread(true)) && around.thread == Clear(ctx) && commands == old(commands)
      ensures around.decided == old(around.decided)
    {
      hide Reaches, Passed, After, RunThread, CanRun;
      WrapperWrites(w, State(), ctx, cmd, result);
      var after := State().(calls := around.calls[cmd := Post(w.kind(cmd), around.calls[cmd], result)],
                        thread := Clear(ctx));
      RunTo(true, after);
    }

    method ClearException(ctx: Context)
      requires Valid() && around.thread == Clear(ctx)
      modifies `around, `trace
      ensures Did(Thread(true)) && around.thread == Fetch(ctx) && commands == old(commands) && !around.pending
      ensures around.decided == old(around.decided)
    {
      hide Reaches, Passed, After, RunThread, CanRun;
      ClearWrites(w, State(), ctx);
      var pending := around.pending;
      if pending {
        pending := false;
      }
      var after := State().(pending := pending, thread := Fetch(ctx));
      RunTo(true, after);
    }

    /** Run commands until the queue is seen empty. It ends because the schedule bounds the appends. */
    method DoCommand(ctx: Context, others: Schedule) returns (rest: Schedule)
      requires Valid() && around.thread == Fetch(ctx) && Foreign(others, None)
      modifies this
      ensures Valid() && Foreign(rest, None) && Size(rest) <= Size(others)
      ensures passed + rest == old(passed) + others
      ensures around.decided == old(around.decided)
      ensures around.thread == AfterDoCommand(ctx)
      ensures commands == [] && around.drained == |around.appended| && around.done == around.appended
    {
      hide Reaches, Passed, After;
      rest := others;
      var finished := false;
      while !finished
        invariant Valid() && Foreign(rest, None) && Size(rest) <= Size(others)
        invariant passed + rest == old(passed) + others
        invariant around.thread == if finished then AfterDoCommand(ctx) else Fetch(ctx)
        invariant around.decided == old(around.decided)
        invariant finished ==> commands == [] && around.drained == |around.appended|
        decreases Size(rest) + |commands|, !finished
      {
        rest := Yield(rest, None);
        var command := TakeCommand(ctx);
        if command.None? {
          finished := true;
        } else {
          ReachableInv(w, trace, State());
          InHandIsNew(State(), command.value);
          rest := RunCommand(ctx, command.value, rest);
        }
      }
      ReachableInv(w, trace, State());
    }

    /** One round of doCommand after the critical section. */
    method RunCommand(ctx: Context, cmd: nat, others: Schedule) returns (rest: Schedule)
      requires Valid() && around.thread == Begin(ctx, cmd) && Foreign(others, None) && cmd in around.calls
      modifies this
      ensures Valid() && Foreign(rest, None) && around.thread == Fetch(ctx)
      ensures passed + rest == old(passed) + others
      ensures around.decided == old(around.decided)
      ensures Size(rest) <= Size(others) && Size(rest) + |commands| <= Size(others) + |old(commands)|
    {
      hide Reaches, Passed, After;
      rest := Yield(others, None);
      EnterBlock(ctx, cmd);
      rest := Yield(rest, None);
      ReachableInv(w, trace, State());
      InHandIsNew(State(), cmd);
      var result := RunBlock(ctx, cmd);
      rest := Yield(rest, None);
      ReachableInv(w, trace, State());
      FinishedIsCall(w, State());
      EndWrapper(ctx, cmd, result);
      rest := Yield(rest, None);
      ClearException(ctx);
    }

    // ---------- mainThreadLoop

    /** JNI_CreateJavaVM, which succeeds or does not. */
    method CreateJvm(ok: bool)
      requires Valid() && around.thread.CreateJvm?
      modifies `around, `trace
      ensures Did(Thread(ok)) && commands == old(commands)
      ensures around.decided == old(around.decided)
      ensures around.thread == if ok then SetRunLoop else FailShutdown
      ensures around.created == (old(around.created) || ok)
    {
      hide Reaches, Passed, After, RunThread, CanRun;
      var created, next := around.created || ok, if ok then SetRunLoop else FailShutdown;
      CreateWrites(w, State(), ok, created, next);
      var after := State().(created := created, thread := next);
      RunTo(ok, after);
    }

    /** connectNativeOutput and printMethods; `left`: the latter leaves an exception pending. */
    method ConnectNativeOutput(left: bool)
      requires Valid() && around.thread.Connect?
      modifies `around, `trace
      ensures Did(Thread(left)) && commands == old(commands)
      ensures around.decided == old(around.decided)
      ensures around.thread.SignalStart? && around.pending == left
    {
      hide Reaches, Passed, After, RunThread, CanRun;
      var s := State();
      ConnectWrites(w, s, left);
      RunTo(left, s.(pending := left, printPending := left, thread := SignalStart));
    }

    /** The condition of the main loop. */
    method TestLoop() returns (onward: bool)
      requires Valid() && around.thread.LoopTest?
      modifies `around, `trace
      ensures Did(Thread(true)) && commands == old(commands)
      ensures around.decided == old(around.decided)
      ensures onward == (!old(around.threadTerminated) && !old(shutdownRequested))
      ensures around.thread == if onward then RunMode else ExitShutdown
    {
      hide Reaches, Passed, After, RunThread, CanRun;
      onward := !around.threadTerminated && !shutdownRequested;
      var next := if onward then RunMode else ExitShutdown;
      TestWrites(w, State(), next);
      var after := State().(thread := next);
      RunTo(true, after);
    }

    /** `runMode:beforeDate:` is entered; if the run loop does not start, the thread will leave its main loop. */
    method EnterRunLoop(starts: bool)
      requires Valid() && around.thread.RunMode?
      modifies `around, `trace
      ensures Did(Thread(starts)) && commands == old(commands) && around.decided == old(around.decided) + [starts]
      ensures around.thread == if starts then CheckSource else Fetch(AfterRun)
      ensures around.threadTerminated == (old(around.threadTerminated) || !starts)
    {
      hide Reaches, Passed, After, RunThread, CanRun;
      var terminated, next := around.threadTerminated || !starts, if starts then CheckSource else Fetch(AfterRun);
      var decided := around.decided + [starts];
      RunModeWrites(w, State(), starts, terminated, decided, next);
      var after := State().(threadTerminated := terminated, decided := decided, thread := next);
      RunTo(starts, after);
    }

    /** The run loop tests its source, and clears it before it performs it. */
    method TestSource()
      requires Valid() && around.thread.CheckSource?
      modifies `around, `trace
      ensures Did(Thread(true)) && commands == old(commands)
      ensures around.decided == old(around.decided)
      ensures !around.signalled && around.thread == if old(around.signalled) then Fetch(Perform) else Asleep
    {
      hide Reaches, Passed, After, RunThread, CanRun;
      var next := if around.signalled then Fetch(Perform) else Asleep;
      CheckWrites(w, State(), next);
      var after := State().(signalled := false, thread := next);
      RunTo(true, after);
    }

    /** The run loop sleeps, until it is woken or the second is over. */
    method Sleep(woken: bool)
      requires Valid() && around.thread.Asleep? && (woken ==> around.wake)
      modifies `around, `trace
      ensures Did(Thread(woken)) && commands == old(commands) && around.decided == old(around.decided) + [woken]
      ensures around.thread == if woken then CheckSource else Fetch(AfterRun)
      ensures around.wake == (old(around.wake) && !woken)
    {
      hide Reaches, Passed, After, RunThread, CanRun;
      var wake, next := around.wake && !woken, if woken then CheckSource else Fetch(AfterRun);
      var decided := around.decided + [woken];
      SleepWrites(w, State(), woken, wake, decided, next);
      var after := State().(wake := wake, decided := decided, thread := next);
      RunTo(woken, after);
    }

    /** A pending exception is cleared, the thread detached, the JVM destroyed. */
    method DestroyJvm()
      requires Valid() && around.thread.ExitDestroy?
      modifies `around, `trace
      ensures Did(Thread(true)) && commands == old(commands)
      ensures around.decided == old(around.decided)
      ensures around.thread.ExitSignal?
    {
      hide Reaches, Passed, After, RunThread, CanRun;
      DestroyWrites(w, State());
      var after := State().(pending := false, thread := ExitSignal);
      RunTo(true, after);
    }

    method StoreIsShutdown(next: ThreadPc<V>)
      requires Valid() && StoresShutdown(around.thread, next)
      modifies `isShutdown, `around, `trace
      ensures Did(Thread(true)) && isShutdown
      ensures around.decided == old(around.decided)
      ensures around.thread == next
    {
      hide Reaches, Passed, After, RunThread, CanRun, StoresShutdown;
      ShutdownWrites(w, State(), next);
      RunStep(w, trace, passed, State(), true);
      trace := trace + [Thread(true)];
      around := around.(thread := next);
      isShutdown := true;
    }

    method StoreStartError()
      requires Valid() && around.thread.FailError?
      modifies `startError, `around, `trace
      ensures Did(Thread(true)) && startError && around.thread.FailSignal?
      ensures around.decided == old(around.decided)
    {
      hide Reaches, Passed, After, RunThread, CanRun;
      ErrorWrites(w, State());
      RunStep(w, trace, passed, State(), true);
      trace := trace + [Thread(true)];
      around := around.(thread := FailSignal);
      startError := true;
    }

    method PostStartSignal(next: ThreadPc<V>)
      requires Valid() && PostsStart(around.thread, next)
      modifies `mainThreadStartSignal, `around, `trace
      ensures Did(Thread(true)) && mainThreadStartSignal == old(mainThreadStartSignal) + 1
      ensures around.decided == old(around.decided)
      ensures around.thread == next
    {
      hide Reaches, Passed, After, RunThread, CanRun, PostsStart;
      StartSignalWrites(w, State(), next);
      RunStep(w, trace, passed, State(), true);
      trace := trace + [Thread(true)];
      around := around.(thread := next);
      mainThreadStartSignal := mainThreadStartSignal + 1;
    }

    /** The main loop stores the run loop, and so does the schedule callback when the source is added. */
    method StoreRunLoop(next: ThreadPc<V>)
      requires Valid() && StoresLoop(around.thread, next)
      modifies `runLoop, `around, `trace
      ensures Did(Thread(true)) && runLoop
      ensures around.decided == old(around.decided)
      ensures around.thread == next
    {
      hide Reaches, Passed, After, RunThread, CanRun, StoresLoop;
      SetLoopWrites(w, State(), next);
      RunStep(w, trace, passed, State(), true);
      trace := trace + [Thread(true)];
      around := around.(thread := next);
      runLoop := true;
    }

    /** The cancel callback clears the run loop when the source is removed; the main loop clears it again. */
    method ClearRunLoop(next: ThreadPc<V>)
      requires Valid() && ClearsLoop(around.thread, next)
      modifies `runLoop, `around, `trace
      ensures Did(Thread(true)) && !runLoop
      ensures around.decided == old(around.decided)
      ensures around.thread == next
    {
      hide Reaches, Passed, After, RunThread, CanRun, ClearsLoop;
      ClearLoopWrites(w, State(), next);
      RunStep(w, trace, passed, State(), true);
      trace := trace + [Thread(true)];
      around := around.(thread := next);
      runLoop := false;
    }

    method StoreSource()
      requires Valid() && (around.thread.CreateSource? || around.thread.ExitSource?)
      modifies `runLoopSource, `around, `trace
      ensures Did(Thread(true)) && runLoopSource == old(around.thread.CreateSource?)
      ensures around.decided == old(around.decided)
      ensures around.thread == if runLoopSource then AddSource else ExitLoop
    {
      hide Reaches, Passed, After, RunThread, CanRun;
      var create := around.thread.CreateSource?;
      SourceWrites(w, State(), create);
      RunStep(w, trace, passed, State(), true);
      trace := trace + [Thread(true)];
      around := around.(thread := if create then AddSource else ExitLoop);
      runLoopSource := create;
    }

    method PostEndSignal()
      requires Valid() && around.thread.ExitSignal?
      modifies `mainThreadEndSignal, `around, `trace
      ensures Did(Thread(true)) && mainThreadEndSignal == old(mainThreadEndSignal) + 1 && around.thread.Ended?
      ensures around.decided == old(around.decided)
    {
      hide Reaches, Passed, After, RunThread, CanRun;
      EndSignalWrites(w, State());
      RunStep(w, trace, passed, State(), true);
      trace := trace + [Thread(true)];
      around := around.(thread := Ended);
      mainThreadEndSignal := mainThreadEndSignal + 1;
    }

    /** Up to the start signal. `ok`: the JVM can be created; `leftPending`: printMethods leaves an exception. */
    method StartUp(ok: bool, leftPending: bool, others: Schedule) returns (rest: Schedule)
      requires Valid() && around.thread.CreateJvm? && Foreign(others, None)
      modifies this
      ensures Valid() && Foreign(rest, None)
      ensures passed + rest == old(passed) + others
      ensures around.decided == old(around.decided)
      ensures around.thread == if ok then Fetch(Startup) else FailedEnd
    {
      hide Reaches, Passed, After;
      CreateJvm(ok);
      if ok {
        rest := Install(leftPending, others);
      } else {
        rest := ReportFailure(others);
      }
    }

    /** createJvm has failed. */
    method ReportFailure(others: Schedule) returns (rest: Schedule)
      requires Valid() && around.thread.FailShutdown? && Foreign(others, None)
      modifies this
      ensures Valid() && Foreign(rest, None) && around.thread.FailedEnd?
      ensures passed + rest == old(passed) + others
      ensures around.decided == old(around.decided)
    {
      hide Reaches, Passed, After;
      rest := Yield(others, None);
      StoreIsShutdown(FailError);
      rest := Yield(rest, None);
      StoreStartError();
      rest := Yield(rest, None);
      PostStartSignal(FailedEnd);
    }

    /** The run loop and its source are installed, the output streams connected, and the initialiser released. */
    method Install(leftPending: bool, others: Schedule) returns (rest: Schedule)
      requires Valid() && around.thread.SetRunLoop? && Foreign(others, None)
      modifies this
      ensures Valid() && Foreign(rest, None) && around.thread == Fetch(Startup)
      ensures passed + rest == old(passed) + others
      ensures around.decided == old(around.decided)
    {
      hide Reaches, Passed, After;
      rest := InstallSource(others);
      ConnectNativeOutput(leftPending);
      rest := Yield(rest, None);
      PostStartSignal(Fetch(Startup));
    }

    method InstallSource(others: Schedule) returns (rest: Schedule)
      requires Valid() && around.thread.SetRunLoop? && Foreign(others, None)
      modifies this
      ensures Valid() && Foreign(rest, None) && around.thread.Connect?
      ensures passed + rest == old(passed) + others
      ensures around.decided == old(around.decided)
    {
      hide Reaches, Passed, After;
      rest := Yield(others, None);
      StoreRunLoop(CreateSource);
      rest := Yield(rest, None);
      StoreSource();
      rest := Yield(rest, None);
      StoreRunLoop(Connect);
      rest := Yield(rest, None);
    }

    /** The JVM thread has not come back from its run loop because there is nothing to go on with: the choices are used
        up, or the next one waits for a wakeup, none is pending, and the other threads have had all their turns. */
    predicate StillInRunLoop(more: seq<bool>, rest: Schedule)
      reads `around
    {
      around.thread.Asleep? && (more == [] || (more[0] && !around.wake && rest == []))
    }

    /** `runMode:beforeDate:` and the drain after it. `choices` says whether the run loop starts, and whether each sleep
        ends by a wakeup, as soon as one is pending, or by the timeout; `more` are those that have not been used. */
    method RunLoopPass(choices: seq<bool>, others: Schedule) returns (more: seq<bool>, rest: Schedule, back: bool)
      requires Valid() && around.thread.RunMode? && Foreign(others, None) && choices != []
      modifies this
      ensures Valid() && Foreign(rest, None) && |more| < |choices|
      ensures passed + rest == old(passed) + others && around.decided + more == old(around.decided) + choices
      ensures if back then around.thread.LoopTest? && commands == [] else StillInRunLoop(more, rest)
    {
      hide Reaches, Passed, After, StillInRunLoop;
      more := NextStart(choices);
      more, rest, back := InRunLoop(more, others);
      if back {
        rest := DoCommand(AfterRun, rest);
      }
    }

    /** The next choice says whether the run loop starts, and how a sleep ends. */
    method NextStart(choices: seq<bool>) returns (more: seq<bool>)
      requires Valid() && around.thread.RunMode? && choices != []
      modifies `around, `trace
      ensures Did(Thread(choices[0])) && more == choices[1..] && around.decided + more == old(around.decided) + choices
      ensures around.thread == if choices[0] then CheckSource else Fetch(AfterRun)
    {
      hide Reaches, Passed, After;
      EnterRunLoop(choices[0]);
      more := choices[1..];
      assert choices == [choices[0]] + more;
    }

    method NextSleep(choices: seq<bool>) returns (more: seq<bool>)
      requires Valid() && around.thread.Asleep? && choices != [] && (choices[0] ==> around.wake)
      modifies `around, `trace
      ensures Did(Thread(choices[0])) && more == choices[1..] && around.decided + more == old(around.decided) + choices
      ensures around.thread == if choices[0] then CheckSource else Fetch(AfterRun)
    {
      hide Reaches, Passed, After;
      Sleep(choices[0]);
      more := choices[1..];
      assert choices == [choices[0]] + more;
    }

    /** Inside the run loop: perform the source if it is signalled, otherwise sleep until woken or timed out. */
    method InRunLoop(choices: seq<bool>, others: Schedule) returns (more: seq<bool>, rest: Schedule, back: bool)
      requires Valid() && Foreign(others, None)
      requires around.thread.CheckSource? || around.thread == Fetch(AfterRun)
      modifies this
      ensures Valid() && Foreign(rest, None) && |more| <= |choices|
      ensures passed + rest == old(passed) + others && around.decided + more == old(around.decided) + choices
      ensures if back then around.thread == Fetch(AfterRun) else StillInRunLoop(more, rest)
    {
      hide Reaches, Passed, After;
      more, rest, back := choices, others, true;
      while around.thread.CheckSource? || around.thread.Asleep?
        invariant Valid() && Foreign(rest, None) && |more| <= |choices| && back
        invariant passed + rest == old(passed) + others && around.decided + more == old(around.decided) + choices
        invariant around.thread.CheckSource? || around.thread.Asleep? || around.thread == Fetch(AfterRun)
        decreases |more|, around.thread.CheckSource?, |rest|
      {
        var nobody := rest == [];
        rest := Yield(rest, None);
        if around.thread.CheckSource? {
          TestSource();
          if around.thread == Fetch(Perform) {
            rest := DoCommand(Perform, rest);
          }
        } else if more == [] || (more[0] && !around.wake && nobody) {
          return more, rest, false;
        } else if !more[0] || around.wake {
          more := NextSleep(more);
        }
      }
    }

    /** After the main loop. */
    method ShutDown(others: Schedule) returns (rest: Schedule)
      requires Valid() && around.thread.ExitShutdown? && Foreign(others, None)
      modifies this
      ensures Valid() && Foreign(rest, None) && around.thread.Ended?
      ensures passed + rest == old(passed) + others
      ensures around.decided == old(around.decided)
    {
      hide Reaches, Passed, After;
      StoreIsShutdown(ExitRemove);
      rest := Yield(others, None);
      ClearRunLoop(ExitSource);
      rest := Yield(rest, None);
      StoreSource();
      rest := Yield(rest, None);
      rest := Destroy(rest);
    }

    method Destroy(others: Schedule) returns (rest: Schedule)
      requires Valid() && around.thread.ExitLoop? && Foreign(others, None)
      modifies this
      ensures Valid() && Foreign(rest, None) && around.thread.Ended?
      ensures passed + rest == old(passed) + others
      ensures around.decided == old(around.decided)
    {
      hide Reaches, Passed, After;
      ClearRunLoop(ExitDestroy);
      rest := Yield(others, None);
      DestroyJvm();
      rest := Yield(rest, None);
      PostEndSignal();
    }

    /** From the end of the main loop to the end of the thread, and what has run by then. */
    method Finish(others: Schedule) returns (rest: Schedule)
      requires Valid() && around.thread.ExitShutdown? && Foreign(others, None)
      modifies this
      ensures Valid() && around.thread.Ended? && isShutdown && mainThreadEndSignal + Count(around.endTaken) == 1
      ensures passed + rest == old(passed) + others && around.decided == old(around.decided)
      ensures around.drained <= |around.appended| && around.done == around.appended[..around.drained]
      ensures commands == around.appended[around.drained..]
      ensures !around.threadTerminated ==> exists id :: id in around.done && w.kind(id).Close?
    {
      hide Reaches, Passed, After;
      rest := ShutDown(others);
      ReachableInv(w, trace, State());
      LeftUnrun(w, trace, State());
    }

    /** The whole life of the JVM thread, or as much of it as there are choices and turns of other threads for; `more`
        and `rest` are those left over. When it ends after a successful start, exactly the commands appended before the
        last drain have run, and unless the run loop failed to start a poison pill is among them. When it has not
        ended, it is about to enter its run loop or parked there, with nothing left to go on with; no pill has run and
        the run loop has not failed. */
    method MainThreadLoop(ok: bool, leftPending: bool, choices: seq<bool>, others: Schedule)
      returns (ended: bool, more: seq<bool>, rest: Schedule)
      requires Valid() && around.thread.CreateJvm? && Foreign(others, None)
      modifies this
      ensures Valid() && passed + rest == old(passed) + others
      ensures around.decided + more == old(around.decided) + choices
      ensures !ok ==> ended && around.thread.FailedEnd? && isShutdown && startError
      ensures ok && ended ==> around.thread.Ended? && isShutdown && mainThreadEndSignal + Count(around.endTaken) == 1
      ensures ok && ended ==>
                around.drained <= |around.appended| && around.done == around.appended[..around.drained]
                && commands == around.appended[around.drained..]
      ensures ok && ended && !around.threadTerminated ==>
                exists id :: id in around.done && w.kind(id).Close?
      ensures !ended ==> (around.thread.RunMode? && more == []) || StillInRunLoop(more, rest)
      ensures !ended ==>
                !shutdownRequested && !around.threadTerminated && forall id :: id in around.done ==> !w.kind(id).Close?
    {
      hide Reaches, Passed, After;
      rest := StartUp(ok, leftPending, others);
      more := choices;
      if !ok {
        ReachableInv(w, trace, State());
        return true, more, rest;
      }
      rest := DoCommand(Startup, rest);
      ended, more, rest := MainLoop(choices, rest);
    }

    method MainLoop(choices: seq<bool>, others: Schedule) returns (ended: bool, more: seq<bool>, rest: Schedule)
      requires Valid() && around.thread.LoopTest? && Foreign(others, None)
      modifies this
      ensures Valid() && passed + rest == old(passed) + others
      ensures around.decided + more == old(around.decided) + choices
      ensures ended ==> around.thread.Ended? && isShutdown && mainThreadEndSignal + Count(around.endTaken) == 1
      ensures ended ==>
                around.drained <= |around.appended| && around.done == around.appended[..around.drained]
                && commands == around.appended[around.drained..]
      ensures ended && !around.threadTerminated ==> exists id :: id in around.done && w.kind(id).Close?
      ensures !ended ==> (around.thread.RunMode? && more == []) || StillInRunLoop(more, rest)
      ensures !ended ==>
                !shutdownRequested && !around.threadTerminated && forall id :: id in around.done ==> !w.kind(id).Close?
    {
      hide Reaches, Passed, After;
      more, rest := choices, others;
      var back := true;
      while back
        invariant Valid() && Foreign(rest, None)
        invariant passed + rest == old(passed) + others && around.decided + more == old(around.decided) + choices
        invariant if back then around.thread.LoopTest? else StillInRunLoop(more, rest)
        decreases |more|, back
      {
        rest := Yield(rest, None);
        var onward := TestLoop();
        if !onward {
          rest := Finish(rest);
          return true, more, rest;
        }
        if more == [] {
          break;
        }
        more, rest, back := RunLoopPass(more, rest);
      }
      ended := false;
      NotLeaving(w, trace, State());
    }

    // ---------- the callers

    method BeginCall(id: nat)
      requires Valid() && Enabled(w, State(), Event.BeginCall(id))
      modifies `around, `trace
      ensures Did(Event.BeginCall(id)) && (old(isShutdown) ==> isShutdown)
      ensures id in around.calls && around.calls[id] == NewCall(w.zero)
    {
      hide Reaches, Passed, After;
      BeginStep(w, trace, passed, State(), id);
      trace := trace + [Event.BeginCall(id)];
      around := around.(calls := around.calls[id := NewCall(w.zero)]);
    }

    /** The test of isShutdown. A call that sees it comes back at once, an asynchronous one through its completion. */
    method SeeShutdown(id: nat) returns (shut: bool)
      requires Valid() && id in around.calls && around.calls[id].pc.Start? && !w.kind(id).Close?
      modifies `around, `trace
      ensures Did(Advance(id)) && id in around.calls
      ensures shut == old(isShutdown)
      ensures shut ==> around.calls[id] == Refuse(w.kind(id), old(around.calls[id]), w.zero)
      ensures !shut ==> around.calls[id] == old(around.calls[id]).(pc := BeforeAppend)
    {
      hide Reaches, Passed, After, AdvanceCall, CanAdvance;
      shut := isShutdown;
      var c := around.calls[id];
      var next := if shut then Refuse(w.kind(id), c, w.zero) else c.(pc := BeforeAppend);
      SeeShutdownWrites(w, State(), id, next);
      var after := State().(calls := around.calls[id := next]);
      AdvanceTo(id, after);
    }

    /** The critical section of enqueueCommand. */
    method Append(id: nat)
      requires Valid() && id in around.calls && around.calls[id].pc.BeforeAppend?
      modifies `commands, `around, `trace
      ensures Did(Advance(id)) && id in around.calls
      ensures commands == old(commands) + [id] && around.appended == old(around.appended) + [id]
      ensures around.calls[id] == old(around.calls[id]).(pc := AfterAppend)
    {
      hide Reaches, Passed, After, AdvanceCall, CanAdvance;
      AppendWrites(w, State(), id);
      CallStep(w, trace, passed, State(), id);
      trace := trace + [Advance(id)];
      commands := commands + [id];
      around := around.(calls := around.calls[id := around.calls[id].(pc := AfterAppend)],
                        appended := around.appended + [id]);
    }

    /** Is there a run loop to notify? */
    method SeeRunLoop(id: nat) returns (there: bool)
      requires Valid() && id in around.calls && around.calls[id].pc.AfterAppend?
      modifies `around, `trace
      ensures Did(Advance(id)) && id in around.calls
      ensures there == old(runLoop)
      ensures around.calls[id] == old(around.calls[id]).(pc := if there then SawLoop else AfterEnqueue(w.kind(id)))
    {
      hide Reaches, Passed, After, AdvanceCall, CanAdvance;
      there := runLoop;
      var next := if there then SawLoop else AfterEnqueue(w.kind(id));
      SeeRunLoopWrites(w, State(), id, next);
      var after := State().(calls := around.calls[id := around.calls[id].(pc := next)]);
      AdvanceTo(id, after);
    }

    /** Is there a source to signal? */
    method SeeSource(id: nat) returns (there: bool)
      requires Valid() && id in around.calls && around.calls[id].pc.SawLoop?
      modifies `around, `trace
      ensures Did(Advance(id)) && id in around.calls
      ensures there == old(runLoopSource)
      ensures around.calls[id] == old(around.calls[id]).(pc := if there then BeforeSignal else AfterEnqueue(w.kind(id)))
    {
      hide Reaches, Passed, After, AdvanceCall, CanAdvance;
      there := runLoopSource;
      var next := if there then BeforeSignal else AfterEnqueue(w.kind(id));
      SeeSourceWrites(w, State(), id, next);
      var after := State().(calls := around.calls[id := around.calls[id].(pc := next)]);
      AdvanceTo(id, after);
    }

    /** CFRunLoopSourceSignal. */
    method SignalSource(id: nat)
      requires Valid() && id in around.calls && around.calls[id].pc.BeforeSignal?
      modifies `around, `trace
      ensures Did(Advance(id)) && id in around.calls
      ensures around.signalled == (old(around.signalled) || old(runLoopSource))
      ensures around.calls[id] == old(around.calls[id]).(pc := BeforeWake)
    {
      hide Reaches, Passed, After, AdvanceCall, CanAdvance;
      var signalled := around.signalled || runLoopSource;
      var c := around.calls[id].(pc := BeforeWake);
      SignalWrites(w, State(), id, signalled);
      AdvanceTo(id, State().(calls := around.calls[id := c], signalled := signalled));
    }

    /** CFRunLoopWakeUp. */
    method WakeRunLoop(id: nat)
      requires Valid() && id in around.calls && around.calls[id].pc.BeforeWake?
      modifies `around, `trace
      ensures Did(Advance(id)) && id in around.calls
      ensures around.wake == (old(around.wake) || old(runLoop))
      ensures around.calls[id] == old(around.calls[id]).(pc := AfterEnqueue(w.kind(id)), announced := true)
    {
      hide Reaches, Passed, After, AdvanceCall, CanAdvance;
      var wake := around.wake || runLoop;
      var c := around.calls[id].(pc := AfterEnqueue(w.kind(id)), announced := true);
      WakeWrites(w, State(), id, wake);
      var after := State().(calls := around.calls[id := c], wake := wake);
      AdvanceTo(id, after);
    }

    /** enqueueCommand: append under the lock, then signal and wake if the run loop and its source are there.
        `announced`: both were, and SignalSource and WakeRunLoop have run. */
    method EnqueueCommand(id: nat, others: Schedule) returns (rest: Schedule, announced: bool)
      requires Valid() && Foreign(others, Some(id)) && id in around.calls && around.calls[id].pc.BeforeAppend?
      requires !around.calls[id].announced
      modifies this
      ensures Valid() && Foreign(rest, Some(id))
      ensures passed + rest == old(passed) + others
      ensures id in around.calls && around.calls[id].pc == AfterEnqueue(w.kind(id))
      ensures id in around.appended && around.calls[id].announced == announced
    {
      hide Reaches, Passed, After;
      Append(id);
      rest := Yield(others, Some(id));
      rest, announced := Notify(id, rest);
      AppendedFor(w, trace, State(), id);
    }

    /** What follows the critical section. */
    method Notify(id: nat, others: Schedule) returns (rest: Schedule, announced: bool)
      requires Valid() && Foreign(others, Some(id)) && id in around.calls && around.calls[id].pc.AfterAppend?
      requires !around.calls[id].announced
      modifies this
      ensures Valid() && Foreign(rest, Some(id))
      ensures passed + rest == old(passed) + others
      ensures id in around.calls && around.calls[id].pc == AfterEnqueue(w.kind(id))
      ensures around.calls[id].announced == announced
    {
      hide Reaches, Passed, After;
      rest := others;
      announced := SeeRunLoop(id);
      if announced {
        rest := Yield(rest, Some(id));
        announced := SeeSource(id);
        if announced {
          rest := SignalAndWake(id, rest);
        }
      }
    }

    method SignalAndWake(id: nat, others: Schedule) returns (rest: Schedule)
      requires Valid() && Foreign(others, Some(id)) && id in around.calls && around.calls[id].pc.BeforeSignal?
      modifies this
      ensures Valid() && Foreign(rest, Some(id))
      ensures passed + rest == old(passed) + others
      ensures id in around.calls && around.calls[id].pc == AfterEnqueue(w.kind(id)) && around.calls[id].announced
    {
      hide Reaches, Passed, After;
      rest := Yield(others, Some(id));
      SignalSource(id);
      rest := Yield(rest, Some(id));
      WakeRunLoop(id);
    }

    /** callJvmSyncInt and its siblings: `None` if the schedule ends while the caller still waits. What comes back
        is what the block returned in the serial execution, or 0 or nil if it threw; and 0 or nil, the block never
        run, if shutdown was visible, as it is to every call that begins after it. */
    method CallJvmSync(id: nat, others: Schedule) returns (r: Option<V>, rest: Schedule)
      requires Valid() && Enabled(w, State(), Event.BeginCall(id)) && w.kind(id).Sync? && Foreign(others, Some(id))
      modifies this
      ensures Valid() && id in around.calls && Foreign(rest, Some(id)) && passed + rest == old(passed) + others
      ensures around.calls[id].pc.Refused? ==> r == Some(w.zero) && id !in around.appended
      ensures !around.calls[id].pc.Refused? && r.Some? ==>
                exists k :: 0 <= k < |around.done| && around.done[k] == id
                            && r.value == ResultAt(w, around.done, k).GetOr(w.zero)
      ensures r.None? ==> around.calls[id].pc.Waiting? && around.calls[id].sem == 0 && rest == []
      ensures old(isShutdown) ==> around.calls[id].pc.Refused?
    {
      hide Reaches, Passed, After;
      BeginCall(id);
      rest := Yield(others, Some(id));
      var shut := SeeShutdown(id);
      if shut {
        r := Some(w.zero);
        SyncRefused(w, trace, State(), id);
        return;
      }
      rest := Yield(rest, Some(id));
      r, rest := Submit(id, rest);
    }

    /** A sync call that has not been refused. */
    method Submit(id: nat, others: Schedule) returns (r: Option<V>, rest: Schedule)
      requires Valid() && Foreign(others, Some(id)) && w.kind(id).Sync?
      requires id in around.calls && around.calls[id].pc.BeforeAppend? && !around.calls[id].announced
      modifies this
      ensures Valid() && id in around.calls && Foreign(rest, Some(id)) && passed + rest == old(passed) + others
      ensures r.Some? ==> exists k :: 0 <= k < |around.done| && around.done[k] == id
                                      && r.value == ResultAt(w, around.done, k).GetOr(w.zero)
      ensures around.calls[id].pc == if r.Some? then Returned else Waiting
      ensures r.None? ==> around.calls[id].sem == 0 && rest == []
    {
      hide Reaches, Passed, After;
      var announced;
      rest, announced := EnqueueCommand(id, others);
      r, rest := AwaitDone(id, rest);
    }

    /** Waits for the semaphore of call `id` and reads its result variable. */
    method AwaitDone(id: nat, others: Schedule) returns (r: Option<V>, rest: Schedule)
      requires Valid() && Foreign(others, Some(id)) && w.kind(id).Sync?
      requires id in around.calls && around.calls[id].pc.Waiting?
      modifies this
      ensures Valid() && id in around.calls && Foreign(rest, Some(id)) && passed + rest == old(passed) + others
      ensures r.Some? ==> exists k :: 0 <= k < |around.done| && around.done[k] == id
                                      && r.value == ResultAt(w, around.done, k).GetOr(w.zero)
      ensures around.calls[id].pc == if r.Some? then Returned else Waiting
      ensures r.None? ==> around.calls[id].sem == 0 && rest == []
    {
      hide Reaches, Passed, After;
      rest := others;
      while around.calls[id].sem == 0 && rest != []
        invariant Valid() && Foreign(rest, Some(id))
        invariant passed + rest == old(passed) + others
        invariant id in around.calls && around.calls[id].pc.Waiting?
        decreases |rest|
      {
        rest := Yield(rest, Some(id));
      }
      if around.calls[id].sem == 0 {
        return None, rest;
      }
      TakeDone(id);
      r := Some(around.calls[id].ret);
      SyncReturned(w, trace, State(), id);
    }

    /** The wait for the caller's own semaphore is over. */
    method TakeDone(id: nat)
      requires Valid() && id in around.calls && around.calls[id].pc.Waiting? && !w.kind(id).Close?
      requires around.calls[id].sem > 0
      modifies `around, `trace
      ensures Did(Advance(id)) && id in around.calls
      ensures around.calls[id] == old(around.calls[id]).(pc := Returned, sem := old(around.calls[id].sem) - 1)
    {
      hide Reaches, Passed, After, AdvanceCall, CanAdvance;
      TakeDoneWrites(w, State(), id);
      var c := around.calls[id];
      var after := State().(calls := around.calls[id := c.(pc := Returned, sem := c.sem - 1)]);
      AdvanceTo(id, after);
    }

    /** The asynchronous methods. A call comes back as soon as its block is appended; or it is refused, as every call is
        that begins once shutdown is visible: then nothing is appended, and its completion is called inline with 0 or
        nil, nil or not. */
    method CallJvmAsync(id: nat, others: Schedule) returns (rest: Schedule)
      requires Valid() && Enabled(w, State(), Event.BeginCall(id)) && IsAsync(w.kind(id)) && Foreign(others, Some(id))
      modifies this
      ensures Valid() && Foreign(rest, Some(id)) && id in around.calls
      ensures passed + rest == old(passed) + others
      ensures around.calls[id].pc.Returned? || around.calls[id].pc.Refused?
      ensures around.calls[id].pc.Returned? <==> id in around.appended
      ensures around.calls[id].pc.Refused? ==>
                && around.calls[id].invoked == (if w.kind(id).completion then [w.zero] else [])
                && around.calls[id].nilCalled == !w.kind(id).completion
      ensures old(isShutdown) ==> around.calls[id].pc.Refused?
    {
      hide Reaches, Passed, After;
      BeginCall(id);
      rest := Yield(others, Some(id));
      var shut := SeeShutdown(id);
      if !shut {
        rest := Yield(rest, Some(id));
        var announced;
        rest, announced := EnqueueCommand(id, rest);
      }
      AsyncOutcome(w, trace, State(), id);
    }

    /** A close call gets its turn on the lifecycle queue. */
    method EnterLifecycle(id: nat)
      requires Valid() && id in around.calls && around.calls[id].pc.Start? && w.kind(id).Close? && lifecycleQueue.None?
      modifies `lifecycleQueue, `around, `trace
      ensures Did(Advance(id)) && id in around.calls
      ensures lifecycleQueue == Some(id) && around.calls[id] == old(around.calls[id]).(pc := InLifecycle)
    {
      hide Reaches, Passed, After, AdvanceCall, CanAdvance;
      EnterLifecycleWrites(w, State(), id);
      CallStep(w, trace, passed, State(), id);
      trace := trace + [Advance(id)];
      lifecycleQueue := Some(id);
      around := around.(calls := around.calls[id := around.calls[id].(pc := InLifecycle)]);
    }

    /** The test of isShutdown in the block of close. */
    method SeeShutdownInLifecycle(id: nat) returns (shut: bool)
      requires Valid() && id in around.calls && around.calls[id].pc.InLifecycle?
      modifies `around, `trace
      ensures Did(Advance(id)) && id in around.calls
      ensures shut == old(isShutdown)
      ensures around.calls[id] == old(around.calls[id]).(pc := if shut then Leaving(false) else BeforeAppend)
    {
      hide Reaches, Passed, After, AdvanceCall, CanAdvance;
      shut := isShutdown;
      var next := if shut then Leaving(false) else BeforeAppend;
      SeeShutdownInLifecycleWrites(w, State(), id, next);
      var after := State().(calls := around.calls[id := around.calls[id].(pc := next)]);
      AdvanceTo(id, after);
    }

    /** The wait for the end signal is over. */
    method TakeEndSignal(id: nat)
      requires Valid() && id in around.calls && around.calls[id].pc.Waiting? && w.kind(id).Close?
      requires mainThreadEndSignal > 0
      modifies `mainThreadEndSignal, `around, `trace
      ensures Did(Advance(id)) && id in around.calls
      ensures mainThreadEndSignal == old(mainThreadEndSignal) - 1
      ensures around.calls[id] == old(around.calls[id]).(pc := MarkShutdown)
    {
      hide Reaches, Passed, After, AdvanceCall, CanAdvance;
      EndWaitWrites(w, State(), id);
      CallStep(w, trace, passed, State(), id);
      trace := trace + [Advance(id)];
      mainThreadEndSignal := mainThreadEndSignal - 1;
      around := around.(calls := around.calls[id := around.calls[id].(pc := MarkShutdown)], endTaken := true);
    }

    /** `isShutdown = YES` in the block of close. */
    method StoreShutdownAtClose(id: nat)
      requires Valid() && id in around.calls && around.calls[id].pc.MarkShutdown?
      modifies `isShutdown, `around, `trace
      ensures Did(Advance(id)) && id in around.calls
      ensures isShutdown && around.calls[id] == old(around.calls[id]).(pc := Leaving(true))
    {
      hide Reaches, Passed, After, AdvanceCall, CanAdvance;
      MarkWrites(w, State(), id);
      CallStep(w, trace, passed, State(), id);
      trace := trace + [Advance(id)];
      isShutdown := true;
      around := around.(calls := around.calls[id := around.calls[id].(pc := Leaving(true))]);
    }

    /** The lifecycle queue is free again. */
    method LeaveLifecycle(id: nat, next: CallPc)
      requires Valid() && id in around.calls && LeavesTo(around.calls[id].pc, next)
      modifies `lifecycleQueue, `around, `trace
      ensures Did(Advance(id)) && id in around.calls
      ensures lifecycleQueue.None? && around.calls[id].pc == next
    {
      hide Reaches, Passed, After, AdvanceCall, CanAdvance, LeavesTo;
      var c := around.calls[id].(pc := next);
      LeaveWrites(w, State(), id, next);
      CallStep(w, trace, passed, State(), id);
      trace := trace + [Advance(id)];
      lifecycleQueue := None;
      around := around.(calls := around.calls[id := c]);
    }

    /** A close call stands before the lifecycle queue, which is taken, or before the end signal, which is not
        posted. */
    predicate CloserWaits(id: nat)
      reads `around, `lifecycleQueue, `mainThreadEndSignal
    {
      && id in around.calls
      && ((around.calls[id].pc.Start? && lifecycleQueue.Some?)
          || (around.calls[id].pc.Waiting? && mainThreadEndSignal == 0))
    }

    /** close: on the lifecycle queue, append the poison pill, wait for the JVM thread to end, store isShutdown.
        `finished` is false if the schedule ends while it still waits. When it comes back, after a pill of its own or
        because another closer was there first, and the run loop never failed: the JVM thread has ended, and
        everything appended before the pill has run. */
    method Close(id: nat, others: Schedule) returns (finished: bool, rest: Schedule)
      requires Valid() && Enabled(w, State(), Event.BeginCall(id)) && w.kind(id).Close? && Foreign(others, Some(id))
      modifies this
      ensures Valid() && id in around.calls && passed + rest == old(passed) + others
      ensures finished ==> around.calls[id].pc.Returned? || around.calls[id].pc.Refused?
      ensures !finished ==> rest == [] && CloserWaits(id)
      ensures finished && around.created && !around.threadTerminated ==>
                && around.thread.Ended? && (around.calls[id].pc.Returned? ==> id in around.done)
                && (exists pill :: pill in around.done && w.kind(pill).Close?)
                && RunUpToPill(w, State())
      ensures finished && !around.created ==> around.done == []
    {
      hide Reaches, Passed, After, RunUpToPill;
      BeginCall(id);
      rest := Yield(others, Some(id));
      while lifecycleQueue.Some? && rest != []
        invariant Valid() && Foreign(rest, Some(id))
        invariant passed + rest == old(passed) + others
        invariant id in around.calls && around.calls[id].pc.Start? && !around.calls[id].announced
        decreases |rest|
      {
        rest := Yield(rest, Some(id));
      }
      if lifecycleQueue.Some? {
        return false, rest;
      }
      EnterLifecycle(id);
      rest := Yield(rest, Some(id));
      finished, rest := CloseOnQueue(id, rest);
    }

    /** The block that close runs on the lifecycle queue. */
    method CloseOnQueue(id: nat, others: Schedule) returns (finished: bool, rest: Schedule)
      requires Valid() && Foreign(others, Some(id)) && w.kind(id).Close? && id in around.calls
      requires around.calls[id].pc.InLifecycle? && !around.calls[id].announced
      modifies this
      ensures Valid() && id in around.calls && passed + rest == old(passed) + others
      ensures finished ==> around.calls[id].pc.Returned? || around.calls[id].pc.Refused?
      ensures !finished ==> rest == [] && CloserWaits(id)
      ensures finished && around.created && !around.threadTerminated ==>
                && around.thread.Ended? && (around.calls[id].pc.Returned? ==> id in around.done)
                && (exists pill :: pill in around.done && w.kind(pill).Close?)
                && RunUpToPill(w, State())
      ensures finished && !around.created ==> around.done == []
    {
      hide Reaches, Passed, After, RunUpToPill, AllPosted;
      var shut := SeeShutdownInLifecycle(id);
      finished, rest := CloseInside(id, others);
      if finished {
        CloseRunsEverythingBefore(w, trace, State(), id);
      }
    }

    /** What follows its test of isShutdown. */
    method CloseInside(id: nat, others: Schedule) returns (finished: bool, rest: Schedule)
      requires Valid() && Foreign(others, Some(id)) && w.kind(id).Close? && id in around.calls
      requires around.calls[id].pc.BeforeAppend? || around.calls[id].pc == Leaving(false)
      requires !around.calls[id].announced
      modifies this
      ensures Valid() && id in around.calls
      ensures passed + rest == old(passed) + others
      ensures finished ==> around.calls[id].pc.Returned? || around.calls[id].pc.Refused?
      ensures !finished ==> rest == [] && CloserWaits(id)
    {
      hide Reaches, Passed, After;
      rest := Yield(others, Some(id));
      if around.calls[id].pc == Leaving(false) {
        LeaveLifecycle(id, Refused);
        return true, rest;
      }
      var announced;
      rest, announced := EnqueueCommand(id, rest);
      while mainThreadEndSignal == 0 && rest != []
        invariant Valid() && Foreign(rest, Some(id))
        invariant passed + rest == old(passed) + others
        invariant id in around.calls && around.calls[id].pc.Waiting?
        decreases |rest|
      {
        rest := Yield(rest, Some(id));
      }
      if mainThreadEndSignal == 0 {
        return false, rest;
      }
      TakeEndSignal(id);
      rest := Yield(rest, Some(id));
      StoreShutdownAtClose(id);
      rest := Yield(rest, Some(id));
      LeaveLifecycle(id, Returned);
      finished := true;
    }
  }

  /** In its run loop the JVM thread has seen no pill and no failure of the run loop. */
  lemma NotLeaving<J, V>(w: World<J, V>, es: seq<Event>, s: State<J, V>)
    requires Reaches(w, es, s) && (s.thread.RunMode? || s.thread.CheckSource? || s.thread.Asleep?)
    ensures !s.shutdownRequested && !s.threadTerminated && forall id :: id in s.done ==> !w.kind(id).Close?
  {
    ReachableInv(w, es, s);
  }

  lemma SyncRefused<J, V>(w: World<J, V>, es: seq<Event>, s: State<J, V>, id: nat)
    requires Reaches(w, es, s) && id in s.calls && w.kind(id).Sync? && s.calls[id].pc.Refused?
    ensures id !in s.appended
  {
    SyncResult(w, es, s, id);
  }

  lemma SyncReturned<J, V>(w: World<J, V>, es: seq<Event>, s: State<J, V>, id: nat)
    requires Reaches(w, es, s) && id in s.calls && w.kind(id).Sync? && s.calls[id].pc.Returned?
    ensures exists k :: 0 <= k < |s.done| && s.done[k] == id
                        && s.calls[id].ret == ResultAt(w, s.done, k).GetOr(w.zero)
  {
    SyncResult(w, es, s, id);
  }

  lemma AppendedFor<J, V>(w: World<J, V>, es: seq<Event>, s: State<J, V>, id: nat)
    requires Reaches(w, es, s) && id in s.calls && HasAppended(s.calls[id].pc)
    ensures id in s.appended
  {
    ReachableInv(w, es, s);
  }

  lemma AsyncOutcome<J, V>(w: World<J, V>, es: seq<Event>, s: State<J, V>, id: nat)
    requires Reaches(w, es, s) && id in s.calls && IsAsync(w.kind(id))
    ensures s.calls[id].pc.Returned? ==> id in s.appended
    ensures s.calls[id].pc.Refused? ==>
              && id !in s.appended
              && s.calls[id].invoked == (if w.kind(id).completion then [w.zero] else [])
              && s.calls[id].nilCalled == !w.kind(id).completion
  {
    Completions(w, es, s, id);
    NilCompletions(w, es, s, id);
    if s.calls[id].pc.Returned? {
      AppendedFor(w, es, s, id);
    }
  }

  lemma FinishedIsCall<J, V>(w: World<J, V>, s: State<J, V>)
    requires FoldInv(w, s) && CallsInv(w, s) && s.thread.Finally?
    ensures s.thread.cmd in s.calls
  {
    assert FinishedAt(w, s, |s.done| - 1);
  }
}
