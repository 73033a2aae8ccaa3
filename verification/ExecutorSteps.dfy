/** The steps of the executor, one lemma a step: which fields it writes. */
module ExecutorSteps {
  import opened Wrappers
  import opened Executor

  /** A run followed by a possible step is a run. */
  lemma Extend<J, V>(w: World<J, V>, es: seq<Event>, s: State<J, V>, e: Event)
    requires Reaches(w, es, s) && Enabled(w, s, e)
    ensures Reaches(w, es + [e], Apply(w, s, e))
  {
    assert (es + [e])[..|es|] == es;
  }

  // ---------- what other threads do in between

  /** The state after the steps `es` from `s`, each taken if it is possible when its turn comes, and left out if not. */
  function After<J, V>(w: World<J, V>, s: State<J, V>, es: seq<Event>): State<J, V> {
    if es == [] then s
    else
      var before := After(w, s, es[..|es| - 1]);
      if Enabled(w, before, es[|es| - 1]) then Apply(w, before, es[|es| - 1]) else before
  }

  /** Those of the steps that are taken. */
  ghost function Taken<J, V>(w: World<J, V>, s: State<J, V>, es: seq<Event>): seq<Event> {
    if es == [] then []
    else
      var before := es[..|es| - 1];
      Taken(w, s, before) + if Enabled(w, After(w, s, before), es[|es| - 1]) then [es[|es| - 1]] else []
  }

  lemma NoTurn<J, V>(w: World<J, V>, s: State<J, V>)
    ensures After(w, s, []) == s && Taken(w, s, []) == []
  {
  }

  lemma TurnStep<J, V>(w: World<J, V>, s: State<J, V>, es: seq<Event>, i: nat)
    requires i < |es|
    ensures var before := After(w, s, es[..i]);
            if Enabled(w, before, es[i]) then
              && After(w, s, es[..i + 1]) == Apply(w, before, es[i])
              && Taken(w, s, es[..i + 1]) == Taken(w, s, es[..i]) + [es[i]]
            else
              After(w, s, es[..i + 1]) == before && Taken(w, s, es[..i + 1]) == Taken(w, s, es[..i])
  {
    assert es[..i + 1][..i] == es[..i];
  }

  /** In the run `es` the other threads have had their turns `passed`, one after the other, and have taken in each all
      the steps that were possible. */
  ghost predicate Passed<J, V>(w: World<J, V>, es: seq<Event>, passed: seq<seq<Event>>)
    decreases |passed|, 1
  {
    passed == [] || exists n: nat :: LastTurn(w, es, passed, n)
  }

  /** The last turn came after `es[..n]`. */
  ghost predicate LastTurn<J, V>(w: World<J, V>, es: seq<Event>, passed: seq<seq<Event>>, n: nat)
    requires passed != []
    decreases |passed|, 0
  {
    var last := |passed| - 1;
    && n <= |es| && Replay(w, Initial(w), es[..n]).Some?
    && es[..n] + Taken(w, Replay(w, Initial(w), es[..n]).value, passed[last]) <= es
    && Passed(w, es[..n], passed[..last])
  }

  lemma PassedExtends<J, V>(w: World<J, V>, es: seq<Event>, e: Event, passed: seq<seq<Event>>)
    requires Passed(w, es, passed)
    ensures Passed(w, es + [e], passed)
  {
    if passed != [] {
      var n: nat :| LastTurn(w, es, passed, n);
      assert (es + [e])[..n] == es[..n];
      assert LastTurn(w, es + [e], passed, n);
    }
  }

  lemma PassedTurn<J, V>(w: World<J, V>, es: seq<Event>, s: State<J, V>, passed: seq<seq<Event>>, turn: seq<Event>)
    requires Passed(w, es, passed) && Reaches(w, es, s)
    ensures Passed(w, es + Taken(w, s, turn), passed + [turn])
  {
    var more := es + Taken(w, s, turn);
    assert more[..|es|] == es && (passed + [turn])[..|passed|] == passed;
    assert LastTurn(w, more, passed + [turn], |es|);
  }

  // ---------- the steps of the JVM thread

  lemma RunStep<J, V>(w: World<J, V>, es: seq<Event>, passed: seq<seq<Event>>, s: State<J, V>, choice: bool)
    requires Reaches(w, es, s) && Passed(w, es, passed) && CanRun(s.thread, s.wake, choice)
    ensures Reaches(w, es + [Thread(choice)], RunThread(w, s, choice)) && Passed(w, es + [Thread(choice)], passed)
  {
    hide Passed;
    Extend(w, es, s, Thread(choice));
    PassedExtends(w, es, Thread(choice), passed);
  }

  lemma RemoveWrites<J, V>(w: World<J, V>, s: State<J, V>, ctx: Context)
    requires s.thread == Fetch(ctx) && s.commands != []
    ensures CanRun(s.thread, s.wake, true)
    ensures RunThread(w, s, true) == s.(commands := s.commands[1..], thread := Begin(ctx, s.commands[0]))
  {
    assert |s.commands| > 0;
  }

  lemma EmptyWrites<J, V>(w: World<J, V>, s: State<J, V>, ctx: Context)
    requires s.thread == Fetch(ctx) && s.commands == []
    ensures CanRun(s.thread, s.wake, true)
    ensures RunThread(w, s, true) == s.(thread := AfterDoCommand(ctx), drained := |s.appended|)
  {
  }

  lemma EnterWrites<J, V>(w: World<J, V>, s: State<J, V>, ctx: Context, cmd: nat)
    requires s.thread == Begin(ctx, cmd)
    ensures CanRun(s.thread, s.wake, true)
    ensures RunThread(w, s, true) == s.(thread := Running(ctx, cmd))
  {
  }

  lemma PillWrites<J, V>(w: World<J, V>, s: State<J, V>, ctx: Context, cmd: nat)
    requires s.thread == Running(ctx, cmd) && cmd in s.calls && w.kind(cmd).Close?
    ensures CanRun(s.thread, s.wake, true)
    ensures RunThread(w, s, true) ==
            s.(shutdownRequested := true, done := s.done + [cmd], thread := Finally(ctx, cmd, Some(w.zero)))
  {
    assert s.calls[cmd := s.calls[cmd]] == s.calls;
  }

  lemma UserBlockWrites<J, V>(w: World<J, V>, s: State<J, V>, ctx: Context, cmd: nat, out: Outcome<J, V>)
    requires s.thread == Running(ctx, cmd) && cmd in s.calls && !w.kind(cmd).Close?
    requires out == w.body(cmd, s.jvm)
    ensures CanRun(s.thread, s.wake, true)
    ensures RunThread(w, s, true) ==
            s.(jvm := out.state, pending := out.pending, done := s.done + [cmd],
               calls := s.calls[cmd := StoreResult(w.kind(cmd), s.calls[cmd], out.result)],
               thread := Finally(ctx, cmd, out.result))
  {
  }

  lemma WrapperWrites<J, V>(w: World<J, V>, s: State<J, V>, ctx: Context, cmd: nat, result: Option<V>)
    requires s.thread == Finally(ctx, cmd, result) && cmd in s.calls
    ensures CanRun(s.thread, s.wake, true)
    ensures RunThread(w, s, true) ==
            s.(calls := s.calls[cmd := Post(w.kind(cmd), s.calls[cmd], result)], thread := Clear(ctx))
  {
  }

  lemma ClearWrites<J, V>(w: World<J, V>, s: State<J, V>, ctx: Context)
    requires s.thread == Clear(ctx)
    ensures CanRun(s.thread, s.wake, true)
    ensures RunThread(w, s, true) == s.(pending := false, thread := Fetch(ctx))
  {
  }

  /** Where the JVM thread stores isShutdown, and goes on to `next`. */
  predicate StoresShutdown<V>(pc: ThreadPc<V>, next: ThreadPc<V>) {
    (pc.FailShutdown? && next == FailError) || (pc.ExitShutdown? && next == ExitRemove)
  }

  lemma ShutdownWrites<J, V>(w: World<J, V>, s: State<J, V>, next: ThreadPc<V>)
    requires StoresShutdown(s.thread, next)
    ensures CanRun(s.thread, s.wake, true)
    ensures RunThread(w, s, true) == s.(isShutdown := true, thread := next)
  {
    assert NextPc(w, s, true) == next;
  }

  lemma ErrorWrites<J, V>(w: World<J, V>, s: State<J, V>)
    requires s.thread.FailError?
    ensures CanRun(s.thread, s.wake, true)
    ensures RunThread(w, s, true) == s.(startError := true, thread := FailSignal)
  {
  }

  /** Where posts the start signal, and goes on to `next`. */
  predicate PostsStart<V>(pc: ThreadPc<V>, next: ThreadPc<V>) {
    (pc.FailSignal? && next == FailedEnd) || (pc.SignalStart? && next == Fetch(Startup))
  }

  lemma StartSignalWrites<J, V>(w: World<J, V>, s: State<J, V>, next: ThreadPc<V>)
    requires PostsStart(s.thread, next)
    ensures CanRun(s.thread, s.wake, true)
    ensures RunThread(w, s, true) == s.(startSem := s.startSem + 1, thread := next)
  {
    assert NextPc(w, s, true) == next;
  }

  /** Where stores the run loop, and goes on to `next`. */
  predicate StoresLoop<V>(pc: ThreadPc<V>, next: ThreadPc<V>) {
    (pc.SetRunLoop? && next == CreateSource) || (pc.AddSource? && next == Connect)
  }

  lemma SetLoopWrites<J, V>(w: World<J, V>, s: State<J, V>, next: ThreadPc<V>)
    requires StoresLoop(s.thread, next)
    ensures CanRun(s.thread, s.wake, true)
    ensures RunThread(w, s, true) == s.(runLoop := true, thread := next)
  {
    assert NextPc(w, s, true) == next;
  }

  /** Where clears it, and goes on to `next`. */
  predicate ClearsLoop<V>(pc: ThreadPc<V>, next: ThreadPc<V>) {
    (pc.ExitRemove? && next == ExitSource) || (pc.ExitLoop? && next == ExitDestroy)
  }

  lemma ClearLoopWrites<J, V>(w: World<J, V>, s: State<J, V>, next: ThreadPc<V>)
    requires ClearsLoop(s.thread, next)
    ensures CanRun(s.thread, s.wake, true)
    ensures RunThread(w, s, true) == s.(runLoop := false, thread := next)
  {
    assert NextPc(w, s, true) == next;
  }

  lemma SourceWrites<J, V>(w: World<J, V>, s: State<J, V>, create: bool)
    requires (if create then s.thread.CreateSource? else s.thread.ExitSource?)
    ensures CanRun(s.thread, s.wake, true)
    ensures RunThread(w, s, true) ==
            s.(runLoopSource := create, thread := if create then AddSource else ExitLoop)
  {
  }

  lemma EndSignalWrites<J, V>(w: World<J, V>, s: State<J, V>)
    requires s.thread.ExitSignal?
    ensures CanRun(s.thread, s.wake, true)
    ensures RunThread(w, s, true) == s.(endSem := s.endSem + 1, thread := Ended)
  {
  }

  lemma CreateWrites<J, V>(w: World<J, V>, s: State<J, V>, ok: bool, created: bool, next: ThreadPc<V>)
    requires s.thread.CreateJvm? && created == (s.created || ok) && next == if ok then SetRunLoop else FailShutdown
    ensures CanRun(s.thread, s.wake, ok)
    ensures RunThread(w, s, ok) == s.(created := created, thread := next)
  {
  }

  lemma ConnectWrites<J, V>(w: World<J, V>, s: State<J, V>, left: bool)
    requires s.thread.Connect?
    ensures CanRun(s.thread, s.wake, left)
    ensures RunThread(w, s, left) == s.(pending := left, printPending := left, thread := SignalStart)
  {
  }

  lemma TestWrites<J, V>(w: World<J, V>, s: State<J, V>, next: ThreadPc<V>)
    requires s.thread.LoopTest?
    requires next == if !s.threadTerminated && !s.shutdownRequested then RunMode else ExitShutdown
    ensures CanRun(s.thread, s.wake, true)
    ensures RunThread(w, s, true) == s.(thread := next)
  {
  }

  lemma RunModeWrites<J, V>(w: World<J, V>, s: State<J, V>, starts: bool, terminated: bool,
                              decided: seq<bool>, next: ThreadPc<V>)
    requires s.thread.RunMode?
    requires terminated == (s.threadTerminated || !starts) && next == if starts then CheckSource else Fetch(AfterRun)
    requires decided == s.decided + [starts]
    ensures CanRun(s.thread, s.wake, starts)
    ensures RunThread(w, s, starts) == s.(threadTerminated := terminated, decided := decided, thread := next)
  {
  }

  lemma CheckWrites<J, V>(w: World<J, V>, s: State<J, V>, next: ThreadPc<V>)
    requires s.thread.CheckSource? && next == if s.signalled then Fetch(Perform) else Asleep
    ensures CanRun(s.thread, s.wake, true)
    ensures RunThread(w, s, true) == s.(signalled := false, thread := next)
  {
  }

  lemma SleepWrites<J, V>(w: World<J, V>, s: State<J, V>, woken: bool, wake: bool, decided: seq<bool>,
                            next: ThreadPc<V>)
    requires s.thread.Asleep? && (woken ==> s.wake)
    requires wake == (s.wake && !woken) && next == if woken then CheckSource else Fetch(AfterRun)
    requires decided == s.decided + [woken]
    ensures CanRun(s.thread, s.wake, woken)
    ensures RunThread(w, s, woken) == s.(wake := wake, decided := decided, thread := next)
  {
  }

  lemma DestroyWrites<J, V>(w: World<J, V>, s: State<J, V>)
    requires s.thread.ExitDestroy?
    ensures CanRun(s.thread, s.wake, true)
    ensures RunThread(w, s, true) == s.(pending := false, thread := ExitSignal)
  {
  }

  // ---------- the steps of a call

  lemma CallStep<J, V>(w: World<J, V>, es: seq<Event>, passed: seq<seq<Event>>, s: State<J, V>, id: nat)
    requires Reaches(w, es, s) && Passed(w, es, passed) && CanAdvance(w, s, id)
    ensures Reaches(w, es + [Advance(id)], AdvanceCall(w, s, id)) && Passed(w, es + [Advance(id)], passed)
  {
    hide Passed;
    Extend(w, es, s, Advance(id));
    PassedExtends(w, es, Advance(id), passed);
  }

  lemma BeginStep<J, V>(w: World<J, V>, es: seq<Event>, passed: seq<seq<Event>>, s: State<J, V>, id: nat)
    requires Reaches(w, es, s) && Passed(w, es, passed) && Enabled(w, s, BeginCall(id))
    ensures Reaches(w, es + [BeginCall(id)], s.(calls := s.calls[id := NewCall(w.zero)]))
    ensures Passed(w, es + [BeginCall(id)], passed)
  {
    hide Passed;
    Extend(w, es, s, BeginCall(id));
    PassedExtends(w, es, BeginCall(id), passed);
  }

  /** The state with the program counter of call `id` at `pc`. */
  function MovedTo<J, V>(s: State<J, V>, id: nat, pc: CallPc): State<J, V>
    requires id in s.calls
  {
    s.(calls := s.calls[id := s.calls[id].(pc := pc)])
  }

  lemma AppendWrites<J, V>(w: World<J, V>, s: State<J, V>, id: nat)
    requires At(s, id, BeforeAppend)
    ensures CanAdvance(w, s, id)
    ensures AdvanceCall(w, s, id) ==
            MovedTo(s, id, AfterAppend).(commands := s.commands + [id], appended := s.appended + [id])
  {
  }

  lemma EnterLifecycleWrites<J, V>(w: World<J, V>, s: State<J, V>, id: nat)
    requires At(s, id, Start) && w.kind(id).Close? && s.lifecycle.None?
    ensures CanAdvance(w, s, id)
    ensures AdvanceCall(w, s, id) == MovedTo(s, id, InLifecycle).(lifecycle := Some(id))
  {
  }

  lemma EndWaitWrites<J, V>(w: World<J, V>, s: State<J, V>, id: nat)
    requires At(s, id, Waiting) && w.kind(id).Close? && s.endSem > 0
    ensures CanAdvance(w, s, id)
    ensures AdvanceCall(w, s, id) == MovedTo(s, id, MarkShutdown).(endSem := s.endSem - 1, endTaken := true)
  {
  }

  lemma MarkWrites<J, V>(w: World<J, V>, s: State<J, V>, id: nat)
    requires At(s, id, MarkShutdown)
    ensures CanAdvance(w, s, id)
    ensures AdvanceCall(w, s, id) == MovedTo(s, id, Leaving(true)).(isShutdown := true)
  {
  }

  /** Where a call leaves the lifecycle queue, and ends with `next`. */
  predicate LeavesTo(pc: CallPc, next: CallPc) {
    (pc == Leaving(true) && next.Returned?) || (pc == Leaving(false) && next.Refused?)
  }

  lemma LeaveWrites<J, V>(w: World<J, V>, s: State<J, V>, id: nat, next: CallPc)
    requires id in s.calls && LeavesTo(s.calls[id].pc, next)
    ensures CanAdvance(w, s, id)
    ensures AdvanceCall(w, s, id) == MovedTo(s, id, next).(lifecycle := None)
  {
    assert NextCall(w, s, id) == s.calls[id].(pc := next);
  }

  lemma SeeShutdownWrites<J, V>(w: World<J, V>, s: State<J, V>, id: nat, next: Call<V>)
    requires At(s, id, Start) && !w.kind(id).Close?
    requires next == if s.isShutdown then Refuse(w.kind(id), s.calls[id], w.zero) else s.calls[id].(pc := BeforeAppend)
    ensures CanAdvance(w, s, id)
    ensures AdvanceCall(w, s, id) == s.(calls := s.calls[id := next])
  {
  }

  lemma SeeShutdownInLifecycleWrites<J, V>(w: World<J, V>, s: State<J, V>, id: nat, next: CallPc)
    requires At(s, id, InLifecycle) && next == if s.isShutdown then Leaving(false) else BeforeAppend
    ensures CanAdvance(w, s, id)
    ensures AdvanceCall(w, s, id) == MovedTo(s, id, next)
  {
  }

  lemma SeeRunLoopWrites<J, V>(w: World<J, V>, s: State<J, V>, id: nat, next: CallPc)
    requires At(s, id, AfterAppend) && next == if s.runLoop then SawLoop else AfterEnqueue(w.kind(id))
    ensures CanAdvance(w, s, id)
    ensures AdvanceCall(w, s, id) == MovedTo(s, id, next)
  {
  }

  lemma SeeSourceWrites<J, V>(w: World<J, V>, s: State<J, V>, id: nat, next: CallPc)
    requires At(s, id, SawLoop) && next == if s.runLoopSource then BeforeSignal else AfterEnqueue(w.kind(id))
    ensures CanAdvance(w, s, id)
    ensures AdvanceCall(w, s, id) == MovedTo(s, id, next)
  {
  }

  lemma SignalWrites<J, V>(w: World<J, V>, s: State<J, V>, id: nat, signalled: bool)
    requires At(s, id, BeforeSignal) && signalled == (s.signalled || s.runLoopSource)
    ensures CanAdvance(w, s, id)
    ensures AdvanceCall(w, s, id) ==
            s.(calls := s.calls[id := s.calls[id].(pc := BeforeWake)], signalled := signalled)
  {
  }

  lemma WakeWrites<J, V>(w: World<J, V>, s: State<J, V>, id: nat, wake: bool)
    requires At(s, id, BeforeWake) && wake == (s.wake || s.runLoop)
    ensures CanAdvance(w, s, id)
    ensures AdvanceCall(w, s, id) ==
            s.(calls := s.calls[id := s.calls[id].(pc := AfterEnqueue(w.kind(id)), announced := true)], wake := wake)
  {
  }

  lemma TakeDoneWrites<J, V>(w: World<J, V>, s: State<J, V>, id: nat)
    requires At(s, id, Waiting) && !w.kind(id).Close? && s.calls[id].sem > 0
    ensures CanAdvance(w, s, id)
    ensures AdvanceCall(w, s, id) ==
            s.(calls := s.calls[id := s.calls[id].(pc := Returned, sem := s.calls[id].sem - 1)])
  {
  }
}
