/** What every step of the executor keeps. */
module ExecutorInvariant {
  import opened Wrappers
  import opened Executor

  // ---------- the serial execution that the history describes

  /** The JVM state after the blocks `ids` have run one after the other from the initial state. */
  ghost function Fold<J, V>(w: World<J, V>, ids: seq<nat>): J {
    if ids == [] then w.jvm else Exec(w, ids[|ids| - 1], Fold(w, ids[..|ids| - 1])).state
  }

  /** What the k-th block returns in that serial execution. */
  ghost function ResultAt<J, V>(w: World<J, V>, ids: seq<nat>, k: nat): Option<V>
    requires k < |ids|
  {
    Exec(w, ids[k], Fold(w, ids[..k])).result
  }

  lemma FoldExtends<J, V>(w: World<J, V>, ids: seq<nat>, id: nat)
    ensures Fold(w, ids + [id]) == Exec(w, id, Fold(w, ids)).state
    ensures ResultAt(w, ids + [id], |ids|) == Exec(w, id, Fold(w, ids)).result
    ensures forall k :: 0 <= k < |ids| ==> ResultAt(w, ids + [id], k) == ResultAt(w, ids, k)
  {
    assert (ids + [id])[..|ids|] == ids;
    forall k | 0 <= k < |ids| ensures ResultAt(w, ids + [id], k) == ResultAt(w, ids, k) {
      assert (ids + [id])[..k] == ids[..k];
    }
  }

  // ---------- phases of the JVM thread

  /** The command the JVM thread holds outside the queue, before its block has ended. */
  ghost function InHand<V>(pc: ThreadPc<V>): seq<nat> {
    if pc.Begin? || pc.Running? then [pc.cmd] else []
  }

  /** The wrapper of this block has not yet posted. */
  ghost predicate InFinally<V>(pc: ThreadPc<V>, id: nat) {
    pc.Finally? && pc.cmd == id
  }

  ghost predicate Failing<V>(pc: ThreadPc<V>) {
    pc.FailShutdown? || pc.FailError? || pc.FailSignal? || pc.FailedEnd?
  }

  ghost predicate Starting<V>(pc: ThreadPc<V>) {
    pc.CreateJvm? || pc.SetRunLoop? || pc.CreateSource? || pc.AddSource? || pc.Connect? || pc.SignalStart?
  }

  ghost predicate InDoCommand<V>(pc: ThreadPc<V>) {
    pc.Fetch? || pc.Begin? || pc.Running? || pc.Finally? || pc.Clear?
  }

  /** A drain has seen the queue empty and no further command has been fetched. */
  ghost predicate Looping<V>(pc: ThreadPc<V>) {
    pc.LoopTest? || pc.RunMode? || pc.CheckSource? || pc.Asleep?
  }

  ghost predicate Exiting<V>(pc: ThreadPc<V>) {
    || pc.ExitShutdown? || pc.ExitRemove? || pc.ExitSource? || pc.ExitLoop? || pc.ExitDestroy? || pc.ExitSignal?
    || pc.Ended?
  }

  /** mainThreadStartSignal has been posted. */
  ghost predicate Started<V>(pc: ThreadPc<V>) {
    InDoCommand(pc) || Looping(pc) || Exiting(pc) || pc.FailedEnd?
  }

  /** The source is attached to the run loop. */
  ghost predicate Attached<V>(pc: ThreadPc<V>) {
    pc.Connect? || pc.SignalStart? || InDoCommand(pc) || Looping(pc) || pc.ExitShutdown? || pc.ExitRemove?
  }

  // ---------- positions of calls

  ghost predicate HasAppended(pc: CallPc) {
    pc.AfterAppend? || pc.SawLoop? || pc.BeforeSignal? || pc.BeforeWake? || pc.Waiting? || pc.MarkShutdown?
    || pc == Leaving(true) || pc.Returned?
  }

  ghost predicate BeforeSignalling(pc: CallPc) {
    pc.AfterAppend? || pc.SawLoop? || pc.BeforeSignal?
  }

  ghost predicate InsideLifecycle(pc: CallPc) {
    pc.InLifecycle? || pc.BeforeAppend? || pc.AfterAppend? || pc.SawLoop? || pc.BeforeSignal? || pc.BeforeWake?
    || pc.Waiting? || pc.MarkShutdown? || pc.Leaving?
  }

  /** On the lifecycle queue, after the append and before isShutdown is stored. */
  ghost predicate ClosingUp(pc: CallPc) {
    pc.AfterAppend? || pc.SawLoop? || pc.BeforeSignal? || pc.BeforeWake? || pc.Waiting? || pc.MarkShutdown?
  }

  /** A closer that has consumed mainThreadEndSignal. */
  ghost predicate PastEnd(pc: CallPc) {
    pc.MarkShutdown? || pc == Leaving(true) || pc.Returned?
  }

  // ---------- the invariants

  /** Appended commands are the finished ones, the one in hand and the queue, in this order. */
  ghost predicate OrderInv<J, V>(s: State<J, V>) {
    s.appended == s.done + InHand(s.thread) + s.commands
  }

  /** The appended commands are the calls that have passed their append, each of them once. */
  ghost predicate MemberInv<J, V>(s: State<J, V>) {
    && NoDuplicates(s.appended)
    && (forall id :: id in s.appended <==> id in s.calls && HasAppended(s.calls[id].pc))
  }

  /** The JVM is where the serial execution of the finished blocks leaves it. */
  ghost predicate FoldInv<J, V>(w: World<J, V>, s: State<J, V>) {
    && s.jvm == Fold(w, s.done)
    && (s.thread.Finally? ==>
          && s.done != [] && s.done[|s.done| - 1] == s.thread.cmd
          && s.thread.result == ResultAt(w, s.done, |s.done| - 1))
  }

  /** A call whose block has not ended. */
  ghost predicate Fresh<J, V>(w: World<J, V>, s: State<J, V>, id: nat)
    requires id in s.calls
  {
    var c := s.calls[id];
    && c.sem == 0 && c.ret == w.zero && c.dispatched == None
    && (w.kind(id).Sync? ==> !c.pc.Returned?)
    && c.invoked ==
       (if c.pc.Refused? && (w.kind(id).AsyncVoid? || w.kind(id).AsyncValue?) && w.kind(id).completion
        then [w.zero] else [])
    && (c.nilCalled <==> c.pc.Refused? && (w.kind(id).AsyncVoid? || w.kind(id).AsyncValue?) && !w.kind(id).completion)
  }

  /** A call whose block has ended with `result`. `posted`: the wrapper around the block has ended, too. */
  ghost predicate Finished<J, V>(w: World<J, V>, c: Call<V>, k: Kind, result: Option<V>, posted: bool) {
    && (k.Sync? ==>
          && c.ret == result.GetOr(w.zero)
          && c.sem + Count(c.pc.Returned?) == Count(posted)
          && Quiet(c))
    && (k.Close? ==> Quiet(c))
    && (k.AsyncVoid? || k.AsyncValue? ==>
          if posted && result.Some? && (k.AsyncValue? || k.completion) then
            || (c.dispatched == result && c.invoked == [] && !c.nilCalled)
            || (c.dispatched == None && c.nilCalled == !k.completion
                && c.invoked == if k.completion then [result.value] else [])
          else
            Quiet(c))
  }

  /** No completion has been dispatched or called. */
  ghost predicate Quiet<V>(c: Call<V>) {
    c.dispatched == None && c.invoked == [] && !c.nilCalled
  }

  ghost predicate FinishedAt<J, V>(w: World<J, V>, s: State<J, V>, k: nat)
    requires k < |s.done|
  {
    var id := s.done[k];
    id in s.calls && Finished(w, s.calls[id], w.kind(id), ResultAt(w, s.done, k), !InFinally(s.thread, id))
  }

  ghost predicate CallsInv<J, V>(w: World<J, V>, s: State<J, V>) {
    && (forall id :: id in s.calls && id !in s.done ==> Fresh(w, s, id))
    && (forall k :: 0 <= k < |s.done| ==> FinishedAt(w, s, k))
  }

  /** Which program counters a call of each kind can have. */
  ghost predicate PcInv<J, V>(w: World<J, V>, s: State<J, V>) {
    forall id :: id in s.calls ==>
      var pc := s.calls[id].pc;
      && (pc.InLifecycle? || pc.MarkShutdown? || pc.Leaving? ==> w.kind(id).Close?)
      && (pc.Waiting? ==> w.kind(id).Sync? || w.kind(id).Close?)
  }

  /** A close call that was refused has seen isShutdown while no pill was on its way: the JVM thread has ended, or its
      run loop has failed, or there never was a JVM. */
  ghost predicate RefusedInv<J, V>(w: World<J, V>, s: State<J, V>) {
    forall id :: id in s.calls && w.kind(id).Close? && (s.calls[id].pc == Leaving(false) || s.calls[id].pc.Refused?) ==>
      s.thread.Ended? || s.threadTerminated || Failing(s.thread)
  }

  /** The initialiser fails without an error only after the run loop has, if nobody could close the object before. */
  ghost predicate InitInv<J, V>(w: World<J, V>, s: State<J, V>) {
    !w.escapes && s.init == FailedWith(false) ==> s.threadTerminated
  }

  /** The run loop and its source exist exactly where the main loop may go to sleep. */
  ghost predicate LoopInv<J, V>(s: State<J, V>) {
    && (s.thread.CreateSource? || s.thread.AddSource? ==> s.runLoop)
    && (s.thread.AddSource? ==> s.runLoopSource)
    && (Attached(s.thread) ==> s.runLoop && s.runLoopSource)
  }

  /** No command waits unannounced while the JVM thread is in its main loop. */
  ghost predicate WakeInv<J, V>(s: State<J, V>) {
    && (Looping(s.thread) ==>
          s.commands == [] || s.signalled || exists id :: id in s.calls && BeforeSignalling(s.calls[id].pc))
    && (s.thread.Asleep? && s.signalled ==>
          s.wake || exists id :: id in s.calls && s.calls[id].pc.BeforeWake?)
  }

  /** Outside its drains the JVM thread has run everything that was appended before the last one ended. */
  ghost predicate DrainInv<J, V>(s: State<J, V>) {
    && s.drained <= |s.appended|
    && (Starting(s.thread) || Failing(s.thread) ==> s.done == [])
    && (Looping(s.thread) || Exiting(s.thread) ==> s.done == s.appended[..s.drained])
  }

  /** The shutdown is requested by the poison pill alone, and the main loop ends for two reasons only. */
  ghost predicate PillInv<J, V>(w: World<J, V>, s: State<J, V>) {
    && (s.shutdownRequested <==> exists id :: id in s.done && w.kind(id).Close?)
    && (Exiting(s.thread) ==> s.shutdownRequested || s.threadTerminated)
    && (s.threadTerminated ==> InDoCommand(s.thread) || Looping(s.thread) || Exiting(s.thread))
    && (s.thread.RunMode? || s.thread.CheckSource? || s.thread.Asleep? ==> !s.shutdownRequested && !s.threadTerminated)
  }

  /** The lifecycle queue holds one close call at a time. */
  ghost predicate LifecycleInv<J, V>(w: World<J, V>, s: State<J, V>) {
    && (s.lifecycle.Some? ==> s.lifecycle.value in s.calls && w.kind(s.lifecycle.value).Close?)
    && (forall id :: id in s.calls && w.kind(id).Close? ==>
          (InsideLifecycle(s.calls[id].pc) <==> s.lifecycle == Some(id)))
  }

  /** A close call that has appended its poison pill holds the lifecycle queue until isShutdown is stored; so no
      second pill is ever appended. */
  ghost predicate OnePillInv<J, V>(w: World<J, V>, s: State<J, V>) {
    && (forall id :: id in s.appended && w.kind(id).Close? ==>
          s.isShutdown || (id in s.calls && ClosingUp(s.calls[id].pc)))
    && (forall id, other :: id in s.calls && w.kind(id).Close? && s.calls[id].pc.BeforeAppend? && w.kind(other).Close?
          ==> other !in s.appended)
    && (forall id, other :: id in s.appended && other in s.appended && w.kind(id).Close? && w.kind(other).Close?
          ==> id == other)
  }

  /** Each of the two life-cycle semaphores is posted once and consumed at most once. */
  ghost predicate SemaphoreInv<J, V>(w: World<J, V>, s: State<J, V>) {
    && s.startSem + Count(!s.init.AwaitStart?) == Count(Started(s.thread))
    && s.endSem + Count(s.endTaken) == Count(s.thread.Ended?)
    && (s.endTaken <==> exists id :: id in s.calls && w.kind(id).Close? && PastEnd(s.calls[id].pc))
  }

  /** Start-up: who may see what, and when. */
  ghost predicate StartInv<J, V>(w: World<J, V>, s: State<J, V>) {
    && (s.created <==> !s.thread.CreateJvm? && !Failing(s.thread))
    && (s.startError <==> s.thread.FailSignal? || s.thread.FailedEnd?)
    && (s.isShutdown <==>
          (Failing(s.thread) && !s.thread.FailShutdown?) || (Exiting(s.thread) && !s.thread.ExitShutdown?))
    && (!w.escapes && (s.init.AwaitStart? || s.init.Woken?) ==> s.calls.Keys == {})
    && (!s.init.AwaitStart? ==> Started(s.thread))
    && (s.init.Succeeded? ==> s.created)
    && (s.init.FailedWith? ==> s.isShutdown && (s.init.startError <==> s.thread.FailedEnd?))
  }

  /** In a world where calls begin only after the initialiser, a failed start leaves no call with an append. */
  ghost predicate FailedStartInv<J, V>(w: World<J, V>, s: State<J, V>) {
    !w.escapes && Failing(s.thread) ==>
      forall id :: id in s.calls ==> s.calls[id].pc in {Start, InLifecycle, Leaving(false), Refused}
  }

  /** A Java exception is pending between blocks only if printMethods left it and no block has run yet. */
  ghost predicate PendingInv<J, V>(s: State<J, V>) {
    && (Starting(s.thread) && !s.thread.SignalStart? ==> !s.pending)
    && (s.thread.SignalStart? ==> s.pending == s.printPending)
    && (s.thread.Fetch? || s.thread.Begin? || s.thread.Running? || Looping(s.thread) ==>
          (s.pending <==> s.printPending && s.done == []))
    && (s.thread.Finally? || s.thread.Clear? ==> s.done != [])
  }

  ghost predicate Inv<J, V>(w: World<J, V>, s: State<J, V>) {
    && OrderInv(s) && MemberInv(s) && FoldInv(w, s) && CallsInv(w, s) && PcInv(w, s)
    && RefusedInv(w, s) && InitInv(w, s)
    && LoopInv(s) && WakeInv(s) && DrainInv(s) && PillInv(w, s) && LifecycleInv(w, s) && OnePillInv(w, s)
    && SemaphoreInv(w, s) && StartInv(w, s) && FailedStartInv(w, s) && PendingInv(s)
  }

  // ---------- every step keeps them

  lemma InitialInv<J, V>(w: World<J, V>)
    ensures Inv(w, Initial(w))
  {
  }

  lemma NoDuplicatesExtends<T>(s: seq<T>, x: T)
    requires NoDuplicates(s) && x !in s
    ensures NoDuplicates(s + [x])
  {
  }

  lemma OrderAdvance<J, V>(w: World<J, V>, s: State<J, V>, id: nat)
    requires OrderInv(s) && CanAdvance(w, s, id)
    ensures OrderInv(AdvanceCall(w, s, id))
  {
  }

  lemma OrderRun<J, V>(w: World<J, V>, s: State<J, V>, choice: bool)
    requires OrderInv(s) && CanRun(s.thread, s.wake, choice)
    ensures OrderInv(RunThread(w, s, choice))
  {
    var s' := RunThread(w, s, choice);
    if s.thread.Fetch? && s.commands != [] {
      assert s.commands == [s.commands[0]] + s.commands[1..];
      assert InHand(s.thread) == [] && InHand(s'.thread) == [s.commands[0]];
    } else if s.thread.Running? {
      assert s'.done + InHand(s'.thread) == s.done + InHand(s.thread);
    }
  }

  lemma MemberAdvance<J, V>(w: World<J, V>, s: State<J, V>, id: nat)
    requires MemberInv(s) && CanAdvance(w, s, id)
    ensures MemberInv(AdvanceCall(w, s, id))
  {
    var s' := AdvanceCall(w, s, id);
    assert HasAppended(s'.calls[id].pc) <==> HasAppended(s.calls[id].pc) || s.calls[id].pc.BeforeAppend?;
    if s.calls[id].pc.BeforeAppend? {
      NoDuplicatesExtends(s.appended, id);
      assert s'.appended == s.appended + [id];
    } else {
      assert s'.appended == s.appended;
    }
  }

  lemma MemberRun<J, V>(w: World<J, V>, s: State<J, V>, choice: bool)
    requires MemberInv(s) && CanRun(s.thread, s.wake, choice)
    ensures MemberInv(RunThread(w, s, choice))
  {
    var s' := RunThread(w, s, choice);
    assert s'.calls.Keys == s.calls.Keys;
    assert forall id :: id in s.calls ==> s'.calls[id].pc == s.calls[id].pc;
  }

  lemma FoldRun<J, V>(w: World<J, V>, s: State<J, V>, choice: bool)
    requires FoldInv(w, s) && CanRun(s.thread, s.wake, choice)
    ensures FoldInv(w, RunThread(w, s, choice))
  {
    if s.thread.Running? {
      FoldExtends(w, s.done, s.thread.cmd);
    }
  }

  /** One call changes: what is known of the others stays. */
  lemma CallsUpdated<J, V>(w: World<J, V>, s: State<J, V>, s': State<J, V>, id: nat)
    requires CallsInv(w, s) && s'.done == s.done && s'.thread == s.thread
    requires id in s.calls && s'.calls.Keys == s.calls.Keys
    requires forall other :: other in s.calls && other != id ==> s'.calls[other] == s.calls[other]
    requires id !in s.done ==> Fresh(w, s', id)
    requires forall k :: 0 <= k < |s.done| && s.done[k] == id ==> FinishedAt(w, s', k)
    ensures CallsInv(w, s')
  {
    forall k | 0 <= k < |s.done| ensures FinishedAt(w, s', k) {
      assert FinishedAt(w, s, k);
    }
    forall other | other in s'.calls && other !in s'.done ensures Fresh(w, s', other) {
      assert Fresh(w, s, other);
    }
  }

  /** A step of a call whose block has not ended, and of one whose block has. */
  lemma FreshAdvance<J, V>(w: World<J, V>, s: State<J, V>, id: nat)
    requires PcInv(w, s) && CanAdvance(w, s, id) && Fresh(w, s, id)
    ensures Fresh(w, AdvanceCall(w, s, id), id)
  {
    var c, c' := s.calls[id], NextCall(w, s, id);
    assert AdvanceCall(w, s, id).calls[id] == c';
    assert c'.sem == 0 && c'.ret == w.zero && c'.dispatched == None;
  }

  lemma FinishedAdvance<J, V>(w: World<J, V>, s: State<J, V>, id: nat, k: nat)
    requires PcInv(w, s) && CanAdvance(w, s, id) && k < |s.done| && s.done[k] == id && FinishedAt(w, s, k)
    requires HasAppended(s.calls[id].pc)
    ensures FinishedAt(w, AdvanceCall(w, s, id), k)
  {
    var c' := NextCall(w, s, id);
    assert AdvanceCall(w, s, id).calls[id] == c';
    assert !c'.pc.Refused? && c'.invoked == s.calls[id].invoked && c'.nilCalled == s.calls[id].nilCalled;
  }

  lemma CallsAdvance<J, V>(w: World<J, V>, s: State<J, V>, id: nat)
    requires OrderInv(s) && MemberInv(s) && CallsInv(w, s) && PcInv(w, s) && CanAdvance(w, s, id)
    ensures CallsInv(w, AdvanceCall(w, s, id))
  {
    hide NextCall, Fresh, FinishedAt, PcInv;
    var s' := AdvanceCall(w, s, id);
    if id !in s.done {
      FreshAdvance(w, s, id);
    }
    forall k | 0 <= k < |s.done| && s.done[k] == id ensures FinishedAt(w, s', k) {
      assert FinishedAt(w, s, k) && s.appended[k] == id;
      FinishedAdvance(w, s, id, k);
    }
    CallsUpdated(w, s, s', id);
  }

  lemma CallsComplete<J, V>(w: World<J, V>, s: State<J, V>, id: nat)
    requires CallsInv(w, s) && Enabled(w, s, Complete(id))
    ensures CallsInv(w, RunCompletion(w, s, id))
  {
    var s' := RunCompletion(w, s, id);
    forall k | 0 <= k < |s.done| ensures FinishedAt(w, s', k) {
      assert FinishedAt(w, s, k);
    }
  }

  /** The command in hand belongs to a call, and its block has not ended before. */
  lemma InHandIsNew<J, V>(s: State<J, V>, cmd: nat)
    requires OrderInv(s) && MemberInv(s) && InHand(s.thread) == [cmd]
    ensures cmd in s.calls && cmd !in s.done
  {
    assert s.appended[|s.done|] == cmd;
    forall k | 0 <= k < |s.done| ensures s.done[k] != cmd {
      assert s.appended[k] == s.done[k];
    }
  }

  /** A block ends: its result is stored, its wrapper is still to come. */
  lemma BlockEnds<J, V>(w: World<J, V>, s: State<J, V>, choice: bool)
    requires FoldInv(w, s) && s.thread.Running? && s.thread.cmd in s.calls && Fresh(w, s, s.thread.cmd)
    requires CallsInv(w, s) && OrderInv(s) && MemberInv(s)
    ensures FinishedAt(w, RunThread(w, s, choice), |s.done|)
  {
    FoldExtends(w, s.done, s.thread.cmd);
    assert s.appended[|s.done|] == s.thread.cmd;
  }

  lemma OthersStayFinished<J, V>(w: World<J, V>, s: State<J, V>, choice: bool, k: nat)
    requires s.thread.Running? && k < |s.done| && s.done[k] != s.thread.cmd && FinishedAt(w, s, k)
    ensures FinishedAt(w, RunThread(w, s, choice), k)
  {
    FoldExtends(w, s.done, s.thread.cmd);
  }

  lemma CallsEndBlock<J, V>(w: World<J, V>, s: State<J, V>, choice: bool)
    requires OrderInv(s) && MemberInv(s) && FoldInv(w, s) && CallsInv(w, s) && s.thread.Running?
    ensures CallsInv(w, RunThread(w, s, choice))
  {
    hide FinishedAt, FoldInv, Fold;
    var s' := RunThread(w, s, choice);
    InHandIsNew(s, s.thread.cmd);
    assert Fresh(w, s, s.thread.cmd);
    BlockEnds(w, s, choice);
    forall k | 0 <= k < |s.done| ensures FinishedAt(w, s', k) {
      OthersStayFinished(w, s, choice, k);
    }
  }

  lemma DoneOnce<J, V>(s: State<J, V>)
    requires OrderInv(s) && MemberInv(s)
    ensures NoDuplicates(s.done)
  {
    forall i, j | 0 <= i < j < |s.done| ensures s.done[i] != s.done[j] {
      assert s.appended[i] == s.done[i] && s.appended[j] == s.done[j];
    }
  }

  /** A wrapper ends: its semaphore is posted or its completion dispatched. */
  lemma CallsPost<J, V>(w: World<J, V>, s: State<J, V>, choice: bool)
    requires OrderInv(s) && MemberInv(s) && FoldInv(w, s) && CallsInv(w, s) && s.thread.Finally?
    ensures CallsInv(w, RunThread(w, s, choice))
  {
    var s' := RunThread(w, s, choice);
    var last := |s.done| - 1;
    assert FinishedAt(w, s, last);
    DoneOnce(s);
    forall k | 0 <= k < |s.done| ensures FinishedAt(w, s', k) {
      assert FinishedAt(w, s, k);
      assert k < last ==> s.done[k] != s.done[last];
    }
  }

  lemma CallsRun<J, V>(w: World<J, V>, s: State<J, V>, choice: bool)
    requires OrderInv(s) && MemberInv(s) && FoldInv(w, s) && CallsInv(w, s) && CanRun(s.thread, s.wake, choice)
    ensures CallsInv(w, RunThread(w, s, choice))
  {
    if s.thread.Running? {
      CallsEndBlock(w, s, choice);
    } else if s.thread.Finally? {
      CallsPost(w, s, choice);
    } else {
      var s' := RunThread(w, s, choice);
      forall k | 0 <= k < |s.done| ensures FinishedAt(w, s', k) {
        assert FinishedAt(w, s, k);
      }
    }
  }

  lemma PcAdvance<J, V>(w: World<J, V>, s: State<J, V>, id: nat)
    requires PcInv(w, s) && CanAdvance(w, s, id)
    ensures PcInv(w, AdvanceCall(w, s, id))
  {
  }

  lemma PcRun<J, V>(w: World<J, V>, s: State<J, V>, choice: bool)
    requires PcInv(w, s) && CanRun(s.thread, s.wake, choice)
    ensures PcInv(w, RunThread(w, s, choice))
  {
  }

  /** A closer that is about to be refused: where is the pill, if the run loop has not failed? Its own closer has left
      the lifecycle queue, so it has consumed the end signal. */
  lemma NoPillUnderWay<J, V>(w: World<J, V>, s: State<J, V>, id: nat)
    requires OrderInv(s) && MemberInv(s) && PillInv(w, s) && LifecycleInv(w, s) && SemaphoreInv(w, s) && StartInv(w, s)
    requires At(s, id, InLifecycle) && w.kind(id).Close? && s.isShutdown
    ensures s.thread.Ended? || s.threadTerminated || Failing(s.thread)
  {
    if Exiting(s.thread) && !s.threadTerminated {
      var pill :| pill in s.done && w.kind(pill).Close?;
      var k :| 0 <= k < |s.done| && s.done[k] == pill;
      assert s.appended[k] == pill;
      assert HasAppended(s.calls[pill].pc) && s.lifecycle == Some(id);
      assert PastEnd(s.calls[pill].pc);
    }
  }

  lemma RefusedUpdated<J, V>(w: World<J, V>, s: State<J, V>, s': State<J, V>, id: nat)
    requires RefusedInv(w, s) && s'.thread == s.thread && s'.threadTerminated == s.threadTerminated
    requires id in s.calls && id in s'.calls && s'.calls == s.calls[id := s'.calls[id]]
    requires w.kind(id).Close? && (s'.calls[id].pc == Leaving(false) || s'.calls[id].pc.Refused?) ==>
               s.thread.Ended? || s.threadTerminated || Failing(s.thread)
    ensures RefusedInv(w, s')
  {
  }

  lemma RefusedAdvance<J, V>(w: World<J, V>, s: State<J, V>, id: nat)
    requires OrderInv(s) && MemberInv(s) && PillInv(w, s) && LifecycleInv(w, s) && SemaphoreInv(w, s) && StartInv(w, s)
    requires PcInv(w, s) && RefusedInv(w, s) && CanAdvance(w, s, id)
    ensures RefusedInv(w, AdvanceCall(w, s, id))
  {
    hide NextCall;
    RefusedNext(w, s, id);
    RefusedUpdated(w, s, AdvanceCall(w, s, id), id);
  }

  lemma RefusedNext<J, V>(w: World<J, V>, s: State<J, V>, id: nat)
    requires OrderInv(s) && MemberInv(s) && PillInv(w, s) && LifecycleInv(w, s) && SemaphoreInv(w, s) && StartInv(w, s)
    requires PcInv(w, s) && RefusedInv(w, s) && CanAdvance(w, s, id)
    ensures var pc := NextCall(w, s, id).pc;
            w.kind(id).Close? && (pc == Leaving(false) || pc.Refused?) ==>
              s.thread.Ended? || s.threadTerminated || Failing(s.thread)
  {
    hide OrderInv, MemberInv, PillInv, LifecycleInv, SemaphoreInv, StartInv;
    hide NextCall;
    if w.kind(id).Close? {
      RefusedFrom(w, s, id);
      if NextCall(w, s, id).pc == Leaving(false) {
        NoPillUnderWay(w, s, id);
      }
    }
  }

  lemma RefusedFrom<J, V>(w: World<J, V>, s: State<J, V>, id: nat)
    requires CanAdvance(w, s, id) && w.kind(id).Close?
    ensures NextCall(w, s, id).pc == Leaving(false) ==> s.calls[id].pc.InLifecycle? && s.isShutdown
    ensures NextCall(w, s, id).pc.Refused? ==> s.calls[id].pc == Leaving(false)
  {
  }

  lemma RefusedRun<J, V>(w: World<J, V>, s: State<J, V>, choice: bool)
    requires RefusedInv(w, s) && CanRun(s.thread, s.wake, choice)
    ensures RefusedInv(w, RunThread(w, s, choice))
  {
  }

  lemma DoneWasAppended<J, V>(s: State<J, V>)
    requires OrderInv(s)
    ensures forall id :: id in s.done ==> id in s.appended
  {
    assert forall k :: 0 <= k < |s.done| ==> s.appended[k] == s.done[k];
  }

  /** The test of the initialiser, while no call can have begun: it sees isShutdown if the JVM was not created, or if
      the run loop has failed. */
  lemma InitialiserTest<J, V>(w: World<J, V>, s: State<J, V>)
    requires OrderInv(s) && MemberInv(s) && PillInv(w, s) && StartInv(w, s) && s.init.Woken?
    ensures s.isShutdown ==> s.thread.FailedEnd? || (s.created && Exiting(s.thread))
    ensures !w.escapes && s.isShutdown && s.created ==> s.threadTerminated
  {
    DoneWasAppended(s);
  }

  lemma LoopRun<J, V>(w: World<J, V>, s: State<J, V>, choice: bool)
    requires LoopInv(s) && CanRun(s.thread, s.wake, choice)
    ensures LoopInv(RunThread(w, s, choice))
  {
  }

  /** While the JVM thread is in its main loop an enqueuer cannot give up before it has signalled and woken. */
  lemma WakeAdvance<J, V>(w: World<J, V>, s: State<J, V>, id: nat)
    requires LoopInv(s) && WakeInv(s) && CanAdvance(w, s, id)
    ensures WakeInv(AdvanceCall(w, s, id))
  {
    var s' := AdvanceCall(w, s, id);
    assert id in s'.calls;
    if Looping(s.thread) {
      if other :| other in s.calls && BeforeSignalling(s.calls[other].pc) {
        assert other in s'.calls;
        assert other == id || BeforeSignalling(s'.calls[other].pc);
      }
      if other :| other in s.calls && s.calls[other].pc.BeforeWake? {
        assert other in s'.calls;
        assert other == id || s'.calls[other].pc.BeforeWake?;
      }
    }
  }

  lemma WakeRun<J, V>(w: World<J, V>, s: State<J, V>, choice: bool)
    requires LoopInv(s) && WakeInv(s) && CanRun(s.thread, s.wake, choice)
    ensures WakeInv(RunThread(w, s, choice))
  {
    var s' := RunThread(w, s, choice);
    assert Looping(s.thread) && Looping(s'.thread) ==> s'.calls == s.calls;
  }

  lemma DrainAdvance<J, V>(w: World<J, V>, s: State<J, V>, id: nat)
    requires DrainInv(s) && CanAdvance(w, s, id)
    ensures DrainInv(AdvanceCall(w, s, id))
  {
  }

  lemma DrainRun<J, V>(w: World<J, V>, s: State<J, V>, choice: bool)
    requires OrderInv(s) && DrainInv(s) && CanRun(s.thread, s.wake, choice)
    ensures DrainInv(RunThread(w, s, choice))
  {
    var s' := RunThread(w, s, choice);
    if s.thread.Fetch? && s.commands == [] {
      assert s.done == s.appended == s.appended[..|s.appended|];
    } else if Looping(s'.thread) || Exiting(s'.thread) {
      assert Looping(s.thread) || Exiting(s.thread);
      assert s'.done == s.done && s'.drained == s.drained;
    } else if Starting(s'.thread) || Failing(s'.thread) {
      assert Starting(s.thread) || Failing(s.thread);
    }
  }

  lemma PillRun<J, V>(w: World<J, V>, s: State<J, V>, choice: bool)
    requires PillInv(w, s) && CanRun(s.thread, s.wake, choice)
    ensures PillInv(w, RunThread(w, s, choice))
  {
    var s' := RunThread(w, s, choice);
    if s.thread.Running? {
      assert s'.done[|s.done|] == s.thread.cmd;
      assert forall id :: id in s'.done <==> id in s.done || id == s.thread.cmd;
    }
  }

  lemma LifecycleAdvance<J, V>(w: World<J, V>, s: State<J, V>, id: nat)
    requires PcInv(w, s) && LifecycleInv(w, s) && CanAdvance(w, s, id)
    ensures LifecycleInv(w, AdvanceCall(w, s, id))
  {
  }

  lemma OnePillAdvance<J, V>(w: World<J, V>, s: State<J, V>, id: nat)
    requires LifecycleInv(w, s) && OnePillInv(w, s) && CanAdvance(w, s, id)
    ensures OnePillInv(w, AdvanceCall(w, s, id))
  {
    var s' := AdvanceCall(w, s, id);
    assert s.calls[id].pc.BeforeAppend? ==> s'.appended == s.appended + [id];
    assert !s.calls[id].pc.BeforeAppend? ==> s'.appended == s.appended;
  }

  lemma LifecycleRun<J, V>(w: World<J, V>, s: State<J, V>, choice: bool)
    requires LifecycleInv(w, s) && OnePillInv(w, s) && CanRun(s.thread, s.wake, choice)
    ensures LifecycleInv(w, RunThread(w, s, choice)) && OnePillInv(w, RunThread(w, s, choice))
  {
  }

  lemma SemaphoreAdvance<J, V>(w: World<J, V>, s: State<J, V>, id: nat)
    requires PcInv(w, s) && SemaphoreInv(w, s) && CanAdvance(w, s, id)
    ensures SemaphoreInv(w, AdvanceCall(w, s, id))
  {
    var s' := AdvanceCall(w, s, id);
    assert id in s'.calls;
    if other :| other in s.calls && w.kind(other).Close? && PastEnd(s.calls[other].pc) {
      assert other in s'.calls && PastEnd(s'.calls[other].pc);
    }
  }

  lemma SemaphoreRun<J, V>(w: World<J, V>, s: State<J, V>, choice: bool)
    requires SemaphoreInv(w, s) && CanRun(s.thread, s.wake, choice)
    ensures SemaphoreInv(w, RunThread(w, s, choice))
  {
  }

  lemma StartAdvance<J, V>(w: World<J, V>, s: State<J, V>, id: nat)
    requires PcInv(w, s) && SemaphoreInv(w, s) && StartInv(w, s) && CanAdvance(w, s, id)
    ensures StartInv(w, AdvanceCall(w, s, id))
  {
    assert s.calls[id].pc.MarkShutdown? ==> PastEnd(s.calls[id].pc) && s.endTaken && s.thread.Ended?;
  }

  /** What a step of the JVM thread does to the flags of the start. */
  lemma RunFlags<J, V>(w: World<J, V>, s: State<J, V>, choice: bool)
    ensures var pc := s.thread;
            var s' := RunThread(w, s, choice);
            && s'.thread == NextPc(w, s, choice) && s'.init == s.init && s'.calls.Keys == s.calls.Keys
            && s'.created == (s.created || (pc.CreateJvm? && choice))
            && s'.isShutdown == (s.isShutdown || pc.FailShutdown? || pc.ExitShutdown?)
            && s'.startError == (s.startError || pc.FailError?)
  {
  }

  lemma StartRun<J, V>(w: World<J, V>, s: State<J, V>, choice: bool)
    requires StartInv(w, s) && SemaphoreInv(w, s) && CanRun(s.thread, s.wake, choice)
    ensures StartInv(w, RunThread(w, s, choice))
  {
    hide RunThread, SemaphoreInv;
    RunFlags(w, s, choice);
    var s' := RunThread(w, s, choice);
  }

  lemma FailedAdvance<J, V>(w: World<J, V>, s: State<J, V>, id: nat)
    requires StartInv(w, s) && FailedStartInv(w, s) && CanAdvance(w, s, id)
    ensures FailedStartInv(w, AdvanceCall(w, s, id))
  {
  }

  lemma FailedRun<J, V>(w: World<J, V>, s: State<J, V>, choice: bool)
    requires StartInv(w, s) && FailedStartInv(w, s) && CanRun(s.thread, s.wake, choice)
    ensures FailedStartInv(w, RunThread(w, s, choice))
  {
  }

  lemma PendingRun<J, V>(w: World<J, V>, s: State<J, V>, choice: bool)
    requires DrainInv(s) && PendingInv(s) && CanRun(s.thread, s.wake, choice)
    ensures PendingInv(RunThread(w, s, choice))
  {
  }

  /** Every step of every thread keeps the invariant. */
  lemma StepKeepsInv<J, V>(w: World<J, V>, s: State<J, V>, e: Event)
    requires Inv(w, s) && Enabled(w, s, e)
    ensures Inv(w, Apply(w, s, e))
  {
    match e
    case Init => InitKeepsInv(w, s);
    case BeginCall(id) => BeginKeepsInv(w, s, id);
    case Advance(id) => AdvanceKeepsInv(w, s, id);
    case Complete(id) => CompleteKeepsInv(w, s, id);
    case Thread(choice) => RunKeepsInv(w, s, choice);
  }

  /** Calls and history stay, and no call that was there changes: the call invariants stay, too. */
  lemma CallsFramed<J, V>(w: World<J, V>, s: State<J, V>, s': State<J, V>)
    requires CallsInv(w, s) && s'.done == s.done && s'.thread == s.thread
    requires forall id :: id in s.calls ==> id in s'.calls && s'.calls[id] == s.calls[id]
    requires forall id :: id in s'.calls && id !in s.calls ==> id !in s.done && Fresh(w, s', id)
    ensures CallsInv(w, s')
  {
    forall k | 0 <= k < |s.done| ensures FinishedAt(w, s', k) {
      assert FinishedAt(w, s, k);
    }
    forall id | id in s'.calls && id !in s'.done ensures Fresh(w, s', id) {
      assert id in s.calls ==> Fresh(w, s, id);
    }
  }

  lemma WakeFramed<J, V>(s: State<J, V>, s': State<J, V>)
    requires WakeInv(s) && s'.thread == s.thread && s'.commands == s.commands
    requires s'.signalled == s.signalled && s'.wake == s.wake
    requires forall id :: id in s.calls ==> id in s'.calls && s'.calls[id].pc == s.calls[id].pc
    ensures WakeInv(s')
  {
    assert forall id :: id in s.calls ==> id in s'.calls && s'.calls[id].pc == s.calls[id].pc;
  }

  /** The program counters stay, but for calls that have just begun. */
  ghost predicate PcsStay<J, V>(s: State<J, V>, s': State<J, V>) {
    && s' == s.(calls := s'.calls)
    && (forall id :: id in s.calls ==> id in s'.calls && s'.calls[id].pc == s.calls[id].pc)
    && (forall id :: id in s'.calls && id !in s.calls ==> s'.calls[id].pc.Start?)
  }

  lemma CloseFramed<J, V>(w: World<J, V>, s: State<J, V>, s': State<J, V>)
    requires PcsStay(s, s')
    requires LifecycleInv(w, s) && OnePillInv(w, s) && SemaphoreInv(w, s)
    ensures LifecycleInv(w, s') && OnePillInv(w, s') && SemaphoreInv(w, s')
  {
    assert forall id :: id in s.calls ==> id in s'.calls && s'.calls[id].pc == s.calls[id].pc;
  }

  lemma PcFramed<J, V>(w: World<J, V>, s: State<J, V>, s': State<J, V>)
    requires PcsStay(s, s')
    requires MemberInv(s) && PcInv(w, s) && LifecycleInv(w, s) && OnePillInv(w, s) && SemaphoreInv(w, s)
    requires RefusedInv(w, s)
    ensures MemberInv(s') && PcInv(w, s') && LifecycleInv(w, s') && OnePillInv(w, s') && SemaphoreInv(w, s')
    ensures RefusedInv(w, s')
  {
    hide LifecycleInv, OnePillInv, SemaphoreInv;
    CloseFramed(w, s, s');
  }

  lemma InitFramed<J, V>(w: World<J, V>, s: State<J, V>, s': State<J, V>)
    requires s' == s.(startSem := s'.startSem, init := s'.init)
    requires MemberInv(s) && PcInv(w, s) && LifecycleInv(w, s) && OnePillInv(w, s) && PillInv(w, s) && RefusedInv(w, s)
    requires OrderInv(s) && FoldInv(w, s) && LoopInv(s) && DrainInv(s) && PendingInv(s) && FailedStartInv(w, s)
    ensures OrderInv(s') && FoldInv(w, s') && LoopInv(s') && MemberInv(s') && PcInv(w, s')
    ensures LifecycleInv(w, s') && OnePillInv(w, s') && PillInv(w, s')
    ensures RefusedInv(w, s') && DrainInv(s') && PendingInv(s') && FailedStartInv(w, s')
  {
  }

  lemma InitKeepsStart<J, V>(w: World<J, V>, s: State<J, V>)
    requires OrderInv(s) && MemberInv(s) && PillInv(w, s) && StartInv(w, s) && SemaphoreInv(w, s) && InitInv(w, s)
    requires Enabled(w, s, Init)
    ensures SemaphoreInv(w, RunInit(s)) && StartInv(w, RunInit(s)) && InitInv(w, RunInit(s))
  {
    if s.init.Woken? {
      InitialiserTest(w, s);
    }
    hide OrderInv, MemberInv, PillInv;
  }

  lemma InitKeepsInv<J, V>(w: World<J, V>, s: State<J, V>)
    requires Inv(w, s) && Enabled(w, s, Init)
    ensures Inv(w, RunInit(s))
  {
    hide CallsInv, WakeInv, OrderInv, FoldInv, LoopInv, MemberInv, PcInv, LifecycleInv, OnePillInv, PillInv;
    hide RefusedInv, DrainInv, PendingInv, FailedStartInv, SemaphoreInv, StartInv, InitInv;
    CallsFramed(w, s, RunInit(s));
    WakeFramed(s, RunInit(s));
    InitFramed(w, s, RunInit(s));
    InitKeepsStart(w, s);
  }

  /** What says nothing of single calls stays when only the calls change. */
  lemma RestFramed<J, V>(w: World<J, V>, s: State<J, V>, s': State<J, V>)
    requires s' == s.(calls := s'.calls)
    requires OrderInv(s) && FoldInv(w, s) && LoopInv(s) && DrainInv(s)
    requires PillInv(w, s) && InitInv(w, s) && PendingInv(s)
    ensures OrderInv(s') && FoldInv(w, s') && LoopInv(s') && DrainInv(s') && PillInv(w, s') && InitInv(w, s')
    ensures PendingInv(s')
  {
  }

  lemma StartFramed<J, V>(w: World<J, V>, s: State<J, V>, s': State<J, V>)
    requires PcsStay(s, s') && StartInv(w, s) && FailedStartInv(w, s)
    requires !w.escapes && (s.init.AwaitStart? || s.init.Woken?) ==> s'.calls.Keys == s.calls.Keys
    ensures StartInv(w, s') && FailedStartInv(w, s')
  {
  }

  lemma BeginKeepsInv<J, V>(w: World<J, V>, s: State<J, V>, id: nat)
    requires Inv(w, s) && Enabled(w, s, BeginCall(id))
    ensures Inv(w, Apply(w, s, BeginCall(id)))
  {
    var s' := Apply(w, s, BeginCall(id));
    assert id in s.done ==> id in s.appended;
    assert PcsStay(s, s');
    hide CallsInv, WakeInv, MemberInv, PcInv, LifecycleInv, OnePillInv, SemaphoreInv, RefusedInv;
    hide OrderInv, FoldInv, LoopInv, DrainInv, PillInv, InitInv, PendingInv, StartInv, FailedStartInv;
    CallsFramed(w, s, s');
    WakeFramed(s, s');
    PcFramed(w, s, s');
    RestFramed(w, s, s');
    StartFramed(w, s, s');
  }

  lemma CompleteFramed<J, V>(w: World<J, V>, s: State<J, V>, id: nat)
    requires Enabled(w, s, Complete(id)) && WakeInv(s)
    requires MemberInv(s) && PcInv(w, s) && LifecycleInv(w, s) && OnePillInv(w, s) && SemaphoreInv(w, s)
    requires RefusedInv(w, s)
    ensures var s' := RunCompletion(w, s, id);
            && WakeInv(s') && RefusedInv(w, s')
            && MemberInv(s') && PcInv(w, s') && LifecycleInv(w, s') && OnePillInv(w, s') && SemaphoreInv(w, s')
  {
    hide WakeInv, MemberInv, RefusedInv, PcInv, LifecycleInv, OnePillInv, SemaphoreInv;
    var s' := RunCompletion(w, s, id);
    WakeFramed(s, s');
    PcFramed(w, s, s');
  }

  lemma CompleteKeepsInv<J, V>(w: World<J, V>, s: State<J, V>, id: nat)
    requires Inv(w, s) && Enabled(w, s, Complete(id))
    ensures Inv(w, RunCompletion(w, s, id))
  {
    hide CallsInv, WakeInv, MemberInv, PcInv, LifecycleInv, OnePillInv, SemaphoreInv, RefusedInv;
    CallsComplete(w, s, id);
    CompleteFramed(w, s, id);
  }

  lemma AdvanceKeepsInv<J, V>(w: World<J, V>, s: State<J, V>, id: nat)
    requires Inv(w, s) && CanAdvance(w, s, id)
    ensures Inv(w, AdvanceCall(w, s, id))
  {
    OrderAdvance(w, s, id);
    MemberAdvance(w, s, id);
    CallsAdvance(w, s, id);
    PcAdvance(w, s, id);
    WakeAdvance(w, s, id);
    DrainAdvance(w, s, id);
    LifecycleAdvance(w, s, id);
    OnePillAdvance(w, s, id);
    SemaphoreAdvance(w, s, id);
    StartAdvance(w, s, id);
    FailedAdvance(w, s, id);
    RefusedAdvance(w, s, id);
  }

  lemma RunKeepsInv<J, V>(w: World<J, V>, s: State<J, V>, choice: bool)
    requires Inv(w, s) && CanRun(s.thread, s.wake, choice)
    ensures Inv(w, RunThread(w, s, choice))
  {
    OrderRun(w, s, choice);
    MemberRun(w, s, choice);
    FoldRun(w, s, choice);
    CallsRun(w, s, choice);
    PcRun(w, s, choice);
    LoopRun(w, s, choice);
    WakeRun(w, s, choice);
    DrainRun(w, s, choice);
    PillRun(w, s, choice);
    LifecycleRun(w, s, choice);
    SemaphoreRun(w, s, choice);
    RefusedRun(w, s, choice);
    StartRun(w, s, choice);
    FailedRun(w, s, choice);
    PendingRun(w, s, choice);
  }

  /** Every run keeps the invariant. */
  lemma {:induction false} RunKeeps<J, V>(w: World<J, V>, s: State<J, V>, es: seq<Event>, s': State<J, V>)
    requires Inv(w, s) && Replay(w, s, es) == Some(s')
    ensures Inv(w, s')
  {
    if es != [] {
      var before := Replay(w, s, es[..|es| - 1]).value;
      RunKeeps(w, s, es[..|es| - 1], before);
      StepKeepsInv(w, before, es[|es| - 1]);
    }
  }

  /** Every reachable state satisfies the invariant. */
  lemma ReachableInv<J, V>(w: World<J, V>, es: seq<Event>, s: State<J, V>)
    requires Reaches(w, es, s)
    ensures Inv(w, s)
  {
    InitialInv(w);
    RunKeeps(w, Initial(w), es, s);
  }
}
