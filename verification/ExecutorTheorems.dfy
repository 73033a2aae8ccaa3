/** What the executor guarantees in every run. */
module ExecutorTheorems {
  import opened Wrappers
  import opened Executor
  import opened ExecutorInvariant

  // ---------- a serial executor

  /** In every run the blocks execute in the order of their appends, each at most once, and the JVM is where
      that serial execution leaves it. */
  lemma SerialExecution<J, V>(w: World<J, V>, es: seq<Event>, s: State<J, V>)
    requires Reaches(w, es, s)
    ensures s.done <= s.appended && NoDuplicates(s.appended) && NoDuplicates(s.done)
    ensures s.jvm == Fold(w, s.done)
    ensures forall id :: id in s.appended ==> id in s.calls && !s.calls[id].pc.Refused?
  {
    hide CallsInv, LoopInv, WakeInv, DrainInv, PillInv, LifecycleInv, OnePillInv, SemaphoreInv, StartInv, PendingInv;
    ReachableInv(w, es, s);
    DoneOnce(s);
    assert forall k :: 0 <= k < |s.done| ==> s.done[k] == s.appended[k];
  }

  /** A sync call that has returned yields what its own block returned in the serial execution, or 0 or nil if
      the block threw; one that was refused yields 0 or nil and its block never runs. */
  lemma SyncResult<J, V>(w: World<J, V>, es: seq<Event>, s: State<J, V>, id: nat)
    requires Reaches(w, es, s) && id in s.calls && w.kind(id).Sync?
    requires s.calls[id].pc.Returned? || s.calls[id].pc.Refused?
    ensures s.calls[id].pc.Returned? ==>
              exists k :: 0 <= k < |s.done| && s.done[k] == id
                          && s.calls[id].ret == ResultAt(w, s.done, k).GetOr(w.zero)
    ensures s.calls[id].pc.Refused? ==> s.calls[id].ret == w.zero && id !in s.appended
  {
    hide LoopInv, WakeInv, DrainInv, PillInv, LifecycleInv, OnePillInv, SemaphoreInv, StartInv, PendingInv, FoldInv;
    ReachableInv(w, es, s);
    if id in s.done {
      var k :| 0 <= k < |s.done| && s.done[k] == id;
      assert FinishedAt(w, s, k);
      assert s.appended[k] == id;
    } else {
      assert Fresh(w, s, id);
    }
  }

  /** The serial executor that a run of the machine looks like: either nothing happens to it, or one block runs
      whose call has begun and has not returned. So a block runs strictly between call and return. */
  ghost predicate SerialStep<J, V>(w: World<J, V>, s: State<J, V>, s': State<J, V>) {
    || (s'.done == s.done && s'.jvm == s.jvm)
    || exists id :: SerialBlock(w, s, s', id)
  }

  ghost predicate SerialBlock<J, V>(w: World<J, V>, s: State<J, V>, s': State<J, V>, id: nat) {
    && s'.done == s.done + [id] && s'.jvm == Exec(w, id, s.jvm).state
    && id !in s.done && id in s.calls && id in s'.calls
    && HasAppended(s.calls[id].pc) && HasAppended(s'.calls[id].pc)
    && (w.kind(id).Sync? ==> !s.calls[id].pc.Returned? && !s'.calls[id].pc.Returned?)
  }

  lemma EveryStepIsSerial<J, V>(w: World<J, V>, s: State<J, V>, e: Event)
    requires Inv(w, s) && Enabled(w, s, e)
    ensures SerialStep(w, s, Apply(w, s, e))
  {
    if e.Thread? && s.thread.Running? {
      var cmd := s.thread.cmd;
      var s' := RunThread(w, s, e.choice);
      InHandIsNew(s, cmd);
      assert Fresh(w, s, cmd) && HasAppended(s.calls[cmd].pc) by {
        assert s.appended[|s.done|] == cmd;
      }
      assert SerialBlock(w, s, s', cmd);
    }
  }

  /** What one step never takes back. */
  ghost predicate Grows<J, V>(s: State<J, V>, s': State<J, V>) {
    && s.appended <= s'.appended && s.done <= s'.done && s.calls.Keys <= s'.calls.Keys
    && (s.isShutdown ==> s'.isShutdown) && (s.shutdownRequested ==> s'.shutdownRequested)
    && (s.thread.Ended? ==> s'.thread.Ended? && s'.done == s.done)
  }

  lemma StepGrows<J, V>(w: World<J, V>, s: State<J, V>, e: Event)
    requires Enabled(w, s, e)
    ensures Grows(s, Apply(w, s, e))
  {
    match e
    case Advance(id) => assert Grows(s, AdvanceCall(w, s, id));
    case Complete(id) => assert Grows(s, RunCompletion(w, s, id));
    case Thread(choice) => assert Grows(s, RunThread(w, s, choice));
    case _ =>
  }

  /** In every run the order of appends and the order of execution only grow, isShutdown and shutdownRequested
      never go back to NO, and the JVM thread stays ended once it has ended. */
  lemma {:induction false} HistoryGrows<J, V>(w: World<J, V>, s: State<J, V>, more: seq<Event>, later: State<J, V>)
    requires Replay(w, s, more) == Some(later)
    ensures Grows(s, later)
  {
    if more != [] {
      var before := Replay(w, s, more[..|more| - 1]).value;
      HistoryGrows(w, s, more[..|more| - 1], before);
      StepGrows(w, before, more[|more| - 1]);
      GrowsTransitive(s, before, later);
    }
  }

  lemma GrowsTransitive<J, V>(s: State<J, V>, before: State<J, V>, later: State<J, V>)
    requires Grows(s, before) && Grows(before, later)
    ensures Grows(s, later)
  {
  }

  /** The serial order respects real time: a sync call that has returned before another call begins comes
      before it in the order of execution. */
  lemma RealTimeOrder<J, V>(w: World<J, V>, es: seq<Event>, s: State<J, V>, more: seq<Event>, later: State<J, V>,
                            first: nat, second: nat)
    requires Reaches(w, es, s) && Replay(w, s, more) == Some(later)
    requires first in s.calls && w.kind(first).Sync? && s.calls[first].pc.Returned?
    requires second !in s.calls && second in later.done
    ensures exists i, j :: 0 <= i < j < |later.done| && later.done[i] == first && later.done[j] == second
  {
    hide FoldInv, CallsInv, WakeInv, DrainInv, PillInv, LifecycleInv, OnePillInv, SemaphoreInv, StartInv, PendingInv;
    SyncResult(w, es, s, first);
    ReachableInv(w, es, s);
    HistoryGrows(w, s, more, later);
    var i :| 0 <= i < |s.done| && s.done[i] == first;
    var j :| 0 <= j < |later.done| && later.done[j] == second;
    assert forall k :: 0 <= k < |s.done| ==> later.done[k] == s.done[k] == s.appended[k];
    assert second !in s.appended;
    assert |s.done| <= j;
    assert later.done[i] == first;
  }

  // ---------- no lost wakeup

  /** Whenever the JVM thread is parked and the queue is not empty, some enqueuer is between its append and its
      signal, or the source is signalled and a wakeup is pending or about to be sent. So what is missing is on its
      way: EnqueuerWakes takes the enqueuer on to its signal and its wakeup, and then WakeupDelivers applies. The
      one-second timeout plays no part in this. */
  lemma NoLostWakeup<J, V>(w: World<J, V>, es: seq<Event>, s: State<J, V>)
    requires Reaches(w, es, s) && s.thread.Asleep? && s.commands != []
    ensures || (exists id :: id in s.calls && BeforeSignalling(s.calls[id].pc))
            || (s.signalled && (s.wake || exists id :: id in s.calls && s.calls[id].pc.BeforeWake?))
  {
    ReachableInv(w, es, s);
  }

  /** An enqueuer that is on its way while the JVM thread is parked does signal and wake: neither test of the
      run loop fails for it. */
  lemma EnqueuerWakes<J, V>(w: World<J, V>, es: seq<Event>, s: State<J, V>, id: nat)
    requires Reaches(w, es, s) && s.thread.Asleep? && id in s.calls
    requires BeforeSignalling(s.calls[id].pc) || s.calls[id].pc.BeforeWake?
    ensures Enabled(w, s, Advance(id))
    ensures var s' := Apply(w, s, Advance(id));
            match s.calls[id].pc
            case AfterAppend => s'.calls[id].pc.SawLoop?
            case SawLoop => s'.calls[id].pc.BeforeSignal?
            case BeforeSignal => s'.signalled && s'.calls[id].pc.BeforeWake?
            case _ => s'.wake
  {
    ReachableInv(w, es, s);
  }

  lemma ThreeSteps<J, V>(w: World<J, V>, s: State<J, V>, e: Event, s1: State<J, V>, s2: State<J, V>)
    requires Enabled(w, s, e) && s1 == Apply(w, s, e)
    requires Enabled(w, s1, e) && s2 == Apply(w, s1, e) && Enabled(w, s2, e)
    ensures Replay(w, s, [e, e, e]) == Some(Apply(w, s2, e))
  {
    hide Enabled, Apply;
    assert [e][..0] == [] && [e, e][..1] == [e] && [e, e, e][..2] == [e, e];
    assert Replay(w, s, [e]) == Some(s1);
    assert Replay(w, s, [e, e]) == Some(s2);
  }

  lemma WakeStep<J, V>(w: World<J, V>, s: State<J, V>)
    requires s.thread.Asleep? && s.wake
    ensures var s' := RunThread(w, s, true);
            s'.thread == CheckSource && s'.signalled == s.signalled && s'.commands == s.commands
  {
  }

  lemma PerformStep<J, V>(w: World<J, V>, s: State<J, V>)
    requires s.thread.CheckSource? && s.signalled
    ensures var s' := RunThread(w, s, true);
            s'.thread == Fetch(Perform) && s'.commands == s.commands
  {
  }

  lemma RemoveStep<J, V>(w: World<J, V>, s: State<J, V>)
    requires s.thread.Fetch? && s.commands != []
    ensures RunThread(w, s, true).thread == Begin(s.thread.ctx, s.commands[0])
  {
  }

  /** A signalled source and a pending wakeup take the parked JVM thread to the head of the queue in three steps
      of its own, whatever the other threads do not do. */
  lemma WakeupDelivers<J, V>(w: World<J, V>, s: State<J, V>)
    requires s.thread.Asleep? && s.commands != [] && s.signalled && s.wake
    ensures Replay(w, s, [Thread(true), Thread(true), Thread(true)]).Some?
    ensures Replay(w, s, [Thread(true), Thread(true), Thread(true)]).value.thread == Begin(Perform, s.commands[0])
  {
    hide RunThread, Replay;
    var t := Thread(true);
    var s1 := RunThread(w, s, true);
    WakeStep(w, s);
    var s2 := RunThread(w, s1, true);
    PerformStep(w, s1);
    RemoveStep(w, s2);
    ThreeSteps(w, s, t, s1, s2);
  }

  // ---------- the account of a shutdown

  /** When a close call comes back, its own pill run or refused because another closer was there first, and the run
      loop never failed: the JVM thread has ended, a poison pill has run, every block appended up to a pill has run,
      and each sync call whose block has run has its semaphore posted, or has consumed the post. If the JVM never
      existed, no block has run at all. */
  lemma CloseRunsEverythingBefore<J, V>(w: World<J, V>, es: seq<Event>, s: State<J, V>, id: nat)
    requires Reaches(w, es, s) && id in s.calls && w.kind(id).Close?
    requires s.calls[id].pc.Returned? || s.calls[id].pc.Refused?
    ensures s.created && !s.threadTerminated ==>
              && s.thread.Ended? && (exists pill :: pill in s.done && w.kind(pill).Close?)
              && (s.calls[id].pc.Returned? ==> id in s.done)
              && RunUpToPill(w, s) && AllPosted(w, s)
    ensures !s.created ==> s.calls[id].pc.Refused? && s.done == []
  {
    ReachableInv(w, es, s);
    ClosedMeansEnded(w, s, id);
    if s.created && !s.threadTerminated {
      hide LifecycleInv, SemaphoreInv, StartInv, RefusedInv, WakeInv, LoopInv, PendingInv, FoldInv, PcInv;
      var pill :| pill in s.done && w.kind(pill).Close?;
      PillRunsAll(w, s, pill);
    }
  }

  /** Where the JVM thread is when a close call has come back. */
  lemma ClosedMeansEnded<J, V>(w: World<J, V>, s: State<J, V>, id: nat)
    requires OrderInv(s) && MemberInv(s) && DrainInv(s) && PillInv(w, s) && SemaphoreInv(w, s) && StartInv(w, s)
    requires RefusedInv(w, s) && id in s.calls && w.kind(id).Close?
    requires s.calls[id].pc.Returned? || s.calls[id].pc.Refused?
    ensures s.created && !s.threadTerminated ==> s.thread.Ended? && s.shutdownRequested
    ensures s.calls[id].pc.Returned? ==> s.thread.Ended? && id in s.appended
    ensures !s.created ==> s.calls[id].pc.Refused? && s.done == []
  {
    hide RefusedInv, OrderInv;
    if s.calls[id].pc.Returned? {
      assert PastEnd(s.calls[id].pc);
      assert s.endTaken && s.thread.Ended?;
    } else {
      RefusedMeans(w, s, id);
    }
  }

  lemma RefusedMeans<J, V>(w: World<J, V>, s: State<J, V>, id: nat)
    requires RefusedInv(w, s) && id in s.calls && w.kind(id).Close? && s.calls[id].pc.Refused?
    ensures s.thread.Ended? || s.threadTerminated || Failing(s.thread)
  {
  }

  /** Every block appended before a poison pill has run, in this order. */
  ghost predicate RunUpToPill<J, V>(w: World<J, V>, s: State<J, V>) {
    forall p, q :: 0 <= q <= p < |s.appended| && w.kind(s.appended[p]).Close? ==>
      q < |s.done| && s.done[q] == s.appended[q]
  }

  ghost predicate AllPosted<J, V>(w: World<J, V>, s: State<J, V>) {
    forall q :: 0 <= q < |s.done| && w.kind(s.done[q]).Sync? ==>
      s.done[q] in s.calls && s.calls[s.done[q]].sem + Count(s.calls[s.done[q]].pc.Returned?) == 1
  }

  /** There is one pill only, so once a pill has run every pill has. */
  lemma PillRunsAll<J, V>(w: World<J, V>, s: State<J, V>, pill: nat)
    requires OrderInv(s) && MemberInv(s) && CallsInv(w, s) && OnePillInv(w, s) && s.thread.Ended?
    requires pill in s.done && w.kind(pill).Close?
    ensures RunUpToPill(w, s) && AllPosted(w, s)
    ensures forall id :: id in s.appended && w.kind(id).Close? ==> id in s.done
  {
    forall q | 0 <= q < |s.done| && w.kind(s.done[q]).Sync?
      ensures s.done[q] in s.calls && s.calls[s.done[q]].sem + Count(s.calls[s.done[q]].pc.Returned?) == 1
    {
      assert FinishedAt(w, s, q);
    }
    var at :| 0 <= at < |s.done| && s.done[at] == pill;
    forall p, q | 0 <= q <= p < |s.appended| && w.kind(s.appended[p]).Close?
      ensures q < |s.done| && s.done[q] == s.appended[q]
    {
      assert s.appended[at] == pill == s.appended[p];
    }
  }

  /** The JVM thread has stored isShutdown and has not yet ended. */
  ghost predicate TearingDown<V>(pc: ThreadPc<V>) {
    pc.ExitRemove? || pc.ExitSource? || pc.ExitLoop? || pc.ExitDestroy? || pc.ExitSignal?
  }

  /** The condition on the run loop is exact. A closer on the lifecycle queue is sent back while the JVM thread is still
      at work if and only if the run loop has failed and the thread is taking the JVM down. */
  lemma RefusedBeforeTheEnd<J, V>(w: World<J, V>, es: seq<Event>, s: State<J, V>, id: nat)
    requires Reaches(w, es, s) && At(s, id, InLifecycle) && s.created
    ensures NextCall(w, s, id).pc == Leaving(false) && !s.thread.Ended? <==>
            s.threadTerminated && TearingDown(s.thread)
  {
    RefusedWhen(w, es, s, id);
  }

  lemma RefusedWhen<J, V>(w: World<J, V>, es: seq<Event>, s: State<J, V>, id: nat)
    requires Reaches(w, es, s) && At(s, id, InLifecycle) && s.created
    ensures s.isShutdown && !s.thread.Ended? <==> s.threadTerminated && TearingDown(s.thread)
  {
    hide WakeInv, LoopInv, PendingInv, FailedStartInv;
    ReachableInv(w, es, s);
    if s.isShutdown {
      NoPillUnderWay(w, s, id);
    }
  }

  /** With no command in hand an appended command is either done or queued, never both. */
  lemma DoneOrQueued<J, V>(s: State<J, V>, id: nat)
    requires OrderInv(s) && MemberInv(s) && InHand(s.thread) == [] && id in s.appended
    ensures id in s.done <==> id !in s.commands
  {
    assert s.appended == s.done + s.commands;
    if id in s.done {
      var k :| 0 <= k < |s.done| && s.done[k] == id;
      forall j | 0 <= j < |s.commands| ensures s.commands[j] != id {
        assert s.appended[k] == id && s.appended[|s.done| + j] == s.commands[j];
      }
    }
  }

  /** When the JVM thread has ended, the commands left unrun are exactly those appended after its last drain saw
      the queue empty, and the sync calls left waiting are exactly those among them. */
  lemma LeftUnrun<J, V>(w: World<J, V>, es: seq<Event>, s: State<J, V>)
    requires Reaches(w, es, s) && s.thread.Ended?
    ensures s.drained <= |s.appended|
    ensures s.done == s.appended[..s.drained] && s.commands == s.appended[s.drained..]
    ensures forall id :: id in s.calls && w.kind(id).Sync? && HasAppended(s.calls[id].pc) ==>
              (id in s.commands <==> s.calls[id].sem == 0 && !s.calls[id].pc.Returned?)
  {
    ReachableInv(w, es, s);
    assert s.appended[s.drained..] == s.commands;
    forall id | id in s.calls && w.kind(id).Sync? && HasAppended(s.calls[id].pc)
      ensures id in s.commands <==> s.calls[id].sem == 0 && !s.calls[id].pc.Returned?
    {
      DoneOrQueued(s, id);
      if id in s.done {
        var k :| 0 <= k < |s.done| && s.done[k] == id;
        assert FinishedAt(w, s, k);
      } else {
        assert Fresh(w, s, id);
      }
    }
  }

  /** A sync call that is left behind waits for ever: in no continuation of the run does it come back. */
  lemma LeftBehindForever<J, V>(w: World<J, V>, es: seq<Event>, s: State<J, V>, more: seq<Event>,
                                later: State<J, V>, id: nat)
    requires Reaches(w, es, s) && s.thread.Ended? && Replay(w, s, more) == Some(later)
    requires id in s.commands && w.kind(id).Sync?
    ensures id in later.calls && later.calls[id].sem == 0 && !later.calls[id].pc.Returned?
    ensures !later.calls[id].pc.Refused?
  {
    ReachableInv(w, es, s);
    RunKeeps(w, s, more, later);
    HistoryGrows(w, s, more, later);
    assert id in s.appended;
    DoneOrQueued(s, id);
    assert id in later.appended;
    assert Fresh(w, later, id);
  }

  // ---------- life-cycle semaphores

  /** However many close calls there are, at most one poison pill is ever appended; a closer that waits is alone
      in doing so, and has one end signal posted if the JVM thread has ended. Otherwise one is to come: its pill has
      been appended, and PillEndsTheThread bounds what the JVM thread does before its end. */
  lemma CloserHasItsSignal<J, V>(w: World<J, V>, es: seq<Event>, s: State<J, V>, id: nat)
    requires Reaches(w, es, s) && id in s.calls && w.kind(id).Close? && s.calls[id].pc.Waiting?
    ensures s.endSem == (if s.thread.Ended? then 1 else 0) && !s.endTaken
    ensures id in s.appended
    ensures forall other :: other in s.appended && w.kind(other).Close? ==> other == id
    ensures forall other :: other in s.calls && w.kind(other).Close? && other != id ==>
              s.calls[other].pc.Start? || s.calls[other].pc.Refused? || s.calls[other].pc.Returned?
    ensures !w.escapes ==> !Failing(s.thread)
  {
    ReachableInv(w, es, s);
    assert id in s.appended;
    assert forall other :: other in s.calls && PastEnd(s.calls[other].pc) ==> other in s.appended;
    assert s.lifecycle == Some(id);
  }

  /** Each life-cycle semaphore is posted at most once and never holds more than one post. */
  lemma SemaphoresPostOnce<J, V>(w: World<J, V>, es: seq<Event>, s: State<J, V>)
    requires Reaches(w, es, s)
    ensures s.startSem + Count(!s.init.AwaitStart?) == Count(Started(s.thread))
    ensures s.endSem + Count(s.endTaken) == Count(s.thread.Ended?)
  {
    ReachableInv(w, es, s);
  }

  /** After a failed start no call appends anything and no closer waits, if calls begin after the initialiser. */
  lemma NoWaitAfterFailedStart<J, V>(w: World<J, V>, es: seq<Event>, s: State<J, V>, id: nat)
    requires Reaches(w, es, s) && !w.escapes && s.thread.FailedEnd? && id in s.calls
    ensures s.calls[id].pc in {Start, InLifecycle, Leaving(false), Refused}
    ensures id !in s.appended
  {
    ReachableInv(w, es, s);
  }

  // ---------- the start handshake

  /** Once the initialiser is through, the start signal has been posted and consumed, and it has failed with the start
      error exactly if the JVM could not be created. If nobody can close the object before, it fails without an
      error only if the run loop has failed; so as long as the run loop starts, construction succeeds exactly if the
      JVM was created. */
  lemma StartHandshake<J, V>(w: World<J, V>, es: seq<Event>, s: State<J, V>)
    requires Reaches(w, es, s) && (s.init.Succeeded? || s.init.FailedWith?)
    ensures s.init == FailedWith(true) <==> !s.created
    ensures s.init == FailedWith(true) <==> s.thread.FailedEnd?
    ensures s.init == FailedWith(false) ==> s.created && Exiting(s.thread)
    ensures !w.escapes && s.init == FailedWith(false) ==> s.threadTerminated
    ensures !w.escapes && !s.threadTerminated ==> (s.init.Succeeded? <==> s.created)
    ensures s.startSem == 0 && Started(s.thread)
  {
    ReachableInv(w, es, s);
  }

  /** Where the initialiser is about to look: it will fail without an error if and only if the JVM was created and
      isShutdown is stored; if nobody can close the object before, if and only if the run loop has failed and
      isShutdown is stored. */
  lemma InitialiserLooks<J, V>(w: World<J, V>, es: seq<Event>, s: State<J, V>)
    requires Reaches(w, es, s) && s.init.Woken?
    ensures RunInit(s).init == FailedWith(true) <==> !s.created
    ensures RunInit(s).init == FailedWith(false) <==> s.created && s.isShutdown
    ensures !w.escapes ==> (RunInit(s).init == FailedWith(false) <==> s.threadTerminated && s.isShutdown)
  {
    ReachableInv(w, es, s);
    InitialiserTest(w, s);
  }

  lemma InstalledBeforeAppends<J, V>(w: World<J, V>, es: seq<Event>, s: State<J, V>, id: nat)
    requires Reaches(w, es, s) && !w.escapes && id in s.calls
    requires s.calls[id].pc.BeforeAppend? || HasAppended(s.calls[id].pc)
    ensures s.created && (InDoCommand(s.thread) || Looping(s.thread) || Exiting(s.thread))
    ensures Attached(s.thread) ==> s.runLoop && s.runLoopSource
  {
    ReachableInv(w, es, s);
  }

  // ---------- asynchronous completions

  /** A completion is invoked at most once: with the value of its own block after that block has returned, never
      if the block threw; or inline with 0 or nil, its block never run, if shutdown was already visible. */
  lemma Completions<J, V>(w: World<J, V>, es: seq<Event>, s: State<J, V>, id: nat)
    requires Reaches(w, es, s) && id in s.calls && IsAsync(w.kind(id))
    ensures |s.calls[id].invoked| <= 1
    ensures s.calls[id].invoked != [] ==> w.kind(id).completion
    ensures s.calls[id].pc.Refused? ==>
              id !in s.appended && s.calls[id].invoked == if w.kind(id).completion then [w.zero] else []
    ensures s.calls[id].invoked != [] && !s.calls[id].pc.Refused? ==>
              exists k :: 0 <= k < |s.done| && s.done[k] == id
                          && ResultAt(w, s.done, k) == Some(s.calls[id].invoked[0])
    ensures forall k :: 0 <= k < |s.done| && s.done[k] == id && ResultAt(w, s.done, k).None? ==>
              s.calls[id].invoked == [] && s.calls[id].dispatched.None?
  {
    hide LoopInv, WakeInv, DrainInv, PillInv, LifecycleInv, OnePillInv, SemaphoreInv, StartInv, PendingInv;
    ReachableInv(w, es, s);
    if id in s.done {
      forall k | 0 <= k < |s.done| && s.done[k] == id
        ensures FinishedAt(w, s, k) && s.appended[k] == id
      {
      }
    } else {
      assert Fresh(w, s, id);
    }
  }

  /** Exactly when a nil completion is called. callJvmAsyncVoid calls it if and only if the call was refused, since it
      tests for nil everywhere else; its siblings also once the completion of a block that returned has run. */
  lemma NilCompletions<J, V>(w: World<J, V>, es: seq<Event>, s: State<J, V>, id: nat)
    requires Reaches(w, es, s) && id in s.calls
    ensures s.calls[id].nilCalled ==> IsAsync(w.kind(id)) && !w.kind(id).completion
    ensures w.kind(id) == AsyncVoid(false) ==> (s.calls[id].nilCalled <==> s.calls[id].pc.Refused?)
    ensures w.kind(id) == AsyncValue(false) ==>
              (s.calls[id].nilCalled <==> s.calls[id].pc.Refused? || CompletionHasRun(w, s, id))
  {
    hide LoopInv, WakeInv, DrainInv, PillInv, LifecycleInv, OnePillInv, SemaphoreInv, StartInv, PendingInv;
    ReachableInv(w, es, s);
    if id in s.done {
      var k :| 0 <= k < |s.done| && s.done[k] == id;
      DoneOnce(s);
      assert FinishedAt(w, s, k) && s.appended[k] == id;
    } else {
      assert Fresh(w, s, id);
    }
  }

  /** The block of a call has returned, its wrapper has ended, and what that dispatched is no longer waiting. */
  ghost predicate CompletionHasRun<J, V>(w: World<J, V>, s: State<J, V>, id: nat)
    requires id in s.calls
  {
    && !InFinally(s.thread, id) && s.calls[id].dispatched.None?
    && exists k :: 0 <= k < |s.done| && s.done[k] == id && ResultAt(w, s.done, k).Some?
  }

  // ---------- a clean start for every block

  /** A block begins with a pending Java exception exactly if it is the first one and printMethods left one. */
  lemma CleanStart<J, V>(w: World<J, V>, es: seq<Event>, s: State<J, V>)
    requires Reaches(w, es, s) && (s.thread.Begin? || s.thread.Running?)
    ensures s.pending <==> s.printPending && s.done == []
  {
    ReachableInv(w, es, s);
  }

  // ---------- the drain ends

  /** The JVM thread is inside the call of doCommand that was made from `ctx`. */
  ghost predicate InCall<V>(pc: ThreadPc<V>, ctx: Context) {
    InDoCommand(pc) && pc.ctx == ctx
  }

  /** The steps of its own that the JVM thread still has to take until it finds the queue empty, if nobody appends
      anything more: five for each command. */
  ghost function StepsLeft<V>(pc: ThreadPc<V>, commands: nat): nat {
    5 * commands + match pc
                   case Begin(_, _) => 4
                   case Running(_, _) => 3
                   case Finally(_, _, _) => 2
                   case Clear(_) => 1
                   case _ => 0
  }

  ghost function ThreadSteps(es: seq<Event>): nat {
    if es == [] then 0 else ThreadSteps(es[..|es| - 1]) + Count(es[|es| - 1].Thread?)
  }

  /** During the whole of `es` the JVM thread stays inside one call of doCommand. */
  ghost predicate StaysInCall<J, V>(w: World<J, V>, s: State<J, V>, es: seq<Event>, ctx: Context) {
    && Replay(w, s, es).Some? && InCall(Replay(w, s, es).value.thread, ctx)
    && (es != [] ==> StaysInCall(w, s, es[..|es| - 1], ctx))
  }

  /** What a step does to the measure; a step that leaves the call finds the queue empty. */
  ghost predicate Measured<J, V>(s: State<J, V>, s': State<J, V>, own: bool, ctx: Context) {
    if InCall(s'.thread, ctx) then
      StepsLeft(s'.thread, |s'.commands|) + Count(own)
      == StepsLeft(s.thread, |s.commands|) + 5 * (|s'.appended| - |s.appended|)
    else
      own && s.thread == Fetch(ctx) && s.commands == [] && s'.drained == |s'.appended|
  }

  lemma RunMeasured<J, V>(w: World<J, V>, s: State<J, V>, choice: bool, ctx: Context)
    requires InCall(s.thread, ctx)
    ensures Measured(s, RunThread(w, s, choice), true, ctx)
  {
  }

  lemma AdvanceMeasured<J, V>(w: World<J, V>, s: State<J, V>, id: nat, ctx: Context)
    requires InCall(s.thread, ctx) && CanAdvance(w, s, id)
    ensures Measured(s, AdvanceCall(w, s, id), false, ctx)
  {
  }

  lemma StepInCall<J, V>(w: World<J, V>, s: State<J, V>, e: Event, ctx: Context)
    requires Enabled(w, s, e) && InCall(s.thread, ctx)
    ensures Measured(s, Apply(w, s, e), e.Thread?, ctx)
  {
    match e
    case Thread(choice) => RunMeasured(w, s, choice, ctx);
    case Advance(id) => AdvanceMeasured(w, s, id, ctx);
    case _ =>
  }

  /** While a call of doCommand lasts, the steps the JVM thread has taken in it are determined by the queue length
      and by the appends made meanwhile, by other threads or by the blocks themselves, whether blocks throw or
      not. By StepInCall it ends by seeing an empty queue. */
  lemma {:induction false} DrainMeasure<J, V>(w: World<J, V>, s: State<J, V>, es: seq<Event>, ctx: Context)
    requires StaysInCall(w, s, es, ctx)
    ensures var later := Replay(w, s, es).value;
            ThreadSteps(es) + StepsLeft(later.thread, |later.commands|)
            == StepsLeft(s.thread, |s.commands|) + 5 * (|later.appended| - |s.appended|)
  {
    if es != [] {
      var before := Replay(w, s, es[..|es| - 1]).value;
      DrainMeasure(w, s, es[..|es| - 1], ctx);
      StepInCall(w, before, es[|es| - 1], ctx);
    }
  }

  /** So with a bound on the appends there is one on the steps of the call, and until it is over the JVM thread always
      has a step to take. */
  lemma DrainEnds<J, V>(w: World<J, V>, s: State<J, V>, es: seq<Event>, ctx: Context, bound: nat)
    requires StaysInCall(w, s, es, ctx)
    requires |Replay(w, s, es).value.appended| <= |s.appended| + bound
    ensures ThreadSteps(es) <= StepsLeft(s.thread, |s.commands|) + 5 * bound
    ensures Enabled(w, Replay(w, s, es).value, Thread(true))
  {
    DrainMeasure(w, s, es, ctx);
  }

  // ---------- from the poison pill to the end

  /** A poison pill has been appended. */
  ghost predicate PillAppended<J, V>(w: World<J, V>, s: State<J, V>) {
    exists id :: id in s.appended && w.kind(id).Close?
  }

  /** The most steps of its own, apart from those for commands, that the JVM thread can still take to its end once
      a pill is there. `leaving`: the loop test will fail. A pending wakeup can cost two more. */
  ghost function StepsToEnd<V>(pc: ThreadPc<V>, leaving: bool): nat {
    match pc
    case CreateJvm => 14
    case SetRunLoop => 13
    case CreateSource => 12
    case AddSource => 11
    case Connect => 10
    case SignalStart => 9
    case LoopTest => if leaving then 7 else 12
    case RunMode => 11
    case CheckSource => 10
    case Asleep => 9
    case ExitShutdown => 6
    case ExitRemove => 5
    case ExitSource => 4
    case ExitLoop => 3
    case ExitDestroy => 2
    case ExitSignal => 1
    case Ended => 0
    case FailShutdown => 3
    case FailError => 2
    case FailSignal => 1
    case FailedEnd => 0
    case _ => if pc.ctx.Perform? then 9 else 8
  }

  ghost function EndMeasure<J, V>(s: State<J, V>): nat {
    StepsLeft(s.thread, |s.commands|) + StepsToEnd(s.thread, s.shutdownRequested || s.threadTerminated)
    + 2 * Count(s.wake)
  }

  /** Every step of its own brings the JVM thread nearer to its end: a drain that a pill has been through ends with
      the shutdown requested. */
  lemma RunTowardsEnd<J, V>(w: World<J, V>, s: State<J, V>, choice: bool)
    requires OrderInv(s) && PillInv(w, s) && PillAppended(w, s) && CanRun(s.thread, s.wake, choice)
    ensures EndMeasure(RunThread(w, s, choice)) < EndMeasure(s)
  {
    hide RunThread, OrderInv, PillInv, PillAppended;
    if s.thread.Fetch? && s.commands == [] {
      DrainedMeansRequested(w, s);
    }
    MeasuredFields(w, s, choice);
  }

  /** A drain that finds the queue empty has been through the pill. */
  lemma DrainedMeansRequested<J, V>(w: World<J, V>, s: State<J, V>)
    requires OrderInv(s) && PillInv(w, s) && PillAppended(w, s) && s.thread.Fetch? && s.commands == []
    ensures s.shutdownRequested
  {
    assert s.done == s.appended;
  }

  lemma MeasuredFields<J, V>(w: World<J, V>, s: State<J, V>, choice: bool)
    ensures var pc := s.thread;
            var s' := RunThread(w, s, choice);
            && s'.thread == NextPc(w, s, choice) && s'.wake == (s.wake && !(pc.Asleep? && choice))
            && |s'.commands| == |s.commands| - Count(pc.Fetch? && s.commands != [])
            && s'.threadTerminated == (s.threadTerminated || (pc.RunMode? && !choice))
            && (s.shutdownRequested ==> s'.shutdownRequested) && s'.appended == s.appended
  {
  }

  lemma StepTowardsEnd<J, V>(w: World<J, V>, s: State<J, V>, e: Event)
    requires OrderInv(s) && PillInv(w, s) && PillAppended(w, s) && Enabled(w, s, e)
    ensures var s' := Apply(w, s, e);
            Count(e.Thread?) + EndMeasure(s')
            <= EndMeasure(s) + 5 * (|s'.appended| - |s.appended|) + 2 * Count(Wakes(s, e))
  {
    hide EndMeasure, OrderInv, PillInv;
    if e.Thread? {
      RunTowardsEnd(w, s, e.choice);
      MeasuredFields(w, s, e.choice);
    } else {
      OthersTowardsEnd(w, s, e);
    }
  }

  /** The call takes its wakeup step. */
  ghost predicate Wakes<J, V>(s: State<J, V>, e: Event) {
    e.Advance? && At(s, e.id, BeforeWake)
  }

  lemma OthersTowardsEnd<J, V>(w: World<J, V>, s: State<J, V>, e: Event)
    requires Enabled(w, s, e) && !e.Thread?
    ensures var s' := Apply(w, s, e);
            EndMeasure(s') <= EndMeasure(s) + 5 * (|s'.appended| - |s.appended|) + 2 * Count(Wakes(s, e))
  {
    match e
    case Advance(id) =>
      var s' := AdvanceCall(w, s, id);
      assert s'.thread == s.thread && s'.shutdownRequested == s.shutdownRequested;
      assert s'.threadTerminated == s.threadTerminated;
    case _ =>
  }

  /** How many wakeups callers send in a run from `s`. */
  ghost function WakesIn<J, V>(w: World<J, V>, s: State<J, V>, es: seq<Event>): nat
    requires Replay(w, s, es).Some?
  {
    if es == [] then 0
    else
      var before := es[..|es| - 1];
      WakesIn(w, s, before) + Count(Wakes(Replay(w, s, before).value, es[|es| - 1]))
  }

  lemma {:induction false} EndMeasured<J, V>(w: World<J, V>, s: State<J, V>, more: seq<Event>, later: State<J, V>)
    requires Inv(w, s) && PillAppended(w, s) && Replay(w, s, more) == Some(later)
    ensures ThreadSteps(more) + EndMeasure(later)
            <= EndMeasure(s) + 5 * (|later.appended| - |s.appended|) + 2 * WakesIn(w, s, more)
  {
    hide Inv, EndMeasure, PillAppended, Apply, Enabled;
    if more != [] {
      var e := more[|more| - 1];
      var before := Replay(w, s, more[..|more| - 1]).value;
      EndMeasured(w, s, more[..|more| - 1], before);
      PillStays(w, s, more[..|more| - 1], before);
      StepTowardsEnd(w, before, e);
    }
  }

  /** Once a poison pill has been appended the JVM thread ends: the steps it can take are bounded by the length of the
      queue, the appends and the wakeups still to come, and until it has ended it always has a step to take. So the end
      signal that a closer waits for does come. */
  lemma PillEndsTheThread<J, V>(w: World<J, V>, es: seq<Event>, s: State<J, V>, more: seq<Event>, later: State<J, V>)
    requires Reaches(w, es, s) && PillAppended(w, s) && Replay(w, s, more) == Some(later)
    ensures ThreadSteps(more)
            <= 5 * |s.commands| + 16 + 5 * (|later.appended| - |s.appended|) + 2 * WakesIn(w, s, more)
    ensures later.thread.Ended? || later.thread.FailedEnd? || Enabled(w, later, Thread(false))
  {
    hide Inv, EndMeasure, PillAppended, Enabled;
    ReachableInv(w, es, s);
    EndMeasured(w, s, more, later);
    MeasureBound(s);
    NeverStuck(w, later);
  }

  lemma NeverStuck<J, V>(w: World<J, V>, s: State<J, V>)
    ensures s.thread.Ended? || s.thread.FailedEnd? || Enabled(w, s, Thread(false))
  {
  }

  lemma MeasureBound<J, V>(s: State<J, V>)
    ensures EndMeasure(s) <= 5 * |s.commands| + 16
  {
  }

  lemma PillStays<J, V>(w: World<J, V>, s: State<J, V>, more: seq<Event>, later: State<J, V>)
    requires Inv(w, s) && PillAppended(w, s) && Replay(w, s, more) == Some(later)
    ensures OrderInv(later) && PillInv(w, later) && PillAppended(w, later)
  {
    RunKeeps(w, s, more, later);
    HistoryGrows(w, s, more, later);
    var id :| id in s.appended && w.kind(id).Close?;
    var k :| 0 <= k < |s.appended| && s.appended[k] == id;
    assert later.appended[k] == id;
  }

  // ---------- what the platform has decided

  /** In step `n` of the run the JVM thread stood at `at`, and the platform decided `choice`. */
  ghost predicate Chose<J, V>(w: World<J, V>, es: seq<Event>, n: nat, at: ThreadPc<V>, choice: bool) {
    && n < |es| && es[n] == Thread(choice)
    && Replay(w, Initial(w), es[..n]).Some? && Replay(w, Initial(w), es[..n]).value.thread == at
  }

  ghost predicate EverChose<J, V>(w: World<J, V>, es: seq<Event>, at: ThreadPc<V>, choice: bool) {
    exists n: nat :: Chose(w, es, n, at, choice)
  }

  lemma ChoseLast<J, V>(w: World<J, V>, es: seq<Event>, before: State<J, V>, at: ThreadPc<V>, choice: bool)
    requires es != [] && Reaches(w, es[..|es| - 1], before)
    ensures EverChose(w, es, at, choice) <==>
            EverChose(w, es[..|es| - 1], at, choice) || (es[|es| - 1] == Thread(choice) && before.thread == at)
  {
    hide Replay;
    var last := |es| - 1;
    forall n: nat | n < last ensures Chose(w, es, n, at, choice) <==> Chose(w, es[..last], n, at, choice) {
      assert es[..last][..n] == es[..n];
    }
    if es[last] == Thread(choice) && before.thread == at {
      assert Chose(w, es, last, at, choice);
    }
  }

  /** The run loop has failed exactly if it was once not started; the JVM was created, and printMethods left an
      exception pending, exactly if the platform has said so in the one step that asks. */
  lemma {:induction false} WhatWasDecided<J, V>(w: World<J, V>, es: seq<Event>, s: State<J, V>)
    requires Reaches(w, es, s)
    ensures s.threadTerminated <==> EverChose(w, es, RunMode, false)
    ensures s.created <==> EverChose(w, es, CreateJvm, true)
    ensures s.printPending <==> EverChose(w, es, Connect, true)
    ensures BeforePrint(s.thread) ==> !s.printPending
  {
    if es != [] {
      hide EverChose, Enabled, Apply;
      var last := |es| - 1;
      var before := Replay(w, Initial(w), es[..last]).value;
      WhatWasDecided(w, es[..last], before);
      ChoseLast(w, es, before, RunMode, false);
      ChoseLast(w, es, before, CreateJvm, true);
      ChoseLast(w, es, before, Connect, true);
      StepDecides(w, before, es[last]);
    }
  }

  predicate BeforePrint<V>(pc: ThreadPc<V>) {
    pc.CreateJvm? || pc.SetRunLoop? || pc.CreateSource? || pc.AddSource? || pc.Connect?
  }

  lemma StepDecides<J, V>(w: World<J, V>, s: State<J, V>, e: Event)
    requires Enabled(w, s, e) && (BeforePrint(s.thread) ==> !s.printPending)
    ensures var s' := Apply(w, s, e);
            && (s'.threadTerminated <==> s.threadTerminated || (e == Thread(false) && s.thread.RunMode?))
            && (s'.created <==> s.created || (e == Thread(true) && s.thread.CreateJvm?))
            && (s'.printPending <==> s.printPending || (e == Thread(true) && s.thread.Connect?))
            && (BeforePrint(s'.thread) ==> !s'.printPending)
  {
    hide AdvanceCall, RunCompletion, RunThread;
    match e
    case Advance(id) => CallDecidesNothing(w, s, id);
    case Complete(id) => CompletionDecidesNothing(w, s, id);
    case Thread(choice) => RunDecides(w, s, choice);
    case _ =>
  }

  lemma CallDecidesNothing<J, V>(w: World<J, V>, s: State<J, V>, id: nat)
    requires CanAdvance(w, s, id)
    ensures var s' := AdvanceCall(w, s, id);
            s'.thread == s.thread && s'.threadTerminated == s.threadTerminated
            && s'.created == s.created && s'.printPending == s.printPending
  {
  }

  lemma CompletionDecidesNothing<J, V>(w: World<J, V>, s: State<J, V>, id: nat)
    requires id in s.calls && s.calls[id].dispatched.Some?
    ensures var s' := RunCompletion(w, s, id);
            s'.thread == s.thread && s'.threadTerminated == s.threadTerminated
            && s'.created == s.created && s'.printPending == s.printPending
  {
  }

  lemma RunDecides<J, V>(w: World<J, V>, s: State<J, V>, choice: bool)
    ensures var s' := RunThread(w, s, choice);
            && (s'.threadTerminated <==> s.threadTerminated || (s.thread.RunMode? && !choice))
            && (s'.created <==> s.created || (s.thread.CreateJvm? && choice))
            && s'.printPending == (if s.thread.Connect? then choice else s.printPending)
            && (BeforePrint(s'.thread) ==> BeforePrint(s.thread) && !s.thread.Connect?)
  {
  }
}
