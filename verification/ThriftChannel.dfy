/**
 The Java class `ThriftChannel`: its two fields, and its methods as code under its monitor.

 As in class `EJJvm`, other threads take steps between any two atomic pieces, as a schedule says, and `Valid`
 says that what has happened so far is a run of the ownership protocol.
 */
module ThriftChannels {
  import opened Wrappers
  import opened Ownership
  import opened OwnershipTheorems
  import opened OwnershipAccounts

  type Schedule = seq<seq<Event>>

  /** Not a step of thread `me`. */
  predicate Foreign(e: Event, me: nat) {
    match e
    case Invoke(thread, _, _) => thread != me
    case Run(thread, _) => thread != me
    case _ => true
  }

  ghost predicate AllForeign(others: Schedule, me: nat) {
    forall k, i :: 0 <= k < |others| && 0 <= i < |others[k]| ==> Foreign(others[k][i], me)
  }

  /** What the steps of other threads leave alone: the stack of thread `me`, and the fields of a peer whose monitor
      its top frame holds. */
  ghost predicate Left(s: State, s': State, me: nat) {
    && |s.threads| <= |s'.threads| && |s.peers| <= |s'.peers|
    && (me < |s.threads| ==>
          && s'.threads[me] == s.threads[me]
          && (s.threads[me] != [] && Holds(Top(s.threads[me]).pc) && Top(s.threads[me]).peer < |s.peers| ==>
                var p := Top(s.threads[me]).peer;
                s'.peers[p].channel == s.peers[p].channel && s'.peers[p].processor == s.peers[p].processor))
  }

  lemma LeftAtFirst(s: State, me: nat)
    ensures Left(s, s, me)
  {
  }

  lemma LeftFurther(s: State, before: State, after: State, me: nat)
    requires Left(s, before, me) && Left(before, after, me)
    ensures Left(s, after, me)
  {
  }

  lemma ForeignStepLeaves(s: State, e: Event, me: nat)
    requires Inv(s) && Enabled(s, e) && Foreign(e, me)
    ensures Left(s, Apply(s, e), me)
  {
    if e.Run? && me < |s.threads| && s.threads[me] != [] && Holds(Top(s.threads[me]).pc) {
      TopOwns(s, me, |s.threads[me]| - 1);
      var other := Top(s.threads[e.thread]);
      if Holds(other.pc) {
        TopOwns(s, e.thread, |s.threads[e.thread]| - 1);
      }
    }
  }

  /** A run followed by a possible step is a run. */
  lemma Extend(es: seq<Event>, s: State, e: Event)
    requires Replay(Initial, es) == Some(s) && Enabled(s, e)
    ensures Replay(Initial, es + [e]) == Some(Apply(s, e))
  {
    assert (es + [e])[..|es|] == es;
  }

  /** A step of the object's own thread, whatever turns the others have had. */
  lemma OwnStep(es: seq<Event>, passed: Schedule, s: State, e: Event)
    requires Replay(Initial, es) == Some(s) && Passed(es, passed) && Enabled(s, e)
    ensures Replay(Initial, es + [e]) == Some(Apply(s, e)) && Passed(es + [e], passed)
  {
    hide Passed;
    Extend(es, s, e);
    PassedExtends(es, e, passed);
  }

  class ThriftChannel {
    const me: nat
    var channel: Token
    var processor: Option<nat>

    /** The monitors, the threads, the other peers, the slot and the history. */
    var around: State
    ghost var trace: seq<Event>

    /** The turns that the other threads have had. */
    ghost var passed: Schedule

    predicate Fits()
      reads `around
    {
      me < |around.peers|
    }

    function Now(): State
      requires Fits()
      reads `channel, `processor, `around
    {
      around.(peers := around.peers[me := around.peers[me].(channel := channel, processor := processor)])
    }

    ghost predicate Valid()
      reads this
    {
      Fits() && Replay(Initial, trace) == Some(Now()) && Passed(trace, passed)
    }

    /** The constructor: getChannel empties the slot. */
    constructor (others: State, ghost es: seq<Event>)
      requires Replay(Initial, es) == Some(others)
      ensures Valid() && channel == others.slot && processor == None && me == |others.peers|
      ensures Now().slot == 0 && passed == []
    {
      Extend(es, others, Construct);
      me := |others.peers|;
      channel := others.slot;
      processor := None;
      around := DoConstruct(others);
      trace, passed := es + [Construct], [];
      new;
      assert around.peers[me := around.peers[me]] == around.peers;
    }

    /** The other threads have a turn: of the first list that the schedule has for them they take every step that is
        possible when its turn comes. They leave thread `thread`, which stands at `pc`, and what it has locked alone. */
    method Yield(others: Schedule, thread: nat, ghost pc: Pc, ghost below: seq<Frame>) returns (rest: Schedule)
      requires Valid() && AllForeign(others, thread) && Stands(thread, pc, below)
      modifies this
      ensures Valid() && AllForeign(rest, thread) && Stands(thread, pc, below)
      ensures rest == if others == [] then [] else others[1..]
      ensures passed + rest == old(passed) + others
      ensures Now() == if others == [] then old(Now()) else After(old(Now()), others[0])
      ensures Holds(pc) ==> channel == old(channel) && processor == old(processor)
    {
      hide Replay, Passed, After;
      if others == [] {
        return others;
      }
      rest := others[1..];
      assert Top(around.threads[thread]) == Frame(me, pc);
      TakeTurn(others[0], thread);
      assert others == [others[0]] + rest;
    }

    method TakeTurn(es: seq<Event>, thread: nat)
      requires Valid() && forall i :: 0 <= i < |es| ==> Foreign(es[i], thread)
      modifies this
      ensures Valid() && Left(old(Now()), Now(), thread)
      ensures Now() == After(old(Now()), es) && passed == old(passed) + [es]
    {
      hide Replay, Passed, Left;
      LeftAtFirst(Now(), thread);
      assert es[..0] == [];
      for i := 0 to |es|
        invariant Fits() && Replay(Initial, trace) == Some(Now()) && passed == old(passed)
        invariant trace == old(trace) + Taken(old(Now()), es[..i]) && Now() == After(old(Now()), es[..i])
        invariant Left(old(Now()), Now(), thread)
      {
        hide After, Taken;
        TurnStep(old(Now()), es, i);
        ghost var before := Now();
        TakeOrSkip(es[i], thread);
        LeftFurther(old(Now()), before, Now(), thread);
      }
      assert es[..|es|] == es;
      PassedTurn(old(trace), old(Now()), old(passed), es);
      passed := passed + [es];
    }

    method TakeOrSkip(e: Event, ghost thread: nat)
      requires Fits() && Replay(Initial, trace) == Some(Now()) && Foreign(e, thread)
      modifies this
      ensures Fits() && Replay(Initial, trace) == Some(Now())
      ensures passed == old(passed) && Left(old(Now()), Now(), thread)
      ensures if Enabled(old(Now()), e) then Now() == Apply(old(Now()), e) && trace == old(trace) + [e]
              else Now() == old(Now()) && trace == old(trace)
    {
      hide Replay, Left;
      if Enabled(Now(), e) {
        ReachableInv(trace, Now());
        ForeignStepLeaves(Now(), e, thread);
        Extend(trace, Now(), e);
        Put(e);
      } else {
        LeftAtFirst(Now(), thread);
      }
    }

    /** The fields after the step `e`. */
    method Put(e: Event)
      requires Fits() && Enabled(Now(), e)
      modifies this
      ensures Fits() && Now() == Apply(old(Now()), e) && trace == old(trace) + [e] && passed == old(passed)
    {
      trace := trace + [e];
      var after := Apply(Now(), e);
      channel, processor, around := after.peers[me].channel, after.peers[me].processor, after;
      assert after.peers[me := after.peers[me]] == after.peers;
    }

    method Load(e: Event)
      requires Valid() && Enabled(Now(), e)
      modifies this
      ensures Fits() && Now() == Apply(old(Now()), e) && trace == old(trace) + [e] && Valid() && passed == old(passed)
    {
      OwnStep(trace, passed, Now(), e);
      Put(e);
    }

    /** The top frame of `thread` is in a method of this object, at `pc`. */
    ghost predicate Stands(thread: nat, pc: Pc, below: seq<Frame>)
      reads `around
    {
      Fits() && thread < |around.threads| && around.threads[thread] == below + [Frame(me, pc)]
    }

    ghost predicate Returned(thread: nat, below: seq<Frame>)
      reads `around
    {
      Fits() && thread < |around.threads| && around.threads[thread] == below
    }

    ghost predicate Goes(thread: nat, next: Pc, below: seq<Frame>)
      reads `around
    {
      if next.Back? then Returned(thread, below) else Stands(thread, next, below)
    }

    method Begin(thread: nat, entry: Entry)
      requires Valid() && CanInvoke(Now(), thread, me)
      modifies this
      ensures Valid() && passed == old(passed) && channel == old(channel) && processor == old(processor)
      ensures Stands(thread, FirstPc(entry), old(around.threads[thread]))
    {
      hide Replay, Passed;
      Load(Invoke(thread, entry, me));
      assert Now().peers[me].channel == channel && Now().peers[me].processor == processor;
    }

    /** A step that touches no field of the object: monitor entry and exit, tests, and the call of releaseChannel. */
    method Move(thread: nat, ghost pc: Pc, ghost below: seq<Frame>)
      requires Valid() && Stands(thread, pc, below)
      requires pc.CloseEnter? || pc.HostEnter? ==> Free(Now().peers[me], thread)
      requires !pc.CloseClear? && !pc.HostStore? && !pc.HostMake?
      modifies this
      ensures Valid() && trace == old(trace) + [Run(thread, MadeNull)] && passed == old(passed)
      ensures channel == old(channel) && processor == old(processor)
      ensures pc.CloseExit? ==> Now().peers[me].releases == old(Now().peers[me].releases)
                                && Now().peers[me].given == old(Now().peers[me].given)
      ensures Goes(thread, NextPc(old(channel), old(processor), pc, MadeNull), below)
    {
      assert Top(around.threads[thread]) == Frame(me, pc);
      assert (below + [Frame(me, pc)])[..|below|] == below;
      assert Now().peers[me].channel == channel && Now().peers[me].processor == processor;
      Load(Run(thread, MadeNull));
      assert Now().peers[me].channel == channel && Now().peers[me].processor == processor;
    }

    /** `channel = 0L` in close. */
    method ClearChannel(thread: nat, temp: Token, ghost below: seq<Frame>)
      requires Valid() && Stands(thread, CloseClear(temp), below)
      modifies this
      ensures Valid() && trace == old(trace) + [Run(thread, MadeNull)] && passed == old(passed)
      ensures channel == 0 && processor == old(processor) && Stands(thread, CloseRelease(temp), below)
    {
      assert Top(around.threads[thread]) == Frame(me, CloseClear(temp));
      assert (below + [Frame(me, CloseClear(temp))])[..|below|] == below;
      OwnStep(trace, passed, Now(), Run(thread, MadeNull));
      trace := trace + [Run(thread, MadeNull)];
      var after := DoRun(Now(), thread, MadeNull);
      channel, around := 0, after;
      assert after.peers[me := after.peers[me]] == after.peers;
    }

    /** Thread `thread` stands before the monitor, which another thread has taken. */
    ghost predicate Waits(thread: nat, pc: Pc, below: seq<Frame>)
      reads `around
    {
      Stands(thread, pc, below) && around.peers[me].owner.Some? && around.peers[me].owner.value != thread
    }

    /** close, and finalize which calls it. `finished` is false if the schedule ends while another thread has taken the
        monitor. Once it has come back the field is zero, and releaseChannel has been called for this peer exactly
        once, by whichever closer it was, if its constructor got a channel, and otherwise never. */
    method Close(thread: nat, others: Schedule) returns (finished: bool, rest: Schedule)
      requires Valid() && CanInvoke(Now(), thread, me) && AllForeign(others, thread)
      modifies this
      ensures Valid() && passed + rest == old(passed) + others
      ensures !finished ==> rest == [] && Waits(thread, CloseEnter, old(around.threads[thread]))
      ensures finished ==> Returned(thread, old(around.threads[thread]))
      ensures finished ==> channel == 0 && Now().peers[me].releases == Count(Now().peers[me].given != 0)
    {
      hide Stands, Replay, Passed, After;
      ghost var below := around.threads[thread];
      Begin(thread, Entry.Close);
      finished, rest := EnterMonitor(thread, CloseEnter, others, below);
      if finished {
        rest := CloseInside(thread, rest, below);
      }
    }

    /** The entry of a synchronized block. */
    method EnterMonitor(thread: nat, ghost pc: Pc, others: Schedule, ghost below: seq<Frame>)
      returns (entered: bool, rest: Schedule)
      requires Valid() && Stands(thread, pc, below) && (pc.CloseEnter? || pc.HostEnter?) && AllForeign(others, thread)
      modifies this
      ensures Valid() && AllForeign(rest, thread) && passed + rest == old(passed) + others
      ensures if entered then Stands(thread, NextPc(channel, processor, pc, MadeNull), below)
              else Waits(thread, pc, below) && rest == []
    {
      hide Stands, Replay, Passed, After;
      rest := Yield(others, thread, pc, below);
      while !Free(Now().peers[me], thread) && rest != []
        invariant Valid() && AllForeign(rest, thread) && Stands(thread, pc, below)
        invariant passed + rest == old(passed) + others
        decreases |rest|
      {
        rest := Yield(rest, thread, pc, below);
      }
      entered := Free(Now().peers[me], thread);
      if entered {
        Move(thread, pc, below);
      }
    }

    /** The synchronized block. Whatever other threads do meanwhile, the field is zero at its end. */
    method CloseInside(thread: nat, others: Schedule, ghost below: seq<Frame>) returns (rest: Schedule)
      requires Valid() && Stands(thread, CloseTest, below) && AllForeign(others, thread)
      modifies this
      ensures Valid() && Returned(thread, below) && passed + rest == old(passed) + others
      ensures channel == 0 && Now().peers[me].releases == Count(Now().peers[me].given != 0)
    {
      hide Stands, Replay, Passed, After;
      rest := Yield(others, thread, CloseTest, below);
      var full := channel != 0;
      Move(thread, CloseTest, below);
      rest := Yield(rest, thread, if full then CloseTake else CloseExit, below);
      if full {
        rest := ReleaseChannel(thread, rest, below);
      }
      TokenGone(thread, below);
      Move(thread, CloseExit, below);
    }

    /** A closer that is about to leave the monitor and sees the field empty: the token has been released. */
    lemma TokenGone(thread: nat, below: seq<Frame>)
      requires Valid() && Stands(thread, CloseExit, below) && channel == 0
      ensures Now().peers[me].releases == Count(Now().peers[me].given != 0)
    {
      ReachableInv(trace, Now());
      assert TokenUsed(Now().peers[me]);
      TopOwns(Now(), thread, |below|);
      assert !Releasing(Now(), me);
    }

    method ReleaseChannel(thread: nat, others: Schedule, ghost below: seq<Frame>) returns (rest: Schedule)
      requires Valid() && Stands(thread, CloseTake, below) && AllForeign(others, thread)
      modifies this
      ensures Valid() && AllForeign(rest, thread) && Stands(thread, CloseExit, below) && channel == 0
      ensures passed + rest == old(passed) + others
    {
      hide Stands, Replay, Passed, After;
      var temp := channel;
      Move(thread, CloseTake, below);
      rest := Yield(others, thread, CloseClear(temp), below);
      ClearChannel(thread, temp, below);
      rest := Yield(rest, thread, CloseRelease(temp), below);
      Move(thread, CloseRelease(temp), below);
      rest := Yield(rest, thread, CloseExit, below);
    }

    // ---------- callHostToJvm

    /** `processor = makeProcessor()` in callHostToJvm: first the call, then the store. */
    method MakeProcessor(thread: nat, making: Making, ghost below: seq<Frame>)
      requires Valid() && Stands(thread, HostMake, below)
      modifies this
      ensures Valid() && trace == old(trace) + [Run(thread, making)] && passed == old(passed)
      ensures Stands(thread, NextPc(channel, processor, HostMake, making), below)
    {
      assert Top(around.threads[thread]) == Frame(me, HostMake);
      assert (below + [Frame(me, HostMake)])[..|below|] == below;
      Load(Run(thread, making));
    }

    method StoreProcessor(thread: nat, made: Option<nat>, ghost below: seq<Frame>)
      requires Valid() && Stands(thread, HostStore(made), below)
      modifies this
      ensures Valid() && trace == old(trace) + [Run(thread, MadeNull)] && passed == old(passed)
      ensures processor == made && channel == old(channel) && Stands(thread, HostExit, below)
    {
      assert Top(around.threads[thread]) == Frame(me, HostStore(made));
      assert (below + [Frame(me, HostStore(made))])[..|below|] == below;
      OwnStep(trace, passed, Now(), Run(thread, MadeNull));
      trace := trace + [Run(thread, MadeNull)];
      var after := DoRun(Now(), thread, MadeNull);
      processor, around := made, after;
      assert after.peers[me := after.peers[me]] == after.peers;
    }

    /** `making` is what makeProcessor does if it is called. `used` is the processor that handles the request: the one
        in the field. There is none if the field is null, if makeProcessor has thrown, or if the schedule ends while
        another thread has taken the monitor. Unless a makeProcessor has come back to find the field no longer null, it
        is the only processor there has ever been. */
    method CallHostToJvm(thread: nat, making: Making, others: Schedule) returns (used: Option<nat>, rest: Schedule)
      requires Valid() && CanInvoke(Now(), thread, me) && AllForeign(others, thread)
      modifies this
      ensures Valid() && passed + rest == old(passed) + others
      ensures used.Some? ==> used == processor && Stands(thread, HostRunning(used.value), old(around.threads[thread]))
      ensures used.Some? && !Now().peers[me].replaced ==> Now().peers[me].made == [used.value]
      ensures used.None? ==>
                || (Returned(thread, old(around.threads[thread])) && (processor.None? || making.Threw?))
                || (Waits(thread, HostEnter, old(around.threads[thread])) && rest == [])
    {
      hide Stands, Replay, Passed, After;
      ghost var below := around.threads[thread];
      Begin(thread, Entry.Host);
      rest := Yield(others, thread, HostTest, below);
      var missing := processor.None?;
      Move(thread, HostTest, below);
      if missing {
        var ready;
        ready, rest := CreateProcessor(thread, making, rest, below);
        if !ready {
          return None, rest;
        }
      }
      used, rest := Process(thread, rest, below);
    }

    /** The unsynchronised read of the field, and the request handed to what it holds. */
    method Process(thread: nat, others: Schedule, ghost below: seq<Frame>) returns (used: Option<nat>, rest: Schedule)
      requires Valid() && Stands(thread, HostProcess, below) && AllForeign(others, thread)
      modifies this
      ensures Valid() && passed + rest == old(passed) + others && used == processor
      ensures if used.Some? then Stands(thread, HostRunning(used.value), below) else Returned(thread, below)
      ensures used.Some? && !Now().peers[me].replaced ==> Now().peers[me].made == [used.value]
    {
      hide Stands, Replay, Passed, After;
      rest := Yield(others, thread, HostProcess, below);
      used := processor;
      Move(thread, HostProcess, below);
      if used.Some? {
        HandledByTheOne(thread, used.value, below);
      }
    }

    /** The double-checked creation under the monitor. `ready`: the request goes on to be processed. */
    method CreateProcessor(thread: nat, making: Making, others: Schedule, ghost below: seq<Frame>)
      returns (ready: bool, rest: Schedule)
      requires Valid() && Stands(thread, HostEnter, below) && AllForeign(others, thread)
      modifies this
      ensures Valid() && AllForeign(rest, thread) && passed + rest == old(passed) + others
      ensures ready ==> Stands(thread, HostProcess, below)
      ensures !ready ==>
                (making.Threw? && Returned(thread, below)) || (Waits(thread, HostEnter, below) && rest == [])
    {
      hide Stands, Replay, Passed, After;
      var entered;
      entered, rest := EnterMonitor(thread, HostEnter, others, below);
      ready := false;
      if entered {
        ready, rest := CreateUnderMonitor(thread, making, rest, below);
      }
    }

    method CreateUnderMonitor(thread: nat, making: Making, others: Schedule, ghost below: seq<Frame>)
      returns (ready: bool, rest: Schedule)
      requires Valid() && Stands(thread, HostRetest, below) && AllForeign(others, thread)
      modifies this
      ensures Valid() && AllForeign(rest, thread) && passed + rest == old(passed) + others
      ensures if ready then Stands(thread, HostProcess, below) else making.Threw? && Returned(thread, below)
    {
      hide Stands, Replay, Passed, After;
      rest := Yield(others, thread, HostRetest, below);
      var missing := processor.None?;
      Move(thread, HostRetest, below);
      rest := Yield(rest, thread, if missing then HostMake else HostExit, below);
      ready := true;
      if missing {
        ready, rest := MakeAndStore(thread, making, rest, below);
      } else {
        Move(thread, HostExit, below);
      }
    }

    method MakeAndStore(thread: nat, making: Making, others: Schedule, ghost below: seq<Frame>)
      returns (ready: bool, rest: Schedule)
      requires Valid() && Stands(thread, HostMake, below) && AllForeign(others, thread)
      modifies this
      ensures Valid() && AllForeign(rest, thread) && passed + rest == old(passed) + others
      ensures ready <==> !making.Threw?
      ensures if ready then Stands(thread, HostProcess, below) else Returned(thread, below)
    {
      hide Stands, Replay, Passed, After;
      MakeProcessor(thread, making, below);
      var made := if making.Made? then Some(making.processor) else None;
      rest := Yield(others, thread, if making.Threw? then HostAbort else HostStore(made), below);
      if making.Threw? {
        Move(thread, HostAbort, below);
        return false, rest;
      }
      StoreProcessor(thread, made, below);
      rest := Yield(rest, thread, HostExit, below);
      Move(thread, HostExit, below);
      ready := true;
    }

    lemma HandledByTheOne(thread: nat, used: nat, below: seq<Frame>)
      requires Valid() && Stands(thread, HostRunning(used), below)
      ensures !Now().peers[me].replaced ==> Now().peers[me].made == [used]
    {
      ReachableAccounts(trace, Now());
      assert around.threads[thread][|below|] == Frame(me, HostRunning(used));
      assert FrameKeeps(Now().peers[me], HostRunning(used));
    }
  }
}
