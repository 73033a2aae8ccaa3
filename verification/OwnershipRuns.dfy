/** Runs that show which exceptions in the theorems about channel ownership are real. */
module OwnershipRuns {
  import opened Wrappers
  import opened Ownership
  import opened OwnershipTheorems

  /** A state with one peer and one thread. */
  ghost predicate Solo(es: seq<Event>, s: State, p: Peer, stack: seq<Frame>) {
    Replay(Initial, es) == Some(s) && s.peers == [p] && s.threads == [stack]
  }

  lemma SoloRun(es: seq<Event>, s: State, p: Peer, rest: seq<Frame>, pc: Pc, making: Making)
    returns (es': seq<Event>, s': State)
    requires Solo(es, s, p, rest + [Frame(0, pc)]) && Free(p, 0)
    ensures Solo(es', s', NextPeer(p, 0, pc, making),
                 if NextPc(p.channel, p.processor, pc, making).Back? then rest
                 else rest + [Frame(0, NextPc(p.channel, p.processor, pc, making))])
  {
    es', s' := es + [Run(0, making)], Apply(s, Run(0, making));
    assert es'[..|es|] == es;
    assert (rest + [Frame(0, pc)])[..|rest|] == rest;
  }

  lemma SoloInvoke(es: seq<Event>, s: State, p: Peer, stack: seq<Frame>) returns (es': seq<Event>, s': State)
    requires Solo(es, s, p, stack) && (stack == [] || UserCode(Top(stack).pc))
    ensures Solo(es', s', if Reenters(stack, Host, 0) then p.(reentered := true) else p, stack + [Frame(0, HostTest)])
  {
    es', s' := es + [Invoke(0, Host, 0)], Apply(s, Invoke(0, Host, 0));
    assert es'[..|es|] == es;
  }

  lemma SoloStart() returns (es: seq<Event>, s: State)
    ensures Solo(es, s, Peer(0, None, None, 0, 0, 0, [], false, false, {}), [])
  {
    es := [NewThread, Construct];
    assert es[..1] == [NewThread] && [NewThread][..0] == [];
    assert Replay(Initial, [NewThread]) == Some(Apply(Initial, NewThread));
    s := Apply(Apply(Initial, NewThread), Construct);
  }

  /** From a call of callHostToJvm into makeProcessor. */
  lemma SoloIntoMake(es: seq<Event>, s: State, p: Peer, stack: seq<Frame>) returns (es': seq<Event>, s': State)
    requires Solo(es, s, p, stack) && (stack == [] || UserCode(Top(stack).pc)) && p.processor.None? && Free(p, 0)
    requires p.owner.None? <==> p.depth == 0
    ensures Solo(es', s',
                 p.(owner := Some(0), depth := p.depth + 1, reentered := p.reentered || Reenters(stack, Host, 0)),
                 stack + [Frame(0, HostMake)])
  {
    hide Solo;
    es', s' := SoloInvoke(es, s, p, stack);
    var q := if Reenters(stack, Host, 0) then p.(reentered := true) else p;
    es', s' := SoloRun(es', s', q, stack, HostTest, MadeNull);
    es', s' := SoloRun(es', s', q, stack, HostEnter, MadeNull);
    es', s' := SoloRun(es', s', q.(owner := Some(0), depth := q.depth + 1), stack, HostRetest, MadeNull);
  }

  /** A makeProcessor that calls callHostToJvm of its own peer, whose monitor its thread
      holds already, is called again, and the outer call replaces the processor that has just served a request. */
  lemma ReentryMakesTwo()
    ensures exists es, s :: Replay(Initial, es) == Some(s) && |s.peers| == 1
                            && s.peers[0].made == [1, 2] && s.peers[0].handled == {1} && s.peers[0].processor == Some(2)
  {
    var es, s := SoloReentry();
  }

  /** But a re-entry alone does no harm: if the outer makeProcessor throws, the processor of the inner one stays. */
  lemma ReentryCanKeepOne()
    ensures exists es, s :: Replay(Initial, es) == Some(s) && |s.peers| == 1 && s.peers[0].reentered
                            && !s.peers[0].replaced && s.peers[0].made == [1] && s.peers[0].processor == Some(1)
  {
    hide Solo;
    var es, s := SoloInner();
    var q := Peer(0, Some(1), Some(0), 1, 0, 0, [1], true, false, {1});
    assert [] + [Frame(0, HostMake)] == [Frame(0, HostMake)];
    es, s := SoloRun(es, s, q, [], HostMake, Threw);
    SoloReached(es, s, q, [] + [Frame(0, HostAbort)]);
  }

  lemma SoloReached(es: seq<Event>, s: State, p: Peer, stack: seq<Frame>)
    requires Solo(es, s, p, stack)
    ensures Replay(Initial, es) == Some(s) && s.peers == [p]
  {
  }

  /** makeProcessor inside makeProcessor. */
  lemma SoloTwice() returns (es: seq<Event>, s: State)
    ensures Solo(es, s, Peer(0, None, Some(0), 2, 0, 0, [], true, false, {}),
                 [Frame(0, HostMake)] + [Frame(0, HostMake)])
  {
    hide Solo;
    es, s := SoloStart();
    es, s := SoloIntoMake(es, s, Peer(0, None, None, 0, 0, 0, [], false, false, {}), []);
    var outer := [Frame(0, HostMake)];
    assert [] + outer == outer && outer[0] == Frame(0, HostMake);
    es, s := SoloIntoMake(es, s, Peer(0, None, Some(0), 1, 0, 0, [], false, false, {}), outer);
  }

  /** The inner call makes processor 1 and stores it. */
  lemma SoloStored() returns (es: seq<Event>, s: State)
    ensures Solo(es, s, Peer(0, Some(1), Some(0), 2, 0, 0, [1], true, false, {}),
                 [Frame(0, HostMake)] + [Frame(0, HostExit)])
  {
    hide Solo;
    es, s := SoloTwice();
    var outer := [Frame(0, HostMake)];
    var p := Peer(0, None, Some(0), 2, 0, 0, [], true, false, {});
    var none: seq<nat> := [];
    assert none + [1] == [1];
    es, s := SoloRun(es, s, p, outer, HostMake, Made(1));
    es, s := SoloRun(es, s, p.(made := [1]), outer, HostStore(Some(1)), MadeNull);
  }

  /** And has it serve its request. */
  lemma SoloInner() returns (es: seq<Event>, s: State)
    ensures Solo(es, s, Peer(0, Some(1), Some(0), 1, 0, 0, [1], true, false, {1}), [Frame(0, HostMake)])
  {
    hide Solo;
    es, s := SoloStored();
    var outer := [Frame(0, HostMake)];
    var nobody: set<nat> := {};
    assert nobody + {1} == {1};
    es, s := SoloRun(es, s, Peer(0, Some(1), Some(0), 2, 0, 0, [1], true, false, {}), outer, HostExit, MadeNull);
    var q := Peer(0, Some(1), Some(0), 1, 0, 0, [1], true, false, {});
    es, s := SoloRun(es, s, q, outer, HostProcess, MadeNull);
    es, s := SoloRun(es, s, q.(handled := {1}), outer, HostRunning(1), MadeNull);
  }

  /** Then the outer call makes processor 2 and stores it. */
  lemma SoloReentry() returns (es: seq<Event>, s: State)
    ensures Solo(es, s, Peer(0, Some(2), Some(0), 1, 0, 0, [1, 2], true, true, {1}), [Frame(0, HostExit)])
  {
    hide Solo;
    es, s := SoloInner();
    var q := Peer(0, Some(1), Some(0), 1, 0, 0, [1], true, false, {1});
    assert [] + [Frame(0, HostMake)] == [Frame(0, HostMake)] && [1] + [2] == [1, 2];
    es, s := SoloRun(es, s, q, [], HostMake, Made(2));
    es, s := SoloRun(es, s, q.(made := [1, 2], replaced := true), [], HostStore(Some(2)), MadeNull);
    assert [] + [Frame(0, HostExit)] == [Frame(0, HostExit)];
  }

  // ---------- a dangling callback

  /** A state with one peer and two threads. */
  ghost predicate Duo(es: seq<Event>, s: State, p: Peer, first: seq<Frame>, second: seq<Frame>) {
    Replay(Initial, es) == Some(s) && s.peers == [p] && s.threads == [first, second] && s.retained == multiset{1}
  }

  lemma DuoStart() returns (es: seq<Event>, s: State)
    ensures Duo(es, s, Peer(1, None, None, 0, 1, 0, [], false, false, {}), [], [])
  {
    es, s := [], Initial;
    for i := 0 to 4
      invariant Replay(Initial, es) == Some(s) && |s.threads| == (if i < 2 then i else 2)
      invariant forall t :: 0 <= t < |s.threads| ==> s.threads[t] == []
      invariant s.slot == (if i == 3 then 1 else 0) && s.retained == if i >= 3 then multiset{1} else multiset{}
      invariant s.peers == if i < 4 then [] else [Peer(1, None, None, 0, 1, 0, [], false, false, {})]
    {
      var e := [NewThread, NewThread, Publish(1), Construct][i];
      es, s := es + [e], Apply(s, e);
      assert es[..|es| - 1] + [e] == es;
    }
  }

  lemma DuoInvoke(es: seq<Event>, s: State, p: Peer, first: seq<Frame>, second: seq<Frame>, thread: nat, entry: Entry)
    returns (es': seq<Event>, s': State)
    requires Duo(es, s, p, first, second) && thread < 2 && [first, second][thread] == [] && !entry.Host?
    ensures var f := [Frame(0, FirstPc(entry))];
            Duo(es', s', p, if thread == 0 then f else first, if thread == 1 then f else second)
  {
    es', s' := es + [Invoke(thread, entry, 0)], Apply(s, Invoke(thread, entry, 0));
    assert es'[..|es|] == es;
    assert [] + [Frame(0, FirstPc(entry))] == [Frame(0, FirstPc(entry))];
    assert s.peers[0 := s.peers[0]] == s.peers;
  }

  lemma DuoRun(es: seq<Event>, s: State, p: Peer, first: seq<Frame>, second: seq<Frame>, thread: nat, pc: Pc)
    returns (es': seq<Event>, s': State)
    requires Duo(es, s, p, first, second) && thread < 2 && [first, second][thread] == [Frame(0, pc)] && Free(p, thread)
    ensures var next := NextPc(p.channel, p.processor, pc, MadeNull);
            var f := if next.Back? then [] else [Frame(0, next)];
            Duo(es', s', NextPeer(p, thread, pc, MadeNull), if thread == 0 then f else first,
                if thread == 1 then f else second)
    ensures s'.released == if pc.CloseRelease? then s.released + multiset{pc.temp} else s.released
  {
    es', s' := es + [Run(thread, MadeNull)], Apply(s, Run(thread, MadeNull));
    assert es'[..|es|] == es;
    assert [Frame(0, pc)][..0] == [];
    var next := NextPc(p.channel, p.processor, pc, MadeNull);
    assert [] + [Frame(0, next)] == [Frame(0, next)];
  }

  /** The first thread has read the field for a callback, the second begins to close. */
  lemma DuoReader() returns (es: seq<Event>, s: State)
    ensures Duo(es, s, Peer(1, None, None, 0, 1, 0, [], false, false, {}),
                [Frame(0, CallbackCall(1))], [Frame(0, CloseEnter)])
  {
    hide Duo;
    es, s := DuoStart();
    var p := Peer(1, None, None, 0, 1, 0, [], false, false, {});
    es, s := DuoInvoke(es, s, p, [], [], 0, Callback);
    es, s := DuoRun(es, s, p, [Frame(0, CallbackRead)], [], 0, CallbackRead);
    es, s := DuoInvoke(es, s, p, [Frame(0, CallbackCall(1))], [], 1, Close);
  }

  /** A callback that has read the field before the release calls callJvmToHost after it, with a reference to a channel
      that is no longer retained. */
  lemma CallbackCanDangle()
    ensures exists es, s :: Replay(Initial, es) == Some(s) && s.threads == [[Frame(0, CallbackCall(1))], []]
                            && s.retained[1] == 1 && s.released[1] == 1
  {
    hide Duo;
    var es, s := DuoReader();
    es, s := DuoCloses(es, s, Peer(1, None, None, 0, 1, 0, [], false, false, {}), [Frame(0, CallbackCall(1))]);
    TokensConserved(es, s, 1);
  }

  /** The closer up to its call of releaseChannel. */
  lemma DuoClears(es: seq<Event>, s: State, p: Peer, reader: seq<Frame>) returns (es': seq<Event>, s': State)
    requires Duo(es, s, p, reader, [Frame(0, CloseEnter)]) && p == Peer(1, None, None, 0, 1, 0, [], false, false, {})
    ensures Duo(es', s', p.(owner := Some(1), depth := 1, channel := 0), reader, [Frame(0, CloseRelease(1))])
  {
    hide Duo;
    es', s' := DuoRun(es, s, p, reader, [Frame(0, CloseEnter)], 1, CloseEnter);
    var q := p.(owner := Some(1), depth := 1);
    es', s' := DuoRun(es', s', q, reader, [Frame(0, CloseTest)], 1, CloseTest);
    es', s' := DuoRun(es', s', q, reader, [Frame(0, CloseTake)], 1, CloseTake);
    es', s' := DuoRun(es', s', q, reader, [Frame(0, CloseClear(1))], 1, CloseClear(1));
  }

  lemma DuoCloses(es: seq<Event>, s: State, p: Peer, reader: seq<Frame>) returns (es': seq<Event>, s': State)
    requires Duo(es, s, p, reader, [Frame(0, CloseEnter)]) && p == Peer(1, None, None, 0, 1, 0, [], false, false, {})
    ensures Replay(Initial, es') == Some(s') && s'.threads == [reader, []]
    ensures s'.retained[1] == 1 && s'.released[1] >= 1
  {
    hide Duo;
    es', s' := DuoClears(es, s, p, reader);
    var r := p.(owner := Some(1), depth := 1, channel := 0);
    es', s' := DuoRun(es', s', r, reader, [Frame(0, CloseRelease(1))], 1, CloseRelease(1));
    es', s' := DuoRun(es', s', r.(releases := 1), reader, [Frame(0, CloseExit)], 1, CloseExit);
    DuoReached(es', s', r.(releases := 1, owner := None, depth := 0), reader, []);
  }

  lemma DuoReached(es: seq<Event>, s: State, p: Peer, first: seq<Frame>, second: seq<Frame>)
    requires Duo(es, s, p, first, second)
    ensures Replay(Initial, es) == Some(s) && s.threads == [first, second] && s.retained == multiset{1}
  {
  }
}
