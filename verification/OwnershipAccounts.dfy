/** Finer accounts of the ownership protocol: which processor a peer keeps, and how long a callback's token is good. */
module OwnershipAccounts {
  import opened Wrappers
  import opened Ownership
  import opened OwnershipTheorems

  // ---------- processors

  ghost predicate PeerKeeps(p: Peer) {
    && (p.processor.Some? ==> p.made != [])
    && (!p.replaced ==>
          && |p.made| <= 1
          && (p.processor.Some? ==> p.made == [p.processor.value])
          && (forall h :: h in p.handled ==> p.made == [h]))
    && (p.replaced ==> |p.made| >= 2 || (p.made != [] && p.processor.None?))
    && (p.replaced ==> p.reentered)
  }

  ghost predicate FrameKeeps(p: Peer, pc: Pc) {
    && (pc.HostStore? && pc.made.Some? ==>
          if p.replaced then |p.made| >= 2 else p.processor.None? && p.made == [pc.made.value])
    && (pc.HostRunning? && !p.replaced ==> p.made == [pc.processor])
  }

  ghost predicate FramesKeep(s: State) {
    forall t, i :: 0 <= t < |s.threads| && 0 <= i < |s.threads[t]| && s.threads[t][i].peer < |s.peers| ==>
      FrameKeeps(s.peers[s.threads[t][i].peer], s.threads[t][i].pc)
  }

  ghost predicate KeptInv(s: State) {
    && (forall p :: 0 <= p < |s.peers| ==> PeerKeeps(s.peers[p]))
    && FramesKeep(s)
    // a processor that has been made and not yet stored is in the hands of the owner of the monitor
    && (forall p :: 0 <= p < |s.peers| && s.peers[p].made != [] && s.peers[p].processor.None? && !s.peers[p].replaced
          ==> InOwnersHands(s, p))
  }

  /** A makeProcessor that comes back with a processor where the field is null is the first to do so. */
  lemma FirstMade(s: State, thread: nat)
    requires MonitorInv(s) && KeptInv(s) && CanRun(s, thread) && Top(s.threads[thread]).pc.HostMake?
    requires var p := s.peers[Top(s.threads[thread]).peer]; p.processor.None? && !p.replaced
    ensures s.peers[Top(s.threads[thread]).peer].made == []
  {
    TopOwns(s, thread, |s.threads[thread]| - 1);
  }

  lemma PeerKept(s: State, thread: nat, making: Making)
    requires MonitorInv(s) && ProcessorInv(s) && KeptInv(s) && CanRun(s, thread)
    ensures PeerKeeps(DoRun(s, thread, making).peers[Top(s.threads[thread]).peer])
  {
    var top := |s.threads[thread]| - 1;
    var f := s.threads[thread][top];
    var p := s.peers[f.peer];
    assert PeerKeeps(p) && FrameKeeps(p, f.pc) && HostFrame(p, f.pc);
    if f.pc.HostMake? && p.processor.None? && !p.replaced {
      FirstMade(s, thread);
    } else if f.pc == HostStore(None) && p.processor.None? && !p.replaced {
      TopOwns(s, thread, top);
    }
  }

  lemma FrameKept(s: State, thread: nat, making: Making, t: nat, i: nat)
    requires ShapeInv(s) && MonitorInv(s) && KeptInv(s) && CanRun(s, thread)
    requires t < |s.threads| && i < |s.threads[t]| && (t != thread || i < |s.threads[t]| - 1)
    ensures FrameKeeps(DoRun(s, thread, making).peers[s.threads[t][i].peer], s.threads[t][i].pc)
  {
    var top := |s.threads[thread]| - 1;
    var f := s.threads[thread][top];
    var g := s.threads[t][i];
    var p := s.peers[g.peer];
    assert FrameKeeps(p, g.pc) && PeerKeeps(p);
    if g.peer == f.peer && Holds(f.pc) {
      TopOwns(s, thread, top);
      if Holds(g.pc) {
        TopOwns(s, t, i);
      }
      if f.pc.HostMake? && p.processor.None? && !p.replaced {
        FirstMade(s, thread);
      }
    }
  }

  lemma TopKept(s: State, thread: nat, making: Making)
    requires MonitorInv(s) && KeptInv(s) && CanRun(s, thread)
    ensures var f := Top(s.threads[thread]);
            var p := s.peers[f.peer];
            FrameKeeps(DoRun(s, thread, making).peers[f.peer], NextPc(p.channel, p.processor, f.pc, making))
  {
    hide NextPeer, NextPc;
    var top := |s.threads[thread]| - 1;
    var f := s.threads[thread][top];
    var p := s.peers[f.peer];
    assert FrameKeeps(p, f.pc) && PeerKeeps(p);
    if f.pc.HostMake? && p.processor.None? && !p.replaced {
      FirstMade(s, thread);
    }
    NextKept(p, thread, f.pc, making);
  }

  lemma NextKept(p: Peer, thread: nat, pc: Pc, making: Making)
    requires FrameKeeps(p, pc) && PeerKeeps(p)
    requires pc.HostMake? && p.processor.None? && !p.replaced ==> p.made == []
    ensures FrameKeeps(NextPeer(p, thread, pc, making), NextPc(p.channel, p.processor, pc, making))
  {
  }

  lemma FramesKept(s: State, thread: nat, making: Making)
    requires ShapeInv(s) && MonitorInv(s) && KeptInv(s) && CanRun(s, thread)
    ensures FramesKeep(DoRun(s, thread, making))
  {
    hide FrameKeeps, NextPc, NextPeer;
    var s' := DoRun(s, thread, making);
    var top := |s.threads[thread]| - 1;
    TopKept(s, thread, making);
    forall t, i | 0 <= t < |s'.threads| && 0 <= i < |s'.threads[t]| && s'.threads[t][i].peer < |s'.peers|
      ensures FrameKeeps(s'.peers[s'.threads[t][i].peer], s'.threads[t][i].pc)
    {
      if t != thread || i < top {
        assert s'.threads[t][i] == s.threads[t][i];
        FrameKept(s, thread, making, t, i);
      }
    }
  }

  lemma HandsKept(s: State, thread: nat, making: Making, p: nat)
    requires ShapeInv(s) && MonitorInv(s) && KeptInv(s) && CanRun(s, thread) && p < |s.peers|
    requires var q := DoRun(s, thread, making).peers[p]; q.made != [] && q.processor.None? && !q.replaced
    ensures InOwnersHands(DoRun(s, thread, making), p)
  {
    var s' := DoRun(s, thread, making);
    var top := |s.threads[thread]| - 1;
    var f := s.threads[thread][top];
    assert FrameKeeps(s.peers[f.peer], f.pc) && PeerKeeps(s.peers[f.peer]);
    if Holds(f.pc) {
      TopOwns(s, thread, top);
    }
    if p == f.peer && f.pc.HostMake? {
      FirstMade(s, thread);
    } else {
      assert s.peers[p].made == s'.peers[p].made;
      assert InOwnersHands(s, p);
    }
  }

  lemma RunKeepsKept(s: State, thread: nat, making: Making)
    requires ShapeInv(s) && MonitorInv(s) && ProcessorInv(s) && KeptInv(s) && CanRun(s, thread)
    ensures KeptInv(DoRun(s, thread, making))
  {
    hide PeerKeeps, NextPeer, NextPc;
    var s' := DoRun(s, thread, making);
    PeerKept(s, thread, making);
    FramesKept(s, thread, making);
    forall p | 0 <= p < |s'.peers| && s'.peers[p].made != [] && s'.peers[p].processor.None? && !s'.peers[p].replaced
      ensures InOwnersHands(s', p)
    {
      HandsKept(s, thread, making, p);
    }
  }

  lemma InvokeKeepsKept(s: State, thread: nat, entry: Entry, peer: nat)
    requires KeptInv(s) && CanInvoke(s, thread, peer)
    ensures KeptInv(DoInvoke(s, thread, entry, peer))
  {
    var s' := DoInvoke(s, thread, entry, peer);
    forall p | 0 <= p < |s'.peers| ensures PeerKeeps(s'.peers[p]) {
      assert PeerKeeps(s.peers[p]);
    }
    forall t, i | 0 <= t < |s'.threads| && 0 <= i < |s'.threads[t]| && s'.threads[t][i].peer < |s'.peers|
      ensures FrameKeeps(s'.peers[s'.threads[t][i].peer], s'.threads[t][i].pc)
    {
      if t != thread || i < |s.threads[thread]| {
        assert s'.threads[t][i] == s.threads[t][i];
        assert FrameKeeps(s.peers[s.threads[t][i].peer], s.threads[t][i].pc);
      }
    }
    forall p | 0 <= p < |s'.peers| && s'.peers[p].made != [] && s'.peers[p].processor.None? && !s'.peers[p].replaced
      ensures InOwnersHands(s', p)
    {
      assert InOwnersHands(s, p);
    }
  }

  lemma StepKeepsKept(s: State, e: Event)
    requires Inv(s) && KeptInv(s) && Enabled(s, e)
    ensures KeptInv(Apply(s, e))
  {
    match e
    case Run(thread, making) => RunKeepsKept(s, thread, making);
    case Invoke(thread, entry, peer) => InvokeKeepsKept(s, thread, entry, peer);
    case _ =>
      assert forall p :: 0 <= p < |s.peers| && InOwnersHands(s, p) ==> InOwnersHands(Apply(s, e), p);
  }

  // ---------- tokens of callbacks

  /** How often releaseChannel has been called for peers that were given the token. */
  ghost function ReleasedFor(peers: seq<Peer>, token: Token): nat {
    if peers == [] then 0
    else
      var last := peers[|peers| - 1];
      ReleasedFor(peers[..|peers| - 1], token) + if last.given == token then last.releases else 0
  }

  lemma {:induction false} ReleasedForUpdate(peers: seq<Peer>, i: nat, p: Peer, token: Token)
    requires i < |peers| && p.given == peers[i].given
    ensures ReleasedFor(peers[i := p], token) + (if p.given == token then peers[i].releases else 0) ==
            ReleasedFor(peers, token) + if p.given == token then p.releases else 0
  {
    var last := |peers| - 1;
    if i < last {
      assert peers[i := p][..last] == peers[..last][i := p];
      ReleasedForUpdate(peers[..last], i, p, token);
    } else {
      assert peers[i := p][..last] == peers[..last];
    }
  }

  lemma {:induction false} ReleasedForHas(peers: seq<Peer>, i: nat)
    requires i < |peers|
    ensures ReleasedFor(peers, peers[i].given) >= peers[i].releases
  {
    if i < |peers| - 1 {
      ReleasedForHas(peers[..|peers| - 1], i);
    }
  }

  /** A callback holds nothing, or the token its peer was given; and every release was made for some peer. */
  ghost predicate TokenInv(s: State) {
    && (forall t, i :: 0 <= t < |s.threads| && 0 <= i < |s.threads[t]| && s.threads[t][i].peer < |s.peers| ==>
          TokenFrame(s.peers[s.threads[t][i].peer], s.threads[t][i].pc))
    && (forall token :: token != 0 ==> s.released[token] == ReleasedFor(s.peers, token))
  }

  ghost predicate TokenFrame(p: Peer, pc: Pc) {
    pc.CallbackCall? ==> pc.token == 0 || pc.token == p.given
  }

  lemma TokenFrameRuns(s: State, thread: nat, making: Making, p: nat, pc: Pc)
    requires CanRun(s, thread) && p < |s.peers| && TokenFrame(s.peers[p], pc)
    ensures TokenFrame(DoRun(s, thread, making).peers[p], pc)
  {
  }

  lemma TopTokenFrame(s: State, thread: nat, making: Making)
    requires CloseInv(s) && CanRun(s, thread)
    ensures var f := Top(s.threads[thread]);
            var p := s.peers[f.peer];
            TokenFrame(DoRun(s, thread, making).peers[f.peer], NextPc(p.channel, p.processor, f.pc, making))
  {
    assert TokenUsed(s.peers[Top(s.threads[thread]).peer]);
  }

  lemma RunKeepsTokenFrames(s: State, thread: nat, making: Making)
    requires ShapeInv(s) && CloseInv(s) && TokenInv(s) && CanRun(s, thread)
    ensures var s' := DoRun(s, thread, making);
            forall t, i :: 0 <= t < |s'.threads| && 0 <= i < |s'.threads[t]| && s'.threads[t][i].peer < |s'.peers| ==>
              TokenFrame(s'.peers[s'.threads[t][i].peer], s'.threads[t][i].pc)
  {
    hide TokenFrame, NextPc, NextPeer, CloseInv;
    var s' := DoRun(s, thread, making);
    var top := |s.threads[thread]| - 1;
    TopTokenFrame(s, thread, making);
    forall t, i | 0 <= t < |s'.threads| && 0 <= i < |s'.threads[t]| && s'.threads[t][i].peer < |s'.peers|
      ensures TokenFrame(s'.peers[s'.threads[t][i].peer], s'.threads[t][i].pc)
    {
      if t != thread || i < top {
        assert s'.threads[t][i] == s.threads[t][i];
        TokenFrameRuns(s, thread, making, s.threads[t][i].peer, s.threads[t][i].pc);
      }
    }
  }

  lemma RunKeepsToken(s: State, thread: nat, making: Making)
    requires ShapeInv(s) && CloseInv(s) && TokenInv(s) && CanRun(s, thread)
    ensures TokenInv(DoRun(s, thread, making))
  {
    RunKeepsTokenFrames(s, thread, making);
    hide TokenFrame, NextPc;
    var s' := DoRun(s, thread, making);
    var f := Top(s.threads[thread]);
    assert CloseFrame(s.peers[f.peer], f.pc);
    forall token | token != 0 ensures s'.released[token] == ReleasedFor(s'.peers, token) {
      ReleasedForUpdate(s.peers, f.peer, s'.peers[f.peer], token);
    }
  }

  lemma InvokeKeepsToken(s: State, thread: nat, entry: Entry, peer: nat)
    requires TokenInv(s) && CanInvoke(s, thread, peer)
    ensures TokenInv(DoInvoke(s, thread, entry, peer))
  {
    var s' := DoInvoke(s, thread, entry, peer);
    forall t, i | 0 <= t < |s'.threads| && 0 <= i < |s'.threads[t]| && s'.threads[t][i].peer < |s'.peers|
      ensures TokenFrame(s'.peers[s'.threads[t][i].peer], s'.threads[t][i].pc)
    {
      if t != thread || i < |s.threads[thread]| {
        assert s'.threads[t][i] == s.threads[t][i];
      }
    }
    forall token | token != 0 ensures s'.released[token] == ReleasedFor(s'.peers, token) {
      ReleasedForUpdate(s.peers, peer, s'.peers[peer], token);
      assert s'.peers == s.peers[peer := s'.peers[peer]];
    }
  }

  lemma StepKeepsToken(s: State, e: Event)
    requires Inv(s) && TokenInv(s) && Enabled(s, e)
    ensures TokenInv(Apply(s, e))
  {
    match e
    case Run(thread, making) => RunKeepsToken(s, thread, making);
    case Invoke(thread, entry, peer) => InvokeKeepsToken(s, thread, entry, peer);
    case Construct => assert DoConstruct(s).peers[..|s.peers|] == s.peers;
    case _ =>
  }

  lemma {:induction false} ReachableAccounts(es: seq<Event>, s: State)
    requires Replay(Initial, es) == Some(s)
    ensures KeptInv(s) && TokenInv(s)
  {
    hide Inv, KeptInv, TokenInv, Enabled, Apply;
    if es != [] {
      var n := |es| - 1;
      var before := Replay(Initial, es[..n]).value;
      ReachableInv(es[..n], before);
      ReachableAccounts(es[..n], before);
      StepKeepsKept(before, es[n]);
      StepKeepsToken(before, es[n]);
    } else {
      AtFirst();
    }
  }

  lemma AtFirst()
    ensures KeptInv(Initial) && TokenInv(Initial)
  {
  }

  // ---------- the theorems

  /** The peer has one processor at most, and keeps it from where it is made: it stands in the field, or is about to be
      stored by the owner of the monitor. */
  ghost predicate KeepsItsProcessor(s: State, p: nat)
    requires p < |s.peers|
  {
    && |s.peers[p].made| <= 1
    && (s.peers[p].made != [] ==> s.peers[p].processor == Some(s.peers[p].made[0]) || InOwnersHands(s, p))
  }

  /** One processor: over any interleaving of requests a peer keeps one processor if and only if no makeProcessor has
      come back, other than by an exception, to find that the field is no longer null. As long as that is so, every
      request is handled by that processor; and it can only fail if makeProcessor calls callHostToJvm of its peer. */
  lemma OneProcessorForAll(es: seq<Event>, s: State, p: nat)
    requires Replay(Initial, es) == Some(s) && p < |s.peers|
    ensures KeepsItsProcessor(s, p) <==> !s.peers[p].replaced
    ensures !s.peers[p].replaced ==> forall h :: h in s.peers[p].handled ==> s.peers[p].made == [h]
    ensures s.peers[p].replaced ==> s.peers[p].reentered
  {
    ReachableAccounts(es, s);
    assert PeerKeeps(s.peers[p]);
    if InOwnersHands(s, p) {
      InHandsKeeps(s, p);
    }
  }

  /** With event `n` of the run, thread `t`, in the middle of makeProcessor of peer `p`, calls callHostToJvm of the same
      peer. */
  ghost predicate Reentry(es: seq<Event>, p: nat, n: nat, t: nat) {
    && n < |es| && es[n] == Invoke(t, Host, p) && Replay(Initial, es[..n]).Some?
    && var before := Replay(Initial, es[..n]).value;
       t < |before.threads| && Frame(p, HostMake) in before.threads[t]
  }

  ghost predicate EverReentered(es: seq<Event>, p: nat) {
    exists n: nat, t: nat :: Reentry(es, p, n, t)
  }

  predicate Marked(s: State, p: nat) {
    p < |s.peers| && s.peers[p].reentered
  }

  /** A re-entry is recorded exactly if there has been one. */
  lemma {:induction false} ReenteredIff(es: seq<Event>, s: State, p: nat)
    requires Replay(Initial, es) == Some(s)
    ensures Marked(s, p) <==> EverReentered(es, p)
  {
    if es != [] {
      hide EverReentered, Marked, Enabled, Apply;
      var last := |es| - 1;
      var before := Replay(Initial, es[..last]).value;
      ReenteredIff(es[..last], before, p);
      LastReentry(es, before, p);
      StepMarks(before, es[last], p);
    } else {
      assert !EverReentered(es, p);
    }
  }

  /** Event `e`, from state `s`, is a re-entry. */
  predicate IsReentry(s: State, e: Event, p: nat) {
    e.Invoke? && e.entry == Host && e.peer == p && e.thread < |s.threads| && Frame(p, HostMake) in s.threads[e.thread]
  }

  lemma LastReentry(es: seq<Event>, before: State, p: nat)
    requires es != [] && Replay(Initial, es[..|es| - 1]) == Some(before)
    ensures EverReentered(es, p) <==> EverReentered(es[..|es| - 1], p) || IsReentry(before, es[|es| - 1], p)
  {
    hide Replay;
    var last := |es| - 1;
    forall n: nat, t: nat | n < last ensures Reentry(es, p, n, t) <==> Reentry(es[..last], p, n, t) {
      assert es[..last][..n] == es[..n];
    }
    if IsReentry(before, es[last], p) {
      assert Reentry(es, p, last, es[last].thread);
    }
  }

  lemma StepMarks(s: State, e: Event, p: nat)
    requires Enabled(s, e)
    ensures Marked(Apply(s, e), p) <==> Marked(s, p) || IsReentry(s, e, p)
  {
  }

  lemma InHandsKeeps(s: State, p: nat)
    requires FramesKeep(s) && p < |s.peers| && InOwnersHands(s, p)
    ensures FrameKeeps(s.peers[p], HostStore(Some(s.peers[p].made[0])))
  {
    var t := s.peers[p].owner.value;
    assert s.threads[t][|s.threads[t]| - 1] == Frame(p, HostStore(Some(s.peers[p].made[0])));
  }

  /** A callback about to call callJvmToHost with a token that is not 0: as long as its peer has not released it, the
      channel is retained. If the channel was connected once, only so long. */
  lemma CallbackTokenIsLive(es: seq<Event>, s: State, t: nat, i: nat)
    requires Replay(Initial, es) == Some(s) && t < |s.threads| && i < |s.threads[t]|
    requires s.threads[t][i].pc.CallbackCall? && s.threads[t][i].pc.token != 0
    ensures s.threads[t][i].peer < |s.peers|
    ensures var token := s.threads[t][i].pc.token;
            var released := s.peers[s.threads[t][i].peer].releases > 0;
            && (!released ==> s.released[token] < s.retained[token])
            && (s.retained[token] == 1 ==> (s.released[token] < s.retained[token] <==> !released))
  {
    ReachableInv(es, s);
    ReachableAccounts(es, s);
    var p := s.threads[t][i].peer;
    var token := s.threads[t][i].pc.token;
    assert TokenFrame(s.peers[p], s.threads[t][i].pc) && TokenUsed(s.peers[p]);
    TokensConserved(es, s, token);
    if s.peers[p].releases > 0 {
      ReleasedForHas(s.peers, p);
    } else if s.peers[p].channel != 0 {
      InPeersHas(s.peers, p);
    } else {
      InHandsHas(s.threads, s.peers[p].owner.value, token);
    }
  }
}
