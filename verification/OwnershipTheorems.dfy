/** What every interleaving of the ownership protocol keeps. */
module OwnershipTheorems {
  import opened Wrappers
  import opened Ownership

  /** Between monitor entry and exit. */
  predicate Holds(pc: Pc) {
    pc.CloseTest? || pc.CloseTake? || pc.CloseClear? || pc.CloseRelease? || Leaves(pc)
    || pc.HostRetest? || pc.HostMake? || pc.HostStore?
  }

  /** How many frames of a stack hold the monitor of `peer`. */
  ghost function HoldCount(stack: seq<Frame>, peer: nat): nat {
    if stack == [] then 0
    else HoldCount(stack[..|stack| - 1], peer) + Count(Top(stack).peer == peer && Holds(Top(stack).pc))
  }

  lemma HoldCountPush(stack: seq<Frame>, f: Frame, peer: nat)
    ensures HoldCount(stack + [f], peer) == HoldCount(stack, peer) + Count(f.peer == peer && Holds(f.pc))
  {
    assert (stack + [f])[..|stack|] == stack;
  }

  lemma {:induction false} HoldCountAt(stack: seq<Frame>, i: nat)
    requires i < |stack| && Holds(stack[i].pc)
    ensures HoldCount(stack, stack[i].peer) > 0
  {
    if i < |stack| - 1 {
      HoldCountAt(stack[..|stack| - 1], i);
    }
  }

  // ---------- invariants

  /** Below the top of a stack there is only user code. */
  ghost predicate ShapeInv(s: State) {
    forall t, i :: 0 <= t < |s.threads| && 0 <= i < |s.threads[t]| ==>
      && s.threads[t][i].peer < |s.peers|
      && !s.threads[t][i].pc.Back?
      && (i < |s.threads[t]| - 1 ==> UserCode(s.threads[t][i].pc))
  }

  /** A monitor belongs to the thread whose frames hold it. */
  ghost predicate MonitorInv(s: State) {
    && (forall t, p :: 0 <= t < |s.threads| && 0 <= p < |s.peers| ==>
          HoldCount(s.threads[t], p) == if s.peers[p].owner == Some(t) then s.peers[p].depth else 0)
    && (forall p :: 0 <= p < |s.peers| ==>
          && (s.peers[p].owner.None? <==> s.peers[p].depth == 0)
          && (s.peers[p].owner.Some? ==> s.peers[p].owner.value < |s.threads|))
  }

  /** The field, the local variable of a closer, and what has been released. */
  ghost predicate CloseFrame(p: Peer, pc: Pc) {
    && (pc.CloseTake? ==> p.channel != 0)
    && (pc.CloseClear? ==> p.channel != 0 && p.channel == pc.temp)
    && (pc.CloseRelease? ==> pc.temp == p.given != 0 && p.channel == 0 && p.releases == 0)
  }

  ghost predicate CloseInv(s: State) {
    && (forall t, i :: 0 <= t < |s.threads| && 0 <= i < |s.threads[t]| && s.threads[t][i].peer < |s.peers| ==>
          CloseFrame(s.peers[s.threads[t][i].peer], s.threads[t][i].pc))
    && (forall p :: 0 <= p < |s.peers| ==> TokenUsed(s.peers[p]))
    // a token that is neither in the field nor released is in the hands of the owner of the monitor
    && (forall p :: 0 <= p < |s.peers| && s.peers[p].given != 0 && s.peers[p].channel == 0 && s.peers[p].releases == 0
          ==> Releasing(s, p))
  }

  ghost predicate TokenUsed(p: Peer) {
    && p.releases <= 1
    && (p.channel != 0 ==> p.channel == p.given && p.releases == 0)
    && (p.given == 0 ==> p.releases == 0)
  }

  ghost predicate Releasing(s: State, p: nat)
    requires p < |s.peers|
  {
    && s.peers[p].owner.Some? && s.peers[p].owner.value < |s.threads|
    && var stack := s.threads[s.peers[p].owner.value];
       stack != [] && Top(stack) == Frame(p, CloseRelease(s.peers[p].given))
  }

  /** While makeProcessor is not entered again from within itself, it yields one processor. */
  ghost predicate OneProcessor(p: Peer) {
    !p.reentered ==>
      && |p.made| <= 1
      && (p.processor.Some? ==> p.made == [p.processor.value])
      && (forall h :: h in p.handled ==> p.made == [h])
  }

  ghost predicate HostFrame(p: Peer, pc: Pc) {
    !p.reentered ==>
      && (pc.HostMake? ==> p.made == [] && p.processor.None?)
      && (pc.HostStore? ==> p.processor.None? && p.made == if pc.made.Some? then [pc.made.value] else [])
      && (pc.HostRunning? ==> p.made == [pc.processor])
  }

  predicate IsHost(pc: Pc) {
    pc.HostTest? || pc.HostEnter? || pc.HostRetest? || pc.HostMake? || pc.HostStore? || pc.HostExit? || pc.HostAbort?
    || pc.HostProcess? || pc.HostRunning?
  }

  ghost predicate ProcessorInv(s: State) {
    && (forall p :: 0 <= p < |s.peers| ==> OneProcessor(s.peers[p]))
    && (forall t, i :: 0 <= t < |s.threads| && 0 <= i < |s.threads[t]| && s.threads[t][i].peer < |s.peers| ==>
          HostFrame(s.peers[s.threads[t][i].peer], s.threads[t][i].pc))
    // a processor that has been made and not yet stored is in the hands of the owner of the monitor
    && (forall p :: 0 <= p < |s.peers| && s.peers[p].made != [] && s.peers[p].processor.None? && !s.peers[p].reentered
          ==> InOwnersHands(s, p))
    // a second callHostToJvm above makeProcessor is a re-entry
    && (forall t, i, j :: 0 <= t < |s.threads| && 0 <= i < j < |s.threads[t]| && s.threads[t][i].peer < |s.peers| &&
          s.threads[t][i].pc.HostMake? && s.threads[t][j].peer == s.threads[t][i].peer && IsHost(s.threads[t][j].pc)
          ==> s.peers[s.threads[t][i].peer].reentered)
  }

  ghost predicate InOwnersHands(s: State, p: nat)
    requires p < |s.peers|
  {
    && s.peers[p].owner.Some? && s.peers[p].owner.value < |s.threads|
    && s.peers[p].made != []
    && var stack := s.threads[s.peers[p].owner.value];
       stack != [] && Top(stack) == Frame(p, HostStore(Some(s.peers[p].made[0])))
  }

  // ---------- conservation

  /** In how many fields `channel` the token stands. */
  ghost function InPeers(peers: seq<Peer>, token: Token): nat {
    if peers == [] then 0
    else InPeers(peers[..|peers| - 1], token) + Count(peers[|peers| - 1].channel == token)
  }

  /** The closer on top of the stack has cleared the field and has yet to call releaseChannel with the token. */
  ghost predicate InHand(stack: seq<Frame>, token: Token) {
    stack != [] && Top(stack).pc == CloseRelease(token)
  }

  ghost function InHands(threads: seq<seq<Frame>>, token: Token): nat {
    if threads == [] then 0
    else InHands(threads[..|threads| - 1], token) + Count(InHand(threads[|threads| - 1], token))
  }

  /** Every retained reference is released, lost, in the slot, in a peer, or in the hands of a closer. */
  ghost predicate Conserved(s: State, token: Token) {
    s.retained[token] ==
    s.released[token] + s.leaked[token] + Count(s.slot == token) + InPeers(s.peers, token) + InHands(s.threads, token)
  }

  ghost predicate Conservation(s: State) {
    forall token {:trigger Conserved(s, token)} :: token != 0 ==> Conserved(s, token)
  }

  lemma {:induction false} InPeersUpdate(peers: seq<Peer>, i: nat, p: Peer, token: Token)
    requires i < |peers|
    ensures InPeers(peers[i := p], token) + Count(peers[i].channel == token) ==
            InPeers(peers, token) + Count(p.channel == token)
  {
    var last := |peers| - 1;
    if i < last {
      assert peers[i := p][..last] == peers[..last][i := p];
      InPeersUpdate(peers[..last], i, p, token);
    } else {
      assert peers[i := p][..last] == peers[..last];
    }
  }

  lemma {:induction false} InHandsUpdate(threads: seq<seq<Frame>>, i: nat, stack: seq<Frame>, token: Token)
    requires i < |threads|
    ensures InHands(threads[i := stack], token) + Count(InHand(threads[i], token)) ==
            InHands(threads, token) + Count(InHand(stack, token))
  {
    var last := |threads| - 1;
    if i < last {
      assert threads[i := stack][..last] == threads[..last][i := stack];
      InHandsUpdate(threads[..last], i, stack, token);
    } else {
      assert threads[i := stack][..last] == threads[..last];
    }
  }

  lemma {:induction false} InPeersHas(peers: seq<Peer>, i: nat)
    requires i < |peers|
    ensures InPeers(peers, peers[i].channel) > 0
  {
    if i < |peers| - 1 {
      InPeersHas(peers[..|peers| - 1], i);
    }
  }

  lemma {:induction false} InHandsHas(threads: seq<seq<Frame>>, i: nat, token: Token)
    requires i < |threads| && InHand(threads[i], token)
    ensures InHands(threads, token) > 0
  {
    if i < |threads| - 1 {
      InHandsHas(threads[..|threads| - 1], i, token);
    }
  }

  ghost predicate Inv(s: State) {
    ShapeInv(s) && MonitorInv(s) && CloseInv(s) && ProcessorInv(s) && Conservation(s)
  }

  // ---------- monitors exclude

  /** A thread whose top frame holds a monitor owns it. */
  lemma TopOwns(s: State, t: nat, i: nat)
    requires MonitorInv(s) && t < |s.threads| && i < |s.threads[t]|
    requires Holds(s.threads[t][i].pc) && s.threads[t][i].peer < |s.peers|
    ensures s.peers[s.threads[t][i].peer].owner == Some(t)
  {
    HoldCountAt(s.threads[t], i);
  }

  lemma ShapeRun(s: State, thread: nat, making: Making)
    requires ShapeInv(s) && CanRun(s, thread)
    ensures ShapeInv(DoRun(s, thread, making))
  {
  }

  /** The frames of thread `t` that hold the monitor of `p`, after a step of `thread`. */
  lemma MonitorRunAt(s: State, thread: nat, making: Making, t: nat, p: nat)
    requires ShapeInv(s) && MonitorInv(s) && CanRun(s, thread) && t < |s.threads| && p < |s.peers|
    ensures var s' := DoRun(s, thread, making);
            HoldCount(s'.threads[t], p) == if s'.peers[p].owner == Some(t) then s'.peers[p].depth else 0
  {
    var s' := DoRun(s, thread, making);
    var stack := s.threads[thread];
    assert HoldCount(s.threads[t], p) == if s.peers[p].owner == Some(t) then s.peers[p].depth else 0;
    if Holds(Top(stack).pc) {
      TopOwns(s, thread, |stack| - 1);
    }
    MonitorFields(s, thread, making, p);
    hide NextPeer, NextDepth;
    if t == thread {
      OwnCount(s, thread, making, p);
    } else {
      assert s'.threads[t] == s.threads[t];
    }
  }

  /** What a step does to the monitors. */
  lemma MonitorFields(s: State, thread: nat, making: Making, p: nat)
    requires CanRun(s, thread) && p < |s.peers|
    ensures var f := Top(s.threads[thread]);
            var q, q' := s.peers[p], DoRun(s, thread, making).peers[p];
            if p != f.peer then q'.owner == q.owner && q'.depth == q.depth
            else if f.pc.CloseEnter? || f.pc.HostEnter? then q'.owner == Some(thread) && q'.depth == q.depth + 1
            else if Leaves(f.pc) && q.depth > 0 then
              q'.depth == q.depth - 1 && q'.owner == if q.depth == 1 then None else q.owner
            else q'.depth == q.depth && q'.owner == if q.depth == 0 then None else q.owner
  {
  }

  /** How a step changes what its own thread holds. */
  lemma OwnCount(s: State, thread: nat, making: Making, p: nat)
    requires CanRun(s, thread)
    ensures var f := Top(s.threads[thread]);
            var peer := s.peers[f.peer];
            HoldCount(DoRun(s, thread, making).threads[thread], p) + Count(f.peer == p && Holds(f.pc)) ==
            HoldCount(s.threads[thread], p) +
            Count(f.peer == p && Holds(NextPc(peer.channel, peer.processor, f.pc, making)))
  {
    var stack := s.threads[thread];
    var f := Top(stack);
    var rest := stack[..|stack| - 1];
    HoldCountPush(rest, Frame(f.peer, NextPc(s.peers[f.peer].channel, s.peers[f.peer].processor, f.pc, making)), p);
    assert HoldCount(stack, p) == HoldCount(rest, p) + Count(f.peer == p && Holds(f.pc));
  }

  lemma MonitorRun(s: State, thread: nat, making: Making)
    requires ShapeInv(s) && MonitorInv(s) && CanRun(s, thread)
    ensures MonitorInv(DoRun(s, thread, making))
  {
    var s' := DoRun(s, thread, making);
    forall t, p | 0 <= t < |s.threads| && 0 <= p < |s.peers|
      ensures HoldCount(s'.threads[t], p) == if s'.peers[p].owner == Some(t) then s'.peers[p].depth else 0
    {
      MonitorRunAt(s, thread, making, t, p);
    }
    var stack := s.threads[thread];
    if Holds(Top(stack).pc) {
      TopOwns(s, thread, |stack| - 1);
    }
  }

  lemma CloseFramesRun(s: State, thread: nat, making: Making)
    requires ShapeInv(s) && MonitorInv(s) && CloseInv(s) && CanRun(s, thread)
    ensures var s' := DoRun(s, thread, making);
            forall t, i :: 0 <= t < |s'.threads| && 0 <= i < |s'.threads[t]| && s'.threads[t][i].peer < |s'.peers| ==>
              CloseFrame(s'.peers[s'.threads[t][i].peer], s'.threads[t][i].pc)
  {
    var s' := DoRun(s, thread, making);
    var stack := s.threads[thread];
    var top := |stack| - 1;
    var f := stack[top];
    if Holds(f.pc) {
      TopOwns(s, thread, top);
    }
    forall t, i | 0 <= t < |s'.threads| && 0 <= i < |s'.threads[t]| && s'.threads[t][i].peer < |s'.peers|
      ensures CloseFrame(s'.peers[s'.threads[t][i].peer], s'.threads[t][i].pc)
    {
      if t != thread || i < top {
        assert s'.threads[t][i] == s.threads[t][i];
        if Holds(s.threads[t][i].pc) {
          TopOwns(s, t, i);
        }
      }
    }
  }

  lemma CloseRun(s: State, thread: nat, making: Making)
    requires ShapeInv(s) && MonitorInv(s) && CloseInv(s) && CanRun(s, thread)
    ensures CloseInv(DoRun(s, thread, making))
  {
    CloseFramesRun(s, thread, making);
    var s' := DoRun(s, thread, making);
    var f := Top(s.threads[thread]);
    if Holds(f.pc) {
      TopOwns(s, thread, |s.threads[thread]| - 1);
    }
    assert CloseFrame(s.peers[f.peer], f.pc);
    forall p | 0 <= p < |s'.peers| && s'.peers[p].given != 0 && s'.peers[p].channel == 0 && s'.peers[p].releases == 0
      ensures Releasing(s', p)
    {
      assert (p == f.peer && f.pc.CloseClear?) || Releasing(s, p);
    }
  }

  lemma FramesRun(s: State, thread: nat, making: Making)
    requires ShapeInv(s) && MonitorInv(s) && ProcessorInv(s) && CanRun(s, thread)
    ensures var s' := DoRun(s, thread, making);
            forall t, i :: 0 <= t < |s'.threads| && 0 <= i < |s'.threads[t]| && s'.threads[t][i].peer < |s'.peers| ==>
              HostFrame(s'.peers[s'.threads[t][i].peer], s'.threads[t][i].pc)
  {
    var s' := DoRun(s, thread, making);
    var top := |s.threads[thread]| - 1;
    var f := s.threads[thread][top];
    assert HostFrame(s.peers[f.peer], f.pc) && OneProcessor(s.peers[f.peer]);
    forall t, i | 0 <= t < |s'.threads| && 0 <= i < |s'.threads[t]| && s'.threads[t][i].peer < |s'.peers|
      ensures HostFrame(s'.peers[s'.threads[t][i].peer], s'.threads[t][i].pc)
    {
      if t != thread || i < top {
        assert s'.threads[t][i] == s.threads[t][i];
        OtherFrame(s, thread, making, t, i);
      } else if f.pc.HostRetest? && s.peers[f.peer].made != [] && s.peers[f.peer].processor.None?
                && !s.peers[f.peer].reentered {
        assert InOwnersHands(s, f.peer);
        TopOwns(s, thread, top);
      }
    }
  }

  /** A frame below the top, or of another thread, keeps what it knows of the processor of its peer. */
  lemma OtherFrame(s: State, thread: nat, making: Making, t: nat, i: nat)
    requires ShapeInv(s) && MonitorInv(s) && ProcessorInv(s) && CanRun(s, thread)
    requires t < |s.threads| && i < |s.threads[t]| && (t != thread || i < |s.threads[t]| - 1)
    ensures HostFrame(DoRun(s, thread, making).peers[s.threads[t][i].peer], s.threads[t][i].pc)
  {
    var top := |s.threads[thread]| - 1;
    var f := s.threads[thread][top];
    var g := s.threads[t][i];
    assert HostFrame(s.peers[g.peer], g.pc) && OneProcessor(s.peers[g.peer]);
    if g.peer == f.peer && Holds(f.pc) {
      TopOwns(s, thread, top);
      if Holds(g.pc) {
        TopOwns(s, t, i);
      }
    }
  }

  lemma HandsRun(s: State, thread: nat, making: Making, p: nat)
    requires ShapeInv(s) && MonitorInv(s) && ProcessorInv(s) && CanRun(s, thread) && p < |s.peers|
    requires var q := DoRun(s, thread, making).peers[p]; q.made != [] && q.processor.None? && !q.reentered
    ensures InOwnersHands(DoRun(s, thread, making), p)
  {
    var s' := DoRun(s, thread, making);
    var top := |s.threads[thread]| - 1;
    var f := s.threads[thread][top];
    assert HostFrame(s.peers[f.peer], f.pc) && OneProcessor(s.peers[f.peer]);
    if Holds(f.pc) {
      TopOwns(s, thread, top);
    }
    if p == f.peer && f.pc.HostMake? {
      assert making.Made?;
    } else {
      assert s.peers[p].made == s'.peers[p].made;
      assert InOwnersHands(s, p);
    }
  }

  lemma ReentryRun(s: State, thread: nat, making: Making, t: nat, i: nat, j: nat)
    requires ShapeInv(s) && ProcessorInv(s) && CanRun(s, thread)
    requires t < |s.threads| && i < j < |DoRun(s, thread, making).threads[t]|
    requires var stack := DoRun(s, thread, making).threads[t];
             stack[i].pc.HostMake? && stack[j].peer == stack[i].peer && IsHost(stack[j].pc)
    ensures var s' := DoRun(s, thread, making);
            s'.threads[t][i].peer < |s'.peers| && s'.peers[s'.threads[t][i].peer].reentered
  {
    var s' := DoRun(s, thread, making);
    assert s.threads[t][i] == s'.threads[t][i];
    assert s.threads[t][j].peer == s'.threads[t][j].peer && IsHost(s.threads[t][j].pc);
  }

  lemma ProcessorRun(s: State, thread: nat, making: Making)
    requires ShapeInv(s) && MonitorInv(s) && ProcessorInv(s) && CanRun(s, thread)
    ensures ProcessorInv(DoRun(s, thread, making))
  {
    var s' := DoRun(s, thread, making);
    var f := Top(s.threads[thread]);
    assert HostFrame(s.peers[f.peer], f.pc);
    forall p | 0 <= p < |s'.peers| ensures OneProcessor(s'.peers[p]) {
      assert OneProcessor(s.peers[p]);
    }
    FramesRun(s, thread, making);
    forall p | 0 <= p < |s'.peers| && s'.peers[p].made != [] && s'.peers[p].processor.None? && !s'.peers[p].reentered
      ensures InOwnersHands(s', p)
    {
      HandsRun(s, thread, making, p);
    }
    forall t, i, j | 0 <= t < |s'.threads| && 0 <= i < j < |s'.threads[t]| && s'.threads[t][i].peer < |s'.peers| &&
                     s'.threads[t][i].pc.HostMake? && s'.threads[t][j].peer == s'.threads[t][i].peer &&
                     IsHost(s'.threads[t][j].pc)
      ensures s'.peers[s'.threads[t][i].peer].reentered
    {
      ReentryRun(s, thread, making, t, i, j);
    }
  }

  /** One peer and one stack change; what they hold together with what is released does not. */
  lemma Balance(s: State, s': State, peer: nat, thread: nat, token: Token)
    requires Conserved(s, token) && peer < |s.peers| == |s'.peers| && thread < |s.threads| == |s'.threads|
    requires s'.peers == s.peers[peer := s'.peers[peer]] && s'.threads == s.threads[thread := s'.threads[thread]]
    requires s'.slot == s.slot && s'.retained == s.retained && s'.leaked == s.leaked
    requires s'.released[token] + Count(s'.peers[peer].channel == token) + Count(InHand(s'.threads[thread], token)) ==
             s.released[token] + Count(s.peers[peer].channel == token) + Count(InHand(s.threads[thread], token))
    ensures Conserved(s', token)
  {
    InPeersUpdate(s.peers, peer, s'.peers[peer], token);
    InHandsUpdate(s.threads, thread, s'.threads[thread], token);
  }

  /** A step of a closer moves a token from the field into its hands, or from there to releaseChannel. */
  lemma HandedOver(s: State, thread: nat, making: Making, token: Token)
    requires ShapeInv(s) && CloseInv(s) && CanRun(s, thread) && token != 0
    ensures var s' := DoRun(s, thread, making);
            var peer := Top(s.threads[thread]).peer;
            s'.released[token] + Count(s'.peers[peer].channel == token) + Count(InHand(s'.threads[thread], token)) ==
            s.released[token] + Count(s.peers[peer].channel == token) + Count(InHand(s.threads[thread], token))
  {
    var s' := DoRun(s, thread, making);
    var stack := s.threads[thread];
    var f := Top(stack);
    var rest := stack[..|stack| - 1];
    assert rest != [] ==> Top(rest) == stack[|stack| - 2] && UserCode(Top(rest).pc);
    assert CloseFrame(s.peers[f.peer], f.pc);
    var before, after := InHand(stack, token), InHand(s'.threads[thread], token);
    if f.pc.CloseClear? {
      assert !before && (after <==> s.peers[f.peer].channel == token) && s'.peers[f.peer].channel == 0;
    } else if f.pc.CloseRelease? {
      assert !after && (before <==> f.pc.temp == token) && s'.peers[f.peer].channel == s.peers[f.peer].channel;
    } else {
      assert !after && !before && s'.released == s.released;
    }
  }

  lemma ConservedRun(s: State, thread: nat, making: Making, token: Token)
    requires ShapeInv(s) && CloseInv(s) && Conserved(s, token) && CanRun(s, thread) && token != 0
    ensures Conserved(DoRun(s, thread, making), token)
  {
    hide Conserved, CloseInv, ShapeInv, InHand, NextPc, NextPeer;
    HandedOver(s, thread, making, token);
    var s' := DoRun(s, thread, making);
    Balance(s, s', Top(s.threads[thread]).peer, thread, token);
  }

  lemma ConservationRun(s: State, thread: nat, making: Making)
    requires ShapeInv(s) && CloseInv(s) && Conservation(s) && CanRun(s, thread)
    ensures Conservation(DoRun(s, thread, making))
  {
    forall token | token != 0 ensures Conserved(DoRun(s, thread, making), token) {
      assert Conserved(s, token);
      ConservedRun(s, thread, making, token);
    }
  }

  lemma RunKeepsInv(s: State, thread: nat, making: Making)
    requires Inv(s) && CanRun(s, thread)
    ensures Inv(DoRun(s, thread, making))
  {
    ShapeRun(s, thread, making);
    MonitorRun(s, thread, making);
    CloseRun(s, thread, making);
    ProcessorRun(s, thread, making);
    ConservationRun(s, thread, making);
  }

  // ---------- the other events

  lemma PublishKeepsInv(s: State, token: Token)
    requires Inv(s) && token != 0
    ensures Inv(DoPublish(s, token))
  {
    var s' := DoPublish(s, token);
    forall c | c != 0 ensures Conserved(s', c) {
      assert Conserved(s, c);
    }
    assert forall p :: 0 <= p < |s.peers| && InOwnersHands(s, p) ==> InOwnersHands(s', p);
    assert forall p :: 0 <= p < |s.peers| && Releasing(s, p) ==> Releasing(s', p);
  }

  lemma {:induction false} NoHolds(stack: seq<Frame>, peers: nat, p: nat)
    requires forall i :: 0 <= i < |stack| ==> stack[i].peer < peers
    requires p >= peers
    ensures HoldCount(stack, p) == 0
  {
    if stack != [] {
      NoHolds(stack[..|stack| - 1], peers, p);
    }
  }

  lemma ConstructConserves(s: State)
    requires Conservation(s)
    ensures Conservation(DoConstruct(s))
  {
    var s' := DoConstruct(s);
    assert s'.peers[..|s.peers|] == s.peers;
    forall c | c != 0 ensures Conserved(s', c) {
      assert Conserved(s, c);
    }
  }

  lemma ConstructKeepsInv(s: State)
    requires Inv(s)
    ensures Inv(DoConstruct(s))
  {
    hide Conservation;
    ConstructConserves(s);
    var s' := DoConstruct(s);
    forall t | 0 <= t < |s.threads| ensures HoldCount(s.threads[t], |s.peers|) == 0 {
      NoHolds(s.threads[t], |s.peers|, |s.peers|);
    }
    assert forall p :: 0 <= p < |s.peers| && InOwnersHands(s, p) ==> InOwnersHands(s', p);
    assert forall p :: 0 <= p < |s.peers| && Releasing(s, p) ==> Releasing(s', p);
  }

  lemma NewThreadConserves(s: State)
    requires Conservation(s)
    ensures Conservation(s.(threads := s.threads + [[]]))
  {
    var s' := s.(threads := s.threads + [[]]);
    assert s'.threads[..|s.threads|] == s.threads;
    forall c | c != 0 ensures Conserved(s', c) {
      assert Conserved(s, c);
    }
  }

  lemma NewThreadKeepsInv(s: State)
    requires Inv(s)
    ensures Inv(s.(threads := s.threads + [[]]))
  {
    hide Conservation;
    NewThreadConserves(s);
    var s' := s.(threads := s.threads + [[]]);
    assert forall p :: 0 <= p < |s.peers| && InOwnersHands(s, p) ==> InOwnersHands(s', p);
    assert forall p :: 0 <= p < |s.peers| && Releasing(s, p) ==> Releasing(s', p);
  }

  /** Where a called method starts, no monitor is held and nothing is known. */
  lemma InvokeKeepsInv(s: State, thread: nat, entry: Entry, peer: nat)
    requires Inv(s) && CanInvoke(s, thread, peer)
    ensures Inv(DoInvoke(s, thread, entry, peer))
  {
    InvokeKeepsShape(s, thread, entry, peer);
    InvokeKeepsMonitors(s, thread, entry, peer);
    InvokeKeepsClosers(s, thread, entry, peer);
    InvokeKeepsFrames(s, thread, entry, peer);
    InvokeKeepsProcessor(s, thread, entry, peer);
    forall c | c != 0 ensures Conserved(DoInvoke(s, thread, entry, peer), c) {
      InvokeConserves(s, thread, entry, peer, c);
    }
  }

  lemma InvokeKeepsShape(s: State, thread: nat, entry: Entry, peer: nat)
    requires ShapeInv(s) && CanInvoke(s, thread, peer)
    ensures ShapeInv(DoInvoke(s, thread, entry, peer))
  {
  }

  lemma InvokeKeepsMonitors(s: State, thread: nat, entry: Entry, peer: nat)
    requires ShapeInv(s) && MonitorInv(s) && CanInvoke(s, thread, peer)
    ensures MonitorInv(DoInvoke(s, thread, entry, peer))
  {
    var s' := DoInvoke(s, thread, entry, peer);
    forall t, p | 0 <= t < |s.threads| && 0 <= p < |s.peers|
      ensures HoldCount(s'.threads[t], p) == HoldCount(s.threads[t], p)
    {
      if t == thread {
        HoldCountPush(s.threads[thread], Frame(peer, FirstPc(entry)), p);
      } else {
        assert s'.threads[t] == s.threads[t];
      }
    }
    assert forall p :: 0 <= p < |s.peers| ==>
        s'.peers[p].owner == s.peers[p].owner && s'.peers[p].depth == s.peers[p].depth;
  }

  lemma InvokeKeepsClosers(s: State, thread: nat, entry: Entry, peer: nat)
    requires CloseInv(s) && CanInvoke(s, thread, peer)
    ensures CloseInv(DoInvoke(s, thread, entry, peer))
  {
    var s' := DoInvoke(s, thread, entry, peer);
    forall t, i | 0 <= t < |s'.threads| && 0 <= i < |s'.threads[t]| && s'.threads[t][i].peer < |s'.peers|
      ensures CloseFrame(s'.peers[s'.threads[t][i].peer], s'.threads[t][i].pc)
    {
      if t != thread || i < |s.threads[thread]| {
        assert s'.threads[t][i] == s.threads[t][i];
      }
    }
    forall p | 0 <= p < |s.peers| && Releasing(s, p) ensures Releasing(s', p) {
      assert s'.threads[s.peers[p].owner.value] == s.threads[s.peers[p].owner.value];
    }
  }

  lemma InvokeConserves(s: State, thread: nat, entry: Entry, peer: nat, token: Token)
    requires Conservation(s) && CanInvoke(s, thread, peer) && token != 0
    ensures Conserved(DoInvoke(s, thread, entry, peer), token)
  {
    var s' := DoInvoke(s, thread, entry, peer);
    assert Conserved(s, token);
    assert !InHand(s.threads[thread], token) && !InHand(s'.threads[thread], token);
    assert s'.peers == s.peers[peer := s'.peers[peer]];
    Balance(s, s', peer, thread, token);
  }

  lemma InvokeKeepsFrames(s: State, thread: nat, entry: Entry, peer: nat)
    requires ProcessorInv(s) && CanInvoke(s, thread, peer)
    ensures var s' := DoInvoke(s, thread, entry, peer);
            forall t, i :: 0 <= t < |s'.threads| && 0 <= i < |s'.threads[t]| && s'.threads[t][i].peer < |s'.peers| ==>
              HostFrame(s'.peers[s'.threads[t][i].peer], s'.threads[t][i].pc)
  {
    var s' := DoInvoke(s, thread, entry, peer);
    forall t, i | 0 <= t < |s'.threads| && 0 <= i < |s'.threads[t]| && s'.threads[t][i].peer < |s'.peers|
      ensures HostFrame(s'.peers[s'.threads[t][i].peer], s'.threads[t][i].pc)
    {
      if t != thread || i < |s.threads[thread]| {
        assert s'.threads[t][i] == s.threads[t][i];
        assert HostFrame(s.peers[s.threads[t][i].peer], s.threads[t][i].pc);
      }
    }
  }

  lemma InvokeKeepsProcessor(s: State, thread: nat, entry: Entry, peer: nat)
    requires ShapeInv(s) && ProcessorInv(s) && CanInvoke(s, thread, peer)
    ensures ProcessorInv(DoInvoke(s, thread, entry, peer))
  {
    var s' := DoInvoke(s, thread, entry, peer);
    InvokeKeepsFrames(s, thread, entry, peer);
    forall p | 0 <= p < |s'.peers| ensures OneProcessor(s'.peers[p]) {
      assert OneProcessor(s.peers[p]);
    }
    forall p | 0 <= p < |s'.peers| && s'.peers[p].made != [] && s'.peers[p].processor.None? && !s'.peers[p].reentered
      ensures InOwnersHands(s', p)
    {
      assert InOwnersHands(s, p);
    }
    forall t, i, j | 0 <= t < |s'.threads| && 0 <= i < j < |s'.threads[t]| && s'.threads[t][i].peer < |s'.peers| &&
                     s'.threads[t][i].pc.HostMake? && s'.threads[t][j].peer == s'.threads[t][i].peer &&
                     IsHost(s'.threads[t][j].pc)
      ensures s'.peers[s'.threads[t][i].peer].reentered
    {
      InvokeReentry(s, thread, entry, peer, t, i, j);
    }
  }

  lemma InvokeReentry(s: State, thread: nat, entry: Entry, peer: nat, t: nat, i: nat, j: nat)
    requires ShapeInv(s) && ProcessorInv(s) && CanInvoke(s, thread, peer)
    requires t < |s.threads| && i < j < |DoInvoke(s, thread, entry, peer).threads[t]|
    requires var stack := DoInvoke(s, thread, entry, peer).threads[t];
             stack[i].pc.HostMake? && stack[j].peer == stack[i].peer && IsHost(stack[j].pc)
    ensures var s' := DoInvoke(s, thread, entry, peer);
            s'.threads[t][i].peer < |s'.peers| && s'.peers[s'.threads[t][i].peer].reentered
  {
    var s' := DoInvoke(s, thread, entry, peer);
    if t == thread && j == |s.threads[thread]| {
      assert s.threads[thread][i] == Frame(peer, HostMake) && entry.Host?;
    } else {
      assert s.threads[t][i] == s'.threads[t][i] && s.threads[t][j] == s'.threads[t][j];
    }
  }

  lemma StepKeepsInv(s: State, e: Event)
    requires Inv(s) && Enabled(s, e)
    ensures Inv(Apply(s, e))
  {
    match e
    case Publish(token) => PublishKeepsInv(s, token);
    case Construct => ConstructKeepsInv(s);
    case NewThread => NewThreadKeepsInv(s);
    case Invoke(thread, entry, peer) => InvokeKeepsInv(s, thread, entry, peer);
    case Run(thread, making) => RunKeepsInv(s, thread, making);
  }

  lemma {:induction false} ReachableInv(es: seq<Event>, s: State)
    requires Replay(Initial, es) == Some(s)
    ensures Inv(s)
  {
    if es != [] {
      var before := Replay(Initial, es[..|es| - 1]).value;
      ReachableInv(es[..|es| - 1], before);
      StepKeepsInv(before, es[|es| - 1]);
    }
  }

  // ---------- the theorems

  /** Ownership conservation: in every run, for every channel, retains minus releases are the tokens in the static
      slot, in peers and in the hands of closers, plus those lost. */
  lemma TokensConserved(es: seq<Event>, s: State, token: Token)
    requires Replay(Initial, es) == Some(s) && token != 0
    ensures s.retained[token] ==
            s.released[token] + s.leaked[token]
            + Count(s.slot == token) + InPeers(s.peers, token) + InHands(s.threads, token)
  {
    ReachableInv(es, s);
    assert Conserved(s, token);
  }

  /** So no token is released more often than it was retained, and a peer whose field is not zero names a channel
      that is still retained. */
  lemma PeerNamesLiveChannel(es: seq<Event>, s: State, p: nat)
    requires Replay(Initial, es) == Some(s) && p < |s.peers|
    ensures forall token :: token != 0 ==> s.released[token] <= s.retained[token]
    ensures s.peers[p].channel != 0 ==> s.retained[s.peers[p].channel] > s.released[s.peers[p].channel]
  {
    forall token | token != 0 ensures s.released[token] <= s.retained[token] {
      TokensConserved(es, s, token);
    }
    if s.peers[p].channel != 0 {
      TokensConserved(es, s, s.peers[p].channel);
      InPeersHas(s.peers, p);
    }
  }

  /** A channel that was connected once is in one place only: no two peers share it, and once it has been released
      no peer names it. */
  lemma ConnectedOnce(es: seq<Event>, s: State, token: Token, p: nat)
    requires Replay(Initial, es) == Some(s) && token != 0 && s.retained[token] <= 1
    requires p < |s.peers| && s.peers[p].channel == token
    ensures s.released[token] == 0 && s.slot != token && s.leaked[token] == 0
    ensures forall q :: 0 <= q < |s.peers| && s.peers[q].channel == token ==> q == p
  {
    TokensConserved(es, s, token);
    InPeersHas(s.peers, p);
    forall q | 0 <= q < |s.peers| && q != p ensures s.peers[q].channel != token {
      InPeersTwo(s.peers, p, q);
    }
  }

  lemma {:induction false} InPeersTwo(peers: seq<Peer>, p: nat, q: nat)
    requires p < |peers| && q < |peers| && p != q
    ensures peers[p].channel == peers[q].channel ==> InPeers(peers, peers[p].channel) >= 2
  {
    var last := |peers| - 1;
    if p < last && q < last {
      InPeersTwo(peers[..last], p, q);
    } else if p < last {
      InPeersHas(peers[..last], p);
    } else {
      InPeersHas(peers[..last], q);
    }
  }

  /** Event number `k` is a connect that finds a token in the slot. */
  ghost predicate Overwrites(es: seq<Event>, k: nat) {
    k < |es| && es[k].Publish? && Replay(Initial, es[..k]).Some? && Replay(Initial, es[..k]).value.slot != 0
  }

  lemma LeakStep(s: State, e: Event)
    requires Enabled(s, e)
    ensures Apply(s, e).leaked == s.leaked + if e.Publish? then Singleton(s.slot) else multiset{}
  {
  }

  /** A token is lost only where a connect overwrites a full slot: in a run without such a connect none is, and in a run
      with one some is. */
  lemma {:induction false} LeaksOnlyInConnect(es: seq<Event>, s: State)
    requires Replay(Initial, es) == Some(s)
    ensures s.leaked == multiset{} <==> forall k: nat :: !Overwrites(es, k)
  {
    hide Apply, Enabled;
    if es != [] {
      var n := |es| - 1;
      var before := Replay(Initial, es[..n]).value;
      LeaksOnlyInConnect(es[..n], before);
      forall k: nat | k < n ensures Overwrites(es, k) <==> Overwrites(es[..n], k) {
        assert es[..n][..k] == es[..k];
      }
      LeakStep(before, es[n]);
      if Overwrites(es, n) {
        assert before.slot in s.leaked;
      } else {
        assert s.leaked == before.leaked;
      }
    }
  }

  /** Over any interleaving of closers and finalizers releaseChannel is called at most once for a peer and never
      with 0: where a thread is about to call it, it has not been called for that peer before. */
  lemma ReleasedAtMostOnce(es: seq<Event>, s: State, p: nat, thread: nat)
    requires Replay(Initial, es) == Some(s) && p < |s.peers|
    ensures s.peers[p].releases <= 1
    ensures s.peers[p].releases == 1 ==> s.peers[p].channel == 0
    ensures CanRun(s, thread) && Top(s.threads[thread]).pc.CloseRelease? ==>
              Top(s.threads[thread]).pc.temp != 0 && s.peers[Top(s.threads[thread]).peer].releases == 0
  {
    hide Conservation, ProcessorInv, MonitorInv;
    ReachableInv(es, s);
    if thread < |s.threads| && s.threads[thread] != [] {
      var top := |s.threads[thread]| - 1;
      assert CloseFrame(s.peers[s.threads[thread][top].peer], s.threads[thread][top].pc);
    }
  }

  /** A callback that reads the field after the release passes 0. */
  lemma LateCallbackPassesZero(es: seq<Event>, s: State, p: nat, thread: nat, making: Making)
    requires Replay(Initial, es) == Some(s) && p < |s.peers|
    ensures s.peers[p].releases == 1 && CanRun(s, thread) && Top(s.threads[thread]) == Frame(p, CallbackRead) ==>
              Top(DoRun(s, thread, making).threads[thread]) == Frame(p, CallbackCall(0))
  {
    hide DoRun, Replay;
    if s.peers[p].releases == 1 && CanRun(s, thread) && Top(s.threads[thread]) == Frame(p, CallbackRead) {
      ReleasedAtMostOnce(es, s, p, thread);
      CallbackReads(s, p, thread, making);
    }
  }

  lemma CallbackReads(s: State, p: nat, thread: nat, making: Making)
    requires p < |s.peers| && CanRun(s, thread) && Top(s.threads[thread]) == Frame(p, CallbackRead)
    ensures Top(DoRun(s, thread, making).threads[thread]) == Frame(p, CallbackCall(s.peers[p].channel))
  {
    var stack := s.threads[thread];
    assert DoRun(s, thread, making).threads[thread] ==
           stack[..|stack| - 1] + [Frame(p, CallbackCall(s.peers[p].channel))];
  }

  /** Outside the monitor a token is in one place: it is released, once, exactly if the field no longer holds it. */
  lemma ReleasedExactlyOnce(es: seq<Event>, s: State, p: nat)
    requires Replay(Initial, es) == Some(s) && p < |s.peers|
    requires s.peers[p].owner.None?
    ensures s.peers[p].releases + Count(s.peers[p].channel != 0) == Count(s.peers[p].given != 0)
  {
    ReachableInv(es, s);
    assert TokenUsed(s.peers[p]);
    assert !Releasing(s, p);
  }

  /** A token that is in the hands of a closer, about to be passed to releaseChannel, is still retained. */
  lemma ReleaseIsLive(es: seq<Event>, s: State, thread: nat)
    requires Replay(Initial, es) == Some(s) && CanRun(s, thread) && Top(s.threads[thread]).pc.CloseRelease?
    ensures var token := Top(s.threads[thread]).pc.temp; s.retained[token] > s.released[token]
  {
    ReachableInv(es, s);
    var top := |s.threads[thread]| - 1;
    assert CloseFrame(s.peers[s.threads[thread][top].peer], s.threads[thread][top].pc);
    TokensConserved(es, s, Top(s.threads[thread]).pc.temp);
    InHandsHas(s.threads, thread, Top(s.threads[thread]).pc.temp);
  }
}
