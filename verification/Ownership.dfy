/**
 The ownership protocol of a Thrift channel across the language border, as a step machine.

 `connect` retains the native channel and leaves the reference in a static slot; the constructor of a Java peer
 takes it out; `close` and `finalize` give it back, once. Any number of channels, peers and threads take part.
 A token is the reference as a number; 0 means none. `getChannel` is one step. The monitor of a peer is
 re-entrant, and user code (`makeProcessor`, the processor itself) may call back into any peer.
 */
module Ownership {
  import opened Wrappers

  type Token = nat

  /** The fields of a Java `ThriftChannel`, its monitor, and after them history: the token its constructor got, how
      often releaseChannel was called for it, the processors makeProcessor has returned for it, whether
      makeProcessor was entered again from within itself, whether it came back when the field was no longer null
      (with a processor, or with a null that was then stored), and the processors that have handled requests. */
  datatype Peer = Peer(
    channel: Token,
    processor: Option<nat>,
    owner: Option<nat>,
    depth: nat,
    given: Token,
    releases: nat,
    made: seq<nat>,
    reentered: bool,
    replaced: bool,
    handled: set<nat>)

  datatype Pc =
    // close, finalize
    | CloseEnter | CloseTest | CloseTake | CloseClear(temp: Token) | CloseRelease(temp: Token) | CloseExit
    // callHostToJvm
    | HostTest | HostEnter | HostRetest | HostMake | HostStore(made: Option<nat>) | HostExit | HostAbort
    | HostProcess | HostRunning(processor: nat)
    // a callback: makeClient's transport calls callJvmToHost
    | CallbackRead | CallbackCall(token: Token)
    // the method has come back
    | Back

  datatype Frame = Frame(peer: nat, pc: Pc)

  /** `threads`: the call stack of every thread, its top frame last. */
  datatype State = State(
    slot: Token,
    peers: seq<Peer>,
    threads: seq<seq<Frame>>,
    // history
    retained: multiset<Token>,
    released: multiset<Token>,
    leaked: multiset<Token>)

  datatype Entry = Close | Host | Callback

  /** What makeProcessor does. */
  datatype Making = Made(processor: nat) | MadeNull | Threw

  /** `Publish`: connect retains channel `token` and writes the slot. `Construct`: a peer is created.
      `Invoke`: a thread that is idle, or in user code, calls a method of a peer. `Run`: a thread takes its next
      step; `making` is what makeProcessor does if that is where it stands. */
  datatype Event =
    | Publish(token: Token)
    | Construct
    | NewThread
    | Invoke(thread: nat, entry: Entry, peer: nat)
    | Run(thread: nat, making: Making)

  const Initial: State := State(0, [], [], multiset{}, multiset{}, multiset{})

  /** Code that is not the protocol's own: it may call anything. */
  predicate UserCode(pc: Pc) {
    pc.HostMake? || pc.HostRunning?
  }

  predicate Free(p: Peer, thread: nat) {
    p.owner.None? || p.owner.value == thread
  }

  function Top(stack: seq<Frame>): Frame
    requires stack != []
  {
    stack[|stack| - 1]
  }

  predicate CanInvoke(s: State, thread: nat, peer: nat) {
    && thread < |s.threads| && peer < |s.peers|
    && (s.threads[thread] == [] || UserCode(Top(s.threads[thread]).pc))
  }

  predicate CanRun(s: State, thread: nat) {
    && thread < |s.threads| && s.threads[thread] != []
    && var f := Top(s.threads[thread]);
       f.peer < |s.peers| && (f.pc.CloseEnter? || f.pc.HostEnter? ==> Free(s.peers[f.peer], thread))
  }

  predicate Enabled(s: State, e: Event) {
    match e
    case Publish(token) => token != 0
    case Construct => true
    case NewThread => true
    case Invoke(thread, _, peer) => CanInvoke(s, thread, peer)
    case Run(thread, _) => CanRun(s, thread)
  }

  function Singleton(token: Token): multiset<Token> {
    if token == 0 then multiset{} else multiset{token}
  }

  /** A retained reference goes into the slot; one that is still there is lost. */
  function DoPublish(s: State, token: Token): State {
    s.(slot := token, retained := s.retained + multiset{token}, leaked := s.leaked + Singleton(s.slot))
  }

  /** The constructor of a peer: getChannel empties the slot. */
  function DoConstruct(s: State): State {
    s.(slot := 0, peers := s.peers + [Peer(s.slot, None, None, 0, s.slot, 0, [], false, false, {})])
  }

  function FirstPc(entry: Entry): Pc {
    match entry
    case Close => CloseEnter
    case Host => HostTest
    case Callback => CallbackRead
  }

  /** A thread in makeProcessor of this very peer calls callHostToJvm of the same peer. */
  predicate Reenters(stack: seq<Frame>, entry: Entry, peer: nat) {
    entry.Host? && exists i :: 0 <= i < |stack| && stack[i] == Frame(peer, HostMake)
  }

  function DoInvoke(s: State, thread: nat, entry: Entry, peer: nat): State
    requires CanInvoke(s, thread, peer)
  {
    var stack := s.threads[thread];
    s.(threads := s.threads[thread := stack + [Frame(peer, FirstPc(entry))]],
       peers := if Reenters(stack, entry, peer) then s.peers[peer := s.peers[peer].(reentered := true)] else s.peers)
  }

  /** Where a method goes next, given the fields of its peer. A request whose processor is null fails. */
  function NextPc(channel: Token, processor: Option<nat>, pc: Pc, making: Making): Pc {
    match pc
    case CloseEnter => CloseTest
    case CloseTest => if channel != 0 then CloseTake else CloseExit
    case CloseTake => CloseClear(channel)
    case CloseClear(temp) => CloseRelease(temp)
    case CloseRelease(_) => CloseExit
    case CloseExit => Back
    case HostTest => if processor.None? then HostEnter else HostProcess
    case HostEnter => HostRetest
    case HostRetest => if processor.None? then HostMake else HostExit
    case HostMake =>
      (match making
       case Made(processor) => HostStore(Some(processor))
       case MadeNull => HostStore(None)
       case Threw => HostAbort)
    case HostStore(_) => HostExit
    case HostExit => HostProcess
    case HostAbort => Back  // the exception leaves the monitor and the method
    case HostProcess => if processor.None? then Back else HostRunning(processor.value)
    case HostRunning(_) => Back
    case CallbackRead => CallbackCall(channel)
    case CallbackCall(_) => Back
    case Back => Back
  }

  predicate Leaves(pc: Pc) {
    pc.CloseExit? || pc.HostExit? || pc.HostAbort?
  }

  /** How often the monitor is held after a step at `pc`. */
  function NextDepth(p: Peer, pc: Pc): nat {
    if pc.CloseEnter? || pc.HostEnter? then p.depth + 1
    else if Leaves(pc) && p.depth > 0 then p.depth - 1
    else p.depth
  }

  /** The fields of the peer after the next step of a frame at `pc` of `thread`. */
  function NextPeer(p: Peer, thread: nat, pc: Pc, making: Making): Peer {
    Peer(
      if pc.CloseClear? then 0 else p.channel,
      if pc.HostStore? then pc.made else p.processor,
      if NextDepth(p, pc) == 0 then None else if pc.CloseEnter? || pc.HostEnter? then Some(thread) else p.owner,
      NextDepth(p, pc),
      p.given,
      if pc.CloseRelease? then p.releases + 1 else p.releases,
      if pc.HostMake? && making.Made? then p.made + [making.processor] else p.made,
      p.reentered,
      p.replaced || (p.processor.Some? && ((pc.HostMake? && making.Made?) || pc == HostStore(None))),
      if pc.HostProcess? && p.processor.Some? then p.handled + {p.processor.value} else p.handled)
  }

  function DoRun(s: State, thread: nat, making: Making): State
    requires CanRun(s, thread)
  {
    var stack := s.threads[thread];
    var f := Top(stack);
    var p := s.peers[f.peer];
    var rest := stack[..|stack| - 1];
    var next := NextPc(p.channel, p.processor, f.pc, making);
    s.(threads := s.threads[thread := if next.Back? then rest else rest + [Frame(f.peer, next)]],
       peers := s.peers[f.peer := NextPeer(p, thread, f.pc, making)],
       released := if f.pc.CloseRelease? then s.released + multiset{f.pc.temp} else s.released)
  }

  function Apply(s: State, e: Event): State
    requires Enabled(s, e)
  {
    match e
    case Publish(token) => DoPublish(s, token)
    case Construct => DoConstruct(s)
    case NewThread => s.(threads := s.threads + [[]])
    case Invoke(thread, entry, peer) => DoInvoke(s, thread, entry, peer)
    case Run(thread, making) => DoRun(s, thread, making)
  }

  function Replay(s: State, es: seq<Event>): Option<State> {
    if es == [] then Some(s)
    else
      var r := Replay(s, es[..|es| - 1]);
      if r.Some? && Enabled(r.value, es[|es| - 1]) then Some(Apply(r.value, es[|es| - 1])) else None
  }

  // ---------- what other threads do in between

  /** The state after the steps `es` from `s`, each taken if it is possible when its turn comes, and left out if not. */
  function After(s: State, es: seq<Event>): State {
    if es == [] then s
    else
      var before := After(s, es[..|es| - 1]);
      if Enabled(before, es[|es| - 1]) then Apply(before, es[|es| - 1]) else before
  }

  /** Those of the steps that are taken. */
  ghost function Taken(s: State, es: seq<Event>): seq<Event> {
    if es == [] then []
    else
      var before := es[..|es| - 1];
      Taken(s, before) + if Enabled(After(s, before), es[|es| - 1]) then [es[|es| - 1]] else []
  }

  lemma TurnStep(s: State, es: seq<Event>, i: nat)
    requires i < |es|
    ensures var before := After(s, es[..i]);
            if Enabled(before, es[i]) then
              After(s, es[..i + 1]) == Apply(before, es[i]) && Taken(s, es[..i + 1]) == Taken(s, es[..i]) + [es[i]]
            else
              After(s, es[..i + 1]) == before && Taken(s, es[..i + 1]) == Taken(s, es[..i])
  {
    assert es[..i + 1][..i] == es[..i];
  }

  /** In the run `es` the other threads have had their turns `passed`, one after the other, and have taken in each all
      the steps that were possible. */
  ghost predicate Passed(es: seq<Event>, passed: seq<seq<Event>>)
    decreases |passed|, 1
  {
    passed == [] || exists n: nat :: LastTurn(es, passed, n)
  }

  /** The last turn came after `es[..n]`. */
  ghost predicate LastTurn(es: seq<Event>, passed: seq<seq<Event>>, n: nat)
    requires passed != []
    decreases |passed|, 0
  {
    var last := |passed| - 1;
    && n <= |es| && Replay(Initial, es[..n]).Some?
    && es[..n] + Taken(Replay(Initial, es[..n]).value, passed[last]) <= es
    && Passed(es[..n], passed[..last])
  }

  lemma PassedExtends(es: seq<Event>, e: Event, passed: seq<seq<Event>>)
    requires Passed(es, passed)
    ensures Passed(es + [e], passed)
  {
    if passed != [] {
      var n: nat :| LastTurn(es, passed, n);
      assert (es + [e])[..n] == es[..n];
      assert LastTurn(es + [e], passed, n);
    }
  }

  lemma PassedTurn(es: seq<Event>, s: State, passed: seq<seq<Event>>, turn: seq<Event>)
    requires Passed(es, passed) && Replay(Initial, es) == Some(s)
    ensures Passed(es + Taken(s, turn), passed + [turn])
  {
    var more := es + Taken(s, turn);
    assert more[..|es|] == es && (passed + [turn])[..|passed|] == passed;
    assert LastTurn(more, passed + [turn], |es|);
  }
}
