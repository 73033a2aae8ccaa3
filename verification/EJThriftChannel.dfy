/**
 The native end of a channel: connect, which hands a reference to itself across the border; close; and doWithClient,
 which runs a block of client calls. Both use the `EJJvm` of the channel, with the schedule of the other threads that it
 is given; once that is closed they do nothing good.

 The static slot and everything on the Java side of it are the state of the ownership protocol, in which other threads
 may take steps between the two that connect takes.
 */
module NativeChannels {
  import opened Wrappers
  import opened Ownership
  import opened OwnershipTheorems
  import Executor
  import EmbeddedJvm
  import ExecutorTheorems
  import opened BinaryEncoding
  import opened Messages
  import opened TestHostToJvm

  /** Both ends of all channels, and what has happened so far. */
  class Border {
    var state: State
    ghost var trace: seq<Event>

    ghost predicate Valid()
      reads this
    {
      Replay(Initial, trace) == Some(state)
    }

    constructor ()
      ensures Valid() && state == Initial
    {
      state, trace := Initial, [];
    }

    method Step(e: Event)
      requires Valid() && Enabled(state, e)
      modifies this
      ensures Valid() && state == Apply(old(state), e) && trace == old(trace) + [e]
    {
      assert (trace + [e])[..|trace|] == trace;
      state, trace := Apply(state, e), trace + [e];
    }

    /** Other threads take those of the steps that are possible when their turn comes. */
    method Others(events: seq<Event>)
      requires Valid()
      modifies this
      ensures Valid() && state == After(old(state), events) && trace == old(trace) + Taken(old(state), events)
    {
      hide Replay, Enabled, Apply;
      assert events[..0] == [];
      for i := 0 to |events|
        invariant Valid() && state == After(old(state), events[..i])
        invariant trace == old(trace) + Taken(old(state), events[..i])
      {
        hide After, Taken;
        TurnStep(old(state), events, i);
        if Enabled(state, events[i]) {
          Step(events[i]);
        }
      }
      assert events[..|events|] == events;
    }
  }

  /** How createObject fares: no constructor is found, or the constructor throws before or after the superclass
      constructor has called getChannel, or there is an object. */
  datatype Creation = NoConstructor | ThrewEarly | ThrewLate | Created(counterpart: nat)

  /** What the JNI calls of connect come to. */
  datatype Jni = Jni(classFound: bool, hostMethod: bool, closeMethod: bool, registered: bool, creation: Creation)
  {
    predicate Publishes() {
      classFound && hostMethod && closeMethod && registered
    }

    predicate Constructs() {
      Publishes() && (creation.ThrewLate? || creation.Created?)
    }
  }

  /** The block that close appends: with the Java object and method it has captured. */
  datatype Closing = Closing(counterpart: Option<nat>, closeMethod: bool)

  /** The `EJJvm` of a channel; the objects its blocks return are what calls of a client end with, or nil. */
  type ChannelJvm<J> = EmbeddedJvm.EJJvm<J, Option<Received>>

  class EJThriftChannel<J(!new)> {
    const token: Token
    var jvm: EmbeddedJvm.EJJvm?<J, Option<Received>>
    var channelCounterpart: Option<nat>
    var callHostToJvmMethod: bool        // the property is not nil
    var closeMethod: bool                // the property is not nil

    /** The closing blocks appended to the command queue of the JVM. */
    var appended: seq<Closing>

    ghost predicate Valid()
      reads this
    {
      token != 0 && |appended| <= 1 && (jvm != null ==> appended == [])
    }

    constructor (token: Token, host: ChannelJvm<J>)
      requires token != 0
      ensures Valid() && jvm == host && channelCounterpart.None? && this.token == token && appended == []
    {
      this.token, jvm, channelCounterpart, appended := token, host, None, [];
      callHostToJvmMethod, closeMethod := false, false;
    }

    /** A block on the JVM thread. `others` are the steps of other threads between the store to the slot and the call
        of the constructor. Undisturbed, it gives the new peer its own token, or leaves the token in the slot if no
        constructor came to ask for it; a token that it finds in the slot is lost. */
    method Connect(border: Border, jni: Jni, others: seq<Event>) returns (loading: bool)
      requires Valid() && border.Valid()
      modifies this, border
      ensures Valid() && border.Valid() && jvm == old(jvm) && appended == old(appended)
      ensures loading <==> jni.Publishes() && jni.creation.Created?
      ensures loading ==> callHostToJvmMethod && closeMethod && channelCounterpart == Some(jni.creation.counterpart)
      ensures !loading ==> channelCounterpart == if jni.Publishes() then None else old(channelCounterpart)
      ensures callHostToJvmMethod == if jni.classFound then jni.hostMethod else old(callHostToJvmMethod)
      ensures closeMethod == if jni.classFound && jni.hostMethod then jni.closeMethod else old(closeMethod)
      ensures border.trace == old(border.trace) + Sent(old(border.state), jni, others)
      ensures jni.Publishes() && others == [] ==>
                && border.state.retained == old(border.state.retained) + multiset{token}
                && border.state.leaked == old(border.state.leaked) + Singleton(old(border.state.slot))
                && border.state.slot == if jni.Constructs() then 0 else token
      ensures jni.Constructs() && others == [] ==>
                |border.state.peers| == |old(border.state.peers)| + 1
                && border.state.peers[|old(border.state.peers)|].channel == token
    {
      hide Replay, Taken;
      loading := jni.classFound;
      if loading {
        callHostToJvmMethod := jni.hostMethod;
        loading := jni.hostMethod;
      }
      if loading {
        closeMethod := jni.closeMethod;
        loading := jni.closeMethod;
      }
      if loading {
        loading := jni.registered;
      }
      if loading {
        border.Step(Publish(token));
        border.Others(others);
        if jni.Constructs() {
          border.Step(Construct);
        }
        channelCounterpart := if jni.creation.Created? then Some(jni.creation.counterpart) else None;
        loading := channelCounterpart.Some?;
      }
    }

    /** What connect does to the border, starting from `s`: the store to the slot, the steps `others` that other threads
        can take, and the call of getChannel. Nothing if connect gives up before the store. */
    ghost function Sent(s: State, jni: Jni, others: seq<Event>): seq<Event> {
      if jni.Publishes() then
        [Publish(token)] + Taken(DoPublish(s, token), others) + if jni.Constructs() then [Construct] else []
      else []
    }

    /** On the event queue of the channel; `id` is the call of callJvmAsyncVoid. The first call appends the one closing
        block there will ever be, with what connect has stored; every later call does nothing. But it passes no
        completion: if the JVM sees itself shut down, as it does whenever the JVM is closed before the channel, it calls
        nil, appends nothing and never comes back (`crashed`). */
    method Close(id: nat, others: EmbeddedJvm.Schedule) returns (crashed: bool)
      requires Valid()
      requires jvm != null ==> jvm.Valid() && Executor.Enabled(jvm.w, jvm.State(), Executor.BeginCall(id))
      requires jvm != null ==> jvm.w.kind(id) == Executor.AsyncVoid(false) && EmbeddedJvm.Foreign(others, Some(id))
      modifies this, jvm
      ensures Valid() && channelCounterpart == old(channelCounterpart)
      ensures callHostToJvmMethod == old(callHostToJvmMethod) && closeMethod == old(closeMethod)
      ensures old(jvm) == null ==> !crashed && jvm == null && appended == old(appended)
      ensures old(jvm) != null ==> old(jvm).Valid() && id in old(jvm).around.calls
      ensures old(jvm) != null ==> (crashed <==> old(jvm).around.calls[id].nilCalled)
      ensures old(jvm) != null ==> (crashed <==> id !in old(jvm).around.appended)
      ensures old(jvm) != null && old(jvm.isShutdown) ==> crashed
      ensures crashed ==> jvm == old(jvm) && appended == old(appended)
      ensures old(jvm) != null && !crashed ==>
                jvm == null && appended == [Closing(old(channelCounterpart), old(closeMethod))]
    {
      crashed := false;
      if jvm != null {
        var rest := jvm.CallJvmAsync(id, others);
        crashed := jvm.around.calls[id].pc.Refused?;
        HowItEnded(jvm, id);
        if !crashed {
          appended := appended + [Closing(channelCounterpart, closeMethod)];
          jvm := null;
        }
      }
    }

    /** A void call without a completion that has come back was refused if and only if nil was called for it. */
    lemma HowItEnded(host: ChannelJvm<J>, id: nat)
      requires host.Valid() && id in host.around.calls && host.w.kind(id) == Executor.AsyncVoid(false)
      ensures host.around.calls[id].nilCalled <==> host.around.calls[id].pc.Refused?
    {
      ExecutorTheorems.NilCompletions(host.w, host.trace, host.State(), id);
    }

    /** The block of doWithClientReturnObject, with a client call in it: on the JVM thread, with a transport of its
        own. */
    method ClientBlock(name: Bytes, arg: Option<Bytes>, service: Service) returns (r: Received)
      requires name == EchoString || name == EchoBinary
      requires FitsI32(|Request(name, arg)|)
      requires Echo(service, name)(arg).Returned? ==> Fits(Echo(service, name)(arg).value)
      ensures r == Promised(Echo(service, name), name, arg)
    {
      hide Request, FarSide, Promised, Echo;
      var transport := new EJThriftChannelTransport(
        sent => if sent == [] then None else FarSide(service, sent[|sent| - 1]));
      var client := new TestHostToJvmClient(transport);
      r := client.EchoCall(name, arg, service);
    }

    /** doWithClientReturnObject; `id` is the call of callJvmSyncObject, whose block returns what ClientBlock does. It
        comes back with what the call is promised to end with, on every such block, not only the first; with nil, the
        block never run, once the channel is closed, or if the JVM sees itself shut down. `None`: the schedule ends
        while it still waits. */
    method DoWithClient(id: nat, name: Bytes, arg: Option<Bytes>, service: Service, others: EmbeddedJvm.Schedule)
      returns (r: Option<Option<Received>>)
      requires Valid()
      requires jvm != null ==> jvm.Valid() && Executor.Enabled(jvm.w, jvm.State(), Executor.BeginCall(id))
      requires jvm != null ==> jvm.w.kind(id) == Executor.Sync && EmbeddedJvm.Foreign(others, Some(id))
      requires jvm != null ==> jvm.w.zero == None && RunsClient(jvm.w, id, Promised(Echo(service, name), name, arg))
      modifies jvm
      ensures Valid()
      ensures jvm == null ==> r == Some(None)
      ensures jvm != null ==> jvm.Valid() && id in jvm.around.calls
      ensures jvm != null && r.None? ==> jvm.around.calls[id].pc.Waiting? && jvm.around.calls[id].sem == 0
      ensures jvm != null && r.None? ==> jvm.passed == old(jvm.passed) + others
      ensures jvm != null && r.Some? && jvm.around.calls[id].pc.Refused? ==>
                r == Some(None) && id !in jvm.around.appended
      ensures jvm != null && r.Some? && !jvm.around.calls[id].pc.Refused? ==>
                r == Some(Some(Promised(Echo(service, name), name, arg))) && id in jvm.around.done
      ensures jvm != null && old(jvm.isShutdown) ==> jvm.around.calls[id].pc.Refused?
    {
      hide Promised, Echo;
      if jvm == null {
        return Some(None);
      }
      var rest;
      r, rest := jvm.CallJvmSync(id, others);
    }
  }

  /** Whatever the JVM state, block `id` returns `received`. */
  ghost predicate RunsClient<J(!new)>(w: Executor.World<J, Option<Received>>, id: nat, received: Received) {
    forall j :: w.body(id, j).result == Some(Some(received))
  }
}
