/**
 * A demo protocol in which one node tells every other node to shut down.
 *
 * The object-level flag `enabled` arms the protocol; installing the message
 * handler is what sets it, and nothing clears it. An armed broadcaster sends
 * an exit command to every peer of the network map that is neither a mock
 * placeholder nor the node itself, waits a grace interval and exits; an armed
 * handler exits with the code it receives.
 *
 * The effects (sends, the sleep, the process exit) are recorded as an event
 * trace, so every claim about the protocol is a claim about a sequence.
 */
module ExitServerProtocol {

  import opened Int32Wire

  // ---------------------------------------------------------------------
  // Constants
  // ---------------------------------------------------------------------

  const TOPIC: string := "exit.topic"

  /** The session id every send is tagged with. */
  const SESSION_ID: nat := 0

  /** The topic the handler is registered on, `"${TOPIC}.0"`. */
  const HANDLER_TOPIC: string := TOPIC + ".0"

  /** How long the broadcaster sleeps between its sends and its own exit. */
  const GRACE_SECONDS: nat := 1

  // ---------------------------------------------------------------------
  // Data model
  // ---------------------------------------------------------------------

  datatype ExitMessage = ExitMessage(exitCode: int32)

  /** A legal identity, compared by equality with the node's own. */
  type Identity = string

  /**
   * Where a peer can be reached. `MockAddress` stands for the placeholder
   * addresses a mock network map hands out: they denote no real node.
   */
  datatype Address = MockAddress(slot: nat) | NetworkAddress(host: string)

  /** One entry of the network map's party nodes. */
  datatype Peer = Peer(identity: Identity, address: Address)

  /** The observable effects of the protocol, in the order they happen. */
  datatype Event =
    | Send(topic: string, to: Address, sessionId: nat, message: ExitMessage)
    | Sleep(seconds: nat)
    | Exit(code: int32)

  // ---------------------------------------------------------------------
  // Topics
  // ---------------------------------------------------------------------

  /** The decimal digits of `n`, most significant first. */
  function Decimal(n: nat): (s: string)
    ensures |s| >= 1
    ensures forall k :: 0 <= k < |s| ==> '0' <= s[k] <= '9'
  {
    var digit := ['0' + (n % 10) as char];
    if n < 10 then digit else Decimal(n / 10) + digit
  }

  /** The number a string of decimal digits denotes. */
  function DigitsValue(s: string): nat
    requires forall k :: 0 <= k < |s| ==> '0' <= s[k] <= '9'
  {
    if s == [] then 0
    else DigitsValue(s[..|s| - 1]) * 10 + (s[|s| - 1] - '0') as nat
  }

  /** Rendering a number in decimal loses nothing: reading it back gives the number. */
  lemma {:induction false} DecimalValue(n: nat)
    ensures DigitsValue(Decimal(n)) == n
    decreases n
  {
    var s := Decimal(n);
    if n >= 10 {
      DecimalValue(n / 10);
      assert s[..|s| - 1] == Decimal(n / 10);
    }
  }

  /**
   * The topic a message sent on `topic` within session `sessionId` is
   * delivered to: the transport appends the session id after a dot.
   */
  function SessionTopic(topic: string, sessionId: nat): (t: string)
    ensures |t| > |topic| + 1 && t[..|topic|] == topic && t[|topic|] == '.'
    ensures t[|topic| + 1..] == Decimal(sessionId)
  {
    topic + "." + Decimal(sessionId)
  }

  /** Distinct sessions of one topic are delivered to distinct topics. */
  lemma SessionTopicIsInjective(topic: string, a: nat, b: nat)
    requires SessionTopic(topic, a) == SessionTopic(topic, b)
    ensures a == b
  {
    DecimalValue(a);
    DecimalValue(b);
  }

  lemma SendTopicIsHandlerTopic()
    ensures SessionTopic(TOPIC, SESSION_ID) == HANDLER_TOPIC
  {
  }

  // ---------------------------------------------------------------------
  // Wire format of the exit command
  // ---------------------------------------------------------------------

  function EncodeMessage(m: ExitMessage): (b: seq<uint8>)
    ensures |b| == 4
  {
    EncodeInt32(m.exitCode)
  }

  function DecodeMessage(b: seq<uint8>): (r: Option<ExitMessage>)
    ensures r.Some? <==> |b| == 4
  {
    match DecodeInt32(b)
    case Some(code) => Some(ExitMessage(code))
    case None => None
  }

  lemma MessageRoundTrip(m: ExitMessage)
    ensures DecodeMessage(EncodeMessage(m)) == Some(m)
  {
    DecodeEncodeInt32(m.exitCode);
  }

  lemma MessageDecodeIsInjective(b: seq<uint8>)
    requires |b| == 4
    ensures EncodeMessage(DecodeMessage(b).value) == b
  {
    EncodeDecodeInt32(b);
  }

  // ---------------------------------------------------------------------
  // Broadcaster, as a function of its inputs
  // ---------------------------------------------------------------------

  /**
   * A recipient gets the exit command unless its address is a mock
   * placeholder or it is the node itself.
   */
  predicate Eligible(recipient: Peer, myLegalIdentity: Identity) {
    !recipient.address.MockAddress? && recipient.identity != myLegalIdentity
  }

  function SendTo(recipient: Peer, message: ExitMessage): Event {
    Send(TOPIC, recipient.address, SESSION_ID, message)
  }

  /** The sends the loop over the party nodes issues, in order. */
  function RecipientSends(partyNodes: seq<Peer>, myLegalIdentity: Identity, message: ExitMessage): (r: seq<Event>)
    ensures |r| <= |partyNodes|
    ensures forall k :: 0 <= k < |r| ==>
      r[k].Send? && r[k].topic == TOPIC && r[k].sessionId == SESSION_ID &&
      r[k].message == message && !r[k].to.MockAddress?
  {
    if partyNodes == [] then []
    else
      var n := |partyNodes| - 1;
      RecipientSends(partyNodes[..n], myLegalIdentity, message) +
      (if Eligible(partyNodes[n], myLegalIdentity) then [SendTo(partyNodes[n], message)] else [])
  }

  /**
   * The positions of the eligible recipients in the party-node list,
   * ascending: each eligible position appears exactly once, no other does.
   */
  function EligibleIndices(partyNodes: seq<Peer>, myLegalIdentity: Identity): (r: seq<nat>)
    ensures forall k :: 0 <= k < |r| ==> r[k] < |partyNodes| && Eligible(partyNodes[r[k]], myLegalIdentity)
    ensures forall k, l :: 0 <= k < l < |r| ==> r[k] < r[l]
    ensures forall i :: 0 <= i < |partyNodes| && Eligible(partyNodes[i], myLegalIdentity) ==> i in r
  {
    if partyNodes == [] then []
    else
      var n := |partyNodes| - 1;
      var front := EligibleIndices(partyNodes[..n], myLegalIdentity);
      assert forall i :: 0 <= i < n ==> partyNodes[..n][i] == partyNodes[i];
      front + (if Eligible(partyNodes[n], myLegalIdentity) then [n] else [])
  }

  /**
   * The k-th send goes to the k-th eligible recipient: one send per eligible
   * recipient, none to any other, in the order of the party-node list.
   */
  lemma {:induction false} SendsFollowEligibleRecipients(partyNodes: seq<Peer>, myLegalIdentity: Identity, message: ExitMessage)
    ensures |RecipientSends(partyNodes, myLegalIdentity, message)| == |EligibleIndices(partyNodes, myLegalIdentity)|
    ensures forall k :: 0 <= k < |EligibleIndices(partyNodes, myLegalIdentity)| ==>
      RecipientSends(partyNodes, myLegalIdentity, message)[k] ==
      SendTo(partyNodes[EligibleIndices(partyNodes, myLegalIdentity)[k]], message)
  {
    if partyNodes != [] {
      var n := |partyNodes| - 1;
      SendsFollowEligibleRecipients(partyNodes[..n], myLegalIdentity, message);
      assert forall i :: 0 <= i < n ==> partyNodes[..n][i] == partyNodes[i];
    }
  }

  /** No send is addressed to a mock placeholder. */
  lemma MockRecipientNeverReceives(partyNodes: seq<Peer>, myLegalIdentity: Identity, message: ExitMessage, slot: nat)
    ensures forall e :: e in RecipientSends(partyNodes, myLegalIdentity, message) ==> e.to != MockAddress(slot)
  {
  }

  /**
   * The node never sends to itself: an address that the party nodes list
   * only under the node's own identity receives nothing.
   */
  lemma {:induction false} SelfNeverReceives(partyNodes: seq<Peer>, myLegalIdentity: Identity, message: ExitMessage, selfAddress: Address)
    requires forall i :: 0 <= i < |partyNodes| && partyNodes[i].address == selfAddress ==> partyNodes[i].identity == myLegalIdentity
    ensures forall e :: e in RecipientSends(partyNodes, myLegalIdentity, message) ==> e.to != selfAddress
  {
    var r := RecipientSends(partyNodes, myLegalIdentity, message);
    var idx := EligibleIndices(partyNodes, myLegalIdentity);
    SendsFollowEligibleRecipients(partyNodes, myLegalIdentity, message);
    forall e | e in r ensures e.to != selfAddress {
      var k :| 0 <= k < |r| && r[k] == e;
      assert e.to == partyNodes[idx[k]].address;
    }
  }

  /**
   * Everything one call of the broadcaster does: nothing when unarmed;
   * otherwise the sends, then the grace sleep, then the exit with the
   * requested code.
   */
  function BroadcastTrace(enabled: bool, partyNodes: seq<Peer>, myLegalIdentity: Identity, exitCode: int32): (t: seq<Event>)
    ensures !enabled ==> t == []
    ensures enabled ==> |t| >= 2 && t[|t| - 2] == Sleep(GRACE_SECONDS) && t[|t| - 1] == Exit(exitCode)
    ensures enabled ==> forall i :: 0 <= i < |t| - 2 ==> t[i].Send? && t[i].message == ExitMessage(exitCode)
    ensures forall i :: 0 <= i < |t| && t[i].Exit? ==> i == |t| - 1
  {
    if !enabled then []
    else RecipientSends(partyNodes, myLegalIdentity, ExitMessage(exitCode)) + [Sleep(GRACE_SECONDS), Exit(exitCode)]
  }

  // ---------------------------------------------------------------------
  // Handler, as a function of its inputs
  // ---------------------------------------------------------------------

  /** What the registered callback does with one inbound payload. */
  datatype Handled = Ignored | Exited(code: int32) | Malformed

  /**
   * Unarmed, the payload is ignored; armed, it is decoded and the process
   * exits with the decoded code, or decoding fails and the callback aborts.
   */
  function Handle(enabled: bool, payload: seq<uint8>): (h: Handled)
    ensures !enabled ==> h == Ignored
    ensures enabled ==> (h == Malformed <==> |payload| != 4)
    ensures enabled && |payload| == 4 ==> h.Exited? && EncodeMessage(ExitMessage(h.code)) == payload
  {
    if !enabled then Ignored
    else
      match DecodeMessage(payload)
      case Some(message) =>
        MessageDecodeIsInjective(payload);
        Exited(message.exitCode)
      case None => Malformed
  }

  /**
   * The effects of one callback: the process ends exactly when the handler
   * decided to exit, with the code it decided on, and nothing else happens.
   */
  function HandlerTrace(h: Handled): (t: seq<Event>)
    ensures Halted(t) <==> h.Exited?
    ensures ExitIsLast(t)
    ensures forall i :: 0 <= i < |t| ==> h.Exited? && t[i] == Exit(h.code)
  {
    if h.Exited? then
      var t := [Exit(h.code)];
      assert t[0].Exit?;
      t
    else []
  }

  /** An armed handler exits with exactly the code that was sent to it. */
  lemma HandlerExitsWithSentCode(message: ExitMessage)
    ensures Handle(true, EncodeMessage(message)) == Exited(message.exitCode)
  {
    MessageRoundTrip(message);
  }

  /**
   * Every send of an armed broadcast is delivered on the topic the handler
   * is registered on, and makes an armed receiver exit with the code the
   * broadcaster itself exits with.
   */
  lemma BroadcastStopsArmedReceivers(partyNodes: seq<Peer>, myLegalIdentity: Identity, exitCode: int32)
    ensures forall e :: e in BroadcastTrace(true, partyNodes, myLegalIdentity, exitCode) && e.Send? ==>
      SessionTopic(e.topic, e.sessionId) == HANDLER_TOPIC &&
      Handle(true, EncodeMessage(e.message)) == Exited(exitCode)
  {
    SendTopicIsHandlerTopic();
    HandlerExitsWithSentCode(ExitMessage(exitCode));
  }

  // ---------------------------------------------------------------------
  // The node as a state machine
  // ---------------------------------------------------------------------

  /** The arming flag, the topics with a registered handler, the effects so far. */
  datatype NodeState = NodeState(enabled: bool, handlerTopics: seq<string>, trace: seq<Event>)

  datatype Op =
    | RegisterHandler
    | StartBroadcast(partyNodes: seq<Peer>, myLegalIdentity: Identity, exitCode: int32)
    | Deliver(payload: seq<uint8>)

  const Initial: NodeState := NodeState(false, [], [])

  /** The process has exited. */
  predicate Halted(trace: seq<Event>) {
    exists i :: 0 <= i < |trace| && trace[i].Exit?
  }

  /** An exit, if any, is the last thing that happens. */
  predicate ExitIsLast(trace: seq<Event>) {
    forall i :: 0 <= i < |trace| && trace[i].Exit? ==> i == |trace| - 1
  }

  /** One operation; a process that has exited does nothing more. */
  function Step(s: NodeState, op: Op): (s': NodeState)
    ensures s.enabled ==> s'.enabled
    ensures |s'.trace| >= |s.trace| && s'.trace[..|s.trace|] == s.trace
    ensures Halted(s.trace) ==> s' == s
  {
    if Halted(s.trace) then s
    else
      match op
      case RegisterHandler =>
        s.(enabled := true, handlerTopics := s.handlerTopics + [HANDLER_TOPIC])
      case StartBroadcast(partyNodes, me, exitCode) =>
        s.(trace := s.trace + BroadcastTrace(s.enabled, partyNodes, me, exitCode))
      case Deliver(payload) =>
        s.(trace := s.trace + HandlerTrace(Handle(s.enabled, payload)))
  }

  function Run(s: NodeState, ops: seq<Op>): NodeState
    decreases |ops|
  {
    if ops == [] then s else Run(Step(s, ops[0]), ops[1..])
  }

  /** Arming is one-way: once armed, a node stays armed. */
  lemma {:induction false} ArmingIsOneWay(s: NodeState, ops: seq<Op>)
    requires s.enabled
    ensures Run(s, ops).enabled
    decreases |ops|
  {
    if ops != [] {
      ArmingIsOneWay(Step(s, ops[0]), ops[1..]);
    }
  }

  /** Effects are never undone: the trace only grows. */
  lemma {:induction false} TraceOnlyGrows(s: NodeState, ops: seq<Op>)
    ensures |Run(s, ops).trace| >= |s.trace| && Run(s, ops).trace[..|s.trace|] == s.trace
    decreases |ops|
  {
    if ops != [] {
      var s1 := Step(s, ops[0]);
      TraceOnlyGrows(s1, ops[1..]);
      assert Run(s, ops).trace[..|s1.trace|][..|s.trace|] == s1.trace[..|s.trace|];
    }
  }

  /** Once the process has exited nothing changes any more. */
  lemma {:induction false} ExitIsFinal(s: NodeState, ops: seq<Op>)
    requires Halted(s.trace)
    ensures Run(s, ops) == s
    decreases |ops|
  {
    if ops != [] {
      ExitIsFinal(Step(s, ops[0]), ops[1..]);
    }
  }

  /**
   * Registering the handler arms the node for good: after any run that
   * registers it, the node is armed, unless it has already exited.
   */
  lemma {:induction false} RegisterArms(s: NodeState, ops: seq<Op>)
    requires RegisterHandler in ops
    ensures Run(s, ops).enabled || Halted(Run(s, ops).trace)
    decreases |ops|
  {
    var s1 := Step(s, ops[0]);
    if ops[0] == RegisterHandler {
      if Halted(s.trace) {
        ExitIsFinal(s, ops);
      } else {
        ArmingIsOneWay(s1, ops[1..]);
      }
    } else {
      assert RegisterHandler in ops[1..];
      RegisterArms(s1, ops[1..]);
    }
  }

  /** A node that never registers its handler never sends and never exits. */
  lemma {:induction false} UnarmedNodeHasNoEffect(s: NodeState, ops: seq<Op>)
    requires !s.enabled && RegisterHandler !in ops
    ensures Run(s, ops).trace == s.trace && !Run(s, ops).enabled
    decreases |ops|
  {
    if ops != [] {
      var s1 := Step(s, ops[0]);
      assert s1.trace == s.trace && !s1.enabled;
      assert RegisterHandler !in ops[1..] by {
        forall k | 0 <= k < |ops[1..]| ensures ops[1..][k] != RegisterHandler {
          assert ops[1..][k] == ops[k + 1];
        }
      }
      UnarmedNodeHasNoEffect(s1, ops[1..]);
    }
  }

  /** Every step keeps an exit, if any, at the end of the trace. */
  lemma StepKeepsExitLast(s: NodeState, op: Op)
    requires ExitIsLast(s.trace)
    ensures ExitIsLast(Step(s, op).trace)
  {
    if !Halted(s.trace) {
      var t := Step(s, op).trace;
      assert t[..|s.trace|] == s.trace;
    }
  }

  lemma {:induction false} ExitStaysLast(s: NodeState, ops: seq<Op>)
    requires ExitIsLast(s.trace)
    ensures ExitIsLast(Run(s, ops).trace)
    decreases |ops|
  {
    if ops != [] {
      StepKeepsExitLast(s, ops[0]);
      ExitStaysLast(Step(s, ops[0]), ops[1..]);
    }
  }

  // ---------------------------------------------------------------------
  // Scenarios
  // ---------------------------------------------------------------------

  /**
   * Three party nodes: a real peer, a mock placeholder and the node itself.
   * Only the real peer is sent the command, then the node sleeps and exits.
   */
  lemma ScenarioArmed()
    ensures BroadcastTrace(true,
              [Peer("A", NetworkAddress("a")), Peer("B", MockAddress(0)), Peer("self", NetworkAddress("s"))],
              "self", 0)
         == [Send(TOPIC, NetworkAddress("a"), 0, ExitMessage(0)), Sleep(1), Exit(0)]
  {
    var ps := [Peer("A", NetworkAddress("a")), Peer("B", MockAddress(0)), Peer("self", NetworkAddress("s"))];
    var m := ExitMessage(0);
    assert ps[..2] == [ps[0], ps[1]];
    assert ps[..2][..1] == [ps[0]];
    assert ps[..2][..1][..0] == [];
    assert RecipientSends(ps[..1], "self", m) == [SendTo(ps[0], m)];
    assert RecipientSends(ps[..2], "self", m) == [SendTo(ps[0], m)];
    assert RecipientSends(ps, "self", m) == [SendTo(ps[0], m)];
  }

  /** Unarmed, a broadcast with any party nodes has no effect. */
  lemma ScenarioUnarmed(partyNodes: seq<Peer>, myLegalIdentity: Identity)
    ensures BroadcastTrace(false, partyNodes, myLegalIdentity, 17) == []
  {
  }

  // ---------------------------------------------------------------------
  // The node, imperatively
  // ---------------------------------------------------------------------

  /**
   * The process-wide protocol object: the arming flag, the handler
   * registrations made on the node's messaging service, and the effects the
   * protocol has had so far.
   */
  class ExitServer {
    var enabled: bool
    var handlerTopics: seq<string>
    var trace: seq<Event>

    function State(): NodeState
      reads this
    {
      NodeState(enabled, handlerTopics, trace)
    }

    ghost predicate Valid()
      reads this
    {
      ExitIsLast(trace)
    }

    /** The flag starts out false; no handler, no effects yet. */
    constructor ()
      ensures Valid() && State() == Initial
    {
      enabled := false;
      handlerTopics := [];
      trace := [];
    }

    /** Installs the handler on `"${TOPIC}.0"`, then arms the protocol. */
    method Register()
      requires Valid() && !Halted(trace)
      modifies this`enabled, this`handlerTopics
      ensures Valid()
      ensures enabled
      ensures handlerTopics == old(handlerTopics) + [HANDLER_TOPIC]
      ensures State() == Step(old(State()), RegisterHandler)
    {
      handlerTopics := handlerTopics + [HANDLER_TOPIC];
      enabled := true;
    }

    /** The per-recipient step of the broadcast: send unless ineligible. */
    method DoNextRecipient(recipient: Peer, myLegalIdentity: Identity, message: ExitMessage)
      requires Valid() && !Halted(trace)
      modifies this`trace
      ensures Valid() && !Halted(trace)
      ensures trace == old(trace) + RecipientSends([recipient], myLegalIdentity, message)
    {
      if recipient.address.MockAddress? {
        // a placeholder, not a real node
      } else {
        if recipient.identity != myLegalIdentity {
          trace := trace + [Send(TOPIC, recipient.address, SESSION_ID, message)];
        }
      }
    }

    /**
     * The broadcaster's `call`: when armed, send the exit command to every
     * eligible party node, sleep, exit with `exitCode`; report the flag.
     */
    method Broadcast(exitCode: int32, partyNodes: seq<Peer>, myLegalIdentity: Identity) returns (armed: bool)
      requires Valid() && !Halted(trace)
      modifies this`trace
      ensures armed == old(enabled)
      ensures trace == old(trace) + BroadcastTrace(old(enabled), partyNodes, myLegalIdentity, exitCode)
      ensures Valid()
      ensures State() == Step(old(State()), StartBroadcast(partyNodes, myLegalIdentity, exitCode))
    {
      if enabled {
        var rc := exitCode;
        var message := ExitMessage(rc);
        var i := 0;
        while i < |partyNodes|
          invariant 0 <= i <= |partyNodes|
          invariant trace == old(trace) + RecipientSends(partyNodes[..i], myLegalIdentity, message)
          invariant Valid() && !Halted(trace)
        {
          DoNextRecipient(partyNodes[i], myLegalIdentity, message);
          assert partyNodes[..i + 1][..i] == partyNodes[..i];
          i := i + 1;
        }
        assert partyNodes[..i] == partyNodes;
        trace := trace + [Sleep(GRACE_SECONDS)];
        trace := trace + [Exit(rc)];
      }
      armed := enabled;
      StepKeepsExitLast(old(State()), StartBroadcast(partyNodes, myLegalIdentity, exitCode));
    }

    /** The callback registered on the handler topic, given one payload. */
    method OnMessage(payload: seq<uint8>) returns (outcome: Handled)
      requires Valid() && !Halted(trace)
      modifies this`trace
      ensures outcome == Handle(enabled, payload)
      ensures trace == old(trace) + HandlerTrace(outcome)
      ensures Valid()
      ensures State() == Step(old(State()), Deliver(payload))
    {
      outcome := Ignored;
      if enabled {
        var message := DecodeMessage(payload);
        if message.Some? {
          outcome := Exited(message.value.exitCode);
          trace := trace + [Exit(message.value.exitCode)];
        } else {
          outcome := Malformed;
        }
      }
      StepKeepsExitLast(old(State()), Deliver(payload));
    }
  }

  /**
   * A freshly started node that never registered its handler: a broadcast
   * with exit code 17 reports `false` and has no effect.
   */
  method ScenarioUnarmedBroadcast(partyNodes: seq<Peer>, myLegalIdentity: Identity) returns (armed: bool, effects: seq<Event>)
    ensures !armed && effects == []
  {
    var node := new ExitServer();
    armed := node.Broadcast(17, partyNodes, myLegalIdentity);
    effects := node.trace;
  }
}
