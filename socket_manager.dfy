/** MONode's `SocketManager`: one UDP socket per node, a status that moves
    idle -> bound -> acknowledged, a handshake to the hub on start-up, answers
    to the hub's pings, and every other packet handed to the delegate.

    Sending is modelled as appending a `Datagram` to `sent`; the delegate's
    `handleError` and `handlePacket` as appending to `errors` and `handled`.
    Whether the socket could be set up is passed in as a `SocketSetup`. */
module Sockets {
  import opened Wrappers
  import opened Bytes
  import opened Packets
  import opened NetworkConfigurations

  /** `SocketManager.Status`. */
  datatype Status = Idle | Bound | Acknowledged

  /** One `socket.send(_:toHost:port:...)`. */
  datatype Datagram = Datagram(data: seq<Byte>, host: string, port: UInt16)

  /** Whether `enableBroadcast`, `bind(toPort:)` and `beginReceiving` all
      succeeded, or the error the first failing one threw. */
  datatype SocketSetup = SetupSucceeded | SetupFailed(reason: string)

  /** What the outside world can observe of a link. */
  datatype LinkState = LinkState(status: Status, sent: seq<Datagram>, errors: seq<string>, handled: seq<Packet>)

  const OpenErrorPrefix: string := "Could not open socket: "
  const DecodeErrorPrefix: string := "Could not initialize packet from data: "

  /** How Swift prints the codec's only error. */
  function DecodeErrorDescription(e: PacketSerializationError): string {
    match e
    case NotEnoughData => "notEnoughData"
  }

  // ---------------------------------------------------------------------
  // Device identity

  /** `replacingOccurrences(of: "MO", with: "")`: one left-to-right pass
      removing every non-overlapping "MO". */
  function RemoveMO(s: string): (r: string)
    ensures |r| <= |s|
    decreases |s|
  {
    if |s| >= 2 && s[0] == 'M' && s[1] == 'O' then RemoveMO(s[2..])
    else if |s| == 0 then []
    else [s[0]] + RemoveMO(s[1..])
  }

  predicate IsDigit(c: char) {
    '0' <= c <= '9'
  }

  predicate AllDigits(s: string) {
    forall i :: 0 <= i < |s| ==> IsDigit(s[i])
  }

  /** The value of a string of decimal digits. */
  function DigitsValue(s: string): nat
    requires AllDigits(s)
  {
    if |s| == 0 then 0
    else 10 * DigitsValue(s[..|s| - 1]) + (s[|s| - 1] - '0') as nat
  }

  /** Swift's `Int32(_ description: String)`: an optional sign, then at least
      one decimal digit and nothing else; nil when the value does not fit. */
  function ParseInt32(s: string): (r: Option<Int32>)
    ensures r.Some? ==> (|s| > 0 && AllDigits(s)) || (|s| > 1 && (s[0] == '-' || s[0] == '+') && AllDigits(s[1..]))
    ensures |s| > 0 && AllDigits(s) ==>
              (r.Some? <==> DigitsValue(s) < 0x8000_0000) && (r.Some? ==> r.value == DigitsValue(s))
    ensures |s| > 1 && s[0] == '-' && AllDigits(s[1..]) ==>
              (r.Some? <==> DigitsValue(s[1..]) <= 0x8000_0000) && (r.Some? ==> r.value == -(DigitsValue(s[1..]) as int))
    ensures |s| > 1 && s[0] == '+' && AllDigits(s[1..]) ==>
              (r.Some? <==> DigitsValue(s[1..]) < 0x8000_0000) && (r.Some? ==> r.value == DigitsValue(s[1..]))
  {
    if |s| > 0 && (s[0] == '-' || s[0] == '+') then
      var digits := s[1..];
      if |digits| == 0 || !AllDigits(digits) then None
      else
        var magnitude: int := DigitsValue(digits);
        if s[0] == '-' then
          if magnitude <= 0x8000_0000 then Some(-magnitude) else None
        else
          if magnitude < 0x8000_0000 then Some(magnitude) else None
    else if |s| == 0 || !AllDigits(s) then None
    else if DigitsValue(s) < 0x8000_0000 then Some(DigitsValue(s)) else None
  }

  /** `deviceID`: the device name with every "MO" removed, read as an Int32;
      otherwise the random value `fallback`, drawn by
      `arc4random_uniform(Int32.max)` and so below Int32.max. */
  function ResolveDeviceID(deviceName: string, fallback: int): (id: Int32)
    requires 0 <= fallback < 0x7fff_ffff
    ensures ParseInt32(RemoveMO(deviceName)).None? ==> id == fallback
    ensures ParseInt32(RemoveMO(deviceName)).Some? ==> id == ParseInt32(RemoveMO(deviceName)).value
  {
    match ParseInt32(RemoveMO(deviceName))
    case Some(parsed) => parsed
    case None => fallback
  }

  /** The decimal digits of `n`, as a device named "MO<n>" spells them. */
  function DecimalString(n: nat): (s: string)
    ensures |s| > 0
  {
    if n < 10 then ['0' + n as char]
    else DecimalString(n / 10) + ['0' + (n % 10) as char]
  }

  lemma {:induction false} DecimalStringDigits(n: nat)
    ensures AllDigits(DecimalString(n))
    ensures DigitsValue(DecimalString(n)) == n
  {
    var s := DecimalString(n);
    if n >= 10 {
      DecimalStringDigits(n / 10);
      assert s[..|s| - 1] == DecimalString(n / 10);
    }
  }

  /** A name without the letter M passes through `RemoveMO` unchanged. */
  lemma {:induction false} RemoveMOKeepsNamesWithoutM(s: string)
    requires forall i :: 0 <= i < |s| ==> s[i] != 'M'
    ensures RemoveMO(s) == s
  {
    if |s| > 0 {
      RemoveMOKeepsNamesWithoutM(s[1..]);
    }
  }

  /** The removal is one left-to-right pass: a name splits into parts that are
      cleaned separately, provided the first part does not end in an M that
      could pair with an O starting the second. */
  lemma {:induction false} RemoveMOAppend(a: string, b: string)
    requires |a| == 0 || a[|a| - 1] != 'M'
    ensures RemoveMO(a + b) == RemoveMO(a) + RemoveMO(b)
    decreases |a|
  {
    if |a| == 0 {
      assert a + b == b;
    } else if |a| >= 2 && a[0] == 'M' && a[1] == 'O' {
      assert (a + b)[2..] == a[2..] + b;
      RemoveMOAppend(a[2..], b);
    } else {
      assert (a + b)[1..] == a[1..] + b;
      RemoveMOAppend(a[1..], b);
    }
  }

  /** An "MO" that the removal brings together is not removed again:
      "MMOO" becomes "MO", as a single pass of `replacingOccurrences` leaves it. */
  lemma SinglePassExample()
    ensures RemoveMO("MMOO") == "MO"
  {
    assert "MMOO"[1..] == "MOO";
    assert "MOO"[2..] == "O";
  }

  /** A node named "MO" followed by a number below 2^31 gets that number as its id. */
  lemma {:induction false} NumberedDeviceName(n: nat, fallback: int)
    requires n < 0x8000_0000
    requires 0 <= fallback < 0x7fff_ffff
    ensures ResolveDeviceID("MO" + DecimalString(n), fallback) == n
  {
    var digits := DecimalString(n);
    DecimalStringDigits(n);
    RemoveMOKeepsNamesWithoutM(digits);
    assert ("MO" + digits)[2..] == digits;
  }

  /** `k` copies of "MO": the empty name, "MO", "MOMO", ... */
  function RepeatedMO(k: nat): string {
    if k == 0 then "" else "MO" + RepeatedMO(k - 1)
  }

  /** A name made only of "MO" pairs, the empty name included, is removed
      entirely, so the empty string fails to parse and the node takes the
      random fallback. */
  lemma {:induction false} OnlyMONamesFallBack(k: nat, fallback: int)
    requires 0 <= fallback < 0x7fff_ffff
    ensures RemoveMO(RepeatedMO(k)) == ""
    ensures ResolveDeviceID(RepeatedMO(k), fallback) == fallback
  {
    if k > 0 {
      OnlyMONamesFallBack(k - 1, fallback);
      assert RepeatedMO(k)[2..] == RepeatedMO(k - 1);
    }
  }

  /** A worked example: a device named "MO" falls back to the random id. */
  lemma BareMONameFallsBack(fallback: int)
    requires 0 <= fallback < 0x7fff_ffff
    ensures RemoveMO("MO") == ""
    ensures ResolveDeviceID("MO", fallback) == fallback
  {
    OnlyMONamesFallBack(1, fallback);
    assert RepeatedMO(1) == "MO";
  }

  // ---------------------------------------------------------------------
  // The link's transitions

  /** A packet sent to the hub. */
  function ToHub(config: NetworkConfiguration, p: Packet): Datagram
    requires Serializable(p)
  {
    Datagram(Encoding(p), config.hubHost, config.hubPort)
  }

  /** `open()`. The failure goes through `delegate?.handleError`, so it is
      reported only when a delegate is attached; `delegateAttached` says
      whether one is. */
  function Opened(s: LinkState, setup: SocketSetup, delegateAttached: bool): (t: LinkState)
    ensures s.status != Idle ==> t == s
    ensures s.status == Idle && setup.SetupSucceeded? ==> t == s.(status := Bound)
    ensures s.status == Idle && setup.SetupFailed? && !delegateAttached ==> t == s
    ensures s.status == Idle && setup.SetupFailed? && delegateAttached ==>
              t.status == Idle && t.sent == s.sent && t.handled == s.handled
              && |t.errors| == |s.errors| + 1 && t.errors[..|s.errors|] == s.errors
              && t.errors[|s.errors|] == OpenErrorPrefix + setup.reason
  {
    if s.status != Idle then s
    else match setup
      case SetupSucceeded => s.(status := Bound)
      case SetupFailed(reason) =>
        if delegateAttached then s.(errors := s.errors + [OpenErrorPrefix + reason]) else s
  }

  /** `close()`: idle from any status, nothing else changes. */
  function Closed(s: LinkState): (t: LinkState)
    ensures t.status == Idle && t.(status := s.status) == s
  {
    s.(status := Idle)
  }

  /** `udpSocket(_:didReceive:...)`. */
  function Received(s: LinkState, config: NetworkConfiguration, deviceID: Int32, data: seq<Byte>): (t: LinkState)
    requires Decodable(data)
    // a datagram that does not decode: one error, nothing else
    ensures Decode(data).Failure? ==>
              t.status == s.status && t.sent == s.sent && t.handled == s.handled
              && t.errors == s.errors + [DecodeErrorPrefix + "notEnoughData"]
    // a handshake: acknowledged, no send, no delegate call
    ensures Decode(data).Success? && Decode(data).value.packetType == Handshake ==>
              t == s.(status := Acknowledged)
    // a ping: one reply to the hub that decodes as a ping carrying this node's id
    ensures Decode(data).Success? && Decode(data).value.packetType == Ping ==>
              && t.status == s.status && t.errors == s.errors && t.handled == s.handled
              && |t.sent| == |s.sent| + 1 && t.sent[..|s.sent|] == s.sent
              && t.sent[|s.sent|].host == config.hubHost && t.sent[|s.sent|].port == config.hubPort
              && Decodable(t.sent[|s.sent|].data)
              && Decode(t.sent[|s.sent|].data) == Success(Packet(Ping, deviceID, None))
    // anything else: handed to the delegate unchanged, exactly once
    ensures Decode(data).Success? && Decode(data).value.packetType !in {Handshake, Ping} ==>
              t == s.(handled := s.handled + [Decode(data).value])
  {
    match Decode(data)
    case Failure(e) => s.(errors := s.errors + [DecodeErrorPrefix + DecodeErrorDescription(e)])
    case Success(packet) =>
      if SameType(packet.packetType, Handshake) then s.(status := Acknowledged)
      else if SameType(packet.packetType, Ping) then
        var reply := Packet(Ping, deviceID, None);
        RoundTrip(reply);
        s.(sent := s.sent + [ToHub(config, reply)])
      else s.(handled := s.handled + [packet])
  }

  /** `broadcastPacket(_:)`: to the broadcast host at the NODE port. */
  function Broadcast(s: LinkState, config: NetworkConfiguration, p: Packet): (t: LinkState)
    requires Serializable(p)
    ensures t.status == s.status && t.errors == s.errors && t.handled == s.handled
    ensures |t.sent| == |s.sent| + 1 && t.sent[..|s.sent|] == s.sent
    ensures t.sent[|s.sent|].host == config.broadcastHost && t.sent[|s.sent|].port == config.nodePort
    ensures Decodable(t.sent[|s.sent|].data) && Decode(t.sent[|s.sent|].data) == Success(Normalized(p))
  {
    RoundTrip(p);
    s.(sent := s.sent + [Datagram(Encoding(p), config.broadcastHost, config.nodePort)])
  }

  /** `init(networkConfiguration:)`: `open()` first, then one handshake to the
      hub. The delegate is weak and still nil inside `init`, so a failure to
      open is dropped. */
  function Started(config: NetworkConfiguration, deviceID: Int32, setup: SocketSetup): (t: LinkState)
    ensures t.status == (if setup.SetupSucceeded? then Bound else Idle)
    ensures t.sent == [ToHub(config, Packet(Handshake, deviceID, None))]
    ensures t.handled == []
    ensures t.errors == []
  {
    var afterOpen := Opened(LinkState(Idle, [], [], []), setup, false);
    afterOpen.(sent := afterOpen.sent + [ToHub(config, Packet(Handshake, deviceID, None))])
  }

  /** A worked example: node 42 with the default configuration and a socket
      that opens sends the 12-byte handshake to 10.0.0.1:10101. */
  lemma StartExample()
    ensures Started(DefaultConfiguration(), 42, SetupSucceeded)
         == LinkState(Bound, [Datagram([12, 0, 0, 0, 0, 0, 0, 0, 42, 0, 0, 0], "10.0.0.1", 10101)], [], [])
  {
    assert Opened(LinkState(Idle, [], [], []), SetupSucceeded, false) == LinkState(Bound, [], [], []);
    assert Encoding(Packet(Handshake, 42, None)) == [12, 0, 0, 0, 0, 0, 0, 0, 42, 0, 0, 0];
  }

  // ---------------------------------------------------------------------
  // Runs of events

  datatype Event = OpenEvent(setup: SocketSetup) | CloseEvent | ReceiveEvent(data: seq<Byte>) | BroadcastEvent(packet: Packet)

  predicate WellFormed(e: Event) {
    match e
    case ReceiveEvent(data) => Decodable(data)
    case BroadcastEvent(p) => Serializable(p)
    case _ => true
  }

  predicate AllWellFormed(events: seq<Event>) {
    forall i :: 0 <= i < |events| ==> WellFormed(events[i])
  }

  function Step(s: LinkState, config: NetworkConfiguration, deviceID: Int32, e: Event): LinkState
    requires WellFormed(e)
  {
    match e
    case OpenEvent(setup) => Opened(s, setup, true)
    case CloseEvent => Closed(s)
    case ReceiveEvent(data) => Received(s, config, deviceID, data)
    case BroadcastEvent(p) => Broadcast(s, config, p)
  }

  /** The state after the events, in order, on the one serial callback queue. */
  function Run(s: LinkState, config: NetworkConfiguration, deviceID: Int32, events: seq<Event>): LinkState
    requires AllWellFormed(events)
    decreases |events|
  {
    if events == [] then s
    else Run(Step(s, config, deviceID, events[0]), config, deviceID, events[1..])
  }

  /** Whether the event makes the node put a datagram on the wire. */
  predicate Transmits(e: Event)
    requires WellFormed(e)
  {
    match e
    case BroadcastEvent(_) => true
    case ReceiveEvent(data) => Decode(data).Success? && Decode(data).value.packetType == Ping
    case _ => false
  }

  function TransmissionCount(events: seq<Event>): nat
    requires AllWellFormed(events)
  {
    if events == [] then 0
    else (if Transmits(events[0]) then 1 else 0) + TransmissionCount(events[1..])
  }

  /** Once acknowledged, a link stays acknowledged until it is closed: no
      protocol traffic moves it back. */
  lemma {:induction false} AcknowledgedUntilClosed(s: LinkState, config: NetworkConfiguration, deviceID: Int32, events: seq<Event>)
    requires AllWellFormed(events)
    requires s.status == Acknowledged
    requires forall i :: 0 <= i < |events| ==> !events[i].CloseEvent?
    ensures Run(s, config, deviceID, events).status == Acknowledged
    decreases |events|
  {
    if events != [] {
      AcknowledgedUntilClosed(Step(s, config, deviceID, events[0]), config, deviceID, events[1..]);
    }
  }

  /** Nothing the link has sent or reported is ever taken back. */
  lemma {:induction false} LogsOnlyGrow(s: LinkState, config: NetworkConfiguration, deviceID: Int32, events: seq<Event>)
    requires AllWellFormed(events)
    ensures var t := Run(s, config, deviceID, events);
      && s.sent <= t.sent && s.errors <= t.errors && s.handled <= t.handled
    decreases |events|
  {
    if events != [] {
      LogsOnlyGrow(Step(s, config, deviceID, events[0]), config, deviceID, events[1..]);
    }
  }

  /** A node never initiates traffic on its own: it sends one datagram per
      ping received and per broadcast requested, and nothing else. */
  lemma {:induction false} SendsOnlyRepliesAndBroadcasts(s: LinkState, config: NetworkConfiguration, deviceID: Int32, events: seq<Event>)
    requires AllWellFormed(events)
    ensures |Run(s, config, deviceID, events).sent| == |s.sent| + TransmissionCount(events)
    decreases |events|
  {
    if events != [] {
      SendsOnlyRepliesAndBroadcasts(Step(s, config, deviceID, events[0]), config, deviceID, events[1..]);
    }
  }

  /** The delegate never sees a handshake or a ping. */
  predicate OnlyApplicationPackets(s: LinkState) {
    forall i :: 0 <= i < |s.handled| ==> s.handled[i].packetType !in {Handshake, Ping}
  }

  lemma {:induction false} DelegateSeesOnlyApplicationPackets(s: LinkState, config: NetworkConfiguration, deviceID: Int32, events: seq<Event>)
    requires AllWellFormed(events)
    requires OnlyApplicationPackets(s)
    ensures OnlyApplicationPackets(Run(s, config, deviceID, events))
    decreases |events|
  {
    if events != [] {
      DelegateSeesOnlyApplicationPackets(Step(s, config, deviceID, events[0]), config, deviceID, events[1..]);
    }
  }

  // ---------------------------------------------------------------------
  // The manager

  class SocketManager {
    const networkConfiguration: NetworkConfiguration
    /** The lazily computed id; its first use is the handshake in `init`. */
    const deviceID: Int32
    var status: Status
    var sent: seq<Datagram>
    var errors: seq<string>
    var handled: seq<Packet>

    function State(): LinkState
      reads this
    {
      LinkState(status, sent, errors, handled)
    }

    /** `init(networkConfiguration:)`; `deviceName` is the host's name and
        `randomFallback` the random draw used when it holds no number. */
    constructor (networkConfiguration: NetworkConfiguration, deviceName: string, randomFallback: int, setup: SocketSetup)
      requires 0 <= randomFallback < 0x7fff_ffff
      ensures this.networkConfiguration == networkConfiguration
      ensures deviceID == ResolveDeviceID(deviceName, randomFallback)
      ensures State() == Started(networkConfiguration, deviceID, setup)
    {
      this.networkConfiguration := networkConfiguration;
      deviceID := ResolveDeviceID(deviceName, randomFallback);
      status := Idle;
      sent, errors, handled := [], [], [];
      new;
      Open(setup, false);
      var packet := Packet(Handshake, deviceID, None);
      var data := Serialize(packet);
      Send(data, networkConfiguration.hubHost, networkConfiguration.hubPort);
    }

    method Send(data: seq<Byte>, host: string, port: UInt16)
      modifies this
      ensures State() == old(State()).(sent := old(sent) + [Datagram(data, host, port)])
    {
      sent := sent + [Datagram(data, host, port)];
    }

    /** `close()`. */
    method Close()
      modifies this
      ensures State() == Closed(old(State()))
    {
      status := Idle;
    }

    /** `open()`; `delegateAttached` says whether `delegate` is non-nil. */
    method Open(setup: SocketSetup, delegateAttached: bool)
      modifies this
      ensures State() == Opened(old(State()), setup, delegateAttached)
    {
      if status != Idle {
        return;
      }
      match setup
      case SetupSucceeded =>
        status := Bound;
      case SetupFailed(reason) =>
        if delegateAttached {
          errors := errors + [OpenErrorPrefix + reason];
        }
    }

    /** `udpSocket(_:didReceive:fromAddress:withFilterContext:)`. */
    method DidReceive(data: seq<Byte>)
      requires Decodable(data)
      modifies this
      ensures State() == Received(old(State()), networkConfiguration, deviceID, data)
    {
      var decoded := Deserialize(data);
      if decoded.Failure? {
        errors := errors + [DecodeErrorPrefix + DecodeErrorDescription(decoded.error)];
        return;
      }
      var packet := decoded.value;
      if SameType(packet.packetType, Handshake) {
        status := Acknowledged;
      } else if SameType(packet.packetType, Ping) {
        var reply := Packet(Ping, deviceID, None);
        var bytes := Serialize(reply);
        Send(bytes, networkConfiguration.hubHost, networkConfiguration.hubPort);
      } else {
        handled := handled + [packet];
      }
    }

    /** `broadcastPacket(_:)`. */
    method BroadcastPacket(p: Packet)
      requires Serializable(p)
      modifies this
      ensures State() == Broadcast(old(State()), networkConfiguration, p)
    {
      var data := Serialize(p);
      Send(data, networkConfiguration.broadcastHost, networkConfiguration.nodePort);
    }
  }
}
