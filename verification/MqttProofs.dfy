// Decoding inverts MQTT 3.1.1 encoding, field by field and over whole conversations.
module MqttProofs {
  import opened Basics
  import opened Mqtt

  // ---------- remaining length (section 2.2.3) ----------

  /** The standard's encoder: seven bits per byte, least significant first. */
  function EncodeLength(n: nat): (s: seq<byte>)
    ensures |s| >= 1
  {
    if n < 128 then [n] else [n % 128 + 128] + EncodeLength(n / 128)
  }

  /** The least number that needs more than 4 - k bytes. */
  function Limit(k: nat): nat
    requires k <= 3
  {
    if k == 0 then 128 * 128 * 128 * 128 else if k == 1 then 128 * 128 * 128 else if k == 2 then 128 * 128 else 128
  }

  lemma {:induction false} DigitsOfEncoding(n: nat, rest: seq<byte>, k: nat)
    requires k <= 3
    ensures var s := EncodeLength(n);
      Digits(s + rest, k) == if n < Limit(k) then Value(n, |s|) else Malformed(4 - k)
    decreases 3 - k
  {
    var s := EncodeLength(n);
    if n >= 128 && k < 3 {
      DigitsOfEncoding(n / 128, rest, k + 1);
      assert s[1..] == EncodeLength(n / 128);
      assert (s + rest)[1..] == s[1..] + rest;
    }
  }

  /** The decoder inverts the encoder exactly up to the payload cap, and rejects everything larger. */
  lemma {:induction false} RemainingLengthInverts(n: nat, rest: seq<byte>)
    ensures RemainingLength(EncodeLength(n) + rest) == Value(n, |EncodeLength(n)|) <==> n <= 65536
    ensures n > 65536 ==> RemainingLength(EncodeLength(n) + rest).Malformed?
  {
    DigitsOfEncoding(n, rest, 0);
  }

  /** A value read from `used` bytes fits in that many base-128 digits. */
  lemma {:induction false} DigitsBounded(s: seq<byte>, k: nat)
    requires k <= 3 && Digits(s, k).Value?
    ensures Digits(s, k).n < Limit(4 - Digits(s, k).used)
    decreases 3 - k
  {
    if s[0] >= 128 {
      DigitsBounded(s[1..], k + 1);
    }
  }

  // ---------- CONNECT (sections 3.1.2 and 3.1.3) ----------

  predicate Short(s: seq<byte>) {
    |s| < 65536
  }

  /** A length-prefixed string. */
  function Str(s: seq<byte>): seq<byte>
    requires Short(s)
  {
    [|s| / 256, |s| % 256] + s
  }

  datatype ConnectPacket = ConnectPacket(
    protocol: seq<byte>, level: byte, flags: byte, keepAlive: (byte, byte), clientID: seq<byte>,
    willTopic: seq<byte>, willMessage: seq<byte>, username: seq<byte>, password: seq<byte>)

  predicate Fits(c: ConnectPacket) {
    Short(c.protocol) && Short(c.clientID) && Short(c.willTopic) && Short(c.willMessage) && Short(c.username) && Short(c.password)
  }

  /** The variable header: protocol name, level, flags and keep-alive. */
  function ConnectHeader(c: ConnectPacket): seq<byte>
    requires Short(c.protocol)
  {
    Str(c.protocol) + [c.level, c.flags, c.keepAlive.0, c.keepAlive.1]
  }

  const MQTT: seq<byte> := [77, 81, 84, 84]  // "MQTT"

  /** The fields after the client ID, in the order of section 3.1.3. */
  function ConnectTail(c: ConnectPacket): seq<seq<byte>> {
    (if HasWill(c.flags) then [c.willTopic, c.willMessage] else [])
    + (if HasUsername(c.flags) then [c.username] else [])
    + (if HasPassword(c.flags) then [c.password] else [])
  }

  predicate AllShort(ss: seq<seq<byte>>) {
    forall i :: 0 <= i < |ss| ==> Short(ss[i])
  }

  function Strs(ss: seq<seq<byte>>): seq<byte>
    requires AllShort(ss)
  {
    if ss == [] then [] else Str(ss[0]) + Strs(ss[1..])
  }

  function EncodeConnect(c: ConnectPacket): seq<byte>
    requires Fits(c)
  {
    ConnectHeader(c) + Strs([c.clientID] + ConnectTail(c))
  }

  lemma {:induction false} StringAtOf(before: seq<byte>, s: seq<byte>, rest: seq<byte>)
    requires Short(s)
    ensures StringAt(before + (Str(s) + rest), |before|) == (s, |before + Str(s)|)
  {
    var d := before + (Str(s) + rest);
    assert d[|before|] == |s| / 256 && d[|before| + 1] == |s| % 256;
    assert d[|before| + 2..|before| + 2 + |s|] == s;
  }

  lemma {:induction false} StringAtEnd(d: seq<byte>)
    ensures StringAt(d, |d|) == ([], |d|)
  {
  }

  function First(ss: seq<seq<byte>>): seq<byte> {
    if ss == [] then [] else ss[0]
  }

  /** Reading at the start of a run of strings yields the first of them and moves to the second. */
  lemma {:induction false} ReadNext(before: seq<byte>, ss: seq<seq<byte>>)
    requires AllShort(ss)
    ensures var d := before + Strs(ss); var r := StringAt(d, |before|);
      && r.0 == First(ss)
      && (ss != [] ==> r.1 == |before + Str(ss[0])| && d == before + Str(ss[0]) + Strs(ss[1..]))
      && (ss == [] ==> r.1 == |before|)
  {
    hide StringAt, Str;
    if ss == [] {
      StringAtEnd(before);
      assert before + Strs(ss) == before;
    } else {
      StringAtOf(before, ss[0], Strs(ss[1..]));
      ConcatAssociative(before, Str(ss[0]), Strs(ss[1..]));
    }
  }

  lemma {:induction false} HeaderAt(c: ConnectPacket)
    requires Short(c.protocol) && |c.protocol| == |MQTT|
    ensures |ConnectHeader(c)| == 10 && ConnectHeader(c)[7] == c.flags
  {
  }

  /**
    For protocol name "MQTT", or any of four bytes, the client ID is always recovered; the username and
    password read are the strings that follow it, whatever they are.
   */
  lemma {:induction false} ConnectReads(c: ConnectPacket)
    requires Fits(c) && |c.protocol| == |MQTT|
    ensures var l := ConnectFields(EncodeConnect(c)); var tail := ConnectTail(c);
      && l.clientID == c.clientID
      && l.username == (if HasUsername(c.flags) then First(tail) else [])
      && l.password == (if !HasPassword(c.flags) then []
                        else if !HasUsername(c.flags) then First(tail)
                        else if tail == [] then [] else First(tail[1..]))
  {
    EncodingIs(c);
    HeaderAt(c);
    var d, h, tail := EncodeConnect(c), ConnectHeader(c), ConnectTail(c);
    hide *;
    FieldsAt(d);
    ReadNext(h, [c.clientID] + tail);
    assert ([c.clientID] + tail)[1..] == tail && ([c.clientID] + tail)[0] == c.clientID;
    var b1 := h + Str(c.clientID);
    ReadNext(b1, tail);
    FirstOf(tail);
    FirstOf([c.clientID] + tail);
    if tail != [] {
      ShortTail(tail);
      ReadNext(b1 + Str(tail[0]), tail[1..]);
      FirstOf(tail[1..]);
    }
  }

  lemma {:induction false} ShortTail(ss: seq<seq<byte>>)
    requires AllShort(ss) && ss != []
    ensures Short(ss[0]) && AllShort(ss[1..])
  {
  }

  lemma {:induction false} FirstOf(ss: seq<seq<byte>>)
    ensures First(ss) == if ss == [] then [] else ss[0]
  {
  }

  lemma {:induction false} EncodingIs(c: ConnectPacket)
    requires Fits(c) && |c.protocol| == |MQTT|
    ensures var d := EncodeConnect(c);
      AllShort([c.clientID] + ConnectTail(c)) && d == ConnectHeader(c) + Strs([c.clientID] + ConnectTail(c))
      && |d| >= 10 && d[7] == c.flags && Short(c.clientID) && AllShort(ConnectTail(c))
  {
    HeaderAt(c);
    hide Strs, ConnectHeader;
  }

  lemma {:induction false} FieldsAt(d: seq<byte>)
    requires |d| >= 10
    ensures var id := StringAt(d, 10);
      var user := if HasUsername(d[7]) then StringAt(d, id.1) else ([], id.1);
      var pass := if HasPassword(d[7]) then StringAt(d, user.1) else ([], user.1);
      ConnectFields(d) == Login(id.0, user.0, pass.0)
  {
    hide StringAt, HasUsername, HasPassword;
  }

  /**
    Without the Will flag the decoder recovers client ID, username and password of any length; with it,
    exactly when the will topic and message happen to equal the credentials they are taken for.
   */
  lemma {:induction false} ConnectRoundTrip(c: ConnectPacket)
    requires Fits(c) && |c.protocol| == |MQTT|
    ensures ConnectFields(EncodeConnect(c)) == Want(c)
            <==> (!HasWill(c.flags) || ReadWillAs(c) == (Want(c).username, Want(c).password))
  {
    ConnectReads(c);
    hide ConnectFields, EncodeConnect;
    var tail := ConnectTail(c);
    if HasWill(c.flags) {
      assert tail[0] == c.willTopic && tail[1] == c.willMessage;
      assert First(tail[1..]) == c.willMessage;
    } else if HasUsername(c.flags) && HasPassword(c.flags) {
      assert tail == [c.username, c.password] && tail[1..] == [c.password];
    } else if HasUsername(c.flags) {
      assert tail == [c.username];
    } else if HasPassword(c.flags) {
      assert tail == [c.password];
    }
  }

  /** The login a packet carries. */
  function Want(c: ConnectPacket): Login {
    Login(c.clientID, if HasUsername(c.flags) then c.username else [], if HasPassword(c.flags) then c.password else [])
  }

  /** What the decoder takes for username and password when a will is present. */
  function ReadWillAs(c: ConnectPacket): (seq<byte>, seq<byte>) {
    (if HasUsername(c.flags) then c.willTopic else [],
     if !HasPassword(c.flags) then [] else if HasUsername(c.flags) then c.willMessage else c.willTopic)
  }

  /** The decoder's offsets fit a name: every login without a Will is recovered from packets that carry it. */
  ghost predicate NameWorks(protocol: seq<byte>) {
    forall c: ConnectPacket :: c.protocol == protocol && Fits(c) && !HasWill(c.flags) ==>
      ConnectFields(EncodeConnect(c)) == Want(c)
  }

  /** A packet of that name with the given client ID and all else zero or empty. */
  function Plain(protocol: seq<byte>, id: seq<byte>): ConnectPacket {
    ConnectPacket(protocol, 0, 0, (0, 0), id, [], [], [], [])
  }

  lemma {:induction false} PlainEncodes(protocol: seq<byte>, id: seq<byte>)
    requires Short(protocol) && Short(id)
    ensures Want(Plain(protocol, id)) == Login(id, [], [])
    ensures EncodeConnect(Plain(protocol, id)) == Str(protocol) + [0, 0, 0, 0] + Str(id)
  {
    var c := Plain(protocol, id);
    assert ConnectTail(c) == [];
    var one := [c.clientID] + ConnectTail(c);
    assert one == [id] && one[1..] == [];
    assert Strs(one) == Str(id) + Strs(one[1..]) == Str(id) + [] == Str(id);
  }

  /** Shorter names: the one-byte ID is looked for too far along. */
  lemma {:induction false} ShortNameFails(protocol: seq<byte>)
    requires |protocol| < 4
    ensures ConnectFields(EncodeConnect(Plain(protocol, [0]))).clientID != [0]
  {
    PlainEncodes(protocol, [0]);
    var d := Str(protocol) + [0, 0, 0, 0] + Str([0]);
    assert |d| == 9 + |protocol|;
    assert |protocol| == 3 ==> d[10] == 1;
  }

  /** Longer names: the ID's length is read inside the name or the header, and does not depend on the ID. */
  lemma {:induction false} LongNameReads(protocol: seq<byte>, id: seq<byte>) returns (n: nat)
    requires 4 < |protocol| && Short(protocol) && id != [] && |id| < 256
    ensures n == if |protocol| >= 10 then protocol[8] as int * 256 + protocol[9] as int
                 else if |protocol| == 9 then protocol[8] as int * 256 else 0
    ensures var got := ConnectFields(EncodeConnect(Plain(protocol, id))).clientID; got == [] || |got| == n
  {
    PlainEncodes(protocol, id);
    var d := Str(protocol) + [0, 0, 0, 0] + Str(id);
    n := d[10] as int * 256 + d[11] as int;
  }

  lemma {:induction false} LongNameFails(protocol: seq<byte>) returns (id: seq<byte>)
    requires 4 < |protocol| && Short(protocol)
    ensures Short(id) && ConnectFields(EncodeConnect(Plain(protocol, id))).clientID != id
  {
    hide ConnectFields, EncodeConnect, Plain;
    var n := LongNameReads(protocol, [0]);
    id := if n == 1 then [0, 0] else [0];
    var m := LongNameReads(protocol, id);
  }

  /** The decoder's fixed offsets recover every login exactly for protocol names of four bytes. */
  lemma {:induction false} NameWorksExactly(protocol: seq<byte>)
    requires Short(protocol)
    ensures NameWorks(protocol) <==> |protocol| == |MQTT|
  {
    if |protocol| == 4 {
      forall c: ConnectPacket | c.protocol == protocol && Fits(c) && !HasWill(c.flags)
        ensures ConnectFields(EncodeConnect(c)) == Want(c)
      {
        ConnectRoundTrip(c);
      }
    } else {
      var id := [0];
      if |protocol| < 4 {
        ShortNameFails(protocol);
      } else {
        id := LongNameFails(protocol);
      }
      PlainEncodes(protocol, id);
      assert ConnectFields(EncodeConnect(Plain(protocol, id))) != Want(Plain(protocol, id));
    }
  }

  // ---------- PUBLISH (section 3.3.2) ----------

  lemma {:induction false} PublishRoundTrip(topic: seq<byte>, rest: seq<byte>)
    requires Short(topic)
    ensures PublishFields(Str(topic) + rest) == (topic, rest)
  {
    var d := Str(topic) + rest;
    assert d[0] == |topic| / 256 && d[1] == |topic| % 256;
    assert d[2..2 + |topic|] == topic && d[2 + |topic|..] == rest;
  }

  // ---------- whole conversations (section 2.2) ----------

  datatype ControlPacket = ControlPacket(header: byte, payload: seq<byte>)

  predicate Sendable(p: ControlPacket) {
    |p.payload| <= MAX_PAYLOAD
  }

  predicate AllSendable(ps: seq<ControlPacket>) {
    forall i :: 0 <= i < |ps| ==> Sendable(ps[i])
  }

  function Encode(p: ControlPacket): seq<byte> {
    [p.header] + EncodeLength(|p.payload|) + p.payload
  }

  function Stream(ps: seq<ControlPacket>): seq<byte> {
    if ps == [] then [] else Encode(ps[0]) + Stream(ps[1..])
  }

  predicate Closes(p: ControlPacket) {
    p.header as int / 16 == 14
  }

  /** How many packets come before the first DISCONNECT. */
  function Lifetime(ps: seq<ControlPacket>): (n: nat)
    ensures n <= |ps|
    ensures forall i :: 0 <= i < n ==> !Closes(ps[i])
    ensures n < |ps| ==> Closes(ps[n])
  {
    if ps == [] || Closes(ps[0]) then 0 else 1 + Lifetime(ps[1..])
  }

  function Events(ps: seq<ControlPacket>): seq<MqttEvent> {
    if ps == [] then [] else Respond(ps[0].header, ps[0].payload).0 + Events(ps[1..])
  }

  function Replies(ps: seq<ControlPacket>): seq<seq<byte>> {
    if ps == [] then [] else Respond(ps[0].header, ps[0].payload).1 + Replies(ps[1..])
  }

  /** One encoded packet of any type is framed as itself, whatever follows it. */
  lemma {:induction false} FrameOfEncoding(p: ControlPacket, rest: seq<byte>)
    requires Sendable(p)
    ensures NextFrame(Encode(p) + rest) == Packet(p.header, p.payload, |Encode(p)|)
    ensures (Encode(p) + rest)[|Encode(p)|..] == rest
  {
    hide RemainingLength;
    var len := EncodeLength(|p.payload|);
    var s := Encode(p) + rest;
    RemainingLengthInverts(|p.payload|, p.payload + rest);
    assert s[1..] == len + (p.payload + rest);
    assert s[1 + |len|..1 + |len| + |p.payload|] == p.payload;
  }

  /** What the connection loop should do on a list of encoded packets. */
  ghost predicate Conversed(ps: seq<ControlPacket>, t: Trace) {
    var n := Lifetime(ps);
    && t.events == Events(ps[..n]) && t.replies == Replies(ps[..n])
    && t.consumed == |Stream(if n < |ps| then ps[..n + 1] else ps)|
  }

  lemma {:induction false} ConversationEnds(ps: seq<ControlPacket>)
    requires ps != [] && Closes(ps[0])
    ensures Conversed(ps, Trace([], [], |Encode(ps[0])|))
  {
    hide Encode, Respond;
    var one := ps[..1];
    assert one == [ps[0]] && one[1..] == [] && ps[..0] == [];
    assert Stream(one) == Encode(ps[0]) + Stream(one[1..]) == Encode(ps[0]) + [] == Encode(ps[0]);
  }

  lemma {:induction false} ConversationGoesOn(ps: seq<ControlPacket>, later: Trace)
    requires ps != [] && !Closes(ps[0]) && Conversed(ps[1..], later)
    ensures var r := Respond(ps[0].header, ps[0].payload);
      Conversed(ps, Trace(r.0 + later.events, r.1 + later.replies, |Encode(ps[0])| + later.consumed))
  {
    hide Encode, Respond;
    var n := Lifetime(ps[1..]);
    assert ps[..n + 1][1..] == ps[1..][..n];
    if n < |ps[1..]| {
      assert ps[..n + 2][1..] == ps[1..][..n + 1];
    }
  }

  /**
    Main result. For any list of packets with payloads of at most 65536 bytes, the connection loop run
    on their concatenated encodings offers exactly the events and writes exactly the replies of the
    packets before the first DISCONNECT, in order, and consumes the stream through that DISCONNECT.
   */
  lemma {:induction false} StreamHandled(ps: seq<ControlPacket>)
    requires AllSendable(ps)
    ensures Conversed(ps, Handle(Stream(ps)))
  {
    if ps != [] {
      FrameOfEncoding(ps[0], Stream(ps[1..]));
      hide NextFrame, Respond, Encode, Conversed;
      if Closes(ps[0]) {
        ConversationEnds(ps);
      } else {
        StreamHandled(ps[1..]);
        ConversationGoesOn(ps, Handle(Stream(ps[1..])));
      }
    } else {
      hide Respond;
      assert ps[..0] == [];
    }
  }

  // ---------- what a client says is what is reported ----------

  /** What a client sends; bits are the flag bits of a PUBLISH, QoS among them. */
  datatype ClientPacket =
    | Connect(c: ConnectPacket)
    | Publish(bits: nat, topic: seq<byte>, message: seq<byte>)
    | Subscribe(request: seq<byte>)
    | Ping

  /** Connects have no Will, strings have a two-byte length, and a packet keeps within the cap. */
  predicate Sayable(p: ClientPacket) {
    match p
    case Connect(c) => Fits(c) && |c.protocol| == |MQTT| && !HasWill(c.flags) && |EncodeConnect(c)| <= MAX_PAYLOAD
    case Publish(bits, topic, message) => bits < 16 && Short(topic) && |Str(topic)| + |message| <= MAX_PAYLOAD
    case Subscribe(request) => |request| <= MAX_PAYLOAD
    case Ping => true
  }

  predicate AllSayable(ps: seq<ClientPacket>) {
    forall i :: 0 <= i < |ps| ==> Sayable(ps[i])
  }

  function Wire(p: ClientPacket): ControlPacket
    requires Sayable(p)
  {
    match p
    case Connect(c) => ControlPacket(0x10, EncodeConnect(c))
    case Publish(bits, topic, message) => ControlPacket(0x30 + bits, Str(topic) + message)
    case Subscribe(request) => ControlPacket(0x82, request)
    case Ping => ControlPacket(0xc0, [])
  }

  function Wires(ps: seq<ClientPacket>): seq<ControlPacket>
    requires AllSayable(ps)
  {
    if ps == [] then [] else [Wire(ps[0])] + Wires(ps[1..])
  }

  /** The events a packet gives rise to, from what the client said rather than from the bytes. */
  function Report(p: ClientPacket): seq<MqttEvent>
    requires Sayable(p)
  {
    match p
    case Connect(c) =>
      [MqttEvent("MQTT_IOT_BOTNET_CONNECT", "HIGH", 85,
                 if HasUsername(c.flags) then c.username else [], if HasPassword(c.flags) then c.password else [], [],
                 map["client_id" := c.clientID], EncodeConnect(c))]
    case Publish(_, topic, message) =>
      [MqttEvent("MQTT_IOT_EXPLOIT_PUBLISH", "CRITICAL", 95, [], [], topic,
                 map["topic" := topic, "message" := message], Str(topic) + message)]
    case Subscribe(request) =>
      [MqttEvent("MQTT_RECON_SUBSCRIBE", "MEDIUM", 70, [], [], [], map[], request)]
    case Ping => []
  }

  /** A CONNECT, a SUBSCRIBE and a ping are acknowledged always, a PUBLISH when it asks for QoS 1 or more. */
  predicate Answered(p: ClientPacket) {
    p.Publish? ==> p.bits / 2 % 4 > 0
  }

  /** The type of the acknowledgement a packet gets (sections 3.2, 3.4, 3.9 and 3.13). */
  function AckType(p: ClientPacket): nat {
    match p
    case Connect(_) => 2
    case Publish(_, _, _) => 4
    case Subscribe(_) => 9
    case Ping => 13
  }

  /** An accepting return code, an identifier, an identifier with a granted QoS, or nothing. */
  predicate AckPayload(p: ClientPacket, payload: seq<byte>) {
    match p
    case Connect(_) => payload == [0, 0]
    case Publish(_, _, _) => |payload| == 2
    case Subscribe(_) => |payload| == 3 && payload[2] <= 2
    case Ping => payload == []
  }

  /** The reply is one whole frame, of the right type and shape. */
  predicate Acknowledges(p: ClientPacket, reply: seq<byte>) {
    var f := NextFrame(reply);
    && f.Packet? && f.consumed == |reply| && f.header as int == AckType(p) * 16 && AckPayload(p, f.payload)
  }

  function ReportsOf(ps: seq<ClientPacket>): seq<MqttEvent>
    requires AllSayable(ps)
  {
    if ps == [] then [] else Report(ps[0]) + ReportsOf(ps[1..])
  }

  /** The replies, one for each packet that is answered, acknowledge those packets in order. */
  predicate AllAnswered(ps: seq<ClientPacket>, replies: seq<seq<byte>>)
    decreases |ps|
  {
    if ps == [] then replies == []
    else if !Answered(ps[0]) then AllAnswered(ps[1..], replies)
    else replies != [] && Acknowledges(ps[0], replies[0]) && AllAnswered(ps[1..], replies[1..])
  }

  /** What the code answers to one packet. */
  function Answer(p: ClientPacket): seq<seq<byte>> {
    if !Answered(p) then []
    else
      match p
      case Connect(_) => [[0x20, 2, 0, 0]]
      case Publish(_, _, _) => [[0x40, 2, 0, 1]]
      case Subscribe(_) => [[0x90, 3, 0, 1, 0]]
      case Ping => [[0xd0, 0]]
  }

  lemma {:induction false} AnswerAcknowledges(p: ClientPacket)
    requires Answered(p)
    ensures |Answer(p)| == 1 && Acknowledges(p, Answer(p)[0])
  {
    ShortFrame(0x20, [0, 0]);
    ShortFrame(0x40, [0, 1]);
    ShortFrame(0x90, [0, 1, 0]);
    ShortFrame(0xd0, []);
    hide NextFrame, Answered;
    LittleFrames();
  }

  lemma {:induction false} LittleFrames()
    ensures [0x20, |[0, 0]|] + [0, 0] == [0x20, 2, 0, 0] && [0x40, |[0, 1]|] + [0, 1] == [0x40, 2, 0, 1]
    ensures [0x90, |[0, 1, 0]|] + [0, 1, 0] == [0x90, 3, 0, 1, 0] && [0xd0, 0] + [] == [0xd0, 0]
  {
  }

  lemma {:induction false} ShortFrame(header: byte, payload: seq<byte>)
    requires |payload| < 128
    ensures NextFrame([header, |payload|] + payload) == Packet(header, payload, 2 + |payload|)
  {
    var p := ControlPacket(header, payload);
    FrameOfEncoding(p, []);
    assert EncodeLength(|payload|) == [|payload|];
    assert Encode(p) + [] == [header, |payload|] + payload;
  }

  lemma {:induction false} WireHeard(p: ClientPacket)
    requires Sayable(p)
    ensures var q := Wire(p); Respond(q.header, q.payload) == (Report(p), Answer(p)) && Sendable(q) && !Closes(q)
  {
    hide Report, Answer;
    match p
    case Connect(c) => ConnectHeard(c);
    case Publish(bits, topic, message) => PublishHeard(bits, topic, message);
    case Subscribe(request) => SubscribeHeard(request);
    case Ping => PingHeard();
  }

  lemma {:induction false} SubscribeHeard(request: seq<byte>)
    requires Sayable(Subscribe(request))
    ensures var p := Subscribe(request); var q := Wire(p);
      Respond(q.header, q.payload) == (Report(p), Answer(p)) && Sendable(q) && !Closes(q)
  {
  }

  lemma {:induction false} PingHeard()
    ensures var q := Wire(Ping); Respond(q.header, q.payload) == (Report(Ping), Answer(Ping)) && Sendable(q) && !Closes(q)
  {
  }

  lemma {:induction false} ConnectHeard(c: ConnectPacket)
    requires Sayable(Connect(c))
    ensures var p := Connect(c); var q := Wire(p);
      Respond(q.header, q.payload) == (Report(p), Answer(p)) && Sendable(q) && !Closes(q)
  {
    ConnectRoundTrip(c);
    hide EncodeConnect, ConnectFields, HasUsername, HasPassword;
  }

  lemma {:induction false} PublishHeard(bits: nat, topic: seq<byte>, message: seq<byte>)
    requires Sayable(Publish(bits, topic, message))
    ensures var p := Publish(bits, topic, message); var q := Wire(p);
      Respond(q.header, q.payload) == (Report(p), Answer(p)) && Sendable(q) && !Closes(q)
  {
    PublishRoundTrip(topic, message);
    hide PublishFields;
  }

  function Answers(ps: seq<ClientPacket>): seq<seq<byte>> {
    if ps == [] then [] else Answer(ps[0]) + Answers(ps[1..])
  }

  lemma {:induction false} AnswersAnswer(ps: seq<ClientPacket>)
    ensures AllAnswered(ps, Answers(ps))
  {
    if ps != [] {
      AnswersAnswer(ps[1..]);
      if Answered(ps[0]) {
        AnswerAcknowledges(ps[0]);
      }
      hide Answers, AllAnswered, Acknowledges, Answered, Answer;
      AnswersStep(ps, Answers(ps[1..]));
    }
  }

  lemma {:induction false} AnswersStep(ps: seq<ClientPacket>, later: seq<seq<byte>>)
    requires ps != [] && later == Answers(ps[1..]) && AllAnswered(ps[1..], later)
    requires Answered(ps[0]) ==> |Answer(ps[0])| == 1 && Acknowledges(ps[0], Answer(ps[0])[0])
    ensures AllAnswered(ps, Answers(ps))
  {
    hide Acknowledges;
    if Answered(ps[0]) {
      var reply := Answer(ps[0])[0];
      assert Answer(ps[0]) == [reply];
      assert ([reply] + later)[1..] == later;
    } else {
      assert Answer(ps[0]) + later == later;
    }
  }

  lemma {:induction false} WiresHeard(ps: seq<ClientPacket>)
    requires AllSayable(ps)
    ensures var qs := Wires(ps);
      && AllSendable(qs) && Lifetime(qs) == |qs|
      && Events(qs) == ReportsOf(ps) && Replies(qs) == Answers(ps)
  {
    if ps != [] {
      WireHeard(ps[0]);
      WiresHeard(ps[1..]);
      hide Wire, Report, Answer, Respond, Sendable, Closes, Sayable;
      assert Wires(ps)[1..] == Wires(ps[1..]);
    }
  }

  /**
    Main result. Whatever client IDs, usernames, passwords, topics and messages a client sends, in any
    number of packets within the cap, the events carry exactly those, in order, a ping makes none, and each
    packet that asks for it gets its own kind of acknowledgement, a well-formed packet, in order.
   */
  lemma {:induction false} ClientHeard(ps: seq<ClientPacket>)
    requires AllSayable(ps)
    ensures var t := Handle(Stream(Wires(ps)));
      t.events == ReportsOf(ps) && AllAnswered(ps, t.replies) && t.consumed == |Stream(Wires(ps))|
  {
    WiresHeard(ps);
    AnswersAnswer(ps);
    var qs := Wires(ps);
    StreamHandled(qs);
    hide Stream, Wires, Events, Replies, Handle, AllAnswered, Answers, ReportsOf;
    assert qs[..|qs|] == qs;
  }

  /** A DISCONNECT ends the conversation: nothing behind it is read, reported or answered. */
  lemma {:induction false} NothingAfterDisconnect(ps: seq<ClientPacket>, later: seq<ControlPacket>)
    requires AllSayable(ps) && AllSendable(later)
    ensures var bye := ControlPacket(0xe0, []);
      var t := Handle(Stream(Wires(ps) + [bye] + later));
      t.events == ReportsOf(ps) && AllAnswered(ps, t.replies) && t.consumed == |Stream(Wires(ps) + [bye])|
  {
    var qs, bye := Wires(ps), ControlPacket(0xe0, []);
    var all := qs + [bye] + later;
    WiresHeard(ps);
    AnswersAnswer(ps);
    LivesUntil(qs, bye, later);
    hide Stream, Wires, Events, Replies, Handle, AllAnswered, Answers, ReportsOf, Lifetime;
    AllSendableConcat(qs, bye, later);
    hide AllSendable;
    StreamHandled(all);
    assert all[..|qs|] == qs && all[..|qs| + 1] == qs + [bye];
  }

  lemma {:induction false} AllSendableConcat(qs: seq<ControlPacket>, bye: ControlPacket, later: seq<ControlPacket>)
    requires AllSendable(qs) && Sendable(bye) && AllSendable(later)
    ensures AllSendable(qs + [bye] + later)
  {
    hide Sendable;
  }

  lemma {:induction false} LivesUntil(qs: seq<ControlPacket>, bye: ControlPacket, later: seq<ControlPacket>)
    requires Lifetime(qs) == |qs| && Closes(bye)
    ensures Lifetime(qs + [bye] + later) == |qs|
  {
    if qs != [] {
      LivesUntil(qs[1..], bye, later);
      assert (qs + [bye] + later)[1..] == qs[1..] + [bye] + later;
    }
  }

  /** Any other type of packet is neither reported nor answered. */
  lemma {:induction false} OthersIgnored(header: byte, payload: seq<byte>)
    requires header as int / 16 !in {1, 3, 8, 12}
    ensures Respond(header, payload) == ([], [])
  {
  }

  // ---------- flag bits and limits by number ----------

  /** Section 3.1.2: the connect flags from user name, password, will retain, will QoS, will and clean session. */
  function ConnectFlags(user: bool, pass: bool, retain: bool, qos: nat, will: bool, clean: bool): nat
    requires qos < 4
  {
    (if user then 128 else 0) + (if pass then 64 else 0) + (if retain then 32 else 0) + 8 * qos
    + (if will then 4 else 0) + (if clean then 2 else 0)
  }

  lemma {:induction false} FlagBits(user: bool, pass: bool, retain: bool, qos: nat, will: bool, clean: bool)
    requires qos < 4
    ensures var f := ConnectFlags(user, pass, retain, qos, will, clean);
      f < 256 && (HasUsername(f) <==> user) && (HasPassword(f) <==> pass) && (HasWill(f) <==> will)
  {
  }

  /** A CONNECT payload of fewer than ten bytes is reported as coming from a client called unknown. */
  lemma {:induction false} ShortConnect(data: seq<byte>)
    requires |data| < 10
    ensures ConnectFields(data) == Login([117, 110, 107, 110, 111, 119, 110], [], [])
  {
  }
}
