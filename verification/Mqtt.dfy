// The MQTT decoy: packet framing, field decoding and the connection loop.
module Mqtt {
  import opened Basics

  // ---------- remaining length ----------

  const MAX_PAYLOAD := 65536

  /** Decoding either yields a value or fails; both say how many bytes were read. */
  datatype Length = Value(n: nat, used: nat) | Malformed(used: nat)

  /** Little-endian base-128 digits with continuation bits, k of them already read; four at most. */
  function Digits(s: seq<byte>, k: nat): (r: Length)
    requires k <= 3
    ensures r.used <= |s| && r.used <= 4 - k
    ensures r.Value? ==> r.used >= 1
    decreases 3 - k
  {
    if s == [] then Malformed(0)
    else if s[0] < 128 then Value(s[0] as int, 1)
    else if k == 3 then Malformed(1)
    else
      match Digits(s[1..], k + 1)
      case Value(v, used) => Value(s[0] as int - 128 + 128 * v, used + 1)
      case Malformed(used) => Malformed(used + 1)
  }

  function RemainingLength(s: seq<byte>): (r: Length)
    ensures r.used <= |s| && r.used <= 4
    ensures r.Value? ==> r.used >= 1
  {
    match Digits(s, 0)
    case Value(v, used) => if v > MAX_PAYLOAD then Malformed(used) else Value(v, used)
    case Malformed(used) => Malformed(used)
  }

  /** A buffered reader over everything the peer will ever send. */
  class Reader {
    const data: seq<byte>
    var pos: nat

    ghost predicate Valid()
      reads this
    {
      pos <= |data|
    }

    function Rest(): seq<byte>
      reads this
      requires Valid()
    {
      data[pos..]
    }

    constructor (data: seq<byte>)
      ensures Valid() && pos == 0 && this.data == data
    {
      this.data, pos := data, 0;
    }

    method ReadByte() returns (b: Option<byte>)
      requires Valid()
      modifies this
      ensures Valid()
      ensures old(Rest()) == [] ==> b == None && pos == old(pos)
      ensures old(Rest()) != [] ==> b == Some(old(Rest())[0]) && pos == old(pos) + 1
    {
      ghost var rest := Rest();
      if pos == |data| {
        assert rest == [];
        return None;
      }
      assert rest[0] == data[pos];
      b := Some(data[pos]);
      pos := pos + 1;
    }

    /** io.ReadFull: all n bytes, or whatever is left and an error. */
    method ReadFull(n: nat) returns (r: Option<seq<byte>>)
      requires Valid()
      modifies this
      ensures Valid()
      ensures n <= |old(Rest())| ==> r == Some(old(Rest())[..n]) && pos == old(pos) + n
      ensures n > |old(Rest())| ==> r == None && pos == |data|
    {
      ghost var rest := Rest();
      if n > |data| - pos {
        pos := |data|;
        return None;
      }
      assert data[pos..pos + n] == rest[..n];
      r := Some(data[pos..pos + n]);
      pos := pos + n;
    }
  }

  /** 128 to the power k. */
  function Multiplier(k: nat): nat
    requires k <= 3
  {
    if k == 0 then 1 else if k == 1 then 128 else if k == 2 then 128 * 128 else 128 * 128 * 128
  }

  /** Having read k bytes of value `value` and with s still to come, the whole length is `whole`. */
  ghost predicate Pending(whole: Length, s: seq<byte>, k: nat, value: int)
    requires k <= 3
  {
    var rest := Digits(s, k);
    && whole.used == k + rest.used && whole.Value? == rest.Value?
    && (rest.Value? ==> whole.n == value + Multiplier(k) * rest.n)
  }

  lemma {:induction false} PendingEnds(whole: Length, s: seq<byte>, k: nat, value: int)
    requires k <= 3 && Pending(whole, s, k, value)
    ensures s == [] ==> whole == Malformed(k)
    ensures s != [] && s[0] < 128 ==>
      whole.Value? && whole.used == k + 1 && whole.n == value + s[0] as int * Multiplier(k)
    ensures s != [] && s[0] >= 128 && k == 3 ==> whole == Malformed(4)
  {
    if s != [] && s[0] < 128 {
      assert Multiplier(k) * s[0] as int == s[0] as int * Multiplier(k);
    }
  }

  lemma {:induction false} PendingContinues(whole: Length, s: seq<byte>, k: nat, value: int)
    requires k < 3 && s != [] && s[0] >= 128 && Pending(whole, s, k, value)
    ensures Multiplier(k) * 128 == Multiplier(k + 1) <= 128 * 128 * 128
    ensures Pending(whole, s[1..], k + 1, value + (s[0] as int - 128) * (Multiplier(k) as int))
  {
    var tail := Digits(s[1..], k + 1);
    if tail.Value? {
      var m, d := Multiplier(k), s[0] as int - 128;
      assert m * (d + 128 * tail.n) == d * m + (m * 128) * tail.n;
    }
  }

  method DecodeRemainingLength(r: Reader) returns (n: Option<nat>)
    requires r.Valid()
    modifies r
    ensures r.Valid() && r.pos == old(r.pos) + RemainingLength(old(r.Rest())).used
    ensures n == match RemainingLength(old(r.Rest())) case Value(v, _) => Some(v) case Malformed(_) => None
  {
    hide Digits, Pending, Multiplier;
    var multiplier, value := 1, 0;
    ghost var whole, k := Digits(r.Rest(), 0), 0;
    PendingStarts(r.Rest());
    while true
      invariant r.Valid() && k <= 3 && r.pos == old(r.pos) + k
      invariant multiplier == Multiplier(k) && Pending(whole, r.Rest(), k, value)
      decreases 3 - k
    {
      ghost var rest := r.Rest();
      PendingEnds(whole, rest, k, value);
      var encoded := r.ReadByte();
      if encoded == None {
        return None;
      }
      assert r.Rest() == rest[1..];
      var digit := encoded.value as int % 128;
      if k < 3 && rest[0] >= 128 {
        PendingContinues(whole, rest, k, value);
      }
      MultiplierBounds(k);
      value := value + digit * multiplier;
      if encoded.value as int / 128 == 0 {
        break;
      }
      multiplier := multiplier * 128;
      if multiplier > 128 * 128 * 128 {
        return None;
      }
      k := k + 1;
    }
    if value > MAX_PAYLOAD {
      return None;
    }
    n := Some(value);
  }

  lemma {:induction false} PendingStarts(s: seq<byte>)
    ensures Pending(Digits(s, 0), s, 0, 0) && Multiplier(0) == 1
  {
  }

  lemma {:induction false} MultiplierBounds(k: nat)
    requires k <= 3
    ensures k == 3 ==> Multiplier(k) * 128 > 128 * 128 * 128
    ensures Multiplier(k) >= 1
  {
  }

  // ---------- fields ----------

  const UNKNOWN: seq<byte> := [117, 110, 107, 110, 111, 119, 110]  // "unknown"

  /** A length-prefixed string at off, and where reading continues. */
  function StringAt(d: seq<byte>, off: nat): (r: (seq<byte>, nat))
    requires off <= |d|
    ensures off <= r.1 <= |d|
  {
    if off + 2 > |d| then ([], off)
    else
      var l := d[off] as int * 256 + d[off + 1] as int;
      if off + 2 + l > |d| then ([], off + 2) else (d[off + 2..off + 2 + l], off + 2 + l)
  }

  predicate HasUsername(flags: byte) { flags as int / 128 % 2 == 1 }
  predicate HasPassword(flags: byte) { flags as int / 64 % 2 == 1 }
  predicate HasWill(flags: byte) { flags as int / 4 % 2 == 1 }

  datatype Login = Login(clientID: seq<byte>, username: seq<byte>, password: seq<byte>)

  function ConnectFields(data: seq<byte>): Login {
    if |data| < 10 then Login(UNKNOWN, [], [])
    else
      var id := StringAt(data, 10);
      var user := if HasUsername(data[7]) then StringAt(data, id.1) else ([], id.1);
      var pass := if HasPassword(data[7]) then StringAt(data, user.1) else ([], user.1);
      Login(id.0, user.0, pass.0)
  }

  method ParseConnectPayload(data: seq<byte>) returns (login: Login)
    ensures login == ConnectFields(data)
  {
    if |data| < 10 {
      return Login(UNKNOWN, [], []);
    }
    var flags, offset := data[7], 10;
    var clientID, username, password := [], [], [];
    clientID, offset := ReadString(data, offset);
    if HasUsername(flags) {
      username, offset := ReadString(data, offset);
    }
    if HasPassword(flags) {
      password, offset := ReadString(data, offset);
    }
    login := Login(clientID, username, password);
  }

  /** The closure readString: returns the string and the advanced offset, never past the end. */
  method ReadString(d: seq<byte>, off: nat) returns (s: seq<byte>, off': nat)
    requires off <= |d|
    ensures (s, off') == StringAt(d, off) && off <= off' <= |d|
  {
    off' := off;
    if off' + 2 > |d| {
      return [], off';
    }
    var l := d[off'] as int * 256 + d[off' + 1] as int;
    off' := off' + 2;
    if off' + l > |d| {
      return [], off';
    }
    s := d[off'..off' + l];
    off' := off' + l;
  }

  function PublishFields(data: seq<byte>): (seq<byte>, seq<byte>) {
    if |data| < 2 then ([], [])
    else
      var topicLen := data[0] as int * 256 + data[1] as int;
      if 2 + topicLen > |data| then ([], [])
      else (data[2..2 + topicLen], data[2 + topicLen..])
  }

  // ---------- the connection loop ----------

  /** payload is what the event's hash is taken of. */
  datatype MqttEvent = MqttEvent(
    action: string, severity: string, threatScore: int, username: seq<byte>, password: seq<byte>,
    command: seq<byte>, metadata: map<string, seq<byte>>, payload: seq<byte>)

  const CONNACK: seq<byte> := [0x20, 0x02, 0x00, 0x00]
  const PUBACK: seq<byte> := [0x40, 0x02, 0x00, 0x01]
  const SUBACK: seq<byte> := [0x90, 0x03, 0x00, 0x01, 0x00]
  const PINGRESP: seq<byte> := [0xd0, 0x00]

  const CONNECT := 1
  const PUBLISH := 3
  const SUBSCRIBE := 8
  const PINGREQ := 12
  const DISCONNECT := 14

  function PacketType(header: byte): nat {
    header as int / 16
  }

  /** Events offered to the pipeline, bytes written to the peer, and bytes consumed from it. */
  datatype Trace = Trace(events: seq<MqttEvent>, replies: seq<seq<byte>>, consumed: nat)

  /** What one packet other than DISCONNECT gives rise to. */
  function Respond(header: byte, payload: seq<byte>): (seq<MqttEvent>, seq<seq<byte>>) {
    var t := PacketType(header);
    if t == CONNECT then
      var login := ConnectFields(payload);
      ([MqttEvent("MQTT_IOT_BOTNET_CONNECT", "HIGH", 85, login.username, login.password, [],
                  map["client_id" := login.clientID], payload)],
       [CONNACK])
    else if t == PUBLISH then
      var (topic, msg) := PublishFields(payload);
      ([MqttEvent("MQTT_IOT_EXPLOIT_PUBLISH", "CRITICAL", 95, [], [], topic,
                  map["topic" := topic, "message" := msg], payload)],
       if header as int / 2 % 4 > 0 && |payload| >= 2 then [PUBACK] else [])
    else if t == SUBSCRIBE then
      ([MqttEvent("MQTT_RECON_SUBSCRIBE", "MEDIUM", 70, [], [], [], map[], payload)], [SUBACK])
    else if t == PINGREQ then ([], [PINGRESP])
    else ([], [])
  }

  /** One framed packet, or the end of what can be read; both say how many bytes were consumed. */
  datatype Frame = Packet(header: byte, payload: seq<byte>, consumed: nat) | End(consumed: nat)

  function NextFrame(s: seq<byte>): (f: Frame)
    ensures f.consumed <= |s|
    ensures f.Packet? ==> f.consumed >= 2
  {
    if s == [] then End(0)
    else
      match RemainingLength(s[1..])
      case Malformed(used) => End(1 + used)
      case Value(n, used) =>
        if 1 + used + n > |s| then End(|s|)
        else Packet(s[0], s[1 + used..1 + used + n], 1 + used + n)
  }

  /** Everything a connection does on a byte stream that then ends. */
  function Handle(s: seq<byte>): (t: Trace)
    ensures t.consumed <= |s|
    decreases |s|
  {
    var f := NextFrame(s);
    if f.End? || PacketType(f.header) == DISCONNECT then Trace([], [], f.consumed)
    else
      var r, later := Respond(f.header, f.payload), Handle(s[f.consumed..]);
      Trace(r.0 + later.events, r.1 + later.replies, f.consumed + later.consumed)
  }

  lemma {:induction false} DropMore(s: seq<byte>, a: nat, b: nat)
    requires a + b <= |s|
    ensures s[a..][b..] == s[a + b..]
  {
  }

  lemma {:induction false} TakeAfterDrop(s: seq<byte>, a: nat, n: nat)
    ensures a + n <= |s| ==> s[a..][..n] == s[a..a + n]
  {
  }

  method ReadFrame(r: Reader) returns (frame: Option<(byte, seq<byte>)>)
    requires r.Valid()
    modifies r
    ensures r.Valid() && r.pos == old(r.pos) + NextFrame(old(r.Rest())).consumed
    ensures frame == match NextFrame(old(r.Rest())) case End(_) => None case Packet(h, p, _) => Some((h, p))
  {
    hide RemainingLength;
    ghost var rest := r.Rest();
    var header := r.ReadByte();
    if header == None {
      return None;
    }
    DropMore(r.data, r.pos - 1, 1);
    ghost var used := RemainingLength(rest[1..]).used;
    var remLen := DecodeRemainingLength(r);
    if remLen == None {
      return None;
    }
    DropMore(r.data, r.pos - 1 - used, 1 + used);
    TakeAfterDrop(rest, 1 + used, remLen.value);
    var payload := r.ReadFull(remLen.value);
    if payload == None {
      return None;
    }
    frame := Some((header.value, payload.value));
  }

  method HandlePacket(header: byte, payload: seq<byte>) returns (events: seq<MqttEvent>, replies: seq<seq<byte>>)
    ensures (events, replies) == Respond(header, payload)
  {
    events, replies := [], [];
    match PacketType(header) {
      case 1 =>
        var login := ParseConnectPayload(payload);
        events := [MqttEvent("MQTT_IOT_BOTNET_CONNECT", "HIGH", 85, login.username, login.password, [],
                             map["client_id" := login.clientID], payload)];
        replies := [CONNACK];
      case 3 =>
        var (topic, msg) := PublishFields(payload);
        events := [MqttEvent("MQTT_IOT_EXPLOIT_PUBLISH", "CRITICAL", 95, [], [], topic,
                             map["topic" := topic, "message" := msg], payload)];
        if header as int / 2 % 4 > 0 && |payload| >= 2 {
          replies := [PUBACK];
        }
      case 8 =>
        events := [MqttEvent("MQTT_RECON_SUBSCRIBE", "MEDIUM", 70, [], [], [], map[], payload)];
        replies := [SUBACK];
      case 12 =>
        replies := [PINGRESP];
      case _ =>
    }
  }

  ghost predicate SoFar(whole: Trace, rest: seq<byte>, events: seq<MqttEvent>, replies: seq<seq<byte>>, consumed: int) {
    var t := Handle(rest);
    whole.events == events + t.events && whole.replies == replies + t.replies
    && whole.consumed == consumed + t.consumed
  }

  lemma {:induction false} SoFarContinues(whole: Trace, s: seq<byte>, events: seq<MqttEvent>, replies: seq<seq<byte>>, consumed: int)
    requires SoFar(whole, s, events, replies, consumed)
    requires NextFrame(s).Packet? && PacketType(NextFrame(s).header) != DISCONNECT
    ensures var f := NextFrame(s); var r := Respond(f.header, f.payload);
      SoFar(whole, s[f.consumed..], events + r.0, replies + r.1, consumed + f.consumed)
  {
    hide Respond, NextFrame;
    var f := NextFrame(s);
    var r, later := Respond(f.header, f.payload), Handle(s[f.consumed..]);
    assert events + (r.0 + later.events) == events + r.0 + later.events;
    assert replies + (r.1 + later.replies) == replies + r.1 + later.replies;
  }

  lemma {:induction false} SoFarStops(whole: Trace, s: seq<byte>, events: seq<MqttEvent>, replies: seq<seq<byte>>, consumed: int)
    requires SoFar(whole, s, events, replies, consumed)
    requires NextFrame(s).End? || PacketType(NextFrame(s).header) == DISCONNECT
    ensures whole.events == events && whole.replies == replies
    ensures whole.consumed == consumed + NextFrame(s).consumed
  {
    hide Respond, NextFrame;
    assert events + [] == events && replies + [] == replies;
  }

  /** Each turn consumes at least two bytes, so the loop ends on any finite stream. */
  method HandleConnection(r: Reader) returns (events: seq<MqttEvent>, replies: seq<seq<byte>>)
    requires r.Valid()
    modifies r
    ensures r.Valid() && r.pos >= old(r.pos)
    ensures Trace(events, replies, r.pos - old(r.pos)) == Handle(old(r.Rest()))
  {
    hide Handle, Respond, NextFrame;
    events, replies := [], [];
    ghost var whole := Handle(r.Rest());
    assert SoFar(whole, r.Rest(), events, replies, 0);
    while true
      invariant r.Valid() && old(r.pos) <= r.pos
      invariant SoFar(whole, r.Rest(), events, replies, r.pos - old(r.pos))
      decreases |r.data| - r.pos
    {
      ghost var rest, start := r.Rest(), r.pos;
      var frame := ReadFrame(r);
      if frame == None || PacketType(frame.value.0) == DISCONNECT {
        SoFarStops(whole, rest, events, replies, start - old(r.pos));
        return;
      }
      SoFarContinues(whole, rest, events, replies, start - old(r.pos));
      DropMore(r.data, start, r.pos - start);
      var evs, outs := HandlePacket(frame.value.0, frame.value.1);
      events, replies := events + evs, replies + outs;
    }
  }
}
