// The libpcap 2.4 writer and its append-on-reopen capture files
// (draft-ietf-opsawg-pcap, sections 4 and 5), with an independent reader.
module Pcap {
  import opened Basics
  import opened Events

  const MOD32 := 0x1_0000_0000
  const SNAPLEN := 65535

  // ---------- little-endian integers ----------

  function U16(n: nat): (s: seq<byte>)
    requires n < 0x1_0000
    ensures |s| == 2
  {
    [n % 256, n / 256]
  }

  function U32(n: nat): (s: seq<byte>)
    requires n < MOD32
    ensures |s| == 4
  {
    U16(n % 0x1_0000) + U16(n / 0x1_0000)
  }

  function ReadU16(s: seq<byte>, at: nat): nat
    requires at + 2 <= |s|
  {
    s[at] as int + 256 * s[at + 1] as int
  }

  function ReadU32(s: seq<byte>, at: nat): nat
    requires at + 4 <= |s|
  {
    ReadU16(s, at) + 0x1_0000 * ReadU16(s, at + 2)
  }

  // ---------- headers and records ----------

  datatype GlobalHeader = GlobalHeader(
    magic: nat, major: nat, minor: nat, thisZone: nat, sigFigs: nat, snapLen: nat, network: nat)

  const HEADER := GlobalHeader(0xa1b2c3d4, 2, 4, 0, 0, SNAPLEN, 101)

  datatype Record = Record(sec: nat, usec: nat, capLen: nat, len: nat, data: seq<byte>)

  predicate Encodable(r: Record) {
    r.sec < MOD32 && r.usec < MOD32 && r.len < MOD32 && r.capLen < MOD32 && |r.data| == r.capLen
  }

  function HeaderBytes(): (s: seq<byte>)
    ensures |s| == 24
  {
    U32(HEADER.magic) + U16(HEADER.major) + U16(HEADER.minor) + U32(HEADER.thisZone) + U32(HEADER.sigFigs)
    + U32(HEADER.snapLen) + U32(HEADER.network)
  }

  function RecordHead(r: Record): (s: seq<byte>)
    requires Encodable(r)
    ensures |s| == 16
  {
    U32(r.sec) + U32(r.usec) + U32(r.capLen) + U32(r.len)
  }

  function RecordBytes(r: Record): (s: seq<byte>)
    requires Encodable(r)
    ensures |s| == 16 + r.capLen
  {
    RecordHead(r) + r.data
  }

  /** The record WritePacket logs: uint32 conversions of the time and of the length truncate. */
  function RecordOf(t: Time, data: seq<byte>): (r: Record)
    ensures Encodable(r) && r.usec < 1_000_000 && r.capLen <= SNAPLEN
  {
    var capLen := Min(|data| % MOD32, SNAPLEN);
    Record(Unix(t) % MOD32, t % SECOND / 1000, capLen, |data| % MOD32, data[..capLen])
  }

  // ---------- the writer ----------

  /** A file start for appending. */
  class File {
    const name: string
    var bytes: seq<byte>

    constructor (name: string)
      ensures this.name == name && bytes == []
    {
      this.name, bytes := name, [];
    }

    method Write(s: seq<byte>)
      modifies this
      ensures bytes == old(bytes) + s
    {
      bytes := bytes + s;
    }
  }

  class CaptureFile {
    const file: File

    /** OpenCapture: a global header is written only into an empty file. */
    constructor Open(f: File)
      modifies f
      ensures file == f
      ensures f.bytes == if old(f.bytes) == [] then HeaderBytes() else old(f.bytes)
    {
      file := f;
      if |f.bytes| == 0 {
        f.Write(HeaderBytes());
      }
    }

    method WritePacket(t: Time, data: seq<byte>)
      modifies file
      ensures file.bytes == old(file.bytes) + RecordBytes(RecordOf(t, data))
    {
      var capLen := |data| % MOD32;
      if capLen > 65535 {
        capLen := 65535;
      }
      file.Write(U32(Unix(t) % MOD32) + U32(t % SECOND / 1000) + U32(capLen) + U32(|data| % MOD32));
      file.Write(data[..capLen]);
      ghost var r := RecordOf(t, data);
      assert old(file.bytes) + RecordHead(r) + r.data == old(file.bytes) + (RecordHead(r) + r.data);
    }
  }

  /** A packet handed to the writer. */
  type Packet = (Time, seq<byte>)

  method WriteSession(f: File, packets: seq<Packet>)
    modifies f
    ensures f.bytes == AfterSession(old(f.bytes), packets)
  {
    var cf := new CaptureFile.Open(f);
    ghost var start := f.bytes;
    for i := 0 to |packets|
      invariant f.bytes == start + Body(packets[..i])
    {
      BodyGrows(start, packets, i);
      cf.WritePacket(packets[i].0, packets[i].1);
    }
    assert packets[..|packets|] == packets;
  }

  /** The records of a list of packets, one after the other. */
  function Body(packets: seq<Packet>): seq<byte> {
    if packets == [] then [] else RecordBytes(RecordOf(packets[0].0, packets[0].1)) + Body(packets[1..])
  }

  function AfterSession(bytes: seq<byte>, packets: seq<Packet>): seq<byte> {
    (if bytes == [] then HeaderBytes() else bytes) + Body(packets)
  }

  /** A file after any number of open/write/close sessions. */
  function AfterSessions(bytes: seq<byte>, sessions: seq<seq<Packet>>): seq<byte>
    decreases |sessions|
  {
    if sessions == [] then bytes else AfterSessions(AfterSession(bytes, sessions[0]), sessions[1..])
  }

  lemma {:induction false} BodyCons(p: Packet, rest: seq<Packet>)
    ensures Body([p] + rest) == RecordBytes(RecordOf(p.0, p.1)) + Body(rest)
  {
    assert ([p] + rest)[1..] == rest;
    hide RecordBytes, RecordOf;
  }

  lemma {:induction false} BodyConcat(a: seq<Packet>, b: seq<Packet>)
    ensures Body(a + b) == Body(a) + Body(b)
  {
    if a == [] {
      assert a + b == b;
      assert Body(a) + Body(b) == Body(b);
    } else {
      var p, rest := a[0], a[1..];
      BodyConcat(rest, b);
      BodyCons(p, rest);
      BodyCons(p, rest + b);
      hide *;
      assert a == [p] + rest;
      ConcatAssociative([p], rest, b);
      ConcatAssociative(RecordBytes(RecordOf(p.0, p.1)), Body(rest), Body(b));
    }
  }

  lemma {:induction false} BodyGrows(start: seq<byte>, packets: seq<Packet>, i: nat)
    requires i < |packets|
    ensures start + Body(packets[..i + 1]) ==
            start + Body(packets[..i]) + RecordBytes(RecordOf(packets[i].0, packets[i].1))
  {
    assert packets[..i + 1] == packets[..i] + [packets[i]];
    BodyConcat(packets[..i], [packets[i]]);
    var rec := RecordBytes(RecordOf(packets[i].0, packets[i].1));
    var none: seq<Packet> := [packets[i]][1..];
    assert none == [];
    assert Body([packets[i]]) == rec + [] == rec;
    ConcatAssociative(start, Body(packets[..i]), rec);
  }

  // ---------- an independent reader ----------

  function ReadHeader(s: seq<byte>): GlobalHeader
    requires |s| >= 24
  {
    GlobalHeader(ReadU32(s, 0), ReadU16(s, 4), ReadU16(s, 6), ReadU32(s, 8), ReadU32(s, 12), ReadU32(s, 16), ReadU32(s, 20))
  }

  /** Every record of a body, or nothing when it is cut short. */
  function ReadRecords(s: seq<byte>): Option<seq<Record>>
    decreases |s|
  {
    if s == [] then Some([])
    else if |s| < 16 then None
    else
      var capLen := ReadU32(s, 8);
      if |s| < 16 + capLen then None
      else
        match ReadRecords(s[16 + capLen..])
        case None => None
        case Some(rest) =>
          Some([Record(ReadU32(s, 0), ReadU32(s, 4), capLen, ReadU32(s, 12), s[16..16 + capLen])] + rest)
  }

  function ReadFile(s: seq<byte>): Option<(GlobalHeader, seq<Record>)> {
    if |s| < 24 then None
    else
      match ReadRecords(s[24..])
      case None => None
      case Some(rs) => Some((ReadHeader(s), rs))
  }

  // ---------- reading back ----------

  function Flatten(sessions: seq<seq<Packet>>): seq<Packet> {
    if sessions == [] then [] else sessions[0] + Flatten(sessions[1..])
  }

  function Records(packets: seq<Packet>): seq<Record> {
    seq(|packets|, i requires 0 <= i < |packets| => RecordOf(packets[i].0, packets[i].1))
  }

  function TotalSize(packets: seq<Packet>): nat {
    if packets == [] then 0 else 16 + RecordOf(packets[0].0, packets[0].1).capLen + TotalSize(packets[1..])
  }

  lemma {:induction false} U32Reads(before: seq<byte>, n: nat, after: seq<byte>)
    requires n < MOD32
    ensures ReadU32(before + U32(n) + after, |before|) == n
  {
    var s, u := before + U32(n) + after, U32(n);
    assert s[|before|] == u[0] && s[|before| + 1] == u[1] && s[|before| + 2] == u[2] && s[|before| + 3] == u[3];
  }

  lemma {:induction false} RecordHeadReads(r: Record, after: seq<byte>)
    requires Encodable(r)
    ensures var s := RecordHead(r) + after;
      ReadU32(s, 0) == r.sec && ReadU32(s, 4) == r.usec && ReadU32(s, 8) == r.capLen && ReadU32(s, 12) == r.len
  {
    var s := RecordHead(r) + after;
    var a, b, c, d := U32(r.sec), U32(r.usec), U32(r.capLen), U32(r.len);
    U32Reads([], r.sec, b + c + d + after);
    U32Reads(a, r.usec, c + d + after);
    U32Reads(a + b, r.capLen, d + after);
    U32Reads(a + b + c, r.len, after);
    hide U32, ReadU32;
    assert s == [] + a + (b + c + d + after) == a + b + (c + d + after) == a + b + c + (d + after) == a + b + c + d + after;
  }

  lemma {:induction false} RecordReads(r: Record, rest: seq<byte>)
    requires Encodable(r) && ReadRecords(rest).Some?
    ensures ReadRecords(RecordBytes(r) + rest) == Some([r] + ReadRecords(rest).value)
  {
    var s := RecordBytes(r) + rest;
    RecordHeadReads(r, r.data + rest);
    ConcatAssociative(RecordHead(r), r.data, rest);
    hide RecordHead, ReadU32;
    assert s[16..16 + r.capLen] == r.data && s[16 + r.capLen..] == rest;
  }

  lemma {:induction false} RecordsCons(packets: seq<Packet>)
    requires packets != []
    ensures Records(packets) == [RecordOf(packets[0].0, packets[0].1)] + Records(packets[1..])
  {
    hide RecordOf;
  }

  lemma {:induction false} BodyReads(packets: seq<Packet>)
    ensures ReadRecords(Body(packets)) == Some(Records(packets))
    ensures |Body(packets)| == TotalSize(packets)
  {
    if packets == [] {
      assert Records(packets) == [];
    } else {
      hide RecordOf, RecordBytes, ReadRecords, Records;
      BodyReads(packets[1..]);
      RecordReads(RecordOf(packets[0].0, packets[0].1), Body(packets[1..]));
      RecordsCons(packets);
    }
  }

  lemma {:induction false} HeaderReads(body: seq<byte>)
    ensures ReadHeader(HeaderBytes() + body) == HEADER
  {
    var h := HeaderBytes();
    assert ReadHeader(h) == HEADER;
    var s := h + body;
    assert forall i :: 0 <= i < 24 ==> s[i] == h[i];
  }

  lemma {:induction false} SessionsAppend(bytes: seq<byte>, sessions: seq<seq<Packet>>)
    requires bytes != []
    ensures AfterSessions(bytes, sessions) == bytes + Body(Flatten(sessions))
    decreases |sessions|
  {
    if sessions == [] {
      assert bytes + [] == bytes;
    } else {
      SessionsAppend(bytes + Body(sessions[0]), sessions[1..]);
      BodyConcat(sessions[0], Flatten(sessions[1..]));
      ConcatAssociative(bytes, Body(sessions[0]), Body(Flatten(sessions[1..])));
    }
  }

  /**
    Main result. Whatever packets are written, split in any way over one or more open/close sessions of
    a new file, the file reads as one global header followed by exactly their records, and its size is
    24 plus 16 and the captured length for each.
   */
  lemma {:induction false} CaptureReadsBack(sessions: seq<seq<Packet>>)
    requires sessions != []
    ensures var file := AfterSessions([], sessions); var packets := Flatten(sessions);
      && ReadFile(file) == Some((HEADER, Records(packets)))
      && |file| == 24 + TotalSize(packets)
  {
    var h, rest := HeaderBytes(), Flatten(sessions[1..]);
    SessionsAppend(h + Body(sessions[0]), sessions[1..]);
    BodyConcat(sessions[0], rest);
    ConcatAssociative(h, Body(sessions[0]), Body(rest));
    var body := Body(Flatten(sessions));
    assert AfterSessions([], sessions) == h + body;
    BodyReads(Flatten(sessions));
    HeaderReads(body);
    assert (h + body)[24..] == body;
  }

  /**
    A record keeps the original length exactly when it fits 32 bits, and its data is then the packet cut
    at the snapshot length.
   */
  lemma {:induction false} RecordFaithful(t: Time, data: seq<byte>)
    ensures RecordOf(t, data).len == |data| <==> |data| < MOD32
    ensures |data| < MOD32 ==> RecordOf(t, data).data == data[..Min(|data|, 65535)]
  {
  }

  /** A record's time is the packet's, cut to microseconds, exactly from 1970 until the seconds outgrow 32 bits. */
  lemma {:induction false} RecordTime(t: Time, data: seq<byte>)
    ensures var r := RecordOf(t, data); var back := r.sec * 1_000_000_000 + r.usec * 1000;
      back <= t < back + 1000 <==> 0 <= t < 0x1_0000_0000 * 1_000_000_000
  {
    var r := RecordOf(t, data);
    var n := t % 1_000_000_000;
    assert t == 1_000_000_000 * (t / 1_000_000_000) + n;
    assert r.usec * 1000 <= n < r.usec * 1000 + 1000;
    SecondsWrap(t / 1_000_000_000);
    hide RecordOf;
  }

  lemma {:induction false} SecondsWrap(sec: int)
    ensures sec % MOD32 == sec <==> 0 <= sec < 0x1_0000_0000
    ensures sec % MOD32 != sec ==> sec % MOD32 >= sec + 0x1_0000_0000 || sec % MOD32 <= sec - 0x1_0000_0000
  {
  }

  /** The header of a libpcap 2.4 file of raw IP packets, by number and by its first bytes. */
  lemma {:induction false} HeaderIsStandard()
    ensures HEADER == GlobalHeader(0xa1b2c3d4, 2, 4, 0, 0, 65535, 101)
    ensures HeaderBytes()[..8] == [0xd4, 0xc3, 0xb2, 0xa1, 2, 0, 4, 0]
  {
  }
}
