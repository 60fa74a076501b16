// What whole runs of the capture hook leave in the capture directory.
module OnDemandProofs {
  import opened Basics
  import opened Events
  import opened Text
  import opened Pcap
  import opened OnDemand

  // ---------- runs ----------

  datatype Act = Capture(r: Request) | CloseAll

  function RunStep(cfg: Config, s: State, a: Act): State {
    match a
    case Capture(r) => CaptureStep(cfg, s, r).0
    case CloseAll => s.(live := {})
  }

  /** A fresh hook on a directory, after some acts. */
  function Run(cfg: Config, dir: map<string, seq<byte>>, acts: seq<Act>): State {
    if acts == [] then State({}, map[], dir)
    else RunStep(cfg, Run(cfg, dir, acts[..|acts| - 1]), acts[|acts| - 1])
  }

  lemma {:induction false} RunOne(cfg: Config, dir: map<string, seq<byte>>, acts: seq<Act>, r: Request)
    ensures Run(cfg, dir, acts + [Capture(r)]) == CaptureStep(cfg, Run(cfg, dir, acts), r).0
  {
    DropLast(acts, Capture(r));
    hide CaptureStep;
  }

  // ---------- what a run should do, from its acts alone ----------

  /** A request that passes the gate, for the key, and finds or opens a file unless the hook was closed. */
  predicate Reaches(cfg: Config, a: Act, key: string) {
    && a.Capture? && Key(a.r.ev.remoteIP) == key
    && Passes(cfg, a.r) && !a.r.fault.MkdirFails? && !a.r.fault.OpenFails?
  }

  /** The act that first opened the key's file, or |acts|. */
  function FirstOpen(cfg: Config, acts: seq<Act>, key: string): (i: nat)
    ensures i <= |acts|
    ensures i < |acts| ==> Reaches(cfg, acts[i], key)
    ensures forall j :: 0 <= j < i ==> !Reaches(cfg, acts[j], key)
  {
    if acts == [] then 0
    else
      var earlier, a := acts[..|acts| - 1], acts[|acts| - 1];
      var i := FirstOpen(cfg, earlier, key);
      assert forall j :: 0 <= j < |earlier| ==> acts[j] == earlier[j];
      if i == |earlier| && !Reaches(cfg, a, key) then i + 1 else i
  }

  predicate Known(cfg: Config, acts: seq<Act>, key: string) {
    FirstOpen(cfg, acts, key) < |acts|
  }

  /** The hook was closed after the key's file had been opened. */
  predicate Shut(cfg: Config, acts: seq<Act>, key: string) {
    exists j :: FirstOpen(cfg, acts, key) < j < |acts| && acts[j].CloseAll?
  }

  /** The request, coming after acts, gets its packet written. */
  predicate Kept(cfg: Config, acts: seq<Act>, r: Request) {
    var key := Key(r.ev.remoteIP);
    && Passes(cfg, r) && !r.fault.MkdirFails? && !r.fault.WriteFails?
    && (r.fault.OpenFails? ==> Known(cfg, acts, key))
    && !Shut(cfg, acts, key)
  }

  /** The packets of one key's requests, in order, as far as they are kept. */
  function PacketsFor(cfg: Config, acts: seq<Act>, key: string): seq<Packet> {
    if acts == [] then []
    else
      var earlier, a := acts[..|acts| - 1], acts[|acts| - 1];
      PacketsFor(cfg, earlier, key) +
      (if a.Capture? && Key(a.r.ev.remoteIP) == key && Kept(cfg, earlier, a.r) then [PacketOf(cfg, a.r)] else [])
  }

  // ---------- which keys have files ----------

  lemma {:induction false} FirstOpenAfter(cfg: Config, acts: seq<Act>, a: Act, key: string)
    ensures Known(cfg, acts, key) ==> FirstOpen(cfg, acts + [a], key) == FirstOpen(cfg, acts, key)
    ensures !Known(cfg, acts, key) ==>
      FirstOpen(cfg, acts + [a], key) == if Reaches(cfg, a, key) then |acts| else |acts| + 1
    ensures Known(cfg, acts + [a], key) <==> Known(cfg, acts, key) || Reaches(cfg, a, key)
  {
    DropLast(acts, a);
  }

  lemma {:induction false} ShutAfter(cfg: Config, acts: seq<Act>, a: Act, key: string)
    ensures Shut(cfg, acts + [a], key) <==> Shut(cfg, acts, key) || (Known(cfg, acts, key) && a.CloseAll?)
  {
    FirstOpenAfter(cfg, acts, a, key);
    var all, i := acts + [a], FirstOpen(cfg, acts, key);
    hide FirstOpen, Reaches;
    assert forall j :: 0 <= j < |acts| ==> all[j] == acts[j];
    assert all[|acts|] == a;
  }

  /** The hook knows a key exactly after a request reached it, and its file is open until the hook is closed. */
  ghost predicate KeysRight(cfg: Config, acts: seq<Act>, s: State, key: string) {
    && (key in s.paths <==> Known(cfg, acts, key))
    && (key in s.live <==> Known(cfg, acts, key) && !Shut(cfg, acts, key))
    && (key in s.paths ==> s.paths[key] == NameFor(acts[FirstOpen(cfg, acts, key)].r))
  }

  lemma {:induction false} KeysStep(cfg: Config, acts: seq<Act>, s: State, a: Act, key: string)
    requires KeysRight(cfg, acts, s, key)
    ensures KeysRight(cfg, acts + [a], RunStep(cfg, s, a), key)
  {
    FirstOpenAfter(cfg, acts, a, key);
    ShutAfter(cfg, acts, a, key);
    ShutIsKnown(cfg, acts, key);
    hide FirstOpen, Shut, Key, NameFor, RecordBytes, RecordOf, AfterSession;
    var all, i := acts + [a], FirstOpen(cfg, acts, key);
    assert i < |acts| ==> all[i] == acts[i];
    assert all[|acts|] == a;
  }

  lemma {:induction false} KeysAre(cfg: Config, dir: map<string, seq<byte>>, acts: seq<Act>, key: string)
    ensures KeysRight(cfg, acts, Run(cfg, dir, acts), key)
  {
    if acts != [] {
      KeysAre(cfg, dir, acts[..|acts| - 1], key);
      KeysStep(cfg, acts[..|acts| - 1], Run(cfg, dir, acts[..|acts| - 1]), acts[|acts| - 1], key);
      SplitLast(acts);
    }
  }

  /**
    What every request of every run comes to: below the gate nothing happens; the packet is captured
    exactly when the acts before it allow, and the hook dereferences nil exactly when its key's file was
    opened and the hook then closed.
   */
  lemma {:induction false} OutcomeExactly(cfg: Config, dir: map<string, seq<byte>>, acts: seq<Act>, r: Request)
    ensures var (s, out) := CaptureStep(cfg, Run(cfg, dir, acts), r); var key := Key(r.ev.remoteIP);
      && (out.BelowThreshold? <==> !Passes(cfg, r))
      && (out.Captured? <==> Kept(cfg, acts, r))
      && (out.NilDereference? <==> Passes(cfg, r) && !r.fault.MkdirFails? && Shut(cfg, acts, key))
  {
    KeysAre(cfg, dir, acts, Key(r.ev.remoteIP));
    hide Key, NameFor, Run, FirstOpen, AppendStep, OpenStep;
    ShutIsKnown(cfg, acts, Key(r.ev.remoteIP));
  }

  lemma {:induction false} ShutIsKnown(cfg: Config, acts: seq<Act>, key: string)
    ensures Shut(cfg, acts, key) ==> Known(cfg, acts, key)
  {
  }

  // ---------- file names ----------

  lemma {:induction false} DigitsHaveNoDash(n: nat)
    ensures '-' !in NatDigits(n)
  {
    if n >= 10 {
      DigitsHaveNoDash(n / 10);
    }
  }

  lemma {:induction false} DigitsInjective(n: nat, m: nat)
    requires NatDigits(n) == NatDigits(m)
    ensures n == m
  {
    var s, t := NatDigits(n), NatDigits(m);
    assert s[|s| - 1] == Digit(n % 10) && t[|t| - 1] == Digit(m % 10);
    DigitsLength(n);
    DigitsLength(m);
    if n >= 10 {
      assert s[..|s| - 1] == NatDigits(n / 10) && t[..|t| - 1] == NatDigits(m / 10);
      DigitsInjective(n / 10, m / 10);
    }
  }

  lemma {:induction false} DigitsLength(n: nat)
    ensures |NatDigits(n)| == 1 <==> n < 10
  {
    NatDigitsPlain(if n >= 10 then n / 10 else n);
  }

  lemma {:induction false} DashNotLater(a: string, d: string, b: string, e: string)
    requires '-' !in d && a + "-" + d == b + "-" + e
    ensures |b| <= |a|
  {
    var s, t := a + "-" + d, b + "-" + e;
    forall k | |a| < k < |s|
      ensures s[k] != '-'
    {
      assert s[k] == d[k - |a| - 1];
    }
    assert t[|b|] == '-';
  }

  lemma {:induction false} LastDashSplits(a: string, d: string, b: string, e: string)
    requires '-' !in d && '-' !in e && a + "-" + d == b + "-" + e
    ensures a == b && d == e
  {
    var s, t := a + "-" + d, b + "-" + e;
    DashNotLater(a, d, b, e);
    DashNotLater(b, e, a, d);
    assert s[..|a|] == a && t[..|b|] == b;
    assert s[|a| + 1..] == d && t[|b| + 1..] == e;
  }

  /** A key and a signed number, as a longer key and a natural one. */
  function Stem(key: string, seconds: int): string {
    if seconds < 0 then key + "-" else key
  }

  lemma {:induction false} StemPrints(key: string, seconds: int)
    ensures key + "-" + Itoa(seconds) ==
            Stem(key, seconds) + "-" + NatDigits(if seconds < 0 then -seconds else seconds)
  {
    if seconds < 0 {
      ConcatAssociative(key + "-", "-", NatDigits(-seconds));
    }
  }

  lemma {:induction false} Affixes(p: string, a: string, b: string, q: string)
    requires p + a + q == p + b + q
    ensures a == b
  {
    var s, t := p + a + q, p + b + q;
    assert |a| == |b|;
    assert s[|p|..|p| + |a|] == a && t[|p|..|p| + |b|] == b;
  }

  function Prefix(operator: bool): string {
    (if operator then "operator" else "highscore") + "-"
  }

  lemma {:induction false} NameShape(operator: bool, key: string, seconds: int)
    ensures FileName(operator, key, seconds) == Prefix(operator) + (key + "-" + Itoa(seconds)) + ".pcap"
  {
    var p, i := Prefix(operator), Itoa(seconds);
    hide Itoa;
    ConcatAssociative(p, key + "-", i);
    ConcatAssociative(p, key, "-");
  }

  lemma {:induction false} PrefixesDiffer(operator: bool, operator': bool, a: string, b: string)
    requires Prefix(operator) + a + ".pcap" == Prefix(operator') + b + ".pcap"
    ensures operator == operator' && a == b
  {
    var p, q := Prefix(operator), Prefix(operator');
    assert p[0] == if operator then 'o' else 'h';
    assert q[0] == if operator' then 'o' else 'h';
    assert (p + a + ".pcap")[0] == p[0] && (q + b + ".pcap")[0] == q[0];
    Affixes(p, a, b, ".pcap");
  }

  lemma {:induction false} SameStems(key: string, seconds: int, key': string, seconds': int)
    requires key + "-" + Itoa(seconds) == key' + "-" + Itoa(seconds')
    ensures Stem(key, seconds) == Stem(key', seconds')
    ensures seconds == seconds' || seconds == -seconds'
  {
    StemPrints(key, seconds);
    StemPrints(key', seconds');
    hide Itoa, Stem, NatDigits;
    var n, n' := if seconds < 0 then -seconds else seconds, if seconds' < 0 then -seconds' else seconds';
    DigitsHaveNoDash(n);
    DigitsHaveNoDash(n');
    LastDashSplits(Stem(key, seconds), NatDigits(n), Stem(key', seconds'), NatDigits(n'));
    DigitsInjective(n, n');
  }

  lemma {:induction false} SameStemsCollide(key: string, seconds: int, key': string, seconds': int)
    requires Stem(key, seconds) == Stem(key', seconds') && (seconds == seconds' || seconds == -seconds')
    ensures Collide(true, key, seconds, true, key', seconds')
  {
    DropLast(key, '-');
    DropLast(key', '-');
  }

  lemma {:induction false} CollidePrintsSame(key: string, seconds: int, key': string, seconds': int)
    requires Collide(true, key, seconds, true, key', seconds')
    ensures key + "-" + Itoa(seconds) == key' + "-" + Itoa(seconds')
  {
    StemPrints(key, seconds);
    StemPrints(key', seconds');
    hide Itoa, NatDigits;
  }

  /** The same trigger, and the same key and second - or one key extended by a dash that is the other's sign. */
  predicate Collide(operator: bool, key: string, seconds: int, operator': bool, key': string, seconds': int) {
    && operator == operator'
    && (|| (key == key' && seconds == seconds')
        || (seconds < 0 && seconds' == -seconds && key' == key + "-")
        || (seconds' < 0 && seconds == -seconds' && key == key' + "-"))
  }

  /** Exactly when two file names are the same. */
  lemma {:induction false} NamesApart(
    operator: bool, key: string, seconds: int, operator': bool, key': string, seconds': int)
    ensures FileName(operator, key, seconds) == FileName(operator', key', seconds')
       <==> Collide(operator, key, seconds, operator', key', seconds')
  {
    NameShape(operator, key, seconds);
    NameShape(operator', key', seconds');
    var body, body' := key + "-" + Itoa(seconds), key' + "-" + Itoa(seconds');
    hide FileName, Prefix, Itoa, Stem;
    if FileName(operator, key, seconds) == FileName(operator', key', seconds') {
      PrefixesDiffer(operator, operator', body, body');
      SameStems(key, seconds, key', seconds');
      SameStemsCollide(key, seconds, key', seconds');
    } else if Collide(operator, key, seconds, operator', key', seconds') {
      CollidePrintsSame(key, seconds, key', seconds');
    }
  }

  // ---------- what the files hold ----------

  /** The file a key's requests go to: named by the request that first opened it. */
  function FileOf(cfg: Config, acts: seq<Act>, key: string): Option<string> {
    if Known(cfg, acts, key) then Some(NameFor(acts[FirstOpen(cfg, acts, key)].r)) else None
  }

  /** The packets of all requests that go to the file, in order, as far as they are kept. */
  function PacketsTo(cfg: Config, acts: seq<Act>, name: string): seq<Packet> {
    if acts == [] then []
    else
      var earlier, a := acts[..|acts| - 1], acts[|acts| - 1];
      if a.Capture? && Kept(cfg, earlier, a.r) && FileOf(cfg, acts, Key(a.r.ev.remoteIP)) == Some(name)
      then PacketsTo(cfg, earlier, name) + [PacketOf(cfg, a.r)] else PacketsTo(cfg, earlier, name)
  }

  /** A file some key was given holds what was there before and its packets; any other file is untouched. */
  ghost predicate FileRight(cfg: Config, dir: map<string, seq<byte>>, acts: seq<Act>, s: State, name: string) {
    var packets := PacketsTo(cfg, acts, name);
    if name in s.paths.Values
    then name in s.dir && s.dir[name] == AfterSession(Contents(dir, name), packets)
    else (name in s.dir <==> name in dir) && Contents(s.dir, name) == Contents(dir, name) && packets == []
  }

  ghost predicate DirRight(cfg: Config, dir: map<string, seq<byte>>, acts: seq<Act>, s: State) {
    forall name :: FileRight(cfg, dir, acts, s, name)
  }

  lemma {:induction false} SessionGrows(bytes: seq<byte>, packets: seq<Packet>, p: Packet)
    ensures AfterSession(bytes, packets + [p]) == AfterSession(bytes, packets) + RecordBytes(RecordOf(p.0, p.1))
  {
    hide RecordBytes, RecordOf, HeaderBytes;
    var all := packets + [p];
    DropLast(packets, p);
    BodyGrows(if bytes == [] then HeaderBytes() else bytes, all, |packets|);
    assert all[..|packets| + 1] == all;
  }

  lemma {:induction false} PacketsAfter(cfg: Config, acts: seq<Act>, a: Act, key: string)
    ensures PacketsFor(cfg, acts + [a], key) ==
      if a.Capture? && Key(a.r.ev.remoteIP) == key && Kept(cfg, acts, a.r)
      then PacketsFor(cfg, acts, key) + [PacketOf(cfg, a.r)] else PacketsFor(cfg, acts, key)
  {
    DropLast(acts, a);
    hide Key, Kept, PacketOf;
  }

  lemma {:induction false} PacketsToAfter(cfg: Config, acts: seq<Act>, a: Act, name: string)
    ensures PacketsTo(cfg, acts + [a], name) ==
      if a.Capture? && Kept(cfg, acts, a.r) && FileOf(cfg, acts + [a], Key(a.r.ev.remoteIP)) == Some(name)
      then PacketsTo(cfg, acts, name) + [PacketOf(cfg, a.r)] else PacketsTo(cfg, acts, name)
  {
    DropLast(acts, a);
    hide Key, Kept, PacketOf, FileOf;
  }

  /** A file once opened is not empty, so opening it again changes nothing. */
  lemma {:induction false} OpenedTwice(bytes: seq<byte>, packets: seq<Packet>)
    ensures AfterSession(AfterSession(bytes, packets), []) == AfterSession(bytes, packets)
  {
    var none: seq<Packet> := [];
    assert Body(none) == [];
    hide RecordBytes, RecordOf;
  }

  lemma {:induction false} OpenedIs(s: State, r: Request)
    requires Key(r.ev.remoteIP) !in s.paths
    ensures var s' := Prepared(s, r); var name := NameFor(r);
      && s'.paths.Values == s.paths.Values + {name}
      && name in s'.dir && s'.dir[name] == AfterSession(Contents(s.dir, name), [])
      && forall n :: n != name ==> (n in s'.dir <==> n in s.dir) && Contents(s'.dir, n) == Contents(s.dir, n)
  {
    var s', key, name := Prepared(s, r), Key(r.ev.remoteIP), NameFor(r);
    hide Key, NameFor, AfterSession;
    assert s'.paths[key] == name;
    forall k | k in s.paths
      ensures s'.paths[k] == s.paths[k]
    {
    }
    forall n | n in s.paths.Values
      ensures n in s'.paths.Values
    {
      var k :| k in s.paths && s.paths[k] == n;
      assert s'.paths[k] == n;
    }
  }

  lemma {:induction false} OpenKeeps(cfg: Config, dir: map<string, seq<byte>>, acts: seq<Act>, s: State, r: Request)
    requires DirRight(cfg, dir, acts, s) && Key(r.ev.remoteIP) !in s.paths
    ensures DirRight(cfg, dir, acts, Prepared(s, r))
  {
    var s', name := Prepared(s, r), NameFor(r);
    OpenedIs(s, r);
    hide Key, NameFor, AfterSession, PacketsTo, Prepared;
    forall n
      ensures FileRight(cfg, dir, acts, s', n)
    {
      assert FileRight(cfg, dir, acts, s, n);
      if n == name && n in s.paths.Values {
        OpenedTwice(Contents(dir, n), PacketsTo(cfg, acts, n));
      }
    }
  }

  lemma {:induction false} AppendKeeps(cfg: Config, dir: map<string, seq<byte>>, acts: seq<Act>, s: State, r: Request)
    requires DirRight(cfg, dir, acts, s) && Key(r.ev.remoteIP) in s.paths && Kept(cfg, acts, r)
    requires FileOf(cfg, acts + [Capture(r)], Key(r.ev.remoteIP)) == Some(s.paths[Key(r.ev.remoteIP)])
    ensures DirRight(cfg, dir, acts + [Capture(r)],
                     AppendStep(s, s.paths[Key(r.ev.remoteIP)], PacketOf(cfg, r)))
  {
    var key, p := Key(r.ev.remoteIP), PacketOf(cfg, r);
    var name := s.paths[key];
    var s' := AppendStep(s, name, p);
    hide Key, Kept, FileOf, PacketOf, AfterSession, PacketsTo, RecordBytes, RecordOf, AppendStep;
    assert name in s.paths.Values && FileRight(cfg, dir, acts, s, name);
    AppendedIs(s, name, p);
    forall n
      ensures FileRight(cfg, dir, acts + [Capture(r)], s', n)
    {
      PacketsToAfter(cfg, acts, Capture(r), n);
      assert FileRight(cfg, dir, acts, s, n);
      if n == name {
        SessionGrows(Contents(dir, name), PacketsTo(cfg, acts, n), p);
      }
    }
  }

  lemma {:induction false} AppendedIs(s: State, name: string, p: Packet)
    requires name in s.dir
    ensures var s' := AppendStep(s, name, p);
      && s'.paths == s.paths && s'.dir.Keys == s.dir.Keys
      && s'.dir[name] == s.dir[name] + RecordBytes(RecordOf(p.0, p.1))
      && forall n :: n in s.dir && n != name ==> s'.dir[n] == s.dir[n]
  {
    hide RecordBytes, RecordOf;
  }

  lemma {:induction false} RefusalKeeps(cfg: Config, dir: map<string, seq<byte>>, acts: seq<Act>, s: State, a: Act)
    requires DirRight(cfg, dir, acts, s)
    requires a.Capture? ==> !Kept(cfg, acts, a.r)
    ensures DirRight(cfg, dir, acts + [a], s)
  {
    hide Key, Kept, FileOf, PacketOf, AfterSession, PacketsTo;
    forall n
      ensures FileRight(cfg, dir, acts + [a], s, n)
    {
      PacketsToAfter(cfg, acts, a, n);
      assert FileRight(cfg, dir, acts, s, n);
    }
  }

  /** A request leaves the state alone, or opens the file, or opens it if need be and appends the packet. */
  lemma {:induction false} StepShape(cfg: Config, s: State, r: Request)
    ensures var (s', out) := CaptureStep(cfg, s, r); var s1 := Prepared(s, r); var key := Key(r.ev.remoteIP);
      && key in s1.paths
      && (out.Captured? ==> s' == AppendStep(s1, s1.paths[key], PacketOf(cfg, r)) && s'.paths == s1.paths)
      && (!out.Captured? ==> s' == s || s' == s1)
  {
    hide Key, NameFor, PacketOf, RecordBytes, RecordOf, AfterSession;
  }

  lemma {:induction false} CaptureKeeps(cfg: Config, dir: map<string, seq<byte>>, acts: seq<Act>, s: State, r: Request)
    requires DirRight(cfg, dir, acts, s)
    requires CaptureStep(cfg, s, r).1.Captured? <==> Kept(cfg, acts, r)
    requires KeysRight(cfg, acts + [Capture(r)], CaptureStep(cfg, s, r).0, Key(r.ev.remoteIP))
    ensures DirRight(cfg, dir, acts + [Capture(r)], CaptureStep(cfg, s, r).0)
  {
    var key, s1, s' := Key(r.ev.remoteIP), Prepared(s, r), CaptureStep(cfg, s, r).0;
    StepShape(cfg, s, r);
    hide CaptureStep, Key, Kept, NameFor, PacketOf, PacketsTo, DirRight, AppendStep, OpenStep, Shut, FirstOpen;
    if s' == s && !Kept(cfg, acts, r) {
      RefusalKeeps(cfg, dir, acts, s, Capture(r));
    } else {
      if key !in s.paths {
        OpenKeeps(cfg, dir, acts, s, r);
      }
      if Kept(cfg, acts, r) {
        AppendKeeps(cfg, dir, acts, s1, r);
      } else {
        RefusalKeeps(cfg, dir, acts, s1, Capture(r));
      }
    }
  }

  lemma {:induction false} DirStep(cfg: Config, dir: map<string, seq<byte>>, acts: seq<Act>, a: Act)
    requires DirRight(cfg, dir, acts, Run(cfg, dir, acts))
    ensures DirRight(cfg, dir, acts + [a], Run(cfg, dir, acts + [a]))
  {
    var s := Run(cfg, dir, acts);
    DropLast(acts, a);
    assert Run(cfg, dir, acts + [a]) == RunStep(cfg, s, a);
    hide Run, Key, Kept, DirRight, CaptureStep, KeysRight;
    if a.CloseAll? {
      RefusalKeeps(cfg, dir, acts, s, a);
      CloseKeeps(cfg, dir, acts + [a], s);
    } else {
      OutcomeExactly(cfg, dir, acts, a.r);
      KeysAre(cfg, dir, acts + [a], Key(a.r.ev.remoteIP));
      CaptureKeeps(cfg, dir, acts, s, a.r);
    }
  }

  lemma {:induction false} CloseKeeps(cfg: Config, dir: map<string, seq<byte>>, acts: seq<Act>, s: State)
    requires DirRight(cfg, dir, acts, s)
    ensures DirRight(cfg, dir, acts, s.(live := {}))
  {
    var s' := s.(live := {});
    hide AfterSession, PacketsTo;
    forall n
      ensures FileRight(cfg, dir, acts, s', n)
    {
      assert FileRight(cfg, dir, acts, s, n);
    }
  }

  /**
    Main result. After any run, however the requests of different addresses interleave and wherever I/O
    fails or the hook is closed: each file given to a key is what the directory held under that name, or a
    global header, followed by exactly the kept packets of the keys it was given to, in order; every other
    file is untouched.
   */
  lemma {:induction false} DirectoryHolds(cfg: Config, dir: map<string, seq<byte>>, acts: seq<Act>)
    ensures DirRight(cfg, dir, acts, Run(cfg, dir, acts))
  {
    if acts != [] {
      var earlier := acts[..|acts| - 1];
      DirectoryHolds(cfg, dir, earlier);
      SplitLast(acts);
      hide Run, DirRight;
      DirStep(cfg, dir, earlier, acts[|acts| - 1]);
    }
  }

  /** Two keys go to one file exactly when the names given by the requests that opened them collide. */
  lemma {:induction false} FilesApart(cfg: Config, acts: seq<Act>, k: string, l: string)
    requires Known(cfg, acts, k) && Known(cfg, acts, l)
    ensures var a, b := acts[FirstOpen(cfg, acts, k)].r, acts[FirstOpen(cfg, acts, l)].r;
      FileOf(cfg, acts, k) == FileOf(cfg, acts, l)
      <==> Collide(a.operator, k, Unix(StampOr(a.ev, a.opensAt)), b.operator, l, Unix(StampOr(b.ev, b.opensAt)))
  {
    var a, b := acts[FirstOpen(cfg, acts, k)].r, acts[FirstOpen(cfg, acts, l)].r;
    NamesApart(a.operator, k, Unix(StampOr(a.ev, a.opensAt)), b.operator, l, Unix(StampOr(b.ev, b.opensAt)));
    hide FileName, Collide, FirstOpen, Key;
  }

  lemma {:induction false} FileOfStays(cfg: Config, acts: seq<Act>, n: nat, key: string)
    requires n <= |acts| && Known(cfg, acts[..n], key)
    ensures FileOf(cfg, acts, key) == FileOf(cfg, acts[..n], key)
    decreases |acts|
  {
    if n < |acts| {
      var earlier := acts[..|acts| - 1];
      assert earlier[..n] == acts[..n];
      FileOfStays(cfg, earlier, n, key);
      SplitLast(acts);
      FirstOpenAfter(cfg, earlier, acts[|acts| - 1], key);
      hide FirstOpen, NameFor;
    } else {
      assert acts[..n] == acts;
    }
  }

  /** No other key of the run goes to the key's file. */
  ghost predicate Unshared(cfg: Config, acts: seq<Act>, key: string) {
    forall other :: other != key && Known(cfg, acts, other) ==> FileOf(cfg, acts, other) != FileOf(cfg, acts, key)
  }

  /** A kept request goes to the key's file exactly when it is the key's own. */
  lemma {:induction false} OwnRequest(cfg: Config, acts: seq<Act>, n: nat, key: string)
    requires n < |acts| && Unshared(cfg, acts, key)
    requires acts[n].Capture? && Kept(cfg, acts[..n], acts[n].r)
    ensures FileOf(cfg, acts[..n] + [acts[n]], Key(acts[n].r.ev.remoteIP)) == FileOf(cfg, acts, key)
            <==> Key(acts[n].r.ev.remoteIP) == key
  {
    hide *;
    var earlier, a := acts[..n], acts[n];
    var k := Key(a.r.ev.remoteIP);
    assert earlier + [a] == acts[..n + 1];
    KeptIsKnown(cfg, earlier, a);
    FileOfStays(cfg, acts, n + 1, k);
    KnownStays(cfg, acts, n + 1, k);
    UnsharedMeans(cfg, acts, key, k);
  }

  lemma {:induction false} UnsharedMeans(cfg: Config, acts: seq<Act>, key: string, other: string)
    requires Unshared(cfg, acts, key) && Known(cfg, acts, other)
    ensures other == key <==> FileOf(cfg, acts, other) == FileOf(cfg, acts, key)
  {
    hide FileOf, Known;
  }

  lemma {:induction false} OwnPacketsUpTo(cfg: Config, acts: seq<Act>, n: nat, key: string, name: string)
    requires n <= |acts| && FileOf(cfg, acts, key) == Some(name) && Unshared(cfg, acts, key)
    ensures PacketsTo(cfg, acts[..n], name) == PacketsFor(cfg, acts[..n], key)
  {
    hide PacketOf, PacketsTo, PacketsFor, Key, FileOf, Kept, Unshared;
    if n > 0 {
      var earlier, a := acts[..n - 1], acts[n - 1];
      OwnPacketsUpTo(cfg, acts, n - 1, key, name);
      assert acts[..n] == earlier + [a];
      PacketsToAfter(cfg, earlier, a, name);
      PacketsAfter(cfg, earlier, a, key);
      if a.Capture? && Kept(cfg, earlier, a.r) {
        OwnRequest(cfg, acts, n - 1, key);
      }
    } else {
      NoPackets(cfg, key, name);
      assert acts[..0] == [];
    }
  }

  lemma {:induction false} NoPackets(cfg: Config, key: string, name: string)
    ensures PacketsTo(cfg, [], name) == PacketsFor(cfg, [], key)
  {
  }

  lemma {:induction false} KeptIsKnown(cfg: Config, acts: seq<Act>, a: Act)
    requires a.Capture? && Kept(cfg, acts, a.r)
    ensures Known(cfg, acts + [a], Key(a.r.ev.remoteIP))
  {
    FirstOpenAfter(cfg, acts, a, Key(a.r.ev.remoteIP));
    hide Key, FirstOpen, Shut;
  }

  lemma {:induction false} KnownStays(cfg: Config, acts: seq<Act>, n: nat, key: string)
    requires n <= |acts| && Known(cfg, acts[..n], key)
    ensures Known(cfg, acts, key)
  {
    FileOfStays(cfg, acts, n, key);
    hide FirstOpen, NameFor;
  }

  /** A key that shares its file with no other finds exactly its own packets there. */
  lemma {:induction false} OwnPackets(cfg: Config, acts: seq<Act>, key: string)
    requires Known(cfg, acts, key) && Unshared(cfg, acts, key)
    ensures PacketsTo(cfg, acts, FileOf(cfg, acts, key).value) == PacketsFor(cfg, acts, key)
  {
    OwnPacketsUpTo(cfg, acts, |acts|, key, FileOf(cfg, acts, key).value);
    assert acts[..|acts|] == acts;
  }

  /** A file the directory did not hold before reads as one header and exactly the records of its packets. */
  lemma {:induction false} CapturesReadBack(cfg: Config, dir: map<string, seq<byte>>, acts: seq<Act>, name: string)
    requires name in Run(cfg, dir, acts).paths.Values && Contents(dir, name) == []
    ensures var s := Run(cfg, dir, acts);
      && name in s.dir
      && ReadFile(s.dir[name]) == Some((HEADER, Records(PacketsTo(cfg, acts, name))))
  {
    DirectoryHolds(cfg, dir, acts);
    var s, packets := Run(cfg, dir, acts), PacketsTo(cfg, acts, name);
    hide Run, PacketsTo, AfterSession, ReadFile, Records;
    assert FileRight(cfg, dir, acts, s, name);
    CaptureReadsBack([packets]);
    OneSession(packets);
  }

  lemma {:induction false} OneSession(packets: seq<Packet>)
    ensures AfterSessions([], [packets]) == AfterSession([], packets) && Flatten([packets]) == packets
  {
    var rest: seq<seq<Packet>> := [packets][1..];
    assert rest == [];
    assert Flatten(rest) == [];
    assert AfterSessions(AfterSession([], packets), rest) == AfterSession([], packets);
  }

  /** The acts that concern a key: its own requests and every close. */
  function Own(acts: seq<Act>, key: string): seq<Act> {
    if acts == [] then []
    else
      var earlier, a := acts[..|acts| - 1], acts[|acts| - 1];
      if a.Capture? && Key(a.r.ev.remoteIP) != key then Own(earlier, key) else Own(earlier, key) + [a]
  }

  /** Requests for other keys never matter to what a key's file receives. */
  lemma {:induction false} OthersIrrelevant(cfg: Config, acts: seq<Act>, key: string)
    ensures PacketsFor(cfg, Own(acts, key), key) == PacketsFor(cfg, acts, key)
    ensures Known(cfg, Own(acts, key), key) <==> Known(cfg, acts, key)
    ensures Shut(cfg, Own(acts, key), key) <==> Shut(cfg, acts, key)
  {
    if acts != [] {
      var earlier, a := acts[..|acts| - 1], acts[|acts| - 1];
      OthersIrrelevant(cfg, earlier, key);
      SplitLast(acts);
      FirstOpenAfter(cfg, earlier, a, key);
      ShutAfter(cfg, earlier, a, key);
      PacketsAfter(cfg, earlier, a, key);
      var own := Own(earlier, key);
      FirstOpenAfter(cfg, own, a, key);
      ShutAfter(cfg, own, a, key);
      PacketsAfter(cfg, own, a, key);
      hide Key, PacketsFor, PacketOf, FirstOpen, Shut, Known;
    }
  }

  // ---------- keys ----------

  predicate NoDoubleDot(s: string) {
    forall i :: 0 < i < |s| ==> s[i - 1] != '.' || s[i] != '.'
  }

  lemma {:induction false} ReplaceDotsClean(s: string)
    ensures var r := ReplaceDots(s);
      && NoDoubleDot(r)
      && (r != "" && r[0] == '.' ==> s[0] == '.')
      && forall c :: c in r ==> c in s || c == '_'
    decreases |s|
  {
    if |s| >= 2 {
      ReplaceDotsClean(if s[0] == '.' && s[1] == '.' then s[2..] else s[1..]);
    }
  }

  lemma {:induction false} ReplaceCharClean(s: string, c: char)
    requires c != '_'
    ensures c !in ReplaceChar(s, c, "_")
    ensures forall d :: d in ReplaceChar(s, c, "_") ==> d in s || d == '_'
  {
    if s != "" {
      ReplaceCharClean(s[1..], c);
    }
  }

  lemma {:induction false} KeyClean(ip: string)
    ensures '/' !in Key(ip) && ':' !in Key(ip) && NoDoubleDot(Key(ip))
  {
    var t := TrimSpace(ip);
    var u := ReplaceChar(t, ':', "_");
    var v := ReplaceChar(u, '/', "_");
    ReplaceCharClean(t, ':');
    ReplaceCharClean(u, '/');
    ReplaceDotsClean(v);
  }

  lemma {:induction false} SafeConcat(a: string, b: string)
    requires NoDoubleDot(a) && NoDoubleDot(b) && '/' !in a && '/' !in b
    requires a != "" && a[|a| - 1] != '.'
    ensures NoDoubleDot(a + b) && '/' !in a + b
  {
    var s := a + b;
    forall i | 0 < i < |s|
      ensures s[i - 1] != '.' || s[i] != '.'
    {
      assert i < |a| ==> s[i - 1] == a[i - 1] && s[i] == a[i];
      assert i > |a| ==> s[i - 1] == b[i - |a| - 1] && s[i] == b[i - |a|];
    }
  }

  lemma {:induction false} ItoaPlain(n: int)
    ensures var s := Itoa(n); s != "" && s[|s| - 1] != '.' && NoDoubleDot(s) && '/' !in s
  {
    NatDigitsPlain(if n < 0 then -n else n);
    var s := Itoa(n);
    assert '.' !in s && '/' !in s;
    assert forall i :: 0 <= i < |s| ==> s[i] in s;
  }

  lemma {:induction false} NatDigitsPlain(n: nat)
    ensures NatDigits(n) != "" && forall c :: c in NatDigits(n) ==> '0' <= c <= '9'
  {
    if n >= 10 {
      NatDigitsPlain(n / 10);
    }
  }

  /** Whatever the remote address says, the file is directly in the capture directory. */
  lemma {:induction false} NameStaysInDirectory(r: Request)
    ensures '/' !in NameFor(r) && NoDoubleDot(NameFor(r))
  {
    var prefix, key := (if r.operator then "operator" else "highscore") + "-", Key(r.ev.remoteIP);
    var number := Itoa(Unix(StampOr(r.ev, r.opensAt)));
    KeyClean(r.ev.remoteIP);
    ItoaPlain(Unix(StampOr(r.ev, r.opensAt)));
    hide Itoa, Key, StampOr;
    SafeConcat(prefix, key);
    DashAfter(prefix + key);
    SafeConcat(prefix + key + "-", number);
    assert (prefix + key + "-" + number)[|prefix + key + "-" + number| - 1] == number[|number| - 1];
    SafeConcat(prefix + key + "-" + number, ".pcap");
  }

  lemma {:induction false} DashAfter(s: string)
    requires NoDoubleDot(s) && '/' !in s
    ensures var t := s + "-"; NoDoubleDot(t) && '/' !in t && t[|t| - 1] != '.'
  {
  }

  /** An address in the usual IPv4 or IPv6 notation. */
  predicate Address(ip: string) {
    ip != "" && NoSpace(ip) && '_' !in ip && '/' !in ip && NoDoubleDot(ip)
  }

  lemma {:induction false} TrimNothing(s: string)
    requires NoSpace(s)
    ensures TrimSpace(s) == s
  {
    if s != "" {
      assert !IsSpace(s[0]) && !IsSpace(s[|s| - 1]);
    }
  }

  lemma {:induction false} ReplaceCharAt(s: string, c: char, i: nat)
    requires i < |s|
    ensures var r := ReplaceChar(s, c, "_"); |r| == |s| && r[i] == if s[i] == c then '_' else s[i]
  {
    assert |s| == 1 ==> ReplaceChar(s[1..], c, "_") == "";
    if |s| > 1 {
      ReplaceCharAt(s[1..], c, if i == 0 then 0 else i - 1);
    }
  }

  lemma {:induction false} ReplaceCharAbsent(s: string, c: char)
    requires c !in s
    ensures ReplaceChar(s, c, "_") == s
  {
    if s != "" {
      ReplaceCharAbsent(s[1..], c);
    }
  }

  lemma {:induction false} ReplaceDotsNothing(s: string)
    requires NoDoubleDot(s)
    ensures ReplaceDots(s) == s
    decreases |s|
  {
    if |s| >= 2 {
      assert NoDoubleDot(s[1..]);
      assert s[0] != '.' || s[1] != '.';
      ReplaceDotsNothing(s[1..]);
    }
  }

  lemma {:induction false} AddressKey(ip: string)
    requires Address(ip)
    ensures Key(ip) == ReplaceChar(ip, ':', "_") && |Key(ip)| == |ip|
    ensures forall i :: 0 <= i < |ip| ==> Key(ip)[i] == if ip[i] == ':' then '_' else ip[i]
  {
    var u := ReplaceChar(ip, ':', "_");
    ReplaceCharAt(ip, ':', 0);
    forall i | 0 <= i < |ip|
      ensures u[i] == if ip[i] == ':' then '_' else ip[i]
    {
      ReplaceCharAt(ip, ':', i);
    }
    TrimNothing(ip);
    ReplaceCharAbsent(u, '/');
    ReplaceDotsNothing(u);
  }

  /** Different IPv4 or IPv6 addresses never share a key, hence never a file. */
  lemma {:induction false} AddressesApart(a: string, b: string)
    requires Address(a) && Address(b)
    ensures Key(a) == Key(b) <==> a == b
  {
    AddressKey(a);
    AddressKey(b);
    hide Key, ReplaceChar;
    if Key(a) == Key(b) {
      forall i | 0 <= i < |a|
        ensures a[i] == b[i]
      {
        assert Key(a)[i] == Key(b)[i];
      }
    }
  }

  // ---------- the gate and the names, by value ----------

  /** The operator's request is never held back by the score; an event's own is, exactly below the threshold. */
  lemma {:induction false} GateExactly(cfg: Config, s: State, r: Request)
    ensures CaptureStep(cfg, s, r).1.BelowThreshold? <==> !r.operator && r.ev.threatScore < cfg.threshold
    ensures CaptureStep(cfg, s, r).1.BelowThreshold? ==> CaptureStep(cfg, s, r).0 == s
  {
    hide Key, NameFor, AppendStep, OpenStep, PacketOf;
  }

  /** Automatic captures and the operator's are told apart by the name, which ends with the second and .pcap. */
  lemma {:induction false} NameForm(r: Request)
    ensures var front := if r.operator then "operator-" else "highscore-";
      var second := Unix(if r.ev.timestamp == ZERO_TIME then r.opensAt else r.ev.timestamp);
      NameFor(r) == front + Key(r.ev.remoteIP) + "-" + Itoa(second) + ".pcap"
  {
    assert "operator" + "-" == "operator-" && "highscore" + "-" == "highscore-";
    hide Key, Itoa;
  }

  /** The key of an address is the address with its colons replaced; an empty one is called unknown. */
  lemma {:induction false} KeyForm(ip: string)
    requires Address(ip)
    ensures |Key(ip)| == |ip| && forall i :: 0 <= i < |ip| ==> Key(ip)[i] == if ip[i] == ':' then '_' else ip[i]
    ensures Key("") == "unknown"
  {
    AddressKey(ip);
    assert TrimSpace("") == "";
    hide ReplaceDots, ReplaceChar;
    NothingReplaced();
  }

  lemma {:induction false} NothingReplaced()
    ensures ReplaceDots(ReplaceChar(ReplaceChar("", ':', "_"), '/', "_")) == ""
  {
  }
}
