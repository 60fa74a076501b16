// On-demand forensic captures: events over a score threshold, or picked by the operator, are written
// to one capture file per attacker.
module OnDemand {
  import opened Basics
  import opened Events
  import opened Text
  import opened Pcap

  const DEFAULT_THRESHOLD := 80

  // ---------- file names ----------

  /** strings.ReplaceAll(s, "..", "_"). */
  function ReplaceDots(s: string): string
    decreases |s|
  {
    if |s| < 2 then s
    else if s[0] == '.' && s[1] == '.' then "_" + ReplaceDots(s[2..])
    else [s[0]] + ReplaceDots(s[1..])
  }

  function SanitizeIP(ip: string): string {
    ReplaceDots(ReplaceChar(ReplaceChar(TrimSpace(ip), ':', "_"), '/', "_"))
  }

  function Key(ip: string): string {
    var key := SanitizeIP(ip);
    if key == "" then "unknown" else key
  }

  function FileName(operator: bool, key: string, seconds: int): string {
    (if operator then "operator" else "highscore") + "-" + key + "-" + Itoa(seconds) + ".pcap"
  }

  // ---------- one request, on values ----------

  /** What the outside world does during one request. A failing open or write leaves the file as it was. */
  datatype Fault = Nothing | MkdirFails | OpenFails | WriteFails

  /** MaybeCapture, or CaptureNow when the operator asks; the clock is read only for a zero timestamp. */
  datatype Request = Request(ev: Event, operator: bool, opensAt: Time, writesAt: Time, fault: Fault)

  datatype Outcome = BelowThreshold | Captured(path: string) | Failed | NilDereference

  datatype Config = Config(threshold: int, payload: (Event, bool) -> seq<byte>)

  /** The keys with an open file, the file of each key ever opened, and the capture directory. */
  datatype State = State(live: set<string>, paths: map<string, string>, dir: map<string, seq<byte>>)

  predicate Passes(cfg: Config, r: Request) {
    r.operator || r.ev.threatScore >= cfg.threshold
  }

  function StampOr(ev: Event, now: Time): Time {
    if ev.timestamp == ZERO_TIME then now else ev.timestamp
  }

  function NameFor(r: Request): string {
    FileName(r.operator, Key(r.ev.remoteIP), Unix(StampOr(r.ev, r.opensAt)))
  }

  function PacketOf(cfg: Config, r: Request): Packet {
    (StampOr(r.ev, r.writesAt), cfg.payload(r.ev, r.operator))
  }

  function Contents(dir: map<string, seq<byte>>, name: string): seq<byte> {
    if name in dir then dir[name] else []
  }

  function OpenStep(s: State, key: string, name: string): State {
    State(s.live + {key}, s.paths[key := name], s.dir[name := AfterSession(Contents(s.dir, name), [])])
  }

  function AppendStep(s: State, name: string, p: Packet): State {
    s.(dir := s.dir[name := Contents(s.dir, name) + RecordBytes(RecordOf(p.0, p.1))])
  }

  /** The state with a file for the key of r, unless opening it fails. */
  function Prepared(s: State, r: Request): State {
    if Key(r.ev.remoteIP) in s.paths then s else OpenStep(s, Key(r.ev.remoteIP), NameFor(r))
  }

  /** With the file open, the packet is appended. */
  function Finish(cfg: Config, s: State, r: Request): (State, Outcome)
    requires Key(r.ev.remoteIP) in s.paths
  {
    var name := s.paths[Key(r.ev.remoteIP)];
    if r.fault.WriteFails? then (s, Failed) else (AppendStep(s, name, PacketOf(cfg, r)), Captured(name))
  }

  function WriteStep(cfg: Config, s: State, r: Request): (State, Outcome) {
    var key := Key(r.ev.remoteIP);
    if r.fault.MkdirFails? then (s, Failed)
    else if key !in s.paths && r.fault.OpenFails? then (s, Failed)
    else if key in s.paths && key !in s.live then (s, NilDereference)
    else Finish(cfg, Prepared(s, r), r)
  }

  function CaptureStep(cfg: Config, s: State, r: Request): (State, Outcome) {
    if Passes(cfg, r) then WriteStep(cfg, s, r) else (s, BelowThreshold)
  }

  lemma {:induction false} OpenStepIs(s: State, key: string, name: string, s': State)
    requires s'.live == s.live + {key} && s'.paths == s.paths[key := name]
    requires s'.dir == s.dir[name := AfterSession(Contents(s.dir, name), [])]
    ensures s' == OpenStep(s, key, name)
  {
    hide AfterSession, Contents;
  }

  lemma {:induction false} JustOpened(bytes: seq<byte>)
    ensures AfterSession(bytes, []) == if bytes == [] then HeaderBytes() else bytes
  {
    hide HeaderBytes;
  }

  // ---------- the capture hook ----------

  /** The capture directory; each file knows its name, so no two names share a file. */
  class Directory {
    var files: map<string, File>

    ghost predicate Valid()
      reads this, files.Values
    {
      forall name :: name in files ==> files[name].name == name
    }

    ghost function View(): map<string, seq<byte>>
      reads this, files.Values
    {
      map name | name in files :: files[name].bytes
    }

    constructor ()
      ensures Valid() && View() == map[]
    {
      files := map[];
    }

    /** OpenCapture: created if missing, with a global header if empty. */
    method OpenCapture(name: string) returns (cf: CaptureFile)
      requires Valid()
      modifies this, files.Values
      ensures Valid() && fresh(files.Values - old(files.Values)) && fresh(cf)
      ensures name in files && cf.file == files[name]
      ensures forall n :: n in old(files) ==> n in files && files[n] == old(files[n])
      ensures View() == old(View())[name := AfterSession(Contents(old(View()), name), [])]
    {
      hide HeaderBytes, AfterSession;
      ghost var before := View();
      if name !in files {
        var f := new File(name);
        files := files[name := f];
      }
      ghost var was := files[name].bytes;
      assert was == Contents(before, name);
      cf := new CaptureFile.Open(files[name]);
      JustOpened(was);
    }
  }

  /** Every open file is the one that the key's path names. */
  ghost predicate Filed(files: map<string, File>, live: map<string, CaptureFile>, paths: map<string, string>) {
    && live.Keys <= paths.Keys
    && forall key :: key in live ==> paths[key] in files && live[key].file == files[paths[key]]
  }

  lemma {:induction false} FiledOneMore(
    files: map<string, File>, files': map<string, File>, live: map<string, CaptureFile>, paths: map<string, string>,
    key: string, name: string, cf: CaptureFile)
    requires Filed(files, live, paths) && key !in paths
    requires forall n :: n in files ==> n in files' && files'[n] == files[n]
    requires name in files' && cf.file == files'[name]
    ensures Filed(files', live[key := cf], paths[key := name])
  {
    var live', paths' := live[key := cf], paths[key := name];
    forall k | k in live'
      ensures paths'[k] in files' && live'[k].file == files'[paths'[k]]
    {
      if k != key {
        assert k in live && live'[k] == live[k] && paths'[k] == paths[k];
      }
    }
  }

  class OnDemandCapture {
    const cfg: Config
    const dir: Directory
    var live: map<string, CaptureFile>
    var paths: map<string, string>

    /** A key's open file is the one its path names. */
    ghost predicate Valid()
      reads this, dir, dir.files.Values
    {
      dir.Valid() && Filed(dir.files, live, paths)
    }

    ghost function View(): State
      reads this, dir, dir.files.Values
    {
      State(live.Keys, paths, dir.View())
    }

    constructor (threshold: int, payload: (Event, bool) -> seq<byte>, dir: Directory)
      requires dir.Valid()
      ensures Valid() && this.dir == dir && View() == State({}, map[], dir.View())
      ensures cfg == Config(if threshold <= 0 then 80 else threshold, payload)
    {
      cfg := Config(if threshold <= 0 then DEFAULT_THRESHOLD else threshold, payload);
      this.dir := dir;
      live, paths := map[], map[];
    }

    method Append(key: string, t: Time, data: seq<byte>)
      requires Valid() && key in live
      modifies live[key].file
      ensures Valid() && View() == AppendStep(old(View()), paths[key], (t, data))
    {
      ghost var before := View();
      hide RecordBytes, RecordOf;
      live[key].WritePacket(t, data);
      assert dir.View() == AppendStep(before, paths[key], (t, data)).dir;
    }

    method Open(key: string, name: string)
      requires Valid() && key !in paths
      modifies this, dir, dir.files.Values
      ensures Valid() && fresh(dir.files.Values - old(dir.files.Values))
      ensures key in live && View() == OpenStep(old(View()), key, name)
    {
      hide AfterSession, Contents, OpenStep, Directory.View, Directory.Valid, Filed;
      ghost var before, files := View(), dir.files;
      var cf := dir.OpenCapture(name);
      FiledOneMore(files, dir.files, live, paths, key, name, cf);
      live, paths := live[key := cf], paths[key := name];
      assert live.Keys == before.live + {key};
      OpenStepIs(before, key, name, View());
    }

    /** The first half of writeLocked: the key's file, opened if it is the first time. */
    method Prepare(r: Request, key: string) returns (stop: Option<Outcome>)
      requires Valid() && key == Key(r.ev.remoteIP)
      modifies this, dir, dir.files.Values
      ensures Valid() && fresh(dir.files.Values - old(dir.files.Values))
      ensures stop.Some? ==> View() == old(View()) && WriteStep(cfg, View(), r) == (View(), stop.value)
      ensures stop.None? ==>
        View() == Prepared(old(View()), r) && key in live && WriteStep(cfg, old(View()), r) == Finish(cfg, View(), r)
    {
      hide OpenStep, AppendStep, FileName, Key;
      if r.fault.MkdirFails? {
        return Some(Failed);
      }
      if key !in paths {
        if r.fault.OpenFails? {
          return Some(Failed);
        }
        var stamp := if r.ev.timestamp == ZERO_TIME then r.opensAt else r.ev.timestamp;
        Open(key, FileName(r.operator, key, Unix(stamp)));
      } else if key !in live {
        return Some(NilDereference);
      }
      stop := None;
    }

    /** writeLocked. */
    method WriteEvent(r: Request) returns (out: Outcome)
      requires Valid()
      modifies this, dir, dir.files.Values
      ensures Valid() && fresh(dir.files.Values - old(dir.files.Values))
      ensures (View(), out) == WriteStep(cfg, old(View()), r)
    {
      var key := SanitizeIP(r.ev.remoteIP);
      if key == "" {
        key := "unknown";
      }
      assert key == Key(r.ev.remoteIP);
      hide WriteStep, Prepared, AppendStep, Key, SanitizeIP;
      var stop := Prepare(r, key);
      if stop.Some? {
        return stop.value;
      }
      if r.fault.WriteFails? {
        return Failed;
      }
      var stamp := if r.ev.timestamp == ZERO_TIME then r.writesAt else r.ev.timestamp;
      Append(key, stamp, cfg.payload(r.ev, r.operator));
      out := Captured(paths[key]);
    }

    method MaybeCapture(r: Request) returns (out: Outcome)
      requires Valid() && !r.operator
      modifies this, dir, dir.files.Values
      ensures Valid() && fresh(dir.files.Values - old(dir.files.Values))
      ensures (View(), out) == CaptureStep(cfg, old(View()), r)
    {
      hide WriteStep;
      if r.ev.threatScore < cfg.threshold {
        return BelowThreshold;
      }
      out := WriteEvent(r);
    }

    method CaptureNow(r: Request) returns (out: Outcome)
      requires Valid() && r.operator
      modifies this, dir, dir.files.Values
      ensures Valid() && fresh(dir.files.Values - old(dir.files.Values))
      ensures (View(), out) == CaptureStep(cfg, old(View()), r)
    {
      hide WriteStep;
      out := WriteEvent(r);
    }

    /** Every open file is closed whatever errors occur, and one of them is reported. The paths stay. */
    method Close(failing: set<string>) returns (failed: bool)
      requires Valid()
      modifies this`live
      ensures Valid() && View() == old(View()).(live := {})
      ensures failed <==> exists key :: key in old(live) && key in failing
    {
      failed := false;
      var keys := live.Keys;
      while keys != {}
        invariant keys == live.Keys <= old(live).Keys
        invariant forall key :: key in live ==> live[key] == old(live)[key]
        invariant failed <==> exists key :: key in old(live) && key !in live && key in failing
        decreases |keys|
      {
        var key :| key in keys;
        ghost var left := keys - {key};
        failed := failed || key in failing;
        live := live - {key};
        assert live.Keys == left;
        keys := keys - {key};
      }
    }
  }
}
