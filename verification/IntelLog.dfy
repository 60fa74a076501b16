// The append-only event log and the incremental score index beside it.
module IntelLog {
  import opened Basics
  import opened Events
  import opened Lists
  import opened Text

  /** The JSON codec for events, as a pair of functions. */
  datatype Codec = Codec(encode: Event -> string, decode: string -> Option<Event>)

  /** What encoding/json gives for events whose strings are valid UTF-8. */
  ghost predicate Lossless(c: Codec) {
    forall ev :: c.decode(c.encode(ev)) == Some(ev) && c.encode(ev) != "" && '\n' !in c.encode(ev)
  }

  // ---------- splitting the log into lines ----------

  /** Newline-terminated lines; a last line without its newline counts if it is not empty. */
  function Lines(s: string): seq<string> {
    var parts := Split(s, '\n');
    var last := |parts| - 1;
    if parts[last] == "" then parts[..last] else parts
  }

  /** How the pieces of a split grow by one more character. */
  function Grow(parts: seq<string>, c: char): (r: seq<string>)
    requires |parts| >= 1
    ensures |r| >= 1
  {
    var last := |parts| - 1;
    if c == '\n' then parts + [""] else parts[..last] + [parts[last] + [c]]
  }

  lemma {:induction false} GrowAfter(first: string, rest: seq<string>, c: char)
    requires |rest| >= 1
    ensures Grow([first] + rest, c) == [first] + Grow(rest, c)
  {
  }

  lemma {:induction false} GrowAfterAll(res: seq<string>, cur: string, c: char)
    ensures Grow(res + [cur], c) == if c == '\n' then res + [cur] + [""] else res + [cur + [c]]
  {
  }

  lemma {:induction false} GrowUnder(x: string, rest: seq<string>, c: char)
    requires |rest| >= 1
    ensures Grow([x + rest[0]] + rest[1..], c) == [x + Grow(rest, c)[0]] + Grow(rest, c)[1..]
  {
    if |rest| == 1 && c != '\n' {
      assert x + rest[0] + [c] == x + (rest[0] + [c]);
    }
  }

  lemma {:induction false} SplitAppend(s: string, c: char)
    ensures Split(s + [c], '\n') == Grow(Split(s, '\n'), c)
  {
    if s == "" {
      assert s + [c] == [c] && [c][1..] == "";
      assert "" + [c] == [c] == [c] + "";
      assert Split([c], '\n') == if c == '\n' then ["", ""] else [[c]];
    } else {
      SplitAppend(s[1..], c);
      assert (s + [c])[1..] == s[1..] + [c];
      var rest := Split(s[1..], '\n');
      GrowAfter("", rest, c);
      GrowUnder([s[0]], rest, c);
      hide Grow;
    }
  }

  lemma {:induction false} SplitNothing()
    ensures Split("", '\n') == [""]
  {
  }

  method SplitLines(s: string) returns (res: seq<string>)
    ensures res == Lines(s)
  {
    hide Split;
    res := [];
    var cur := "";
    assert s[..0] == "" && [] + [""] == [""];
    SplitNothing();
    for i := 0 to |s|
      invariant Split(s[..i], '\n') == res + [cur]
    {
      SplitAppend(s[..i], s[i]);
      GrowAfterAll(res, cur, s[i]);
      assert s[..i + 1] == s[..i] + [s[i]];
      if s[i] == '\n' {
        res := res + [cur];
        cur := "";
      } else {
        cur := cur + [s[i]];
      }
    }
    assert s[..|s|] == s;
    if |cur| > 0 {
      res := res + [cur];
    }
  }

  /** The events that the non-empty lines decode to; undecodable lines are skipped. */
  function Decoded(c: Codec, lines: seq<string>): seq<Event> {
    if lines == [] then []
    else
      var earlier, line := Decoded(c, lines[..|lines| - 1]), lines[|lines| - 1];
      if line == "" || c.decode(line).None? then earlier else earlier + [c.decode(line).value]
  }

  lemma {:induction false} NothingDecoded(c: Codec, lines: seq<string>)
    ensures Decoded(c, lines[..0]) == []
  {
  }

  lemma {:induction false} DecodedStep(c: Codec, lines: seq<string>, i: nat)
    requires i < |lines|
    ensures var earlier, line := Decoded(c, lines[..i]), lines[i];
      Decoded(c, lines[..i + 1]) ==
      if line == "" || c.decode(line).None? then earlier else earlier + [c.decode(line).value]
  {
    assert lines[..i + 1][..i] == lines[..i];
  }

  function LastOf(evs: seq<Event>, limit: int): seq<Event> {
    if limit > 0 && |evs| > limit then evs[|evs| - limit..] else evs
  }

  /** What the log file reads back as. */
  function Logged(c: Codec, log: string): seq<Event> {
    Decoded(c, Lines(log))
  }

  function LogText(c: Codec, evs: seq<Event>): string {
    if evs == [] then "" else LogText(c, evs[..|evs| - 1]) + c.encode(evs[|evs| - 1]) + "\n"
  }

  // ---------- the engine ----------

  type Blocklist = map<string, int>

  function ScoreOf(b: Blocklist, ip: string): int {
    if ip in b then b[ip] else 0
  }

  function AddScore(b: Blocklist, ev: Event): Blocklist {
    b[ev.remoteIP := ScoreOf(b, ev.remoteIP) + ev.threatScore]
  }

  class Engine {
    const codec: Codec
    var blocklist: Blocklist
    var log: string

    constructor (codec: Codec, log: string)
      ensures this.codec == codec && this.log == log && blocklist == map[]
    {
      this.codec, this.log, blocklist := codec, log, map[];
    }

    /** The index is updated first; fault says that marshalling or opening the log file then fails. */
    method Persist(ev: Event, fault: bool) returns (ok: bool)
      modifies this
      ensures ok == !fault
      ensures blocklist == AddScore(old(blocklist), ev)
      ensures log == if fault then old(log) else old(log) + codec.encode(ev) + "\n"
    {
      var score := if ev.remoteIP in blocklist then blocklist[ev.remoteIP] else 0;
      blocklist := blocklist[ev.remoteIP := score + ev.threatScore];
      if fault {
        return false;
      }
      log := log + codec.encode(ev) + "\n";
      ok := true;
    }

    /** The addresses whose score reaches threshold, each once, in no particular order. */
    method MaliciousIPs(threshold: int) returns (malicious: seq<string>)
      ensures Distinct(malicious)
      ensures forall ip :: ip in malicious <==> ip in blocklist && blocklist[ip] >= threshold
    {
      malicious := [];
      var todo := blocklist.Keys;
      while todo != {}
        invariant todo <= blocklist.Keys && Distinct(malicious)
        invariant forall ip :: ip in malicious <==> ip in blocklist.Keys - todo && blocklist[ip] >= threshold
        decreases |todo|
      {
        var ip :| ip in todo;
        if blocklist[ip] >= threshold {
          malicious := malicious + [ip];
        }
        todo := todo - {ip};
      }
    }

    method RecentEvents(limit: int) returns (events: seq<Event>)
      ensures events == LastOf(Logged(codec, log), limit)
    {
      hide Decoded, Lines;
      events := [];
      var lines := SplitLines(log);
      NothingDecoded(codec, lines);
      for i := 0 to |lines|
        invariant events == Decoded(codec, lines[..i])
      {
        DecodedStep(codec, lines, i);
        if lines[i] != "" {
          var ev := codec.decode(lines[i]);
          if ev.Some? {
            events := events + [ev.value];
          }
        }
      }
      assert lines[..|lines|] == lines;
      if limit > 0 && |events| > limit {
        events := events[|events| - limit..];
      }
    }
  }

  // ---------- the log reads back ----------

  function Encodings(c: Codec, evs: seq<Event>): seq<string> {
    seq(|evs|, i requires 0 <= i < |evs| => c.encode(evs[i]))
  }

  lemma {:induction false} SplitWord(res: seq<string>, s: string, w: string)
    requires '\n' !in w && Split(s, '\n') == res + [""]
    ensures Split(s + w, '\n') == res + [w]
  {
    hide Split;
    if w == "" {
      assert s + w == s;
    } else {
      var init, c := w[..|w| - 1], w[|w| - 1];
      SplitWord(res, s, init);
      SplitAppend(s + init, c);
      GrowAfterAll(res, init, c);
      assert s + w == s + init + [c] && w == init + [c];
    }
  }

  lemma {:induction false} LinesOfLog(c: Codec, evs: seq<Event>)
    requires Lossless(c)
    ensures Split(LogText(c, evs), '\n') == Encodings(c, evs) + [""]
  {
    if evs == [] {
      assert Encodings(c, evs) == [];
    } else {
      var init, ev := evs[..|evs| - 1], evs[|evs| - 1];
      LinesOfLog(c, init);
      var text, word := LogText(c, init), c.encode(ev);
      SplitWord(Encodings(c, init), text, word);
      SplitAppend(text + word, '\n');
      GrowAfterAll(Encodings(c, init), word, '\n');
      assert Encodings(c, evs) == Encodings(c, init) + [word];
    }
  }

  lemma {:induction false} DecodedEncodings(c: Codec, evs: seq<Event>)
    requires Lossless(c)
    ensures Decoded(c, Encodings(c, evs)) == evs
  {
    var lines := Encodings(c, evs);
    if evs != [] {
      var init := evs[..|evs| - 1];
      DecodedEncodings(c, init);
      assert lines[..|lines| - 1] == Encodings(c, init);
      SplitLast(evs);
    }
  }

  /** Splitting and decoding the log inverts appending to it. */
  lemma {:induction false} LogReadsBack(c: Codec, evs: seq<Event>)
    requires Lossless(c)
    ensures Logged(c, LogText(c, evs)) == evs
  {
    LinesOfLog(c, evs);
    DecodedEncodings(c, evs);
    var parts := Encodings(c, evs) + [""];
    assert parts[..|parts| - 1] == Encodings(c, evs);
  }

  // ---------- the index agrees with the log ----------

  /** One Persist call and whether the write failed. */
  datatype Call = Call(ev: Event, fault: bool)

  function IndexAfter(calls: seq<Call>): Blocklist {
    if calls == [] then map[] else AddScore(IndexAfter(calls[..|calls| - 1]), calls[|calls| - 1].ev)
  }

  /** The events of the calls whose outcome is `fault`. */
  function Outcomes(calls: seq<Call>, fault: bool): seq<Event> {
    if calls == [] then []
    else
      var earlier, last := Outcomes(calls[..|calls| - 1], fault), calls[|calls| - 1];
      if last.fault == fault then earlier + [last.ev] else earlier
  }

  function LogAfter(c: Codec, calls: seq<Call>): string {
    if calls == [] then ""
    else
      var earlier, last := LogAfter(c, calls[..|calls| - 1]), calls[|calls| - 1];
      if last.fault then earlier else earlier + c.encode(last.ev) + "\n"
  }

  /** The summed scores of one address. */
  function Total(evs: seq<Event>, ip: string): int {
    if evs == [] then 0
    else Total(evs[..|evs| - 1], ip) + (if evs[|evs| - 1].remoteIP == ip then evs[|evs| - 1].threatScore else 0)
  }

  lemma {:induction false} LogIsSuccesses(c: Codec, calls: seq<Call>)
    ensures LogAfter(c, calls) == LogText(c, Outcomes(calls, false))
  {
    if calls != [] {
      LogIsSuccesses(c, calls[..|calls| - 1]);
      var earlier, last := Outcomes(calls[..|calls| - 1], false), calls[|calls| - 1];
      assert (earlier + [last.ev])[..|earlier|] == earlier;
    }
  }

  lemma {:induction false} TotalAppend(evs: seq<Event>, ev: Event, ip: string)
    ensures Total(evs + [ev], ip) == Total(evs, ip) + (if ev.remoteIP == ip then ev.threatScore else 0)
  {
    assert (evs + [ev])[..|evs|] == evs;
  }

  ghost predicate Called(calls: seq<Call>, ip: string) {
    exists i :: 0 <= i < |calls| && calls[i].ev.remoteIP == ip
  }

  lemma {:induction false} CalledAppend(calls: seq<Call>, c: Call, ip: string)
    ensures Called(calls + [c], ip) <==> Called(calls, ip) || c.ev.remoteIP == ip
  {
    var all := calls + [c];
    assert forall i :: 0 <= i < |calls| ==> all[i] == calls[i];
    assert all[|calls|] == c;
  }

  lemma {:induction false} IndexCountsEveryCall(calls: seq<Call>, ip: string)
    ensures ScoreOf(IndexAfter(calls), ip) == Total(Outcomes(calls, false), ip) + Total(Outcomes(calls, true), ip)
    ensures ip in IndexAfter(calls) <==> Called(calls, ip)
  {
    if calls != [] {
      var init, last := calls[..|calls| - 1], calls[|calls| - 1];
      SplitLast(calls);
      IndexCountsEveryCall(init, ip);
      TotalAppend(Outcomes(init, last.fault), last.ev, ip);
      CalledAppend(init, last, ip);
      hide Called, Total;
    }
  }

  /**
    Main result. From an empty log, an address's index entry exceeds the sum of its scores in the log by
    exactly the scores of its events that failed to be written: index and log agree on the address if
    and only if those sum to zero, in particular when no write failed.
   */
  lemma {:induction false} IndexAgreesWithLog(c: Codec, calls: seq<Call>, ip: string)
    requires Lossless(c)
    ensures var logged := LastOf(Logged(c, LogAfter(c, calls)), 0);
      ScoreOf(IndexAfter(calls), ip) == Total(logged, ip) + Total(Outcomes(calls, true), ip)
  {
    LogIsSuccesses(c, calls);
    LogReadsBack(c, Outcomes(calls, false));
    IndexCountsEveryCall(calls, ip);
  }

  /** MaliciousIPs(t) holds exactly the addresses seen whose scores, logged and failed, reach t. */
  lemma {:induction false} MaliciousRecomputed(c: Codec, calls: seq<Call>, threshold: int, ip: string)
    requires Lossless(c)
    ensures var index := IndexAfter(calls); var logged := LastOf(Logged(c, LogAfter(c, calls)), 0);
      ip in index && index[ip] >= threshold
      <==> Called(calls, ip) && Total(logged, ip) + Total(Outcomes(calls, true), ip) >= threshold
  {
    IndexAgreesWithLog(c, calls, ip);
    IndexCountsEveryCall(calls, ip);
  }

  /** RecentEvents(k) for positive k is the last min(k, n) events written. */
  lemma {:induction false} RecentIsSuffix(c: Codec, calls: seq<Call>, k: nat)
    requires Lossless(c) && k > 0
    ensures var written := Outcomes(calls, false); var recent := LastOf(Logged(c, LogAfter(c, calls)), k);
      && |recent| == (if k < |written| then k else |written|)
      && recent == written[|written| - |recent|..]
  {
    LogIsSuccesses(c, calls);
    LogReadsBack(c, Outcomes(calls, false));
  }
}
