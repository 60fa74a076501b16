# Shinkiro: a verified model of the path from a decoy's event to a firewall command

Shinkiro is a honeynet. Decoys emit events; a bus scores them, groups them into campaigns, evaluates
playbook rules and appends them to a log; rules may block an address through the host firewall. This
project models the stateful parts of that path, and the byte and text codecs on either side of it, in
Dafny, and proves what each part promises over every input and every run.

| file | what it models |
|---|---|
| `Basics`, `Text`, `Lists`, `Events` | optional values, Go's string functions, list shapes, events and clocks |
| `Sessions`, `Correlator`, `CampaignProofs`, `PruneProofs`, `SessionLaws` | what a campaign is meant to be; the online correlator; why they agree; why pruning is invisible; all of it on timestamps and fields |
| `Playbooks`, `RateProofs`, `RateExact` | the rule engine and its pruned rate-limit history; exactly when it counts right |
| `Defense`, `Blocking`, `BlockingProofs`, `BlockRunProofs` | the rule printer, the block applier that re-reads its output, and whole runs |
| `Nftables`, `NftProofs` | a reader of nft scripts, and what the printed ones do to a ruleset |
| `Pipeline`, `IntelLog`, `EventFlow`, `LiveOffline` | the staged bus, the event log and score index, the wiring of `shinkiro up`, the offline rebuild |
| `Channels`, `Cluster`, `Multiplexer` | bounded channels, the hub, the listener lifecycle |
| `Mqtt`, `MqttProofs`, `Pcap`, `Cef`, `CefParser`, `CefProofs`, `CefStandard` | MQTT 3.1.1 framing, libpcap 2.4 files, CEF lines and two readers for them |
| `OnDemand`, `OnDemandProofs` | score-gated captures, one file per attacker; what whole runs leave in the directory |
| `Shell`, `ShellProofs`, `ShellFiles` | the decoy shell: sudo and directories, files and what is printed of them |

## How to read it

Code that changes state is a class or a method with loops; its `ensures` equate the new state with a
function of the old one, and the lemmas speak about that function. What the result means is stated apart
from the code's own recursion: the last session of an address's sub-stream, a count over the full log, an
independent reader of a line or a file, the run without the prunes. Goroutines that interleave
(`Multiplexer`, `Channels`) are state machines whose steps are the atomic actions.

Time is nanoseconds since the Unix epoch with Go's zero time as a named constant; `Time.Sub` saturates,
`Duration` multiplication, `UnixNano` and the `uint32` conversions wrap as in Go. The outside world -
clock readings, runner and webhook outcomes, JSON, MITRE and GeoIP lookups, write failures - enters as
parameters, and the theorems hold for every value of them. Every lemma carries `{:induction false}`, so
that each induction is written out.

Where code and comments or documentation differ, the code is followed:

- The nft script adds its rule to a chain `input` that it never creates, and the set to a table of its own
  (internal/defense/blocklist.go:27-32); on a host without that chain it does not load, see `ScriptLoads`.
- A playbook's `min_severity` is read but never checked (internal/soar/playbook.go:145-156).
- The comment "simplified 1-2 bytes" on the MQTT remaining length (internal/decoys/mqtt/mqtt.go:43) is
  wrong: up to four bytes are read.
- In live mode the `cidr` format reports a block as applied although nothing runs
  (internal/soar/apply.go:219-221), as every format other than iptables and nftables does, see
  `AppliedWithoutRunning`.
- `Ingest` never expires a campaign last seen at the zero time, `PruneExpired` does
  (internal/intel/correlator.go:58, 174), see `ZeroTimeIsPrunedEarly`.
- `Stop` closes the listeners, not the connections. Handlers have a deadline only when `idle_timeout` is
  positive, against docs/architecture/system-architecture.md:41; without one a silent peer keeps `Stop`
  waiting for ever (internal/core/multiplexer.go:110-112, 128-136), see `StopReturnsExactly`.
- `Close` of the capture hook forgets the open files but not their paths, so a later capture of the same
  attacker dereferences nil (internal/pcap/ondemand.go:126-145, 172-183), see `OutcomeExactly`.

## Model

| member | source | states |
|---|---|---|
| Correlators.Correlator.constructor | internal/intel/correlator.go:41-49 | A correlator starts empty, with a two-hour window when none is given. |
| Correlators.CampaignRecord.VisitDecoy | internal/intel/correlator.go:87-98 | Visiting a decoy updates the target list, the grouping reasons and the collapsed hop path of a campaign and nothing else. |
| Correlators.CampaignRecord.CopyMetadata | internal/intel/correlator.go:124-126 | Copying an event's metadata key by key, in any order, overlays it on the campaign's. |
| Correlators.CampaignRecord.Absorb | internal/intel/correlator.go:81-131 | Absorbing an event is the composition of its effects on counters, decoys, rolls and metadata. |
| Correlators.Correlator.Locate | internal/intel/correlator.go:57-79 | The event joins its address's live campaign, or a fresh one when there is none or the window has passed; no other entry changes. |
| Correlators.Correlator.Ingest | internal/intel/correlator.go:53-134 | The map changes at the event's address only, and the record returned is the one stored there. |
| Correlators.Correlator.CampaignByIP | internal/intel/correlator.go:161-166 | A campaign is found exactly for the addresses that have one. |
| Correlators.Correlator.PruneExpired | internal/intel/correlator.go:169-180 | Exactly the campaigns idle beyond the window are removed, the others are untouched, and their number is returned. |
| CampaignProofs.SummariseAppend | internal/intel/correlator.go:81-131 | Absorbing one more event into the summary of a session gives the summary of the longer session, field by field. |
| CampaignProofs.SessioniserCorrect | internal/intel/correlator.go:53-134 | For every stream and address, the stored campaign is exactly the summary of the last session of that address's events, sessions ending where the gap exceeds the window after a non-zero time. |
| CampaignProofs.InterleavingIrrelevant | internal/intel/correlator.go:57-79 | Two streams with the same events of an address, however interleaved with others, give it the same campaign. |
| CampaignProofs.CampaignShape | internal/intel/correlator.go:81-98 | Every reachable campaign: no equal neighbours in the hop path; targets are its distinct decoys in first-occurrence order; `decoy_hop` exactly from two decoys on; targets <= hops <= events. |
| SessionLaws.SessionsByTime | internal/intel/correlator.go:53-134 | On timestamps: for any window a Duration can exceed, a stored campaign summarises exactly the address's events from the last two neighbours on that differ by more than the window, the earlier one not being zero. |
| SessionLaws.StartsAnewExactly | internal/intel/correlator.go:57-84 | Ingest starts a new campaign of one event if and only if the address is unknown or its last time is non-zero and further back than the window; otherwise it adds to the one there is. |
| SessionLaws.PrunedExactly | internal/intel/correlator.go:169-180 | A prune removes an entry if and only if it was last seen further back than the window, zero time or not. |
| SessionLaws.ZeroTimeIsYearOne | internal/intel/correlator.go:58 | Go's zero time is 719162 days before the Unix epoch. |
| SessionLaws.WindowDefaults | internal/intel/correlator.go:41-44 | Two hours without a positive window. |
| SessionLaws.DecoysListed | internal/intel/correlator.go:87-89 | A decoy is listed if and only if an event of the session names it. |
| SessionLaws.MitreListed | internal/intel/correlator.go:107-114 | Tactics and techniques are listed if and only if an event of the session was mapped to them. |
| SessionLaws.CampaignNotes | internal/intel/correlator.go:127-131 | The notes in the metadata agree with the campaign's own lists. |
| SessionLaws.IdsApart | internal/intel/correlator.go:59-63 | Campaign ids are equal if and only if address and first second are, or differ by a dash that is a sign. |
| PruneProofs.PruningInvisible | internal/intel/correlator.go:57-79 | Prunes inserted anywhere in a run of non-zero times, none later than an event after it, change no campaign any later Ingest returns. |
| PruneProofs.PrunesInvisibleExactly | internal/intel/correlator.go:57-79 | With no assumption on times, the prunes of a whole run change no report if and only if none removes a campaign that its address's next event would have joined. |
| PruneProofs.PruneVisibleExactly | internal/intel/correlator.go:169-180 | After any stream, one prune changes the next event's report if and only if the campaign is idle at the prune but not expired at the event. |
| PruneProofs.ZeroTimeIsPrunedEarly | internal/intel/correlator.go:174 | A campaign at the zero time is such a case: pruning it changes the next report. |
| Playbooks.Engine.AddRule | internal/soar/playbook.go:90-94 | Rules are kept in the order added. |
| Playbooks.Engine.Slide | internal/soar/playbook.go:115-126 | The stored timestamps become those after the cutoff, in order, and now. |
| Playbooks.Engine.ExecuteAction | internal/soar/playbook.go:158-177 | Only block_ip has an effect: the address is blocked and the hook called once, its error ignored. |
| Playbooks.Engine.Process | internal/soar/playbook.go:97-143 | One event evaluates the rules in order, each seeing the history its predecessors left; history, actions, blocked set and applier change accordingly. |
| RateProofs.RecentTwice | internal/soar/playbook.go:117-124 | A timestamp dropped at one cutoff is outside every later one. |
| RateExact.MeetAnywhere | internal/soar/playbook.go:115 | With any strings for addresses, two rules can share a history key if and only if one name is the other or continues it after a colon. |
| RateExact.MeetOnIPs | internal/soar/playbook.go:115 | On IPv4 and IPv6 addresses they can if and only if, besides, what the longer name adds is made of the characters of an address: `ssh` meets `ssh:2001`, not `ssh:brute`. |
| RateProofs.OnlyOwnTurn | internal/soar/playbook.go:104-131 | While the rules look at one event, the entry of a rule that shares its key with no other changes only at that rule's turn. |
| RateProofs.HistorySound | internal/soar/playbook.go:115-126 | After any log the pruned history of such a rule agrees with the full list of timestamps on every window still to come. |
| RateProofs.FiresExactly | internal/soar/playbook.go:97-143 | With rules that keep their keys apart, a rule fires on an event exactly when it selects it and its threshold is at most one, its window at most zero seconds, or the full log holds at least Threshold selected events of that address in (now-W, now], this one included. |
| RateProofs.NeverOnFirst | internal/soar/playbook.go:114-131 | Such a rule with a threshold above one and a positive window never fires on an empty log. |
| RateProofs.SelectsDecoy | internal/soar/playbook.go:146-148 | A rule that names a decoy selects its events only. |
| RateProofs.SelectsScore | internal/soar/playbook.go:149-151 | A rule with a minimum score selects events from that score on. |
| RateProofs.SelectsAction | internal/soar/playbook.go:152-154 | The action is matched as a part of the event's, letter case aside. |
| RateProofs.SelectsAll | internal/soar/playbook.go:145-156 | Nothing else decides: an empty condition, or a star for the decoy, takes every event. |
| RateProofs.NothingFires | internal/soar/playbook.go:116-126 | A rule whose window wraps to nothing never fires, and never should. |
| RateExact.CountsRightExactly | internal/soar/playbook.go:97-143 | For any rules and any shape of addresses: the engine decides every event of every log as counting over the full log does if and only if no rate-limited rule with a window shares a key with another - but for a rule of threshold two and a later one of the same name, without a window, whose condition it covers. |
| RateProofs.WindowExact | internal/soar/playbook.go:116 | W is WindowSec seconds if and only if the product fits an int64 Duration. |
| RateExact.ForeignEventMisfires | internal/soar/playbook.go:115-126 | A rule fires below its threshold when another has left an event in the shared key that it does not count. |
| RateExact.SharedEventMisfires | internal/soar/playbook.go:115-126 | A rule of threshold three or more whose key another rule writes for an event it counts fires too early or not at all. |
| RateExact.EarlierRuleMisfires | internal/soar/playbook.go:115-126 | A rule of threshold two fires on the first event when an earlier rule writes its key for it. |
| Defense.GenerateRules | internal/defense/blocklist.go:17-44 | The text is the format's header, one line per address in order, and its footer. |
| NftProofs.ScriptLoads | internal/defense/blocklist.go:26-32 | For addresses that are words, the printed nft script loads if and only if the table already has the chain input, which the script does not create; the set has then grown by exactly those addresses and sources in it are dropped. |
| NftProofs.ScriptLoadsExactly | internal/defense/blocklist.go:26-32 | With the chain and without the set, it loads as the set of exactly the given addresses if and only if they are words. |
| Blocking.BlockApplier.constructor | internal/soar/apply.go:67-96 | Defaults are dry-run and nftables; nothing has been executed. |
| Blocking.BlockApplier.ExecLines | internal/soar/apply.go:198-211 | The commands of a script run in order up to and including the first that fails. |
| Blocking.BlockApplier.ExecCommands | internal/soar/apply.go:195-223 | iptables scripts run line by line, nftables scripts in one call through stdin, other formats not at all. |
| Blocking.BlockApplier.BlockIP | internal/soar/apply.go:126-170 | The outcome, the commands run, the POSTs made and the record kept, in each mode and for each answer of the runner and the webhook. |
| BlockingProofs.PrintedRuleReadsBack | internal/soar/apply.go:195-212 | Whatever the runner answers, executing the printed iptables rule runs exactly the one intended argv if and only if the address is non-empty and free of white space. |
| BlockingProofs.CommandsAreWords | internal/soar/apply.go:199-208 | Every command read out of any script is made of non-empty words without white space. |
| BlockRunProofs.EventCallsDue | internal/soar/playbook.go:97-143 | The hook calls of one event are those that counting over the log calls for. |
| BlockRunProofs.RunMakesDueCalls | internal/soar/playbook.go:134-165 | Over a whole run the hook is called exactly for the due block actions, in firing order. |
| BlockRunProofs.LiveRunExecutesDueBlocks | internal/soar/apply.go:126-170 | Live with iptables, a run executes one intended command per due block action, in order, if and only if every due address is a word. |
| BlockRunProofs.DryRunBlocksTheSame | internal/soar/apply.go:139-148 | A dry run executes and posts nothing and blocks the same addresses as a live run. |
| BlockRunProofs.AppliedWithoutRunning | internal/soar/apply.go:150-222 | Whatever runner and webhook answer, a live block of a non-empty address is recorded as applied with nothing executed if and only if the format is neither iptables nor nftables. |
| BlockRunProofs.BlockOutcome | internal/soar/apply.go:126-170 | Exactly one result is kept for an address; only in mode apply is anything executed or posted; applied, posted and delivered each have their exact condition. |
| BlockRunProofs.CallsExactly | internal/soar/playbook.go:158-164 | A firing rule calls the hook once per block_ip action, for the event's own address. |
| NftProofs.NftBlockRuns | internal/soar/apply.go:213-217 | A live block in the default format runs exactly one command, nft -f -, with the printed script on stdin. |
| NftProofs.LiveRunBlackholes | internal/soar/apply.go:126-170 | Over a whole live run the scripts leave exactly the addresses of the due block calls in the set, with sources in it dropped. |
| Pipeline.Bus.On | internal/pipeline/pipeline.go:60-67 | A handler is appended to its stage's list; nil is ignored. |
| Pipeline.Bus.AfterProcess | internal/pipeline/pipeline.go:70-77 | A callback is appended to the list; nil is ignored. |
| Pipeline.Bus.RunStage | internal/pipeline/pipeline.go:97-106 | The handlers of a stage run once each in registration order up to and including the first failure. |
| Pipeline.Bus.RunStages | internal/pipeline/pipeline.go:80-114 | For any stage order, the run is the fold of the concatenated handler lists up to the first failure; stages entered are a prefix; at most one error is recorded. |
| Pipeline.Bus.Process | internal/pipeline/pipeline.go:80-114 | The same for Score, Correlate, Playbook, Sink, with every after-callback told the final result once. |
| Pipeline.FailureReport | internal/pipeline/pipeline.go:97-105 | A failure in one stage is the first failure of the whole concatenated list, and nothing after it runs. |
| IntelLog.SplitLines | internal/intel/engine.go:120-135 | Newline-terminated lines, and a non-empty unterminated rest. |
| IntelLog.Engine.Persist | internal/intel/engine.go:62-78 | The index counts the event before the write; the log grows by one line only if the write succeeds. |
| IntelLog.Engine.MaliciousIPs | internal/intel/engine.go:80-91 | Exactly the indexed addresses whose score reaches the threshold, each once. |
| IntelLog.Engine.RecentEvents | internal/intel/engine.go:93-118 | The decodable lines in order, cut to the last `limit` when that is positive. |
| IntelLog.LogReadsBack | internal/intel/engine.go:93-135 | Splitting and decoding the log inverts appending to it, for any lossless newline-free codec. |
| IntelLog.IndexAgreesWithLog | internal/intel/engine.go:62-118 | An address's index entry is the sum of its scores in RecentEvents(0) plus those of its events that failed to be written. |
| IntelLog.MaliciousRecomputed | internal/intel/engine.go:80-91 | Membership in MaliciousIPs(t) is having been seen and having a recomputed sum of at least t. |
| IntelLog.RecentIsSuffix | internal/intel/engine.go:131-135 | RecentEvents(k) for k > 0 is the last min(k, n) events written. |
| EventFlow.BusRunsFlow | cmd/shinkiro/up.go:140-223 | The bus wired with the four stage handlers does exactly Score, Correlate, Playbook, Sink, and reports an error exactly when persisting fails. |
| EventFlow.LiveRunIs | cmd/shinkiro/up.go:140-223 | After any live run, correlator, rule history, block effects, capture hook and directory, index and log are each that component's own run over what the bus fed it. |
| EventFlow.ScoreLeaves | cmd/shinkiro/up.go:139-148 | The Score stage adds the GeoIP fields to the metadata and a missing MITRE mapping, and changes nothing else. |
| EventFlow.SinkLeaves | cmd/shinkiro/up.go:188-197 | The sink adds pcap_path for a capture, and changes nothing else. |
| EventFlow.SinkCaptures | cmd/shinkiro/up.go:188-197 | In a live run the capture hook never dereferences nil, and pcap_path is set exactly for events at or over the threshold whose packet could be written. |
| EventFlow.LiveCaptures | cmd/shinkiro/up.go:188-197 | After any live run every capture file holds exactly the kept packets that went to it. |
| EventFlow.RunCampaigns | cmd/shinkiro/campaigns_feeds_coverage.go:37-47 | The offline loop, for any window flag, leaves a correlator that replayed every event read back from the log. |
| LiveOffline.SameCampaign | internal/intel/correlator.go:53-134 | Streams whose events of an address differ only in metadata give it campaigns that differ only in metadata. |
| LiveOffline.RebuildReplaysWritten | cmd/shinkiro/campaigns_feeds_coverage.go:38-46 | The rebuild replays exactly the events written; none needs mapping again. |
| LiveOffline.LiveEqualsOffline | cmd/shinkiro/campaigns_feeds_coverage.go:37-47 | For every address none of whose events failed to persist, live and rebuilt campaign agree on everything but Metadata, and on Metadata too if none of them was captured; failures of other addresses do not matter. |
| LiveOffline.LiveEqualsOfflineExactly | cmd/shinkiro/campaigns_feeds_coverage.go:37-47 | For an address whose times are non-zero and never go back, live and rebuilt campaign agree on everything but Metadata if and only if no event of its last live session failed to persist. |
| LiveOffline.KnownExactly | cmd/shinkiro/up.go:199-201 | Whatever the times, an address has a live campaign if it sent an event, and a rebuilt one if and only if one of its events was written. |
| Channels.EventsAccountedFor | internal/pipeline/pipeline.go:117-129 | In every interleaving, emitted = processed + buffered + dropped; processed followed by buffered are the emissions that found room, in order; a drop happens only when full; nothing is lost exactly when nothing is dropped. |
| Cluster.Hub.constructor | internal/cluster/node.go:81-100 | The token is kept trimmed; no nodes, nothing queued. |
| Cluster.Hub.JoinHandler | internal/cluster/node.go:179-206 | Status and registration for every join request. |
| Cluster.Hub.IngestHandler | internal/cluster/node.go:209-232 | Status and queue for every ingest request. |
| Cluster.Hub.ServeHTTP | internal/cluster/node.go:270-278 | Routing: public health routes, the token check in front of the others. |
| Cluster.RefusedExactly | internal/cluster/node.go:128-158 | A guarded request is answered 401 if and only if the hub has a secret and the headers do not carry it, behind "bearer " in any case or else in the token header; one without it changes nothing. |
| Cluster.RefusedChangesNothing | internal/cluster/node.go:141-158 | A request with the secret in neither header changes nothing, and gets 401 on every guarded route. |
| Cluster.JoinExactly | internal/cluster/node.go:179-206 | Joining succeeds if and only if a welcome POST names an id and an address, and files that node and no other. |
| Cluster.IngestExactly | internal/cluster/node.go:209-232 | 202 and 503 have their exact conditions; an event is queued exactly with 202. |
| Cluster.PublicRoutes | internal/cluster/node.go:270-278 | The health routes answer anybody; unknown routes are not found. |
| Cluster.UnauthorisedInvisible | internal/cluster/node.go:141-158 | Deleting all requests with a missing or wrong token from a run leaves the same nodes and the same queue. |
| Cluster.AcceptedIffQueued | internal/cluster/node.go:226-231 | 202 is answered exactly when the event was queued, which happens only with room. |
| Cluster.AcceptedEventsKept | internal/cluster/node.go:209-232 | Over any life of a hub, the events taken followed by those still queued are the events of the requests answered 202, in order, and the queue never overflows. |
| Multiplexer.InvKept | internal/core/multiplexer.go:43-137 | Every step of Start, serve, handlers and Stop keeps the counts, the ownership of connections and the registration of open listeners. |
| Multiplexer.WaitGroupExact | internal/core/multiplexer.go:83-114 | In every interleaving the WaitGroup counts live serve loops, handlers and Adds in flight; a serve loop's Add never starts from zero; Start's Add never meets a waiting Stop. |
| Multiplexer.StopLeavesNothing | internal/core/multiplexer.go:120-137 | When the Stop that found the multiplexer running returns, no loop or handler is alive, every accepted connection is closed, and only a new Start can happen next. |
| Multiplexer.DrainStep | internal/core/multiplexer.go:136 | While a Stop waits, each step of a goroutine, of a peer or of the clock brings it one step closer to returning. |
| Multiplexer.StopDrains | internal/core/multiplexer.go:136 | A Stop is kept waiting by at most Rank steps, whoever takes them. |
| Multiplexer.StopReturnsExactly | internal/core/multiplexer.go:110-136 | From every reachable state in which a Stop waits, it is certain to return without any peer's help if and only if IdleTimeout is positive or every connection not yet closed has been ended by its peer. |
| Multiplexer.SilentPeerExample | internal/core/multiplexer.go:110-136 | Without IdleTimeout, one silent peer leads to a state where a Stop waits and nothing but that peer can move. |
| Mqtt.DecodeRemainingLength | internal/decoys/mqtt/mqtt.go:156-178 | The loop with multiplier and value computes the base-128 value, reads at most four bytes and refuses more than 65536. |
| Mqtt.ReadString | internal/decoys/mqtt/mqtt.go:188-200 | The string at the offset, or nothing; the offset never passes the end. |
| Mqtt.ParseConnectPayload | internal/decoys/mqtt/mqtt.go:180-211 | Client ID, then username and password as the flags say, on any payload. |
| Mqtt.ReadFrame | internal/decoys/mqtt/mqtt.go:36-52 | One header byte, the remaining length and that many payload bytes, or the end of the stream. |
| Mqtt.HandlePacket | internal/decoys/mqtt/mqtt.go:57-152 | The event offered and the reply written for each packet type. |
| Mqtt.HandleConnection | internal/decoys/mqtt/mqtt.go:35-154 | The loop terminates on every finite stream, having done what the recursive description of the stream says. |
| MqttProofs.RemainingLengthInverts | internal/decoys/mqtt/mqtt.go:156-178 | With any bytes following, the decoder inverts the encoder of section 2.2.3 if and only if the length is at most 65536; larger ones are rejected. |
| MqttProofs.DigitsBounded | internal/decoys/mqtt/mqtt.go:164-170 | A value read from k bytes is below 128^k. |
| MqttProofs.ConnectReads | internal/decoys/mqtt/mqtt.go:202-208 | For protocol name "MQTT", or any of four bytes, the client ID is recovered; username and password are the strings that follow it, whatever they are. |
| MqttProofs.ConnectRoundTrip | internal/decoys/mqtt/mqtt.go:180-211 | For such names, client ID, username and password of any length are recovered if and only if there is no Will, or topic and message happen to equal them. |
| MqttProofs.NameWorksExactly | internal/decoys/mqtt/mqtt.go:180-211 | The decoder's fixed offsets recover every login without a Will if and only if the protocol name has four bytes. |
| MqttProofs.PublishRoundTrip | internal/decoys/mqtt/mqtt.go:213-225 | Topic and the remaining bytes are recovered. |
| MqttProofs.FrameOfEncoding | internal/decoys/mqtt/mqtt.go:36-52 | An encoded packet of any type is framed as itself, whatever follows. |
| MqttProofs.StreamHandled | internal/decoys/mqtt/mqtt.go:35-154 | On concatenated encodings the loop yields exactly the events and replies of the packets before the first DISCONNECT and consumes the stream through it. |
| MqttProofs.ClientHeard | internal/decoys/mqtt/mqtt.go:35-154 | For any stream of CONNECT (without Will), PUBLISH, SUBSCRIBE and PINGREQ packets, the events carry exactly what was sent, in order, a ping makes none, and each packet that asks for it gets its own kind of acknowledgement, a well-formed packet, in order. |
| MqttProofs.NothingAfterDisconnect | internal/decoys/mqtt/mqtt.go:147-148 | Nothing behind a DISCONNECT is read, reported or answered. |
| MqttProofs.OthersIgnored | internal/decoys/mqtt/mqtt.go:150-152 | Any other packet type is neither reported nor answered. |
| MqttProofs.FlagBits | internal/decoys/mqtt/mqtt.go:202-208 | User name, password and Will are read from the flag bits of section 3.1.2. |
| Pcap.CaptureFile.Open | internal/pcap/pcap.go:88-112 | A global header is written into an empty file only. |
| Pcap.CaptureFile.WritePacket | internal/pcap/pcap.go:57-79 | One record header and the captured prefix are appended. |
| Pcap.WriteSession | internal/pcap/pcap.go:88-122 | One open/write/close session appends its records, after a header if the file was empty. |
| Pcap.CaptureReadsBack | internal/pcap/pcap.go:37-112 | Over any split into sessions the file reads as one global header and exactly the packets' records; its size is 24 plus 16 and the captured length each. |
| Pcap.RecordFaithful | internal/pcap/pcap.go:61-72 | The original length is kept if and only if it fits 32 bits; the data is then the packet cut at 65535. |
| Pcap.RecordTime | internal/pcap/pcap.go:66-69 | A record's time is the packet's, cut to microseconds, if and only if its seconds since 1970 fit 32 bits. |
| Pcap.HeaderIsStandard | internal/pcap/pcap.go:39-47 | The header's fields and first bytes, by number. |
| OnDemand.Directory.OpenCapture | internal/pcap/pcap.go:88-112 | The named file is created if missing and given a header if empty; no other file changes. |
| OnDemand.OnDemandCapture.constructor | internal/pcap/ondemand.go:38-51 | A hook starts with no file open, gated at 80 when no positive threshold is given. |
| OnDemand.OnDemandCapture.WriteEvent | internal/pcap/ondemand.go:117-169 | The key's file is opened once, the packet appended to it, and the outcome reported for every I/O fault. |
| OnDemand.OnDemandCapture.MaybeCapture | internal/pcap/ondemand.go:82-98 | Below the threshold nothing happens; from it on the event is written. |
| OnDemand.OnDemandCapture.CaptureNow | internal/pcap/ondemand.go:102-114 | The operator's request is written whatever the score. |
| OnDemand.OnDemandCapture.Close | internal/pcap/ondemand.go:172-183 | Every file is closed, an error is reported if there was one, and the paths stay. |
| OnDemandProofs.OutcomeExactly | internal/pcap/ondemand.go:82-169 | After any run, a request is captured if and only if it passes the gate, I/O allows, and the hook was not closed since its key's file was opened; in that last case, and only then, nil is dereferenced. |
| OnDemandProofs.GateExactly | internal/pcap/ondemand.go:82-114 | A request is held back if and only if it is not the operator's and its score is below the threshold. |
| OnDemandProofs.NameForm | internal/pcap/ondemand.go:128-136 | The prefix tells automatic captures from the operator's; key, second and .pcap follow. |
| OnDemandProofs.DirectoryHolds | internal/pcap/ondemand.go:117-169 | However requests interleave, fail or are cut off by a close, each file is its earlier content or a header, then exactly the kept packets of the keys that go to it, in order; no other file is touched. |
| OnDemandProofs.CapturesReadBack | internal/pcap/ondemand.go:117-169 | A new file reads as one global header and exactly those records. |
| OnDemandProofs.FilesApart | internal/pcap/ondemand.go:122-143 | Two keys go to one file if and only if the names given by the requests that opened them collide. |
| OnDemandProofs.OwnPackets | internal/pcap/ondemand.go:122-143 | A file that no other key goes to holds exactly its key's packets. |
| OnDemandProofs.OthersIrrelevant | internal/pcap/ondemand.go:122-143 | Deleting all requests for other keys from a run leaves a key's packets the same. |
| OnDemandProofs.NamesApart | internal/pcap/ondemand.go:128-136 | Two file names are equal if and only if trigger, key and second are, or the keys differ by a final dash that is the sign of a second before 1970. |
| OnDemandProofs.NameStaysInDirectory | internal/pcap/ondemand.go:185-191 | Whatever the remote address says, the name has no slash and no double dot. |
| OnDemandProofs.AddressesApart | internal/pcap/ondemand.go:185-191 | Different IPv4 or IPv6 addresses never share a key. |
| CefProofs.ThreePassesEscape | internal/intel/siem/cef.go:78-83 | The three ReplaceAll passes are one character-wise escape. |
| CefParser.ParseRender | internal/intel/siem/cef.go:60-65 | Parsing a rendered line recovers header and pairs. |
| CefParser.RenderParse | internal/intel/siem/cef.go:60-65 | An accepted line is the rendering of what was read from it. |
| CefProofs.FormatIsLine | internal/intel/siem/cef.go:38-66 | FormatCEF prints seven piped header fields and the space-joined extensions. |
| CefProofs.TimeInMillis | internal/intel/siem/cef.go:44 | rt is the timestamp in milliseconds, cut towards 1970, while nanoseconds fit 64 bits. |
| CefProofs.SeverityOrder | internal/intel/siem/cef.go:18-29 | Severities keep their order on the scale of 0 to 10. |
| CefProofs.TechniquePrinted | internal/intel/siem/cef.go:31-36 | The event's own technique, or T1595 when it was not mapped. |
| CefProofs.FormatParsesBack | internal/intel/siem/cef.go:12-66 | A FormatCEF line parses back to the seven header fields and every extension pair if and only if address, decoy name and technique ID hold no backslash, equals sign or pipe; the reader wants all three escaped everywhere. |
| CefProofs.FormatIsOneLine | internal/intel/siem/cef.go:38-83 | What is printed is a single line if and only if no text field of the event holds a newline. |
| CefStandard.ParsesExactly | internal/intel/siem/cef.go:60-65 | A reader with the standard's own escapes, by section, reads given fields and pairs from exactly one line. |
| CefStandard.StandardReadsExactly | internal/intel/siem/cef.go:38-83 | Such a reader recovers all fields and pairs of a FormatCEF line if and only if no escaped value holds the delimiter its section leaves alone and no raw value holds a backslash or its section's delimiter. |
| Shell.VirtualFS.constructor | internal/decoys/ssh/shell.go:20-61 | A shell starts in /root with no history and the planted files. |
| Shell.VirtualFS.ChangeDirectory | internal/decoys/ssh/shell.go:100-129 | cd, cd ~, cd .. and relative and absolute destinations. |
| Shell.VirtualFS.Touch | internal/decoys/ssh/shell.go:231-238 | A missing file is created empty; an existing one is left alone. |
| Shell.VirtualFS.Execute | internal/decoys/ssh/shell.go:73-263 | Execution terminates, sudo having one field fewer each time, and changes the state as described on values. |
| ShellProofs.SudoOutcome | internal/decoys/ssh/shell.go:245-249 | k sudos in front of a command run that command with k more lines recorded. |
| ShellProofs.SudoTransparent | internal/decoys/ssh/shell.go:245-249 | Reply, directory and files are those of the bare command; the history grows by k + 1 known lines. |
| ShellProofs.SudoShowsExactly | internal/decoys/ssh/shell.go:245-257 | Under at least one sudo the reply is that of the bare command if and only if the command is not history. |
| ShellProofs.SessionSafe | internal/decoys/ssh/shell.go:73-263 | In every reachable state the directory is non-empty and absolute, no file is lost or changed, and the history has only grown. |
| ShellProofs.ParentOfChild | internal/decoys/ssh/shell.go:106-122 | cd .. undoes entering a plain name, even from directories with doubled or trailing slashes. |
| ShellProofs.CdRoundTrip | internal/decoys/ssh/shell.go:100-129 | n plain cd commands followed by n times cd .. restore the directory. |
| ShellProofs.UpReachesRoot | internal/decoys/ssh/shell.go:106-116 | Fewer `cd ..` commands than the directory has characters reach the root, and more stay there. |
| ShellFiles.AbsoluteName | internal/decoys/ssh/shell.go:265-275 | A path from the root names itself. |
| ShellFiles.RelativeName | internal/decoys/ssh/shell.go:265-275 | Any other name is looked up in the working directory. |
| ShellFiles.CatPrints | internal/decoys/ssh/shell.go:134-142 | cat prints the file its name reaches, or says that there is none. |
| ShellFiles.CatAnywhere | internal/decoys/ssh/shell.go:100-142 | After cd, a relative name prints what the whole path prints from anywhere. |
| ShellFiles.TouchThenCat | internal/decoys/ssh/shell.go:231-238 | touch makes a file that cat finds empty, or leaves the one there is. |
| ShellFiles.HeadLines | internal/decoys/ssh/shell.go:143-156 | head prints the first ten lines. |
| ShellFiles.TailLines | internal/decoys/ssh/shell.go:198-211 | tail prints the last ten, empty ones at the end aside. |
| ShellFiles.GrepLines | internal/decoys/ssh/shell.go:212-230 | grep prints exactly the lines that contain the pattern. |
| ShellFiles.HistoryLine | internal/decoys/ssh/shell.go:252-257 | history lists each line behind its number, right-aligned in four columns. |

## Left out

- Playbooks.Engine.ExecuteAction: the alert hook, which nothing in the repository installs, is not modelled, and the rule name in a reason is not put in Go's quoted form (%q).
- Playbooks.Engine.Process: action names are upper-cased as ASCII; the reasons are as above.
- IntelLog.Engine.Persist: a write that fails after part of a line has reached the file is not modelled; a failed write leaves the log as it was.
- Multiplexer.StopLeavesNothing: Start and Stop do not overlap, and ports and decoy names are not part of the state.
- Multiplexer.StopReturnsExactly: a handler is taken to return once its conversation is over; what ends one - a peer's last input or hang-up, or the deadline - is one step.
- Cluster.Hub.ServeHTTP: the redirects of ServeMux for unclean paths are not modelled; such a path is answered 404.
- Mqtt.HandlePacket: event ID, time, addresses and decoy name are not part of the events.
- EventFlow.SinkCaptures: captures the operator asks for on the dashboard are not interleaved with the sink's, though OnDemandProofs covers such runs.
- Shell.VirtualFS.constructor: the planted files and the default user and host names are parameters.
- Shell.VirtualFS.Execute: fixed texts are named rather than spelled out, and the listings of find and env are sets, since Go leaves their order open.
- The rule file's YAML loading.
- OnDemandProofs.DirectoryHolds: a failed open or write leaves the file as it was, so a partly written header or record is not modelled.
- OnDemand.OnDemandCapture.constructor: the directory's own path, its default and the environment variables are not modelled; files are identified by their name in it.
- Monotonic clock readings inside time.Time, time zones, and the saturation limits of time.Time itself.
- int64 overflow of threat-score sums and event counters.
- The text of Duration.String (a parameter), the payload hashes of MQTT events (the payload itself is kept), console output, metrics, alerts and TUI fan-out of the sink.
- ActiveCampaigns, BlockedIPs, LastResults and the table formatters: copies and renderings of state modelled here.
- The other protocol decoys, exporters, feeds, configuration, HTTP servers and body-size limits: canned replies or plain mapping.
