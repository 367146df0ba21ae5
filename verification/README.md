# Verified models of Jait's gateway and clients

This project models the self-contained algorithms and state machines of Jait and proves what they are
for. There is one module, or a small family of modules, per source component; `dafny verify
dfyconfig.toml` checks all of them.

| modules | component |
|---|---|
| `Calendar`, `Timestamp` | millisecond instants to ECMAScript timestamps |
| `Broker`, `BrokerRuns`, `BrokerEvents`, `BrokerReference` | the RPC protocol of the PTY broker client in Rust, its runs, and its TypeScript twin |
| `ScreenShare`, `ScreenShareRuns`, `ScreenShareCopies`, `ScreenShareCalls`, `ScreenShareViewers` | the screen-share session service with its three maps and its second copy |
| `ArpScan`, `MacForm`, `ArpRows`, `ArpTable` | the byte scanners for ARP tables |
| `ScanRows`, `SortKey`, `NetworkScan`, `ScanInputs`, `ScanResults`, `ScanOrder` | candidates, merge, scoping and order of a network scan |
| `LexicalPath`, `PathText` | two lexical path normalisers, on components and on text |
| `JsInt`, `JsText` | `parseInt` and its users; white space |
| `Dotenv`, `DotenvSpellings`, `JsonString`, `LineStreams` | dotenv files, JSON string printing, incremental line splitting |
| `ManagerQueue`, `ManagerQueueRuns`, `ManagerQueueStale` | the manager's message queues and the drain effect |
| `CopyTree`, `Packer` | budgeted tree copy; content-addressed packing |
| `Doctor`, `DoctorRuns`, `DoctorVerdicts` | the ten-check doctor under its time limits |
| `Prelude`, `Text`, `Permutations` | shared vocabulary |

The pattern is the same everywhere. A loop or a method that changes state is a Dafny method whose
contract equates its result, or the whole new state, with a specification function. What the component
promises is proved about that function: by an independent definition (a calendar counted year by year,
a reader for what is printed, a search over all sessions, a quadratic merge), or over all runs of a step
relation with a history. Where a promise does not hold for every input, the condition under which it
does is proved, with an input that shows it is needed.

## How the models read the source

- **Concurrency.** The Rust broker client is modelled between two locks at a time: taking a sender out of
  `pending`, using it, and the caller seeing the result are separate steps, and a timeout may come between
  them. A line is logged when it is read; a caller's outcome when the caller sees it.
- **Hosts.** Whatever a host, a timer, the network or a disk answers is a parameter: the arbitrary rows and
  replies of a network scan, the duration and answer of every doctor effect as a function of its start
  time, the digest of the packer, the decoder of stream lines.
- **Effects in the doctor.** An effect starts when its future is first polled. The program's own steps
  take no time, and at one instant cancellation goes before an answer and an answer before the time limit,
  which is the order in which they are polled.
- **Copies.** `activeSession` and the map entry of its id are two values in the screen-share model. Their
  viewer lists do differ in reachable states (`ScreenShareCopies.CopiesApart`); `CopiesPart` and
  `CopiesMeet` say, from equal and from unequal copies, exactly which calls leave them equal.
- **Renders.** A drain of the manager queues belongs to a render, which may show any queues the component
  has had so far; it sends the rendered head and drops the latest one.
- **Text** is a sequence of Unicode characters. Scanners that work on bytes look for ASCII only, so positions
  in characters serve as well.

## Where the code and its documentation differ

- `app_config.rs:225-227` says that every consumer rejects a number too large for 64 bits. The budgets of
  64 bits accept it as 2^63-1 (`JsInt.BudgetsSaturate`, `JsInt.OversizeBudgetAccepted`).
- `app_config.rs:637-638` says that a key containing spaces is rejected. It is accepted
  (`Dotenv.SpacedKeyAccepted`).
- `app_config.rs` trims U+0085 and `text.rs` does not. Settings read a number behind one where `parseInt`
  finds none (`JsInt.ParseJsIntIsParseInt`, `JsInt.NelBeforeNumber`). The doctor's port is not affected:
  its validation rejects control characters, U+0085 among them (`JsInt.ParsersAgreeOnValidText`).
- `service.ts:33` promises one owning share per chat. It holds for non-empty chat ids
  (`ScreenShareRuns.OneShareForAChat`), not for the empty one (`ScreenShareRuns.EmptyChatIsNoChat`).
- `network_scan.rs:681` calls the sort key a numeric comparison of the four octets. Groups up to 999 get
  through the ARP scanner, and for those it is not (`SortKey.KeyOrderIff`, `ScanOrder.OctetsOutOfOrder`).

## Model

| member | source | states |
|---|---|---|
| Calendar.CivilFromDaysCorrect | packages/gateway-rust/src/time.rs:14-24 | for every day count the era arithmetic yields a valid Gregorian date, and counting that date's days year by year and month by month gives the count back |
| Calendar.CivilFromDaysUnique | packages/gateway-rust/src/time.rs:14-24 | no other valid date has that day count |
| Calendar.DayNumberOrder | packages/gateway-rust/src/time.rs:12-24 | among valid dates, day counts are ordered as the dates are and equal only for equal dates |
| Calendar.YearOfEraInRange | packages/gateway-rust/src/time.rs:16-20 | the quotient on line 18 is the year of the 400-year era the day lies in: the day of year it leaves is within that year |
| Calendar.DaysBeforeYearClosed | packages/gateway-rust/src/time.rs:19-20 | the recursive leap-year count has the closed form 365(y-1970) plus leap days, for years on both sides of 1970 |
| Timestamp.YearInRange | packages/gateway-rust/src/time.rs:9-24 | instants the range check lets through lie in years -271821 to 275760, so six digits suffice |
| Timestamp.IsoRoundTrip | packages/gateway-rust/src/time.rs:7-37 | exactly the instants with \|ms\| at most 8.64e15 print; the text has 24 characters for years 0 to 9999 and 27 otherwise, and a reader of the ECMA-262 section 21.4.1.32 format gets the same millisecond back |
| Timestamp.IsoInjective | packages/gateway-rust/src/time.rs:7-37 | no two instants print alike |
| Timestamp.IsoOrder | packages/gateway-rust/src/time.rs:7-37 | so for years 0 to 9999 text order is time order, both ways |
| Timestamp.IsoOrderIff | packages/gateway-rust/src/time.rs:7-37 | of two instants the earlier has the smaller text if and only if its year is above 9999, or the later year is 0 to 9999, or is the same negative year; in all other cases the texts are the other way round |
| Timestamp.IsoOrderBreaks | packages/gateway-rust/src/time.rs:25-29 | a pair that sorts the other way: an instant of year 10000 before an earlier one of year 0 |
| BrokerRuns.StepKeeps | packages/gateway-rust/src/pty_broker_client.rs:222-311 | every step of every thread keeps the protocol invariant that ties map, senders, callers and history together |
| BrokerRuns.PendingIsAwaited | packages/gateway-rust/src/pty_broker_client.rs:257-311 | in every interleaving the map holds exactly the ids that were issued and that no answer, stop or clean-up has ended |
| BrokerRuns.PendingIsUnfinished | packages/gateway-rust/src/pty_broker_client.rs:257-311 | pending ids are issued and unfinished; and when no thread has a step left to do (nothing to write, hand over, drop, notice or clean up) every unfinished call is pending |
| BrokerRuns.SettledOnce | packages/gateway-rust/src/pty_broker_client.rs:271-311 | no call finishes twice and ids are issued in strictly growing order, so none is reused |
| BrokerRuns.OutcomesCaused | packages/gateway-rust/src/pty_broker_client.rs:257-311 | a reply given to a caller carried that call's id and was read while it was awaited; a stop outcome follows a stop; a timeout or failed write follows its own clean-up |
| BrokerRuns.NeverAgain | packages/gateway-rust/src/pty_broker_client.rs:257-311 | an id that has left the map never comes back, and a finished call keeps its outcome for ever |
| BrokerRuns.LateReplyDiscarded | packages/gateway-rust/src/pty_broker_client.rs:257-264 | a reply to a call that is no longer awaited changes nothing, however much later it comes, also after a stop |
| BrokerEvents.ToldExactly | packages/gateway-rust/src/pty_broker_client.rs:227-255 | the owner is told an output of a PTY exactly of an output line with that PTY id, not empty, and that data; an exit exactly of an exit line with that id, code (-1 if there is none) and signal |
| BrokerEvents.SilentExactly | packages/gateway-rust/src/pty_broker_client.rs:227-255 | and nothing exactly of the other lines |
| BrokerEvents.EventsSettleNothing | packages/gateway-rust/src/pty_broker_client.rs:227-256 | a line with an event touches no call, also when it carries the id of a pending one |
| BrokerEvents.ToldInOrder | packages/gateway-rust/src/pty_broker_client.rs:222-256 | in every run the owner has been told of each line that says something, once, in the order of the lines |
| BrokerEvents.OutputsOfAPty | packages/gateway-rust/src/pty_broker_client.rs:237-244 | so what is told for a PTY is the data of its output lines, in order |
| BrokerEvents.OutcomesFromSteps | packages/gateway-rust/src/pty_broker_client.rs:271-311 | in every run a timeout comes of an expired wait after a successful write, a failed write of the error of the call's own write with its reason, a reply of a line with its id, and a stop of a stop |
| BrokerEvents.ReadyExactly | packages/gateway-rust/src/pty_broker_client.rs:213-220 | the client is ready exactly when the broker said so after the last stop |
| BrokerReference.ReferenceClient.Stop | packages/gateway/src/pty-broker-client.ts:166-173 | every pending promise is rejected and the map emptied |
| BrokerReference.RefPendingIsUnsettled | packages/gateway/src/pty-broker-client.ts:98-124 | in the TypeScript client, pending is at all times the issued calls whose promise is unsettled |
| BrokerReference.PortRefinesReference | packages/gateway-rust/src/pty_broker_client.rs:257-311 | for every run of the Rust client there is a run of the TypeScript client that sees the same calls, lines and stops in the same order and has every call alike: finished ones with the same outcome, waiting ones open exactly while they are in the map, the others already with what has been taken to them |
| BrokerReference.ReferenceReproduced | packages/gateway/src/pty-broker-client.ts:98-173 | and every run of the TypeScript client is reproduced by one of the Rust client |
| ScreenShare.ScreenShareService.Remove | packages/screen-share/src/service.ts:181-195 | the filtering loop with its checks; both copies are written, and the controller seat of the one who leaves is cleared |
| ScreenShare.ScreenShareService.UpdateTransport | packages/screen-share/src/service.ts:274-299 | the averaging loop computes the summary of the measurements, written to activeSession only |
| ScreenShareRuns.ApplyKeeps | packages/screen-share/src/service.ts:64-299 | every operation keeps the service invariant |
| ScreenShareRuns.CopiesAgree | packages/screen-share/src/service.ts:131-298 | in every reachable state activeSession and the map copy of its id agree on status, host, chat, approval, owner, controller and the other fields no single-copy write touches |
| ScreenShareRuns.ControllersMayControl | packages/screen-share/src/service.ts:106-271 | in every reachable state a controller named by a copy is a viewer of that copy that may control |
| ScreenShareRuns.ChatIndexExact | packages/screen-share/src/service.ts:43-136 | for a non-empty chat the lookup returns s exactly when s is in the map, not idle and of that chat, so the index refines a search over all sessions |
| ScreenShareRuns.OneShareForAChat | packages/screen-share/src/service.ts:92-136 | a non-empty chat has at most one live session |
| ScreenShareRuns.EmptyChatIsNoChat | packages/screen-share/src/service.ts:94-133 | for the empty chat id this fails: a run with two live shares that the lookup cannot find |
| ScreenShareRuns.NeverRevived | packages/screen-share/src/service.ts:92-298 | no sequence of operations makes an idle session live again |
| ScreenShareRuns.EndedForGood | packages/screen-share/src/service.ts:197-228 | so a session that ended in a run stays ended in every continuation of it |
| ScreenShareRuns.ChatsAreIsolated | packages/screen-share/src/service.ts:75-299 | a session of a chat changes only by operations that name it or start a share of its chat |
| ScreenShareCopies.CopiesPart | packages/screen-share/src/service.ts:158-298 | from equal copies an operation makes the two copies differ exactly when it adds a viewer to the active session or measures something new |
| ScreenShareCopies.CopiesApart | packages/screen-share/src/service.ts:131-177 | a run that reaches unequal copies: start without a chat, then join |
| ScreenShareCopies.CopiesMeet | packages/screen-share/src/service.ts:131-298 | in every reachable state with unequal copies, the operations that make them equal are exactly those that write the share to both, that start another share outside any chat, or that measure what the map has |
| ScreenShareCalls.StartedShare | packages/screen-share/src/service.ts:75-136 | a share starts exactly when its host may share, with what was requested; its viewers are the requested registered and authorized devices in order, each with the right to control exactly if its platform is not "web", and the controller is the first of them that has it; in a chat it is the one that is found, and the one before it has ended |
| ScreenShareCalls.JoinedShare | packages/screen-share/src/service.ts:143-178 | a device joins exactly a live share of another device if it is registered and authorized; it becomes the last viewer, may control exactly if its platform is not "web", and has the latency of the share or 45 ms; only the map copy is written |
| ScreenShareCalls.LeftShare | packages/screen-share/src/service.ts:181-195 | a device leaves exactly a live share of another device, in every copy; all other viewers stay, and so does a controller who is another one |
| ScreenShareCalls.JoiningIsIdempotent | packages/screen-share/src/service.ts:138-178 | joining again changes nothing and returns the same session |
| ScreenShareCalls.LeavingUndoesJoining | packages/screen-share/src/service.ts:143-195 | leaving after joining gives the viewers and the controller there were before |
| ScreenShareCalls.StoppedIsOver | packages/screen-share/src/service.ts:197-208 | after a stop nobody can join or take control, no decision is open and no chat finds the session |
| ScreenShareCalls.DecisionIsFinal | packages/screen-share/src/service.ts:211-228 | approval needs a live share and rejection a pending one; rejecting ends the share as a stop does, and after either a rejection is an error |
| ScreenShareCalls.ControlGoesAndReturns | packages/screen-share/src/service.ts:234-272 | control goes exactly to viewers of a live share that may have it, in every copy of the session, and one call of the person takes it back |
| ScreenShareCalls.OwnerIsSet | packages/screen-share/src/service.ts:234-250 | the owner of control changes exactly on a running, approved share, in every copy; a person holds no seat, the agent keeps the one there is |
| ScreenShareCalls.Measured | packages/screen-share/src/service.ts:274-299 | a measurement changes latency and mode of the viewers with the id only; the share is direct only if every viewer is, relayed if one is, and shows the mean latency rounded half up |
| ScreenShareCalls.Registered | packages/screen-share/src/service.ts:64-73 | registering again keeps the first time of connection and replaces all else of that device only |
| ScreenShareViewers.ViewersJoined | packages/screen-share/src/service.ts:75-299 | in every run each viewer of each copy joined that session in an earlier call as a registered authorized device, and may control exactly if its platform was not "web" then |
| ScreenShareViewers.ControllersAreNoBrowsers | packages/screen-share/src/service.ts:75-299 | so whoever controls joined as a device that was no browser |
| ArpScan.ParseIpv4At | packages/gateway-rust/src/network_scan.rs:375-397 | the index loop returns what the recursive grammar of four digit groups returns from that position |
| ArpScan.ParseMacAt | packages/gateway-rust/src/network_scan.rs:430-467 | the double loop returns the first position where six groups can be read, normalised |
| ArpScan.ParseArpLine | packages/gateway-rust/src/network_scan.rs:399-427 | the line scanner returns the first row in the line and terminates on every input |
| ArpRows.DottedLengthIff | packages/gateway-rust/src/network_scan.rs:375-397 | the address scanner accepts a text exactly when it splits at dots into four groups of one to three digits and no digit follows |
| ArpRows.MacIsRead | packages/gateway-rust/src/network_scan.rs:430-463 | wherever six groups stand the scanner reads an address, at most one digit longer than the given one |
| ArpRows.FirstMacFirst | packages/gateway-rust/src/network_scan.rs:430-467 | it finds the first such place in the text, and reports none only when there is none |
| ArpRows.ArpRowIff | packages/gateway-rust/src/network_scan.rs:399-427 | a line yields a row exactly when an address, a separator right after it and a hardware address further on stand in it |
| ArpRows.RowAtSound | packages/gateway-rust/src/network_scan.rs:399-427 | the row is that address and the canonical text of the first hardware address after it |
| ArpRows.RowReads | packages/gateway-rust/src/network_scan.rs:399-467 | a rendered row is read back as its address and canonical hardware address, for 1- or 2-digit groups, either separator and any letter case, after any text from which no row can be read, with any text without ':' and '-' between the two that does not run into the second, and before any text that does not make it longer |
| ArpRows.BeforeHoldsNoRow | packages/gateway-rust/src/network_scan.rs:399-427 | no row can be read from a text before if no whole address stands right before a separator in it and it does not end in a digit or a dot |
| ArpTable.ParseArpTable | packages/gateway-rust/src/network_scan.rs:470-486 | the table loop returns the entries of its lines in order |
| ArpTable.TableConcat | packages/gateway-rust/src/network_scan.rs:470-486 | a table cut at a line feed or carriage return is read part by part |
| ArpTable.TableReads | packages/gateway-rust/src/network_scan.rs:470-486 | a printed table of readable rows is read back in order, without the multicast and all-zero addresses |
| ArpTable.EntriesGood | packages/gateway-rust/src/network_scan.rs:470-486 | every emitted hardware address is canonical, unicast, not zero and a fixed point of normalize_mac |
| MacForm.NormalizeMeans | packages/gateway-rust/src/network_scan.rs:343-356 | every spelling of an address is brought to the one text of its six numbers |
| MacForm.PrintReads | packages/gateway-rust/src/network_scan.rs:343-356 | that text is an address again and says the same six numbers |
| MacForm.NormalizeIdempotent | packages/gateway-rust/src/network_scan.rs:343-356 | normalising twice is normalising once |
| MacForm.UsableIff | packages/gateway-rust/src/network_scan.rs:360-372 | a canonical address is kept exactly when its first number is even and not all numbers are zero |
| MacForm.NormalizesExactly | packages/gateway-rust/src/network_scan.rs:343-348 | a text is normalised exactly when colons and dashes cut it into six groups of one or two characters |
| MacForm.BytesAreRead | packages/gateway-rust/src/network_scan.rs:364-371 | a group of hex digits is read as a byte exactly if it is not empty and at most 255, also after a plus sign |
| ScanRows.NormalizeIps | packages/gateway-rust/src/network_scan.rs:258-271 | requested addresses: the trimmed valid ones, each once |
| ScanRows.WantedMeans | packages/gateway-rust/src/network_scan.rs:258-271 | an address is among them exactly when it is valid and some entry trims to it |
| ScanRows.DedupMeans | packages/gateway-rust/src/network_scan.rs:258-341 | keeping first occurrences keeps the members, once each, in order of first appearance |
| ScanRows.BuildSubnetCandidates | packages/gateway-rust/src/network_scan.rs:318-341 | candidates: hosts 1 to 254 of each subnet, then the valid local addresses, each once |
| ScanRows.MergeEntries | packages/gateway-rust/src/network_scan.rs:295-313 | the indexed merge equals the quadratic specification: addresses in order of first mention, each with all rows about it combined |
| ScanRows.InfoMeans | packages/gateway-rust/src/network_scan.rs:300-306 | combined means the first known hardware address among those rows, and responsive when any of them is |
| ScanRows.MergeAgain | packages/gateway-rust/src/network_scan.rs:295-313 | merge(merge(a) ++ b) = merge(a ++ b) |
| SortKey.KeyOfDotted | packages/gateway-rust/src/network_scan.rs:682-687 | on dotted text the wrapping fold is the number of the four groups to base 256 |
| SortKey.KeyOrderIff | packages/gateway-rust/src/network_scan.rs:682-687 | for an address the scanner lets through (groups up to 999), the key places it among all addresses with byte-sized later groups as its octets do exactly when it is one of them, or lies above them all |
| NetworkScan.Sweep | packages/gateway-rust/src/network_scan.rs:903-947 | the sweep adds the unknown candidates that answer and the second reading |
| NetworkScan.ScanNetwork | packages/gateway-rust/src/network_scan.rs:883-971 | the scan, stage by stage, with its one error |
| ScanResults.SortMeans | packages/gateway-rust/src/network_scan.rs:971-971 | the sort is a permutation, sorted by key, and stable |
| ScanResults.ScanKeeps | packages/gateway-rust/src/network_scan.rs:883-971 | for all host answers: addresses pairwise distinct and in key order; the reported ones are exactly the requested valid ones and the known ones in a scanned subnet; a host is alive exactly when a row about it answered or one of its ports is open, is the router exactly when it has the router's address, and has the first hardware address any row about it knows; the error comes only without subnets |
| ScanResults.RequestedAreReported | packages/gateway-rust/src/network_scan.rs:900-960 | every requested valid address is reported |
| ScanResults.AnsweringHostsAreReported | packages/gateway-rust/src/network_scan.rs:909-945 | a deep scan reports every host of a scanned subnet that answers |
| ScanResults.KeyOrderIsOctetOrder | packages/gateway-rust/src/network_scan.rs:682-687 | hosts whose octets fit a byte come in octet order |
| ScanOrder.OctetsOutOfOrder | packages/gateway-rust/src/network_scan.rs:470-486 | a scan whose ARP table holds 192.168.1.300 and 192.168.2.1 reports the second before the first |
| ScanResults.PrefixHosts | packages/gateway-rust/src/network_scan.rs:228-255 | an accepted prefix is such that all its hosts 1 to 254 are valid addresses in scope |
| ScanInputs.PrefixExactly | packages/gateway-rust/src/network_scan.rs:228-255 | a requested subnet is taken exactly as four valid groups with or without /24, or three without, and the prefix has the first three of them |
| ScanInputs.SubnetsMean | packages/gateway-rust/src/network_scan.rs:274-290 | without one the subnets are those of the outward, not link-local interfaces with four groups |
| ScanInputs.ValidIff | packages/gateway-rust/src/network_scan.rs:194-224 | a valid address is one of four groups of digits, each at most 255 |
| ScanInputs.OctetNumbers | packages/gateway-rust/src/network_scan.rs:194-199 | a printed number below 1000 is a valid octet exactly up to 255 |
| ScanInputs.LinkLocalIff | packages/gateway-rust/src/network_scan.rs:279-281 | the excluded prefix is that of the addresses 169.254.x.y |
| ScanInputs.CandidatesExactly | packages/gateway-rust/src/network_scan.rs:318-341 | the candidates are exactly the hosts 1 to 254 of the subnets in decimal, the valid outward local addresses that are not link-local, and the requested ones |
| ScanInputs.InScopeExactly | packages/gateway-rust/src/network_scan.rs:934-942 | an address is in scope exactly if it continues a subnet and a dot |
| ScanInputs.DeepRows | packages/gateway-rust/src/network_scan.rs:903-947 | the rows of a deep scan are those read first, one for each candidate not among them that answers (responsive exactly if it answered the ping, no hardware address), and those read after the sweep |
| LexicalPath.NormalizeLexically | packages/gateway-rust/src/app_config.rs:594-615 | the push-and-pop loop computes the normal form |
| LexicalPath.NormShape | packages/gateway-rust/src/app_config.rs:594-615 | absolute results hold names only; relative ones are `.`, or parent steps followed by names |
| LexicalPath.NormIdempotent | packages/gateway-rust/src/app_config.rs:594-615 | normalising twice is normalising once |
| LexicalPath.NormOfJoin | packages/gateway-rust/src/app_config.rs:594-615 | norm(a/b) = norm(norm(a)/b) |
| LexicalPath.NormMeans | packages/gateway-rust/src/app_config.rs:594-615 | the normal form leads where the path leads, from every working directory |
| LexicalPath.NormIsCanonical | packages/gateway-rust/src/app_config.rs:594-615 | two paths of one kind have one normal form exactly when they lead to one place from every working directory |
| LexicalPath.ResolveLink | packages/gateway-rust/src/copy_shell_integration.rs:285-297 | the second normaliser yields the same result on absolute paths, and it is the place the path denotes |
| PathText.NormTextIdempotent | packages/gateway-rust/src/app_config.rs:594-615 | the same as text: idempotent |
| PathText.NormTextMeans | packages/gateway-rust/src/app_config.rs:594-615 | the same as text: the meaning is kept |
| PathText.NormTextCanonical | packages/gateway-rust/src/app_config.rs:594-615 | the same as text: equal texts exactly for equal meanings |
| PathText.NormTextOfJoin | packages/gateway-rust/src/app_config.rs:594-615 | the same as text, for every base and every second path, absolute ones included |
| PathText.ParseShow | packages/gateway-rust/src/app_config.rs:597-614 | printing a normal path and splitting it again gives the path |
| JsInt.ParseJsIntSaturates | packages/gateway-rust/src/app_config.rs:228-253 | the digit parser with its overflow fallback is the unbounded number clamped to 64 bits |
| JsInt.ParseJsIntIsParseInt | packages/gateway-rust/src/app_config.rs:228-253 | it is parseInt of ECMA-262 section 19.2.5, clamped, exactly unless a U+0085 stands before a number |
| JsInt.SettingIntIsParseInt | packages/gateway-rust/src/app_config.rs:228-239 | the unbounded number the settings read is that of parseInt exactly unless a U+0085 is skipped before one |
| JsInt.WrittenNumber | packages/gateway-rust/src/app_config.rs:228-253 | white space, a sign or none, digits with any leading zeros, and a rest without a digit in front give the number, negative exactly after a minus sign, clamped to 64 bits |
| JsInt.NelBeforeNumber | packages/gateway-rust/src/app_config.rs:229-240 | such a text: U+0085 and 80 |
| JsInt.SettingsTakeWhatFits | packages/gateway-rust/src/app_config.rs:408-437 | for every text, 16- and 32-bit settings take the unbounded number in it exactly when it fits (0 counts as absent for 32 bits) |
| JsInt.BudgetsSaturate | packages/gateway-rust/src/app_config.rs:416-421 | for every text, 64-bit budgets accept any positive number and stop at 2^63-1 |
| JsInt.AbsentSettings | packages/gateway-rust/src/app_config.rs:396-437 | a setting that is not there takes its default |
| JsInt.OversizeBudgetAccepted | packages/gateway-rust/src/app_config.rs:225-253 | an input that shows this against the comment at 225-227 |
| JsInt.DecimalPrefix | packages/gateway-rust/src/cli_doctor.rs:711-723 | the loop accumulates the leading digits with a rounding after each operation |
| JsInt.ParsePortIsParseInt | packages/gateway-rust/src/cli_doctor.rs:711-757 | whatever the rounding above 2^53, the doctor takes p exactly when parseInt gives p from 1 to 65535 |
| JsInt.ParsersAgreeOnValidText | packages/gateway-rust/src/cli_doctor.rs:205-215 | on every text that passes the validation run_doctor begins with, doctor and settings agree on every port |
| JsInt.ParsersAgreeOnPorts | packages/gateway-rust/src/cli_doctor.rs:711-757 | over all texts doctor and settings agree on every port exactly unless a U+0085 stands before one |
| JsInt.ParsersDisagree | packages/gateway-rust/src/cli_doctor.rs:711-757 | a text on which they differ, U+0085 and 80, which the validation rejects |
| Dotenv.ParseDotenv | packages/gateway-rust/src/app_config.rs:642-664 | the line loop collects the pairs of the lines in order, as the results below say them |
| Dotenv.ParseConcat | packages/gateway-rust/src/app_config.rs:642-664 | parse(a + newline + b) = parse(a) ++ parse(b) |
| Dotenv.ParseTidy | packages/gateway-rust/src/app_config.rs:642-678 | every key that comes out is trimmed, not empty and without `=`, and nothing holds a newline |
| Dotenv.PrintParse | packages/gateway-rust/src/app_config.rs:642-678 | printing pairs as KEY="VALUE" lines and parsing gives the same list exactly when each pair is printable: a tidy key that does not start with # or read as an export |
| Dotenv.PrintedLineReads | packages/gateway-rust/src/app_config.rs:642-678 | the same for one line |
| DotenvSpellings.KeyedLine | packages/gateway-rust/src/app_config.rs:643-678 | the value of a line with a printable key is the trimmed text after the equals sign, without one pair of equal quotes if it stands in one |
| DotenvSpellings.SpelledLineReads | packages/gateway-rust/src/app_config.rs:643-678 | a bare, single-quoted or double-quoted line is read back exactly when its key is printable and a bare value has no white space around it and no pair of quotes |
| DotenvSpellings.SpelledParse | packages/gateway-rust/src/app_config.rs:642-678 | the same for lists with a spelling chosen for each pair, in order and with duplicates |
| DotenvSpellings.NoPair | packages/gateway-rust/src/app_config.rs:646-656 | blank lines, comments and lines without an equals sign give nothing |
| Dotenv.ExportedKeyShrinks | packages/gateway-rust/src/app_config.rs:650-653 | what happens to the others: a key that begins with export and white space loses it |
| Dotenv.SpacedKeyAccepted | packages/gateway-rust/src/app_config.rs:637-661 | a key with a space in it is accepted, against the comment at 637-638 |
| JsonString.JsonStringOf | packages/gateway-rust/src/embed_shell_integration.rs:34-51 | the loop prints the quoted text |
| JsonString.QuoteRoundTrip | packages/gateway-rust/src/embed_shell_integration.rs:34-51 | a reader of RFC 8259 section 7 strings gets any value back, whatever follows it |
| JsonString.QuoteInjective | packages/gateway-rust/src/embed_shell_integration.rs:34-51 | printed strings are equal only for equal values, even with text after them |
| JsonString.NoRawControls | packages/gateway-rust/src/embed_shell_integration.rs:34-51 | no character below U+0020 is printed |
| JsonString.Render | packages/gateway-rust/src/embed_shell_integration.rs:53-65 | the loop prints one block per script |
| JsonString.BlockRoundTrip | packages/gateway-rust/src/embed_shell_integration.rs:57-61 | decoding the array elements of a block and joining them with newlines gives the script, for any content |
| JsonString.RenderRoundTrip | packages/gateway-rust/src/embed_shell_integration.rs:53-65 | and so for the blocks one after another, up to the tail |
| JsonString.BlockIsDeclaration | packages/gateway-rust/src/embed_shell_integration.rs:57-61 | a block is a comment with the UTF-16 length and the declaration of the exported name, whose join text is the printed string of a newline |
| LineStreams.ReceiveMessage | packages/api-client/src/client.ts:117-165 | for every way of cutting a text into chunks the trace is that of the lines of the whole text, described by what they decode to |
| LineStreams.StreamMeans | packages/api-client/src/client.ts:118-148 | a stream ends at its first data line that decodes to null or to an error, with a type error or the message (or "Stream error"); up to there each data line with a token that is not empty, or with "done", makes one callback with that text, in order; no other line does anything |
| LineStreams.SplitMore | packages/api-client/src/client.ts:154-156 | splitting with a carried-over rest is splitting the whole |
| LineStreams.StdoutSplitter.OnData | scripts/benchmarks/jait-task.ts:56-67 | the handler takes one chunk: all complete lines, then the last 64,000 characters of the rest |
| LineStreams.FeedAllExact | scripts/benchmarks/jait-task.ts:56-67 | after any chunks each line is at least the end of the true one, and all lines are exact if and only if no unfinished line was cut at the cap before it went on |
| LineStreams.ShortLinesExact | scripts/benchmarks/jait-task.ts:56-67 | in particular when no line exceeds 64,000 characters |
| ManagerQueue.MovedPermutes | apps/web/src/App.tsx:4434-4456 | a move is a permutation |
| ManagerQueue.MovedExactly | apps/web/src/App.tsx:4436-4451 | a drag takes effect exactly when its source is there and its target, if it has one, is among the other messages |
| ManagerQueue.MovedKeepsOrder | apps/web/src/App.tsx:4440-4452 | with distinct ids, the other messages keep their order and the moved one stands right before or after its target, or last |
| ManagerQueue.EditedExactly | apps/web/src/App.tsx:4412-4430 | an edit gives the named messages of the thread the two new texts and touches nothing else |
| ManagerQueue.ManagerQueues.Drain | apps/web/src/App.tsx:4556-4615 | the effect goes through the rendered queues in turn: skips busy and running threads, forgets unknown ones, and for each other starts its rendered head and drops the latest one |
| ManagerQueue.TurnExactly | apps/web/src/App.tsx:4559-4585 | a turn sends exactly for a thread that is known, does not run, has no send under way and whose rendered queue is not empty; it sends the rendered head and drops one message of the latest queue; the queue of an unknown thread is forgotten |
| ManagerQueueRuns.ApplyKeeps | apps/web/src/App.tsx:4379-4615 | every event keeps the ledger of every thread, a drain when it sends the message that is first in the latest queue |
| ManagerQueueRuns.ExactlyOnePlace | apps/web/src/App.tsx:4379-4615 | after a run whose drains are all fresh an enqueued message is in exactly one of queued, in flight, delivered and removed, and exactly once |
| ManagerQueueRuns.WholeExactlyWhenFresh | apps/web/src/App.tsx:4379-4615 | with drains from any earlier render: a run keeps every message in exactly one place all along if and only if each drain that sends, sends the message that is first in the latest queue |
| ManagerQueueRuns.DeliveredInOrder | apps/web/src/App.tsx:4379-4612 | without drags and with fresh drains, delivered then in flight then queued are the messages enqueued and not removed, in enqueue order, also across failed sends |
| ManagerQueueStale.OneAtATime | apps/web/src/App.tsx:4560-4612 | in every run, stale drains included, no thread has two sends at a time, and a thread is marked exactly while it has one |
| ManagerQueueStale.ThreadsApart | apps/web/src/App.tsx:4379-4612 | in every run, stale drains included, no message crosses to another thread |
| ManagerQueueStale.StaleRun | apps/web/src/App.tsx:4434-4585 | a run with one stale drain: A and B posted, rendered, B dragged before A, drained from that render; A is delivered twice and B is nowhere |
| CopyTree.CopyTree | packages/gateway-rust/src/bundle_web.rs:145-202 | the copy succeeds exactly when the tree fits the entry, byte and depth budgets and has only files and directories under distinct names; then it is equal to the source; each error names a budget or rule the tree does break; and what was staged before an error is a part of the source |
| CopyTree.VerdictIgnoresOrder | packages/gateway-rust/src/bundle_web.rs:145-202 | the verdict does not depend on the order in which directories are listed, at any level |
| Packer.Pack | packages/gateway-rust/tooling/generate-scheduler-tzdata.py:20-35 | the loop packs the files, or fails at the first one that is no TZif file, or when there are not 597 |
| Packer.ReadsBackIff | packages/gateway-rust/tooling/generate-scheduler-tzdata.py:28-34 | every index entry reads back its own file exactly when no two files share a digest but not their bytes |
| Packer.StoredOnce | packages/gateway-rust/tooling/generate-scheduler-tzdata.py:29-32 | without collisions, the blob is every distinct content once |
| Packer.ChunksTile | packages/gateway-rust/tooling/generate-scheduler-tzdata.py:30-32 | every byte of the blob lies in exactly one chunk |
| DoctorRuns.DoctorRun.CheckEnvFile | packages/gateway-rust/src/cli_doctor.rs:369-432 | candidates are looked for until one is there or has an issue; a missing configured file fails, else it is a warning |
| DoctorRuns.DoctorRun.Run | packages/gateway-rust/src/cli_doctor.rs:357-624 | the straight-line program runs the ten checks of the plan and counts them |
| DoctorRuns.EveryRun | packages/gateway-rust/src/cli_doctor.rs:268-624 | for every behaviour and duration of the effects and every cancellation time: ten checks in fixed order; an end within 30 s and no later than a cancellation; at most twelve effects, one after another, none started after the deadline or the cancellation and none kept past 3 s |
| DoctorRuns.EveryReport | packages/gateway-rust/src/cli_doctor.rs:124-149 | the three counts are the numbers of checks that passed, warned and failed, they make up 10, and ok means that none failed |
| DoctorRuns.NoPassWithoutAnswer | packages/gateway-rust/src/cli_doctor.rs:295-624 | a check passes only if an effect of its own was started and answered in time |
| DoctorRuns.CancelledRun | packages/gateway-rust/src/cli_doctor.rs:268-624 | a run cancelled before its start touches nothing, takes no time, and is ok exactly when the port is valid |
| DoctorVerdicts.AnswerIsUsed | packages/gateway-rust/src/cli_doctor.rs:268-305 | the answer of an effect is used exactly if it comes within 3 s, before the deadline and before a cancellation; else the issue says which of the two came first |
| DoctorVerdicts.OwnEffectsOnly | packages/gateway-rust/src/cli_doctor.rs:357-624 | each check starts no effects but its own: its paths, its probe, the runtime, or the health of the configured port |
| DoctorVerdicts.LookMeans | packages/gateway-rust/src/cli_doctor.rs:368-388 | the search for the env file stops at the first candidate whose answer is not a plain no |
| DoctorVerdicts.EnvFileVerdict | packages/gateway-rust/src/cli_doctor.rs:389-424 | found passes; a missing file fails if one was configured and is a warning if not; an issue is a warning with its code |
| DoctorVerdicts.StateVerdict | packages/gateway-rust/src/cli_doctor.rs:426-466 | the state directory and the database pass if they are there and are warnings if not |
| DoctorVerdicts.ToolVerdict | packages/gateway-rust/src/cli_doctor.rs:637-687 | a tool passes if its probe ends cleanly with 0, is a warning with a remedy if with 1, and undecided with the right issue otherwise |
| DoctorVerdicts.NodeVerdict | packages/gateway-rust/src/cli_doctor.rs:467-518 | Node passes with a printed version that is high enough, fails with a lower one or without an executable, and is undecided otherwise |
| DoctorVerdicts.GraphifyVerdict | packages/gateway-rust/src/cli_doctor.rs:545-552 | the runtime passes if ready and fails if not |
| DoctorVerdicts.GatewayVerdict | packages/gateway-rust/src/cli_doctor.rs:574-611 | the port is the given one, else that of the environment, else 8000; an invalid one fails without an effect, a healthy gateway passes, a silent one is a warning |
| DoctorVerdicts.VersionReads | packages/gateway-rust/src/cli_doctor.rs:688-710 | three numbers with dots, with or without a v in front and a tail after - or +, are a version |

## Left out

- Broker: the JSON of requests and responses, the parsing of malformed lines, the replacing of handlers, and what `check` and `spawn` read out of a response, which adds nothing to the protocol.
- Broker: dropping a call's future from outside, and the overflow of the 64-bit id counter.
- BrokerReference.PortRefinesReference: a failed write of the port is a timeout of the reference, which does not look at write errors; exceptions thrown by a write of the TypeScript client are not modelled.
- Screen share: `getSessionsForNode` and `getSessionForNode`, which filter the map in insertion order; recording and capture placeholders; wall-clock `updatedAt` values, which are parameters; fresh ids are assumed to be fresh.
- Screen share: averages and latencies are real numbers; rounding is a fixed function of them.
- Network scan: the detail pass beyond "some port is open" (health, topology, banners, reverse lookup), the result's subnet text and times, the parsing of gateway and neighbour CSV output, and concurrency limits. Neighbour rows are arbitrary, so the CSV rows are covered as values.
- ArpRows.RowReads: the text between the two addresses holds no ':' or '-', and ends in no hex digit; otherwise the scanner may read a hardware address that begins in it, which `ArpRows.ArpRowIff` and `ArpRows.RowAtSound` describe.
- Network scan: `normalize_mac` and `is_valid_octet` measure bytes, the model characters; they differ on non-ASCII text only, which the scanners never pass on.
- Paths: Windows prefixes and path texts that are not Unicode.
- JsInt.ParsePortIsParseInt: floating point is an arbitrary rounding that is exact up to 2^53 and never returns below it.
- `infer_context_window`, plain default lookups and state-directory resolution: settled by reading one branch.
- JsonString.Render: the banner and the closing map are parameters, and the count in a block's label is not part of what is read back.
- LineStreams.ReceiveMessage: JSON decoding of a line is an arbitrary function of its text, with string contents; UTF-8 decoding across chunks is not modelled.
- LineStreams.StdoutSplitter.OnData: collects all lines; what is done with the readiness line is not modelled. The cap counts characters, where the code counts UTF-16 units.
- Manager queues: steering, forking to a parallel thread and queues replaced by the server. Which render an effect belongs to is not restricted to what React's scheduling allows.
- Manager queues: message ids are fresh, as the ones the application makes are; a run does not reuse one.
- Manager queues: attachments, segments and model choices of a message; an edit changes its two texts.
- CopyTree.CopyTree: the counters passed by mutable reference are parameters and results, and the destination is a value that grows with the copy; files that change during the copy, links and their races, input and output errors, and publication by rename. A file's length is that of its data.
- Packer.Pack: finding and sorting the files, the checks of version and archive, and the generated Rust text.
- Doctor: the wording of checks and remedies, the validation of the configuration (its verdict is a parameter), path resolution and the comparison of versions (parameters), and the native effects themselves.
