# A verified model of bimap

bimap tests which traffic can cross between two machines. A client and a server agree over a control
channel on batches of tests; for every test each end runs one half, the server reports its results, the
client combines both halves into a verdict, and at the end merges the verdicts into port ranges that it
prints as candidate allow rules. This project models that path in Dafny and proves what it is for.

`dafny verify dfyconfig.toml` checks the whole project.

## How the model is laid out

- `Messages.dfy`: messages, results, verdicts and the `u32` counters, with wrap-around written out.
- `Schedule.dfy`, `Coverage.dfy`: the check before connecting, the loops that number the tests and cut
  them into batches, and what the enumeration covers.
- `PlanShape.dfy`: the plan of a scan said without those loops, by the positions of tests and ranges; there is
  exactly one plan of that shape, and it is the one the loops make.
- `ClientBatch.dfy`, `ServerBatch.dfy`: one batch at each end, as imperative methods proved against fold
  functions, and lemmas that say exactly which message sequences the folds accept.
- `Session.dfy`, `SessionProofs.dfy`, `SessionSafety.dfy`, `SessionTheorems.dfy`: a whole scan as a step
  system. Two processes, a bounded FIFO channel each way, tests that end in any order. `Inv` is the
  inductive invariant over both ends, `Work` a measure that every step lowers by exactly one. The steps
  use the same functions (`OnReport`, `Settle`, `OnMessage`, `Decode`) that the methods are proved against.
- `AnyPeer.dfy`: each process of the step system alone, against a peer that may send anything: it refines the
  sequential program of `Endpoints.dfy`.
- `Endpoints.dfy`: `run_server` and `run_client` as sequential methods over an inbox.
- `Merge.dfy`, `MergeTheorems.dfy`: the stable sort and the greedy merge; conservation, meaning,
  minimality, independence of order, counters.
- `MergeBlocks.dfy`: the merge said without its pass: the results in order, cut where neighbours do not belong
  together, one entry for each piece; and what an entry says, on the fields of the results themselves.
- `MergeRepeats.dfy`: how short the merge is when repeated results count.
- `EndToEnd.dfy`: the session, the merge and the exchanges joined for every accepted command line.
- `Programs.dfy`: the two sequential programs, run on each other's messages.
- `Framing.dfy`: the control channel as a class; framing refines splitting the stream at newlines, and callers
  of `Receive` are answered line by line.
- `PortText.dfy`: `--port-range` parsing and compact port lists; what is printed can be read back.
- `Icmp.dfy`: ICMP packets, replies and the sweep.
- `Exchange.dfy`: both halves of a payload exchange over TCP and UDP, across a network that may do anything,
  and which payload differences are listed afterwards.

What the network does to a test is not known. A `World` gives each test, by number, the result of its half
at each end; the theorems hold for every `World`. Since each half of each test runs once, any assignment of
results that a real run can produce is one such `World`. Which test ends next, which message is read next
and how the transport cuts the byte stream are chosen freely in the same way.

## What came out

- `EndToEnd.EveryScanEnds`: for every accepted selection, any `--parallel` (0 included) and every
  interleaving, no protocol error branch is reachable at either end, the two ends never block each other
  (for any channel capacity of at least one message), and the scan is over after exactly
  5 steps per test, 2 per batch and 8 besides.
- `Programs.RunTogether`: the two programs, run on each other's messages, end as every interleaving does: with
  one result for each test of the plan, field by field what its two halves say together (none if each was
  printed as a line of its own), and counters that are the numbers of such tests modulo 2^32.
- `AnyPeer.ClientRefines`, `AnyPeer.ServerRefines`: faced with any messages at all, also ones no correct peer sends,
  each process of the step system ends with the result, and has sent the messages, of the sequential program,
  whatever the order in which its tests end.
- `PlanShape.PlanExactly`: that plan holds exactly the tests that are due, ordered by test, range, direction and
  port, forward in every scan and in reverse iff both directions are wanted, the i-th under the number i modulo
  2^32, in batches of max(1, `--parallel`) except where a test, range and direction ends.
- `Framing.Relay`: messages sent over one channel and received over another, whatever the pieces and
  interruptions in between, are answered by the same messages, in order.
- `EndToEnd.AllowRulesMean`: a port lies in a candidate allow rule if and only if some test on it, in that
  direction, passed at the client and passed at the server. For port tests (`EndToEnd.PortTestAllowed`) that is:
  if and only if some test on it met a network that did its payload no harm, and both halves were in time.
- Identifiers are `u32` and may wrap; no bound on the number of tests is assumed, because only
  distinctness within a batch is needed and a batch has at most 65536 entries.
- The merge is as short as possible on exactly the seamless results (`MergeTheorems.MinimalExactly`): none
  is said twice, and where two say the same of neighbouring ports they are the last result of the lower port
  and the first of the upper. Results with distinct keys are seamless. `MergeTheorems.DuplicatesNotMinimal`
  gives three results, one port tested twice, that are not. Among descriptions that keep repeated results the
  condition is weaker (`MergeRepeats.MinimalCountingExactly`). `MergeTheorems.MergeOrderFree` says exactly when
  the order of the results does not show.
- `format_port_ranges` loses ports on exactly the lists that step from port 65535 to port 0
  (`PortText.RunsExact`); the lists the program passes to it are strictly ascending.
- README.MD:91-93 says that payload-integrity tests report observed payload differences separately. The code
  does so for some only, because it looks for one text in the merged reason and only a target writes that
  text. `Exchange.ListedExactly` and `Exchange.ListedPlain` say exactly which: in a reverse test, those that
  reach the client, in full length and in time; in a forward test none, unless the client passes although the
  server got other bytes. `EndToEnd.PortTestListed` carries this through a whole scan. Not listed are a payload
  changed on its way to the server (`Exchange.ForwardChangeUnlisted`), an echo that the client itself finds
  altered (`Exchange.AlteredEchoUnlisted`, with an input in `Exchange.EchoInverted`) and a datagram of another
  length (`Exchange.ResizedUnlisted`).
- A TCP exchange passes when the first bytes to arrive are the payload; a network that adds bytes after them
  is not noticed (`Exchange.ExchangeSound`).
- An `icmp-full` sweep never passes at the initiating end (`Icmp.FullSweep`, `Icmp.IcmpFull`): most types in
  its table have no reply type to wait for, and one unanswered type fails the sweep.

## Model

| member | source | states |
|---|---|---|
| Messages.ReportCarriesVerdict | src/orchestrator.rs:296-316 | supporting fact: the variant that a report does not name is recovered: applying the server's report gives the intended verdict, a pass iff both halves passed, an error iff the client had one or passed while the server had one |
| Messages.BumpIsAdd | src/orchestrator.rs:338-342 | supporting fact: a wrapping `u32` increment is the true count modulo 2^32 |
| Messages.WrapIsMod | src/orchestrator.rs:489 | incrementing `id` n times gives n mod 2^32 |
| Messages.CountOneMore | src/orchestrator.rs:164-169 | a test that ends adds its own result to the tally, whatever the order of completions |
| Messages.CountTotal | src/orchestrator.rs:338-342 | each test is counted in exactly one of the three counters |
| Messages.CountSums | src/orchestrator.rs:338-342 | the three `u32` counters are the numbers of tests that passed, failed and erred, modulo 2^32 |
| Messages.TellsExactly | src/orchestrator.rs:573-605 | supporting fact: a report says of a result, field by field, its identifier, its byte counts unless it is an error, and its reason unless it is a pass |
| Messages.JoinsExactly | src/orchestrator.rs:296-318 | supporting fact: what is recorded of a test, field by field, when its two halves end as they do |
| Schedule.CheckTestsExact | src/orchestrator.rs:403-428 | the check accepts exactly the runnable selections, adds one ICMP range iff some test needs it and never two, and leaves every test with a matching range |
| Schedule.CheckFails | src/orchestrator.rs:403-428 | a refused selection names its first test that cannot run: as unknown, or as one without a range |
| Schedule.CheckSelection | src/orchestrator.rs:399-428 | the mutating loops over tests and transports compute that check, with the first failing test's error |
| Schedule.CutBatches | src/orchestrator.rs:449-522 | the nested loops over tests, ranges, directions and ports hand on exactly the plan, whose shape `PlanShape.PlanExactly` gives: each lane chunked on its own, identifiers running on |
| Schedule.CutTest | src/orchestrator.rs:460-472 | the loop over the ranges skips those the test does not support and cuts the others in order |
| Schedule.CutRange | src/orchestrator.rs:472-520 | the loop over the directions never puts opposite directions into one batch |
| Schedule.CutLane | src/orchestrator.rs:478-520 | filling, handing on and flushing the batch vector chunks the ports of one direction |
| Schedule.ChunksFlatten | src/orchestrator.rs:491-519 | chunking loses, repeats and reorders nothing |
| Schedule.ChunksCount | src/orchestrator.rs:491-519 | each test, range and direction takes exactly ceil(ports / max(1, parallel)) batches |
| Schedule.BatchesFlatten | src/orchestrator.rs:455-522 | the concatenation of all batches is the enumeration of all tests |
| Schedule.EnumerateIds | src/orchestrator.rs:452-489 | tests are numbered consecutively from 0 modulo 2^32 |
| Schedule.WrapDistinct | src/orchestrator.rs:481-489 | fewer than 2^32 consecutive identifiers are distinct although they wrap |
| Schedule.LaneConcurrent | src/orchestrator.rs:478-489 | entries of one direction share test and transport, have ascending ports and distinct identifiers |
| Schedule.BatchesGood | src/orchestrator.rs:469-519 | every batch has 1 to max(1, parallel) entries that may run at once and that the server understands |
| PlanShape.PlanExactly | src/orchestrator.rs:399-522 | the plan of every accepted selection: exactly the tests that are due, each once, by test, range, direction (forward first, reverse iff wanted) and port; consecutive numbers modulo 2^32; batches full except where a test, range and direction ends; one ICMP range added iff some test has no other |
| PlanShape.ShapeIsUnique | src/orchestrator.rs:452-522 | that shape leaves nothing open: two plans that have it are the same batch by batch |
| PlanShape.RefusedExactly | src/orchestrator.rs:399-428 | a selection is refused iff a range ends before it starts or else some test cannot run; the first such test decides the error |
| Coverage.LanesExact | src/orchestrator.rs:455-479 | the lanes are exactly the selected combinations of test, supported range and direction |
| Coverage.EnumerateCovers | src/orchestrator.rs:480-489 | every port of every lane is tested |
| Coverage.EnumerateFrom | src/orchestrator.rs:480-489 | nothing else is tested |
| Coverage.EnumerateDistinct | src/orchestrator.rs:455-522 | selections without overlap test no port twice for one test, transport and direction |
| ClientBatch.ExecuteBatch | src/orchestrator.rs:234-392 | for any order of local completions, the batch sent and the ledger are those of the fold over the inbox |
| ClientBatch.SendBatch | src/orchestrator.rs:244-255 | one `Test` per entry in batch order, then one `BatchEnd` |
| ClientBatch.RunLocally | src/orchestrator.rs:277-280 | whatever order local tests end in, each identifier holds its own result and no other is present |
| ClientBatch.CollectReports | src/orchestrator.rs:282-324 | the report loop, with all its error branches, is the fold of `OnReport` |
| ClientBatch.SettleBatch | src/orchestrator.rs:333-385 | taking results out of the maps in batch order is `Settle` |
| ClientBatch.CollectExact | src/orchestrator.rs:285-324 | collection succeeds exactly on one report per expected identifier, in any order, and reads no further |
| ClientBatch.CollectFails | src/orchestrator.rs:285-324 | collection fails for the first message that is not a report of its own for an expected test, with the error of that message |
| ClientBatch.ReconcileFails | src/orchestrator.rs:285-337 | a batch whose local tests have all ended fails for nothing else: no local result is ever missing |
| ClientBatch.CollectFolds | src/orchestrator.rs:293-318 | each test ends with its own local result and its own report folded together |
| ClientBatch.CollectOrder | src/orchestrator.rs:285-324 | two arrival orders of the same reports leave the same results and server errors |
| ClientBatch.SettleExact | src/orchestrator.rs:334-337 | with distinct identifiers no local result is ever missing and none is lost by removal |
| ClientBatch.ReconcileExact | src/orchestrator.rs:285-337 | a batch is reconciled iff the inbox starts with one report per test in any order, and nothing beyond them is read |
| ClientBatch.ReconcileOrder | src/orchestrator.rs:277-385 | neither the order of completions nor that of reports shows in results or counters |
| ServerBatch.GatherBatch | src/orchestrator.rs:100-146 | the gathering loop, with all its error branches, is the fold of `OnMessage` |
| ServerBatch.GatherExact | src/orchestrator.rs:104-145 | a batch is accepted exactly when the tests ahead fit the limit, are understood, and are closed by `Done` or, if there are any, by `BatchEnd` |
| ServerBatch.GatherFails | src/orchestrator.rs:104-145 | a batch is refused for the first message that is not a test that is understood and fits, with the error of that message |
| ServerBatch.DecodeExactly | src/orchestrator.rs:115-137 | supporting fact: which test messages are understood, the entry that each gives, and otherwise which part is complained of |
| ServerBatch.GatherShape | src/orchestrator.rs:139-143 | nothing beyond the closing message is read |
| ServerBatch.GatherContents | src/orchestrator.rs:115-137 | the gathered batch is the tests sent, each decoded, in order |
| ServerBatch.MirrorIsOpposite | src/orchestrator.rs:115-137 | supporting fact: the server's half has the same identifier, transport and port and the opposite role, at the client's address or the configured one |
| ServerBatch.ServeBatch | src/orchestrator.rs:151-172 | in whatever order tests end, each is counted once and reported once, with its own identifier, byte counts and reason |
| SessionSafety.StepKept | src/orchestrator.rs:59-543 | every step of either end keeps the invariant over both ends and uses exactly one unit of work |
| SessionTheorems.NoProtocolError | src/orchestrator.rs:99-149 | no run reaches an error branch at either end |
| SessionTheorems.NoDeadlock | src/orchestrator.rs:99-189 | while a scan is not over some step can be taken, for every channel capacity of at least one |
| SessionTheorems.EveryRunEnds | src/orchestrator.rs:479-543 | a run has at most 5 steps per test, 2 per batch and 8 besides, and has taken that many iff both ends have finished with `Bye` consumed |
| SessionTheorems.Outcome | src/orchestrator.rs:333-385 | every interleaving ends with the same results in test order and the same counters at both ends |
| SessionTheorems.VerdictsAgree | src/orchestrator.rs:164-183 | both summaries count every test once, the client counts no more passes than the server, and a result is a pass iff both halves passed |
| SessionTheorems.OneBatchInFlight | src/orchestrator.rs:478-520 | all tests in progress at either end belong to the client's current batch, are halves of the same tests, and never share a port |
| SessionTheorems.Rendezvous | src/orchestrator.rs:261-266 | both halves use one port; for reverse tests one address iff the server sees the client under its own host; for forward tests the server's host is what the target's text is read as, a socket address or a bare host, or else unspecified, and so the address is the target's if the text reads back |
| AnyPeer.ClientRefines | src/orchestrator.rs:394-543 | the client process, handed any messages in any interleaving with its tests, sends a prefix of what `run_client` sends on that inbox; it can go on, if there is room, until it has ended or no message is left; then it has sent all of it, and ends with the result or the error of `run_client` |
| AnyPeer.ServerRefines | src/orchestrator.rs:59-190 | the server process likewise ends with the result or the error of `run_server` on that inbox, and has sent what `run_server` sends: acceptance or refusal, one report a test in the order in which the tests ended, and on success its summary |
| Endpoints.RunServer | src/orchestrator.rs:59-190 | the summary is the one the inbox determines; what is sent is an acceptance, then for each gathered batch one report a test with its own identifier, byte counts and reason in the order in which they end, then on success that summary; a version other than 3 is refused and anything else but a configuration answered with nothing; a failure names what ended the session |
| Endpoints.ServesPlan | src/orchestrator.rs:99-189 | a server that is sent a sound plan serves all of it and counts every test once |
| Endpoints.ServerExactly | src/orchestrator.rs:59-190 | a server succeeds iff it is sent a configuration of version 3 and then batches of understood tests under its limit, each but the last non-empty and closed by `BatchEnd`, the last by `Done`; its summary sums all of them |
| Endpoints.ServeFails | src/orchestrator.rs:99-149 | otherwise the error is that of the first message that has no place there |
| Endpoints.GatherScript | src/orchestrator.rs:244-255 | what a client sends for a batch is gathered as the mirror image of that batch, leaving the rest unread |
| Endpoints.RunClient | src/orchestrator.rs:394-543 | the whole client: same errors in the same order; on every outcome exactly the configuration and the scripts of the batches it got to were sent, on success those of the whole plan, which has the shape that `PlanShape.PlanExactly` gives |
| Endpoints.ScanExactly | src/orchestrator.rs:285-543 | the scan succeeds iff the inbox is one block of reports per batch, in the order of the batches and any order within each, then `Bye` |
| Endpoints.ScanFails | src/orchestrator.rs:285-543 | otherwise the error is that of the first message that has no place there |
| Endpoints.ClientExactly | src/orchestrator.rs:394-543 | the client succeeds iff its selection is accepted and its inbox is an acceptance followed by such an inbox; each failure names what came instead |
| Programs.ProgramsAgree | src/orchestrator.rs:59-543 | a client that is sent what a server that is sent its messages sends, in whatever order tests end, ends with one verdict per test in test order, the outcome of every interleaving; the server with the count of its own results |
| Programs.RunTogether | src/orchestrator.rs:59-543 | the two programs run on each other's messages: what the client sends is what the server was run on; the client ends with one result for each test of its plan unless results are not kept, each field by field what the two halves say together, and with the numbers of such tests modulo 2^32 as counters; the server with the sums of its own |
| Merge.SortIsStable | src/orchestrator.rs:685-692 | the sort permutes, orders by test, transport, direction and port, and keeps equal keys in order |
| MergeBlocks.SortOrders | src/orchestrator.rs:685-692 | the same without the sort's own comparison: a permutation by test, transport, direction (forward first) and port, in lexicographic order of texts, equal keys as they came |
| MergeBlocks.MergeIntoRanges | src/orchestrator.rs:680-742 | the in-place pass is the fold of `Absorb` over the sorted results, and its entries are those of their pieces |
| MergeBlocks.MergePieces | src/orchestrator.rs:696-741 | the results in order are cut exactly where two neighbours are not on consecutive ports or differ in test, transport, direction, server error or in how they ended and why; each piece is one entry with its first and last port, its size, its status and the reason of its results |
| MergeBlocks.EntriesSay | src/orchestrator.rs:697-735 | every port of an entry comes from a result with that port whose status is the entry's and whose reason, if it is a failure or an error, is the entry's; and every result lies in such an entry |
| Merge.MergeExpands | src/orchestrator.rs:696-741 | expanding the entries gives the sorted results one by one; each count is end - start + 1 and no range wraps |
| Merge.MergeConserves | src/orchestrator.rs:680-742 | for any results, duplicates included, the expanded entries are the results as a multiset |
| MergeTheorems.RangeMeaning | src/orchestrator.rs:703-737 | a port lies in a range with given fields iff some result has exactly these fields and this port |
| MergeTheorems.MergeStarts | src/orchestrator.rs:703-719 | on sorted results entries start only where a result has no direct predecessor, and no two at the same result, iff the results are seamless: none is said twice, and where two say the same of neighbouring ports they are the last of the lower port and the first of the upper |
| MergeTheorems.MinimalExactly | src/orchestrator.rs:680-742 | no description of the results by contiguous uniform ranges is shorter than the merge iff the results are seamless |
| MergeTheorems.MergeMinimal | src/orchestrator.rs:680-742 | results with distinct keys are seamless, so on them no description is shorter |
| MergeTheorems.DuplicatesNotMinimal | src/orchestrator.rs:703-719 | a port tested twice between two like results: not seamless, and a description that is shorter than the merge |
| MergeRepeats.MinimalCountingExactly | src/orchestrator.rs:680-742 | no description that says each result as often as it occurs is shorter than the merge iff the results are smooth: where two say the same of neighbouring ports, the last of the lower port and the first of the upper do, and one of the two is that last or that first |
| MergeRepeats.MergeApart | src/orchestrator.rs:703-719 | no merged entry begins where another that says the same has ended iff no opening follows on such a closing |
| MergeRepeats.SeamlessSmooth | src/orchestrator.rs:680-742 | seamless results, and so results with distinct keys, are smooth |
| MergeTheorems.MergeOrderFree | src/orchestrator.rs:685-741 | the output is the same for every order of the results iff results with equal keys say the same |
| MergeTheorems.CountsMatch | src/orchestrator.rs:719-735 | the counts of a status add up to the number of results with that status |
| EndToEnd.AcceptedIsSound | src/orchestrator.rs:399-522 | every accepted selection is a session the theorems apply to, for any `parallel` |
| EndToEnd.EveryScanEnds | src/orchestrator.rs:394-543 | no protocol error, no deadlock and an exact number of steps for every accepted selection |
| EndToEnd.EveryTestRecorded | src/orchestrator.rs:333-385 | after any complete run there is one result for each test of the plan, field by field what its two halves say together, unless `--json` is given without `--json-export`, when there is none; both summaries are the numbers of tests modulo 2^32 |
| EndToEnd.EveryTestRuns | src/orchestrator.rs:403-479 | every selected test runs on at least one port, forward in every scan and in reverse if both directions are wanted |
| EndToEnd.AllowRulesMean | src/orchestrator.rs:744-760 | a port is in a candidate allow rule iff a test on it passed at both ends |
| EndToEnd.CountersMatchExport | src/orchestrator.rs:524-536 | each counter of the summary is the sum of the exported counts of that status |
| EndToEnd.DifferencesMean | src/orchestrator.rs:762-767 | after any complete run a port is exported as a payload difference iff the verdict of some test on it failed with the marked reason |
| EndToEnd.PortTestDifferences | src/orchestrator.rs:842-866 | for port tests whose error texts do not hold the marker: a reverse test is so exported iff the payload reached the client altered and the client ended in time; a forward test iff it reached the server altered, the client still passed and both ended in time |
| EndToEnd.PortTestListed | src/orchestrator.rs:762-767 | for every scan of port tests, those cut off by their deadline included, a port is exported as a payload difference iff some test on it met what `Exchange.Lists` says |
| EndToEnd.PortTestAllowed | src/orchestrator.rs:744-760 | the port of a port test is in a candidate allow rule iff in some test on it the network did the payload no harm and neither half outlasted its deadline |
| EndToEnd.ExportMinimal | src/orchestrator.rs:524-528 | without overlapping selections the export is as short as possible and independent of order |
| Framing.ControlChannel.Receive | src/control/mod.rs:43-79 | one call changes the reader and answers as `Recv` says, and decodes what it hands on |
| Framing.ControlChannel.Send | src/control/mod.rs:27-41 | the error names the step that failed; a call that gets to the flush has written the message's text and one newline after everything before, one that fails in the write a prefix of that, one that fails before it nothing; so after calls that succeed the channel has written the stream of their messages |
| Framing.ConsumeKeeps | src/control/mod.rs:61-77 | one pass over the buffer conserves frames handed on plus frames to come |
| Framing.RecvKeeps | src/control/mod.rs:43-79 | so does a call, cancelled or not; it fails for good exactly when it reports an overlong frame |
| Framing.FramingIsSplitting | src/control/mod.rs:43-79 | for every chunking and every cancellation, frames handed on plus frames to come are the lines of the stream up to the first over the cap |
| Framing.ChunkingIsInvisible | src/control/mod.rs:43-79 | two ways of cutting one stream into pieces give the same frames |
| Framing.RecvProgress | src/control/mod.rs:48-78 | a call that does not fail uses up part of what is to be delivered |
| Framing.OverflowLatches | src/control/mod.rs:45-67 | after an overlong frame every later call fails and changes nothing |
| Framing.FailsExactly | src/control/mod.rs:63-67 | once the stream is used up the channel has failed for good iff after the last complete line more than the cap follows without a newline within the cap |
| Framing.RecvEnds | src/control/mod.rs:49-60 | a call that hands on no frame and does not fail for good is ended by the first event that brings no bytes, says which it was, and keeps all bytes before it |
| Framing.ReceiveAll | src/control/mod.rs:43-79 | a caller that receives until nothing is left is answered once for each line of the stream up to the first over the cap, in order, by what that line decodes to, and the channel has failed iff the rest is overlong |
| Framing.ReceiveTexts | src/control/mod.rs:43-79 | every text sent without a newline byte and under 1,048,576 bytes is answered in its place by what it decodes to; one that does not decode keeps none after it from arriving |
| Framing.Relay | src/control/mod.rs:27-79 | messages sent over one channel and received over another are answered by the same messages, all of them and in order |
| Framing.FramesStandAlone | src/control/mod.rs:70-76 | the i-th frame received is decoded as the i-th text sent, whatever the others are: one that cannot be decoded does not disturb those after it |
| Framing.SendReceive | src/control/mod.rs:27-79 | what is received is a prefix of what was sent, in order, and all of it once everything is delivered |
| Framing.StreamAppend | src/control/mod.rs:27-41 | a call of `send` that gets through turns the stream of the messages sent so far into that of one more |
| Framing.NeverOverflows | src/control/mod.rs:63-67 | a stream of texts within the cap never trips it, and calls take whole lines off it |
| PortText.ParsedIsValid | src/cli.rs:97-132 | accepted ranges satisfy start <= end <= 65535, so the client never rejects them |
| PortText.ParseSpecExactly | src/cli.rs:97-129 | a specification is accepted iff it is a transport, a slash and a port, two ports in order with a dash, or for ICMP `any` or `icmp`, and gives exactly that range; which texts are refused for a missing slash or an unknown transport |
| PortText.ParseEach | src/cli.rs:97-132 | each specification gives its own range, in order; the first that denotes none decides the error |
| PortText.FormatPortRanges | src/output.rs:33-54 | the nested loops print exactly the maximal runs of the list, joined by commas |
| PortText.RunsExact | src/output.rs:39-53 | the runs expand to the list iff it nowhere steps from port 65535 to 0; otherwise ports are lost |
| PortText.RunsMaximal | src/output.rs:42-45 | no two neighbouring runs could have been one |
| PortText.RunReadsBack | src/cli.rs:111-129 | a printed range behind a transport name is read by the command line as exactly that range |
| PortText.RunTextForm | src/output.rs:48-52 | a range has a dash in its text iff it has two ends, and no port is printed with a leading zero |
| PortText.PrintedListReadsBack | src/output.rs:33-54 | the text of a strictly ascending list, read back part by part, expands to the list |
| PortText.LiveFailures | src/orchestrator.rs:332-368 | the live display keeps, per reason, the failed ports in order, each list strictly ascending, and after each failure prints one line that shows every reason once with its ports |
| PortText.FailedAscend | src/orchestrator.rs:347-361 | every list passed to the printer holds exactly the ports that failed for its reason, in strictly ascending order, so `end + 1` never overflows |
| Icmp.BuildIcmpEcho | src/test/icmp.rs:71-82 | for every type, identifier, sequence number and payload the packet is laid out as RFC 792 says and its one's-complement sum is 0xFFFF |
| Icmp.ComplementFolds | src/test/icmp.rs:79-80 | a sum plus the complement of its fold folds to all ones (section 1 of RFC 1071) |
| Icmp.MatchesExactly | src/test/icmp.rs:89-108 | supporting fact: behind any header a built packet is recognised iff type, identifier, sequence number and expected payload agree and the payload is long enough |
| Icmp.IcmpIds.NextId | src/test/icmp.rs:12-16 | each draw returns the next identifier modulo 65536 |
| Icmp.NoCrossCredit | src/test/icmp.rs:14-16 | with fewer than 65536 identifiers outstanding no reply is credited to another probe |
| Icmp.AnsweredExactly | src/test/icmp.rs:211-259 | which datagrams answer a probe: as far as 1500 bytes hold them, from the host asked, behind the header a reply of the type that answers the request (0 to 8, 14 to 13, 16 to 15, 18 to 17, 43 to 42, no other) under its identifier and sequence number, with the payload that takes |
| Icmp.RawEcho | src/test/icmp.rs:110-266 | one probe sends its request, with the payload of its type, and returns what the order of events determines |
| Icmp.ProbeSays | src/test/icmp.rs:110-266 | its result, whole: the error before the send, what the first event that is no stray datagram says, or a timeout, byte counts and reason included |
| Icmp.ProbeExactly | src/test/icmp.rs:110-266 | a probe passes iff it is sent and the first event that is no stray datagram is an answer, is an error iff it cannot be sent or that event is a failing timer, and never passes for a type without a reply type |
| Icmp.Sweep | src/test/icmp.rs:384-444 | error iff any probe had one, pass iff all passed; totals over the non-errors; complaints in table order, errors first |
| Icmp.ProbeAll | src/test/icmp.rs:384-402 | one probe for each type for which time is left, the j-th under the identifier drawn after as many others as were probed before it |
| Icmp.RecordedSays | src/test/icmp.rs:384-402 | the j-th type is probed under sequence number j and an identifier that counts the probes before it from 0xB100, or, with no time left, is a timeout without bytes |
| Icmp.SweptSays | src/test/icmp.rs:384-444 | the verdict, whole: complaints at the positions of errors and then of failures, each with its type, name and reason; bytes of all but errors in 64 bits |
| Icmp.TableTypes | src/packet/icmp.rs:3-28 | supporting fact: the 24 types of the table |
| Icmp.FullSweep | src/test/icmp.rs:376-446 | the worker: its verdict is that of the sweep over the recorded probes; no network makes it pass; it is an error iff some probe for which time is left is troubled |
| Icmp.IcmpFull | src/test/icmp.rs:352-453 | the whole test: a pass iff the capability is there and this end is the target; an error iff the capability is missing or, at an initiator, the address is IPv6, the worker dies or some probe is troubled |
| Exchange.SpareByteDecides | src/test/port.rs:46-71 | supporting fact: with one spare byte in the buffer a datagram is accepted iff its bytes are the payload |
| Exchange.ReadExact | src/test/exchange.rs:80-84 | the buffer is filled iff enough bytes arrive, with the first of them, however they are cut into pieces; else the stream's error is returned |
| Exchange.Roundtrip | src/test/exchange.rs:71-93 | the initiator passes iff its write succeeds and the first bytes that arrive are the payload; otherwise the first step that fails gives reason and byte counts |
| Exchange.EchoBack | src/test/exchange.rs:95-118 | the target passes iff the first bytes that arrive are the payload and its write succeeds; otherwise the first step that fails gives reason and byte counts |
| Exchange.Connect | src/test/exchange.rs:35-55 | at most twenty attempts, only refusals and timeouts are retried, and the reason is that of the attempt that settles it |
| Exchange.UdpInitiator | src/test/port.rs:31-86 | the first of five attempts that brings a datagram from the target decides, whatever earlier datagrams left in the buffer: a pass iff it is the payload, else by its length or contents; otherwise the last attempt gives a non-empty reason |
| Exchange.UdpTarget | src/test/port.rs:88-134 | the target passes iff the first datagram it gets in five attempts is the payload and the answer goes out; every failure has the reason and the byte counts of what failed |
| Exchange.ExchangeSound | src/test/port.rs:136-153 | for any network, also one that cuts, lengthens, invents or swallows: over TCP both halves pass iff a connection comes about, both writes succeed and on both legs the first bytes to arrive are the payload; over UDP iff both sockets are bound and the first datagram that counts on each leg is the payload, and is answered |
| Exchange.RunExchange | src/test/port.rs:136-153 | both halves run, each over its buffer and against its deadline, and both pass iff the network does no harm and both are in time; a forward test starts at the client, a reverse test at the server; a half that is late ends in a timeout without bytes |
| Exchange.TrialSound | src/orchestrator.rs:192-202 | what both ends record are passes iff the network does the payload no harm and neither half outlasts its deadline |
| Exchange.VerdictListed | src/orchestrator.rs:296-316 | supporting fact: a merged result holds the marker iff the client's own does, or the client passed and the server's does |
| Exchange.ListedExactly | src/orchestrator.rs:762-767 | exactly which port tests are listed as payload differences, for any network, with no assumption on error texts, and whether or not a half is cut off: in terms of what reaches the target, whether the initiator passes, the text of an operation that fails, and which half is late |
| Exchange.ListedPlain | src/orchestrator.rs:842-866 | where no error text holds the marker: a reverse test is listed iff the client is in time and as many bytes as the payload has reach it and differ; a forward test iff both are in time, such bytes reach the server and the client still passes, which over TCP takes a network that answers in the server's place |
| Exchange.ForwardChangeUnlisted | src/orchestrator.rs:192-202 | a payload changed on its way to the server is seen there and not listed by the client, in time or not |
| Exchange.AlteredEchoUnlisted | src/test/exchange.rs:85-87 | a client that itself finds the echo altered says only "mismatch" and is not listed |
| Exchange.EchoInverted | src/test/exchange.rs:85-87 | one such input: a byte that comes back inverted |
| Exchange.ResizedUnlisted | src/test/port.rs:101-107 | a datagram of another length than the payload is not listed, even when it reaches the client |

## Left out

- Timeouts and failures of the control channel: the receive timeout, read and write errors and a closed
  connection end a session early; the step system has no such steps, a process that waits for a message when
  none is left counts as ended by `ChannelClosed`.
- A server that lacks a test the client selects: `EndToEnd.Accepted` requires that it knows them all, as two
  builds of one version do; otherwise it stops with "unknown protocol".
- Messages.CountTotal: on the unbounded tally; the printed `u32` counters are this modulo 2^32. A build with
  overflow checks stops instead of wrapping, here and for `id`.
- Endpoints.RunClient: cuts all batches before it sends the first, where the program cuts as it goes.
- Exchange.TrialSound: how long a half takes. Whether it outlasts its deadline is an input, independent of what
  it meets; a timeout of one operation is one of the texts with which it fails.
- Exchange.ReadExact: tokio's `read_exact` is taken to read until the buffer is full; tokio is not part of this model.
- Exchange.RunExchange: the ICMP branch of `run_exchange`, which a port test never reaches, since it supports
  TCP and UDP only.
- Icmp.RawEcho: the IPv4 header length and source are read as pnet reads them and the checksum is that of
  RFC 1071; pnet is not part of this model. Deadlines are how many events come and for which types time is left.
- TLS, certificates and pinning; DNS messages; the `tls`, `dns` and `icmp-ping` tests, whose results are any results.
- JSON text: an abstract codec whose texts contain no newline and read back as they were written.
- Address text: an abstract reader and printer; IPv6 flow information, which the text drops, is not modelled.
- Terminal output, colours, exit codes, host name resolution and the rest of the command line.
