/** From the command line to the candidate allow rules: the theorems about sessions and about the
    merge, joined for every accepted selection of tests and ports. */
module EndToEnd {
  import opened Messages
  import opened Schedule
  import opened ClientBatch
  import opened ServerBatch
  import opened Session
  import opened SessionTheorems
  import opened Merge
  import opened MergeTheorems
  import opened Coverage
  import opened Exchange

  /** A client's configuration and the two ends' surroundings. */
  datatype Scan = Scan(
    config: Config, registry: Registry, server: ServerSetup,
    target: SocketAddr, local: SocketAddr, showAddr: SocketAddr -> string,
    timeoutMs: u64, json: bool, jsonExport: bool, capacity: nat)

  /** The client accepts the selection, and the server knows the tests it names. */
  ghost predicate Accepted(scan: Scan) {
    && Plan(scan.registry, scan.config).Success?
    && (forall test <- scan.config.tests :: Find(scan.server.registry, test).Some?)
    && scan.capacity >= 1
  }

  /** The ranges after the check, with the ICMP range it may have added. */
  function Ranges(scan: Scan): seq<PortSpec>
    requires Plan(scan.registry, scan.config).Success?
  {
    CheckTests(scan.registry, scan.config.portRanges, scan.config.tests).value
  }

  function ScanLanes(scan: Scan): seq<Lane>
    requires Plan(scan.registry, scan.config).Success?
  {
    Lanes(scan.registry, scan.config.tests, Ranges(scan), Directions(scan.config.bidir))
  }

  /** Results are kept unless each is printed as a line of its own. */
  function ToSetup(scan: Scan): Setup
    requires Plan(scan.registry, scan.config).Success?
  {
    Setup(Plan(scan.registry, scan.config).value, scan.config.parallel, scan.timeoutMs, !scan.json || scan.jsonExport,
          scan.target, scan.local, scan.showAddr, scan.server, scan.capacity)
  }

  /** Every accepted selection gives a session to which the session theorems apply, for any
      `parallel`, 0 included. */
  lemma {:induction false} AcceptedIsSound(scan: Scan)
    requires Accepted(scan)
    ensures Sound(ToSetup(scan))
    ensures Flatten(ToSetup(scan).plan) == Enumerate(ScanLanes(scan))
  {
    var lanes := ScanLanes(scan);
    forall lane | lane in lanes
      ensures KnownLane(scan.server.registry, lane)
    {
      LanesExact(scan.registry, scan.config.tests, Ranges(scan), Directions(scan.config.bidir), lane);
    }
    BatchesGood(scan.server.registry, lanes, Max(1, scan.config.parallel));
    BatchesFlatten(lanes, Max(1, scan.config.parallel));
  }

  /** Every accepted scan, however it is interleaved: neither end reports a protocol error, a step
      can be taken until both have finished, and they have finished after exactly 5 steps per test,
      2 per batch and 8 besides. */
  lemma {:induction false} EveryScanEnds(scan: Scan, w: World, actions: seq<Action>)
    requires Accepted(scan) && IsRun(ToSetup(scan), w, INITIAL, actions)
    ensures var t := Reached(ToSetup(scan), w, actions);
            && !t.client.phase.ClientBroken? && !t.server.phase.ServerBroken?
            && (!Over(t) ==> exists a :: Enabled(ToSetup(scan), t, a))
            && (Over(t) <==>
                  |actions| == 5 * TotalPorts(ScanLanes(scan)) + 2 * |Plan(scan.registry, scan.config).value| + 8)
  {
    var su := ToSetup(scan);
    AcceptedIsSound(scan);
    EnumerateIds(ScanLanes(scan));
    hide Reached, Enabled, IsRun, Plan, ScanLanes, Sound;
    NoProtocolError(su, w, actions);
    EveryRunEnds(su, w, actions);
    if !Over(Reached(su, w, actions)) {
      var a := NoDeadlock(su, w, actions);
    }
  }

  /** Every selected test runs on at least one port, forward in every scan and in reverse if both
      directions are wanted. */
  lemma {:induction false} EveryTestRuns(scan: Scan, test: string, direction: Direction) returns (i: nat)
    requires Accepted(scan) && test in scan.config.tests && (direction == ClientToServer || scan.config.bidir)
    ensures i < |Enumerate(ScanLanes(scan))|
    ensures Enumerate(ScanLanes(scan))[i].testName == test && Enumerate(ScanLanes(scan))[i].direction == direction
  {
    CheckTestsExact(scan.registry, scan.config.portRanges, scan.config.tests);
    CheckTestsValid(scan.registry, scan.config.portRanges, scan.config.tests);
    var ranges := Ranges(scan);
    var p := Find(scan.registry, test).value;
    assert Supported(ranges, p);
    var t :| t in p.transports && HasMatch(ranges, t);
    var spec :| spec in ranges && ParseTransport(spec.transport) == Some(t);
    var lane := Lane(test, spec, t, direction);
    LanesExact(scan.registry, scan.config.tests, ranges, Directions(scan.config.bidir), lane);
    var lanes := ScanLanes(scan);
    var k :| 0 <= k < |lanes| && lanes[k] == lane;
    i := EnumerateCovers(lanes, k, spec.start);
  }

  // ----- what is recorded -----

  /** What a client ends with, field by field: the counters are the numbers of tests whose halves together
      pass, fail and err, modulo 2^32; and, if results are kept, there is one for each test, in test order,
      with what both halves say of it. */
  ghost predicate Records(tests: seq<BatchEntry>, w: World, keep: bool, ledger: Ledger) {
    && ledger.counters.passed == |Jointly(w.clientRuns, w.serverRuns, |tests|, Passes)| % 0x1_0000_0000
    && ledger.counters.failed == |Jointly(w.clientRuns, w.serverRuns, |tests|, Fails)| % 0x1_0000_0000
    && ledger.counters.errors == |Jointly(w.clientRuns, w.serverRuns, |tests|, Errs)| % 0x1_0000_0000
    && |ledger.results| == (if keep then |tests| else 0)
    && forall i: nat :: i < |ledger.results| ==> RecordsOne(tests[i], w.clientRuns(i), w.serverRuns(i), ledger.results[i])
  }

  predicate RecordsOne(test: BatchEntry, client: ProtocolResult, server: ProtocolResult, e: TestEntry) {
    && e.protocol == test.testName && e.transport == test.transportStr && e.port == test.port && e.direction == test.direction
    && Joins(client, server, e.result, e.serverError)
  }

  lemma {:induction false} LedgerRecords(su: Setup, w: World)
    ensures Records(Flatten(su.plan), w, su.keep, LedgerAt(su, w, |Flatten(su.plan)|))
  {
    var all := |Flatten(su.plan)|;
    CountSums(w.Verdicts(), all);
    VerdictsJoint(w.clientRuns, w.serverRuns, w.Verdicts(), all, Passes);
    VerdictsJoint(w.clientRuns, w.serverRuns, w.Verdicts(), all, Fails);
    VerdictsJoint(w.clientRuns, w.serverRuns, w.Verdicts(), all, Errs);
    hide Jointly, Those, Count, Flatten;
    forall i: nat | i < all
      ensures RecordsOne(Flatten(su.plan)[i], w.clientRuns(i), w.serverRuns(i), ResultAt(su, w, i))
    {
      JoinsExactly(w.clientRuns(i), w.serverRuns(i), Verdict(w.clientRuns(i), w.serverRuns(i)), ServerReason(w.serverRuns(i)));
    }
  }

  /** After any complete run: one result for each test of the plan, unless each was printed as a line of
      its own (`--json` without `--json-export`), when there is none; and both summaries. */
  lemma {:induction false} EveryTestRecorded(scan: Scan, w: World, actions: seq<Action>)
    requires Accepted(scan) && IsRun(ToSetup(scan), w, INITIAL, actions) && Over(Reached(ToSetup(scan), w, actions))
    ensures var tests, t := Flatten(Plan(scan.registry, scan.config).value), Reached(ToSetup(scan), w, actions);
            && Records(tests, w, !scan.json || scan.jsonExport, t.client.ledger)
            && Sums(t.server.counters, w.serverRuns, |tests|)
  {
    var su := ToSetup(scan);
    AcceptedIsSound(scan);
    hide Reached, IsRun, Sound, Plan, LedgerAt, Records, Sums, Flatten;
    Outcome(su, w, actions);
    LedgerRecords(su, w);
    CountSums(w.serverRuns, |Flatten(su.plan)|);
  }

  // ----- what an allow rule means -----

  /** Some test of the scan ran on this port, and passed at both ends. */
  ghost predicate PassedAtBothEnds(scan: Scan, w: World, protocol: string, transport: string, direction: Direction, port: u16)
    requires Plan(scan.registry, scan.config).Success?
  {
    var all := Enumerate(ScanLanes(scan));
    exists i: nat :: i < |all|
      && all[i].testName == protocol && all[i].transportStr == transport && all[i].direction == direction
      && all[i].port == port && w.clientRuns(i).Pass? && w.serverRuns(i).Pass?
  }

  /** A candidate allow rule: a merged entry that passed and contains the port. */
  ghost predicate Allowed(results: seq<TestEntry>, protocol: string, transport: string, direction: Direction, port: u16) {
    exists m <- MergeAll(Sort(results)) ::
      && m.status == "pass" && m.protocol == protocol && m.transport == transport && m.direction == direction
      && m.ports.First() <= port <= m.ports.Last()
  }

  lemma {:induction false} AllowedIsPass(results: seq<TestEntry>, protocol: string, transport: string, direction: Direction, port: u16)
    ensures Allowed(results, protocol, transport, direction, port) <==>
            exists e <- results :: e.result.Pass? && e.protocol == protocol && e.transport == transport
                                   && e.direction == direction && e.port == port
  {
    if Allowed(results, protocol, transport, direction, port) {
      var m :| m in MergeAll(Sort(results)) && m.status == "pass" && m.protocol == protocol && m.transport == transport
        && m.direction == direction && m.ports.First() <= port <= m.ports.Last();
      RangeMeaning(results, At(m, port));
      assert Covers(m, At(m, port));
      var e :| e in results && ToSeen(e) == At(m, port);
      assert Status(e.result) == "pass";
    }
    if exists e <- results :: e.result.Pass? && e.protocol == protocol && e.transport == transport
                              && e.direction == direction && e.port == port {
      var e :| e in results && e.result.Pass? && e.protocol == protocol && e.transport == transport
        && e.direction == direction && e.port == port;
      RangeMeaning(results, ToSeen(e));
      var m :| m in MergeAll(Sort(results)) && Covers(m, ToSeen(e));
      assert m.status == ToSeen(e).status;
    }
  }

  /** What a candidate allow rule says, end to end: after any complete run a port lies in an
      exported pass range for a test, transport and direction if and only if some test on that port
      in that direction passed at the client and passed at the server. */
  lemma {:induction false} AllowRulesMean(scan: Scan, w: World, actions: seq<Action>,
                                          protocol: string, transport: string, direction: Direction, port: u16)
    requires Accepted(scan) && (!scan.json || scan.jsonExport)
    requires IsRun(ToSetup(scan), w, INITIAL, actions) && Over(Reached(ToSetup(scan), w, actions))
    ensures Allowed(Reached(ToSetup(scan), w, actions).client.ledger.results, protocol, transport, direction, port) <==>
            PassedAtBothEnds(scan, w, protocol, transport, direction, port)
  {
    var su := ToSetup(scan);
    var all := Enumerate(ScanLanes(scan));
    AcceptedIsSound(scan);
    Outcome(su, w, actions);
    var results := Reached(su, w, actions).client.ledger.results;
    assert |results| == |all|;
    forall i: nat | i < |all|
      ensures results[i] == ResultAt(su, w, i)
      ensures results[i].protocol == all[i].testName && results[i].transport == all[i].transportStr
      ensures results[i].direction == all[i].direction && results[i].port == all[i].port
      ensures results[i].result.Pass? <==> w.clientRuns(i).Pass? && w.serverRuns(i).Pass?
    {
    }
    hide Reached, IsRun, ScanLanes, Enumerate;
    AllowedIsPass(results, protocol, transport, direction, port);
    if PassedAtBothEnds(scan, w, protocol, transport, direction, port) {
      var i: nat :| i < |all|
        && all[i].testName == protocol && all[i].transportStr == transport && all[i].direction == direction
        && all[i].port == port && w.clientRuns(i).Pass? && w.serverRuns(i).Pass?;
      assert results[i] in results;
    }
  }

  // ----- the payload differences in the export -----

  /** The i-th test is of this kind. */
  predicate IsTest(all: seq<BatchEntry>, i: nat, protocol: string, transport: string, direction: Direction, port: u16) {
    && i < |all| && all[i].testName == protocol && all[i].transportStr == transport
    && all[i].direction == direction && all[i].port == port
  }

  /** An observed payload difference: a merged entry that failed with the marked reason and contains the port. */
  ghost predicate DifferenceListed(results: seq<TestEntry>, protocol: string, transport: string, direction: Direction, port: u16) {
    exists m <- MergeAll(Sort(results)) ::
      && m.status == "fail" && Contains(m.reason, "mismatch: received payload differs")
      && m.protocol == protocol && m.transport == transport && m.direction == direction
      && m.ports.First() <= port <= m.ports.Last()
  }

  lemma {:induction false} DifferenceIsListed(results: seq<TestEntry>, protocol: string, transport: string, direction: Direction, port: u16)
    ensures DifferenceListed(results, protocol, transport, direction, port) <==>
            exists e <- results :: Listed(e.result) && e.protocol == protocol && e.transport == transport
                                   && e.direction == direction && e.port == port
  {
    hide MergeAll, Sort, Contains;
    if DifferenceListed(results, protocol, transport, direction, port) {
      var m :| m in MergeAll(Sort(results)) && m.status == "fail" && Contains(m.reason, "mismatch: received payload differs")
        && m.protocol == protocol && m.transport == transport && m.direction == direction && m.ports.First() <= port <= m.ports.Last();
      RangeMeaning(results, At(m, port));
      assert Covers(m, At(m, port));
      var e :| e in results && ToSeen(e) == At(m, port);
      assert Status(e.result) == "fail" && Reason(e.result) == m.reason;
    }
    if exists e <- results :: Listed(e.result) && e.protocol == protocol && e.transport == transport
                              && e.direction == direction && e.port == port {
      var e :| e in results && Listed(e.result) && e.protocol == protocol && e.transport == transport
        && e.direction == direction && e.port == port;
      RangeMeaning(results, ToSeen(e));
      var m :| m in MergeAll(Sort(results)) && Covers(m, ToSeen(e));
      assert m.status == ToSeen(e).status && m.reason == ToSeen(e).reason;
    }
  }

  /** After any complete run a port is exported as a payload difference if and only if the verdict of
      some test on it is one that is listed. */
  lemma {:induction false} DifferencesMean(scan: Scan, w: World, actions: seq<Action>,
                                           protocol: string, transport: string, direction: Direction, port: u16)
    requires Accepted(scan) && (!scan.json || scan.jsonExport)
    requires IsRun(ToSetup(scan), w, INITIAL, actions) && Over(Reached(ToSetup(scan), w, actions))
    ensures DifferenceListed(Reached(ToSetup(scan), w, actions).client.ledger.results, protocol, transport, direction, port) <==>
            exists i: nat :: IsTest(Enumerate(ScanLanes(scan)), i, protocol, transport, direction, port)
                             && Listed(Verdict(w.clientRuns(i), w.serverRuns(i)))
  {
    var su := ToSetup(scan);
    var all := Enumerate(ScanLanes(scan));
    AcceptedIsSound(scan);
    Outcome(su, w, actions);
    var results := Reached(su, w, actions).client.ledger.results;
    assert |results| == |all|;
    forall i: nat | i < |all|
      ensures results[i].protocol == all[i].testName && results[i].transport == all[i].transportStr
      ensures results[i].direction == all[i].direction && results[i].port == all[i].port
      ensures results[i].result == Verdict(w.clientRuns(i), w.serverRuns(i))
    {
      assert results[i] == ResultAt(su, w, i);
    }
    hide Reached, IsRun, ScanLanes, Enumerate, Listed, Verdict, DifferenceListed;
    DifferenceIsListed(results, protocol, transport, direction, port);
    if i: nat :| IsTest(all, i, protocol, transport, direction, port) && Listed(Verdict(w.clientRuns(i), w.serverRuns(i))) {
      assert results[i] in results;
    }
  }

  // ----- port tests -----

  /** The tests of this protocol exchange this payload, each in a trial of its own. */
  ghost predicate Exchanges(scan: Scan, w: World, protocol: string, payload: seq<byte>, trials: nat -> Trial)
    requires Plan(scan.registry, scan.config).Success? && IsSlice(payload)
  {
    var all := Enumerate(ScanLanes(scan));
    forall i: nat :: i < |all| && all[i].testName == protocol ==>
      && w.clientRuns(i) == ClientHalf(payload, all[i].direction, trials(i))
      && w.serverRuns(i) == ServerHalf(payload, all[i].direction, trials(i))
  }

  /** What a candidate allow rule of a port test says, end to end: the network did the payload no harm
      in some test on that port, and neither half of it outlasted its deadline. */
  lemma {:induction false} PortTestAllowed(scan: Scan, w: World, actions: seq<Action>, protocol: string, transport: string,
                                           direction: Direction, port: u16, payload: seq<byte>, trials: nat -> Trial)
    requires Accepted(scan) && (!scan.json || scan.jsonExport) && IsSlice(payload) && Exchanges(scan, w, protocol, payload, trials)
    requires IsRun(ToSetup(scan), w, INITIAL, actions) && Over(Reached(ToSetup(scan), w, actions))
    ensures Allowed(Reached(ToSetup(scan), w, actions).client.ledger.results, protocol, transport, direction, port) <==>
            exists i: nat :: IsTest(Enumerate(ScanLanes(scan)), i, protocol, transport, direction, port)
                             && Unharmed(payload, trials(i).net) && InTime(trials(i))
  {
    var all := Enumerate(ScanLanes(scan));
    AllowRulesMean(scan, w, actions, protocol, transport, direction, port);
    PassedIsTest(scan, w, protocol, transport, direction, port);
    forall i: nat | IsTest(all, i, protocol, transport, direction, port)
      ensures w.clientRuns(i).Pass? && w.serverRuns(i).Pass? <==> Unharmed(payload, trials(i).net) && InTime(trials(i))
    {
      hide Reached, IsRun, Enumerate, ScanLanes, Unharmed, InTime, ClientHalf, ServerHalf, Allowed, PassedAtBothEnds;
      TrialSound(payload, direction, trials(i));
    }
    hide *;
  }

  lemma {:induction false} PassedIsTest(scan: Scan, w: World, protocol: string, transport: string, direction: Direction, port: u16)
    requires Plan(scan.registry, scan.config).Success?
    ensures PassedAtBothEnds(scan, w, protocol, transport, direction, port) <==>
            exists i: nat :: IsTest(Enumerate(ScanLanes(scan)), i, protocol, transport, direction, port)
                             && w.clientRuns(i).Pass? && w.serverRuns(i).Pass?
  {
    var all := Enumerate(ScanLanes(scan));
    if PassedAtBothEnds(scan, w, protocol, transport, direction, port) {
      var i: nat :| i < |all|
        && all[i].testName == protocol && all[i].transportStr == transport && all[i].direction == direction
        && all[i].port == port && w.clientRuns(i).Pass? && w.serverRuns(i).Pass?;
      assert IsTest(all, i, protocol, transport, direction, port);
    }
  }

  /** What an exported payload difference of a port test says, end to end, for every scan: some test on
      that port met what `Lists` says. */
  lemma {:induction false} PortTestListed(scan: Scan, w: World, actions: seq<Action>, protocol: string, transport: string,
                                          direction: Direction, port: u16, payload: seq<byte>, trials: nat -> Trial)
    requires Accepted(scan) && (!scan.json || scan.jsonExport) && IsSlice(payload) && Exchanges(scan, w, protocol, payload, trials)
    requires IsRun(ToSetup(scan), w, INITIAL, actions) && Over(Reached(ToSetup(scan), w, actions))
    ensures DifferenceListed(Reached(ToSetup(scan), w, actions).client.ledger.results, protocol, transport, direction, port) <==>
            exists i: nat :: IsTest(Enumerate(ScanLanes(scan)), i, protocol, transport, direction, port)
                             && Lists(payload, direction, trials(i))
  {
    var all := Enumerate(ScanLanes(scan));
    DifferencesMean(scan, w, actions, protocol, transport, direction, port);
    forall i: nat | IsTest(all, i, protocol, transport, direction, port)
      ensures Listed(Verdict(w.clientRuns(i), w.serverRuns(i))) <==> Lists(payload, direction, trials(i))
    {
      hide Reached, IsRun, Enumerate, ScanLanes, Listed, Verdict, Lists, ClientHalf, ServerHalf, DifferenceListed;
      ListedExactly(payload, direction, trials(i));
    }
    hide *;
  }

  /** Where no error text holds the marker: of a reverse test it says that the payload reached the client
      altered and the client ended in time; of a forward test, that the payload reached the server
      altered, the client still passed, and both ended in time. */
  lemma {:induction false} PortTestDifferences(scan: Scan, w: World, actions: seq<Action>, protocol: string, transport: string,
                                               direction: Direction, port: u16, payload: seq<byte>, trials: nat -> Trial)
    requires Accepted(scan) && (!scan.json || scan.jsonExport) && IsSlice(payload) && Exchanges(scan, w, protocol, payload, trials)
    requires IsRun(ToSetup(scan), w, INITIAL, actions) && Over(Reached(ToSetup(scan), w, actions))
    requires forall i: nat :: IsTest(Enumerate(ScanLanes(scan)), i, protocol, transport, direction, port) ==> Plain(trials(i).net)
    ensures DifferenceListed(Reached(ToSetup(scan), w, actions).client.ledger.results, protocol, transport, direction, port) <==>
            exists i: nat :: IsTest(Enumerate(ScanLanes(scan)), i, protocol, transport, direction, port)
                             && ReachesAltered(payload, trials(i).net)
                             && (if direction == ServerToClient then !trials(i).targetLate
                                 else Initiates(payload, trials(i).net).Pass? && InTime(trials(i)))
  {
    var all := Enumerate(ScanLanes(scan));
    PortTestListed(scan, w, actions, protocol, transport, direction, port, payload, trials);
    forall i: nat | IsTest(all, i, protocol, transport, direction, port)
      ensures Lists(payload, direction, trials(i)) <==>
              && ReachesAltered(payload, trials(i).net)
              && (if direction == ServerToClient then !trials(i).targetLate
                  else Initiates(payload, trials(i).net).Pass? && InTime(trials(i)))
    {
      hide Reached, IsRun, Enumerate, ScanLanes, DifferenceListed, Plain, Listed, Verdict, Initiates, Responds, ReachesAltered, Lists;
      ListedExactly(payload, direction, trials(i));
      ListedPlain(payload, trials(i));
    }
    hide *;
  }

  // ----- the counters in the export -----

  /** These results are counted as in this tally. */
  predicate Tallied(results: seq<TestEntry>, t: Tally) {
    && CountStatus(results, "pass") == t.passed
    && CountStatus(results, "fail") == t.failed
    && CountStatus(results, "error") == t.errors
  }

  lemma {:induction false} TalliedMore(results: seq<TestEntry>, t: Tally, e: TestEntry)
    requires Tallied(results, t)
    ensures Tallied(results + [e], t.Add(e.result))
  {
    hide CountStatus;
    CountAppend(results, e, "pass");
    CountAppend(results, e, "fail");
    CountAppend(results, e, "error");
  }

  lemma {:induction false} CountLedger(su: Setup, w: World, n: nat)
    requires su.keep && n <= |Flatten(su.plan)|
    ensures Tallied(LedgerAt(su, w, n).results, Count(w.Verdicts(), 0, {}, n))
  {
    if n == 0 {
    } else {
      hide *;
      CountLedger(su, w, n - 1);
      OneMoreResult(su, w, n - 1);
      TalliedMore(LedgerAt(su, w, n - 1).results, Count(w.Verdicts(), 0, {}, n - 1), ResultAt(su, w, n - 1));
    }
  }

  lemma {:induction false} OneMoreResult(su: Setup, w: World, n: nat)
    requires su.keep && n < |Flatten(su.plan)|
    ensures LedgerAt(su, w, n + 1).results == LedgerAt(su, w, n).results + [ResultAt(su, w, n)]
    ensures Count(w.Verdicts(), 0, {}, n + 1) == Count(w.Verdicts(), 0, {}, n).Add(ResultAt(su, w, n).result)
  {
  }

  /** The summary of a complete run agrees with the export: each counter is the sum of the counts of
      the exported entries of that status. */
  lemma {:induction false} CountersMatchExport(scan: Scan, w: World, actions: seq<Action>)
    requires Accepted(scan) && (!scan.json || scan.jsonExport)
    requires IsRun(ToSetup(scan), w, INITIAL, actions) && Over(Reached(ToSetup(scan), w, actions))
    ensures var ledger := Reached(ToSetup(scan), w, actions).client.ledger;
            var merged := MergeAll(Sort(ledger.results));
            && ledger.counters.passed == Wrap32(SumCounts(merged, "pass"))
            && ledger.counters.failed == Wrap32(SumCounts(merged, "fail"))
            && ledger.counters.errors == Wrap32(SumCounts(merged, "error"))
  {
    var su := ToSetup(scan);
    AcceptedIsSound(scan);
    Outcome(su, w, actions);
    CountLedger(su, w, |Flatten(su.plan)|);
    var results := Reached(su, w, actions).client.ledger.results;
    CountsMatch(results, "pass");
    CountsMatch(results, "fail");
    CountsMatch(results, "error");
  }

  // ----- the size of the export -----

  /** Without overlapping selections the export of every complete run is as short as any description
      of its results by contiguous uniform ranges, and does not depend on their order. */
  lemma {:induction false} ExportMinimal(scan: Scan, w: World, actions: seq<Action>, cover: seq<MergedEntry>)
    requires Accepted(scan) && (!scan.json || scan.jsonExport) && NoOverlap(scan.config.tests, Ranges(scan))
    requires IsRun(ToSetup(scan), w, INITIAL, actions) && Over(Reached(ToSetup(scan), w, actions))
    requires Describes(cover, Reached(ToSetup(scan), w, actions).client.ledger.results)
    ensures var results := Reached(ToSetup(scan), w, actions).client.ledger.results;
            |MergeAll(Sort(results))| <= |cover| && OrderFree(results)
  {
    var su := ToSetup(scan);
    AcceptedIsSound(scan);
    Outcome(su, w, actions);
    ResultsDistinct(scan, w);
    var results := Reached(su, w, actions).client.ledger.results;
    MergeMinimal(results, cover);
    MergeOrderFree(results);
  }

  lemma {:induction false} ResultsDistinct(scan: Scan, w: World)
    requires Accepted(scan) && (!scan.json || scan.jsonExport) && NoOverlap(scan.config.tests, Ranges(scan))
    ensures DistinctKeys(LedgerAt(ToSetup(scan), w, |Flatten(ToSetup(scan).plan)|).results)
  {
    var su := ToSetup(scan);
    var lanes := ScanLanes(scan);
    AcceptedIsSound(scan);
    LanesApart(scan.registry, scan.config.tests, Ranges(scan), Directions(scan.config.bidir));
    var results := LedgerAt(su, w, |Flatten(su.plan)|).results;
    forall i, j | 0 <= i < j < |results|
      ensures KeyOf(results[i]) != KeyOf(results[j])
    {
      assert results[i] == ResultAt(su, w, i) && results[j] == ResultAt(su, w, j);
      EnumerateDistinct(lanes, i, j);
    }
  }
}
