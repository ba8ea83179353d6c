/** What a client decides before and while it talks to the server: which port ranges each
    selected test runs on, and how the product of tests, ranges, directions and ports is
    cut into batches. */
module Schedule {
  import opened Messages

  datatype Protocol = Protocol(name: string, transports: seq<Transport>)

  type Registry = seq<Protocol>

  /** The first registered protocol of that name. */
  function Find(registry: Registry, name: string): (r: Option<Protocol>)
    ensures r.Some? ==> r.value in registry && r.value.name == name
    ensures r.None? <==> forall p <- registry :: p.name != name
  {
    if registry == [] then None
    else if registry[0].name == name then Some(registry[0])
    else Find(registry[1..], name)
  }

  datatype PortSpec = PortSpec(transport: string, start: u16, end: u16)

  const ANY_ICMP := PortSpec("icmp", 0, 0)

  predicate HasMatch(ranges: seq<PortSpec>, t: Transport) {
    exists spec <- ranges :: ParseTransport(spec.transport) == Some(t)
  }

  predicate Supported(ranges: seq<PortSpec>, p: Protocol) {
    exists t <- p.transports :: HasMatch(ranges, t)
  }

  // ----- the check before connecting -----

  function CheckTest(registry: Registry, ranges: seq<PortSpec>, test: string): Result<seq<PortSpec>, SessionError> {
    match Find(registry, test)
    case None => Failure(UnknownProtocol(test))
    case Some(p) =>
      if Supported(ranges, p) then Success(ranges)
      else if Icmp in p.transports then Success(ranges + [ANY_ICMP])
      else Failure(NeedsPortRange(test))
  }

  function CheckTests(registry: Registry, ranges: seq<PortSpec>, tests: seq<string>)
    : Result<seq<PortSpec>, SessionError>
    decreases tests
  {
    if tests == [] then Success(ranges)
    else
      var first := CheckTest(registry, ranges, tests[0]);
      if first.Failure? then first else CheckTests(registry, first.value, tests[1..])
  }

  /** A test that can run on the ranges given, or brings its own ICMP range. */
  predicate Runnable(registry: Registry, ranges: seq<PortSpec>, test: string) {
    var p := Find(registry, test);
    p.Some? && (Supported(ranges, p.value) || Icmp in p.value.transports)
  }

  predicate WantsIcmp(registry: Registry, ranges: seq<PortSpec>, test: string) {
    var p := Find(registry, test);
    p.Some? && !Supported(ranges, p.value) && Icmp in p.value.transports
  }

  lemma {:induction false} SupportedAfterIcmp(ranges: seq<PortSpec>, p: Protocol)
    ensures Supported(ranges + [ANY_ICMP], p) <==> Supported(ranges, p) || Icmp in p.transports
  {
    var more := ranges + [ANY_ICMP];
    forall t: Transport
      ensures HasMatch(more, t) <==> HasMatch(ranges, t) || t == Icmp
    {
      assert ANY_ICMP in more && ParseTransport(ANY_ICMP.transport) == Some(Icmp);
      if HasMatch(ranges, t) {
        var spec :| spec in ranges && ParseTransport(spec.transport) == Some(t);
        assert spec in more;
      }
    }
  }

  /** The check accepts exactly the selections in which every test is runnable; it then adds
      one ICMP range if some test needs it and never two, and leaves no test without a range. */
  lemma {:induction false} CheckTestsExact(registry: Registry, ranges: seq<PortSpec>, tests: seq<string>)
    ensures var r := CheckTests(registry, ranges, tests);
            && (r.Success? <==> forall test <- tests :: Runnable(registry, ranges, test))
            && (r.Success? ==>
                  && r.value == (if exists test <- tests :: WantsIcmp(registry, ranges, test)
                                 then ranges + [ANY_ICMP] else ranges)
                  && forall test <- tests ::
                       var p := Find(registry, test); p.Some? && Supported(r.value, p.value))
    decreases tests
  {
    if tests == [] {
    } else {
      var first := CheckTest(registry, ranges, tests[0]);
      assert forall test :: test in tests <==> test == tests[0] || test in tests[1..];
      if first.Success? {
        CheckTestsExact(registry, first.value, tests[1..]);
        if first.value != ranges {
          forall p: Protocol
            ensures Supported(first.value, p) <==> Supported(ranges, p) || Icmp in p.transports
          {
            SupportedAfterIcmp(ranges, p);
          }
          assert WantsIcmp(registry, ranges, tests[0]);
        } else {
          assert !WantsIcmp(registry, ranges, tests[0]);
        }
        if forall test <- tests[1..] :: Runnable(registry, first.value, test) {
          forall test | test in tests
            ensures var p := Find(registry, test);
                    p.Some? && Supported(CheckTests(registry, ranges, tests).value, p.value)
          {
            if test == tests[0] {
              SupportedAfterIcmp(ranges, Find(registry, test).value);
            }
          }
        }
      } else {
        assert !Runnable(registry, ranges, tests[0]);
      }
    }
  }

  /** A selection that is refused is refused for its first test that cannot run: one that is not known, or
      one that has no range. */
  lemma {:induction false} CheckFails(registry: Registry, ranges: seq<PortSpec>, tests: seq<string>) returns (k: nat)
    requires CheckTests(registry, ranges, tests).Failure?
    ensures k < |tests| && !Runnable(registry, ranges, tests[k]) && forall j :: 0 <= j < k ==> Runnable(registry, ranges, tests[j])
    ensures CheckTests(registry, ranges, tests).error ==
            if Find(registry, tests[k]).None? then UnknownProtocol(tests[k]) else NeedsPortRange(tests[k])
    decreases tests
  {
    var first := CheckTest(registry, ranges, tests[0]);
    if first.Failure? {
      k := 0;
    } else {
      var rest := CheckFails(registry, first.value, tests[1..]);
      k := rest + 1;
      forall test: string
        ensures Runnable(registry, first.value, test) <==> Runnable(registry, ranges, test)
      {
        if Find(registry, test).Some? {
          SupportedAfterIcmp(ranges, Find(registry, test).value);
        }
      }
      assert forall j :: 0 < j < k ==> tests[j] == tests[1..][j - 1];
    }
  }

  lemma {:induction false} CheckTestsValid(registry: Registry, ranges: seq<PortSpec>, tests: seq<string>)
    requires ValidRanges(ranges)
    ensures var r := CheckTests(registry, ranges, tests);
            r.Success? ==> ValidRanges(r.value) && forall test <- tests :: Find(registry, test).Some?
  {
    CheckTestsExact(registry, ranges, tests);
  }

  method CheckSelection(registry: Registry, portRanges: seq<PortSpec>, tests: seq<string>)
    returns (r: Result<seq<PortSpec>, SessionError>)
    ensures r == CheckTests(registry, portRanges, tests)
  {
    var ranges := portRanges;
    for i := 0 to |tests|
      invariant CheckTests(registry, portRanges, tests) == CheckTests(registry, ranges, tests[i..])
    {
      var found := Find(registry, tests[i]);
      if found.None? {
        return Failure(UnknownProtocol(tests[i]));
      }
      var transports := found.value.transports;
      var needsIcmp, hasAny := false, false;
      for j := 0 to |transports|
        invariant hasAny <==> exists t <- transports[..j] :: HasMatch(ranges, t)
        invariant needsIcmp <==> Icmp in transports[..j] && !HasMatch(ranges, Icmp)
      {
        if HasMatch(ranges, transports[j]) {
          hasAny := true;
        } else if transports[j] == Icmp {
          needsIcmp := true;
        }
        assert transports[..j + 1] == transports[..j] + [transports[j]];
      }
      assert transports[..|transports|] == transports;
      assert tests[i..][1..] == tests[i + 1..];
      if needsIcmp && !hasAny {
        ranges := ranges + [ANY_ICMP];
      } else if !hasAny {
        return Failure(NeedsPortRange(tests[i]));
      }
    }
    r := Success(ranges);
  }

  // ----- the enumeration of tests -----

  datatype BatchEntry = BatchEntry(
    id: u32, testName: string, transport: Transport, transportStr: string, port: u16, direction: Direction)

  /** One test on one port range in one direction. */
  datatype Lane = Lane(test: string, spec: PortSpec, transport: Transport, direction: Direction) {
    function Ports(): nat {
      if spec.start <= spec.end then spec.end - spec.start + 1 else 0
    }

    /** The entries of the lane, ascending by port; identifiers count on from `first`. */
    function Entries(first: nat): seq<BatchEntry> {
      seq(Ports(), j requires 0 <= j < Ports() =>
        BatchEntry(Wrap32(first + j), test, transport, spec.transport, spec.start + j, direction))
    }
  }

  function Directions(bidir: bool): seq<Direction> {
    if bidir then [ClientToServer, ServerToClient] else [ClientToServer]
  }

  function LanesOn(test: string, spec: PortSpec, t: Transport, dirs: seq<Direction>): seq<Lane> {
    seq(|dirs|, d requires 0 <= d < |dirs| => Lane(test, spec, t, dirs[d]))
  }

  function LanesOf(test: string, transports: seq<Transport>, ranges: seq<PortSpec>, dirs: seq<Direction>): seq<Lane> {
    if ranges == [] then []
    else
      var t := ParseTransport(ranges[0].transport);
      (if t.Some? && t.value in transports then LanesOn(test, ranges[0], t.value, dirs) else [])
      + LanesOf(test, transports, ranges[1..], dirs)
  }

  function Lanes(registry: Registry, tests: seq<string>, ranges: seq<PortSpec>, dirs: seq<Direction>): seq<Lane> {
    if tests == [] then []
    else
      var p := Find(registry, tests[0]);
      (if p.Some? then LanesOf(tests[0], p.value.transports, ranges, dirs) else [])
      + Lanes(registry, tests[1..], ranges, dirs)
  }

  function TotalPorts(lanes: seq<Lane>): nat {
    if lanes == [] then 0 else TotalPorts(lanes[..|lanes| - 1]) + lanes[|lanes| - 1].Ports()
  }

  /** Every test of the scan in the order in which it is numbered. */
  function Enumerate(lanes: seq<Lane>): seq<BatchEntry> {
    if lanes == [] then []
    else
      var before := lanes[..|lanes| - 1];
      Enumerate(before) + lanes[|lanes| - 1].Entries(TotalPorts(before))
  }

  function Chunks<T>(s: seq<T>, n: nat): seq<seq<T>>
    requires n > 0
  {
    if s == [] then []
    else if |s| <= n then [s]
    else [s[..n]] + Chunks(s[n..], n)
  }

  function Flatten<T>(batches: seq<seq<T>>): seq<T> {
    if batches == [] then [] else Flatten(batches[..|batches| - 1]) + batches[|batches| - 1]
  }

  /** The batches of a scan: each lane is cut on its own. */
  function Batches(lanes: seq<Lane>, n: nat): seq<seq<BatchEntry>>
    requires n > 0
  {
    if lanes == [] then []
    else
      var before := lanes[..|lanes| - 1];
      Batches(before, n) + Chunks(lanes[|lanes| - 1].Entries(TotalPorts(before)), n)
  }

  function Max(a: nat, b: nat): nat {
    if a < b then b else a
  }

  datatype Config = Config(tests: seq<string>, portRanges: seq<PortSpec>, bidir: bool, parallel: nat)

  predicate ValidRanges(ranges: seq<PortSpec>) {
    forall spec <- ranges :: spec.start <= spec.end
  }

  function Plan(registry: Registry, config: Config): Result<seq<seq<BatchEntry>>, SessionError> {
    if !ValidRanges(config.portRanges) then Failure(InvalidPortRange)
    else
      match CheckTests(registry, config.portRanges, config.tests)
      case Failure(e) => Failure(e)
      case Success(ranges) =>
        Success(Batches(Lanes(registry, config.tests, ranges, Directions(config.bidir)), Max(1, config.parallel)))
  }

  lemma {:induction false} FlattenAppend<T>(a: seq<seq<T>>, b: seq<seq<T>>)
    ensures Flatten(a + b) == Flatten(a) + Flatten(b)
  {
    if b == [] {
      assert a + b == a;
    } else {
      var before, last := b[..|b| - 1], b[|b| - 1];
      FlattenAppend(a, before);
      FlattenLast(a + before, last);
      FlattenLast(before, last);
      hide Flatten;
      assert b == before + [last] && a + b == (a + before) + [last];
    }
  }

  lemma {:induction false} FlattenLast<T>(batches: seq<seq<T>>, last: seq<T>)
    ensures Flatten(batches + [last]) == Flatten(batches) + last
  {
    assert (batches + [last])[..|batches|] == batches;
  }

  lemma {:induction false} ChunksFlatten<T>(s: seq<T>, n: nat)
    requires n > 0
    ensures Flatten(Chunks(s, n)) == s
  {
    if |s| > n {
      ChunksFlatten(s[n..], n);
      FlattenAppend([s[..n]], Chunks(s[n..], n));
      assert Flatten([s[..n]]) == s[..n];
    } else if s != [] {
      assert Flatten([s]) == s;
    }
  }

  /** Each lane uses exactly ceil(ports / n) batches. */
  lemma {:induction false} ChunksCount<T>(s: seq<T>, n: nat)
    requires n > 0
    ensures (|Chunks(s, n)| - 1) * n < |s| <= |Chunks(s, n)| * n
  {
    if |s| > n {
      var rest := Chunks(s[n..], n);
      ChunksCount(s[n..], n);
      assert |Chunks(s, n)| == |rest| + 1;
      assert (|rest| + 1) * n == |rest| * n + n && (|rest| - 1) * n == |rest| * n - n;
    }
  }

  lemma {:induction false} ChunksFull<T>(batch: seq<T>, rest: seq<T>, n: nat)
    requires |batch| == n > 0
    ensures Chunks(batch + rest, n) == [batch] + Chunks(rest, n)
  {
    if rest == [] {
      assert batch + rest == batch;
    } else {
      assert (batch + rest)[..n] == batch && (batch + rest)[n..] == rest;
    }
  }

  /** The loop that sends the tests: it fills a batch, hands it on when it is full, and
      hands on the rest at the end of each direction. */
  method CutBatches(registry: Registry, config: Config)
    returns (r: Result<seq<seq<BatchEntry>>, SessionError>)
    ensures r == Plan(registry, config)
  {
    if !ValidRanges(config.portRanges) {
      return Failure(InvalidPortRange);
    }
    var checked := CheckSelection(registry, config.portRanges, config.tests);
    if checked.Failure? {
      return Failure(checked.error);
    }
    var ranges := checked.value;
    CheckTestsValid(registry, config.portRanges, config.tests);
    var directions := Directions(config.bidir);
    var id: u32 := 0;
    var batches: seq<seq<BatchEntry>> := [];
    ghost var all := Lanes(registry, config.tests, ranges, directions);
    ghost var done: seq<Lane> := [];
    for i := 0 to |config.tests|
      invariant all == done + Lanes(registry, config.tests[i..], ranges, directions)
      invariant Cut(batches, id, done, config.parallel)
    {
      var test := config.tests[i];
      var found := Find(registry, test);
      assert found.Some?;  // the program looks the name up again; after the check it cannot be missing
      ghost var lanes := LanesOf(test, found.value.transports, ranges, directions);
      LanesNext(registry, config.tests, i, ranges, directions, done);
      batches, id := CutTest(found.value, test, ranges, directions, config.parallel, batches, id, done);
      done := done + lanes;
    }
    assert done == all;
    r := Success(batches);
  }

  lemma {:induction false} LanesNext(registry: Registry, tests: seq<string>, i: nat, ranges: seq<PortSpec>, dirs: seq<Direction>, done: seq<Lane>)
    requires i < |tests| && Find(registry, tests[i]).Some?
    ensures var p := Find(registry, tests[i]).value;
            done + Lanes(registry, tests[i..], ranges, dirs) ==
            (done + LanesOf(tests[i], p.transports, ranges, dirs)) + Lanes(registry, tests[i + 1..], ranges, dirs)
  {
    assert tests[i..][1..] == tests[i + 1..];
  }

  /** How far the sending loops have come: the lanes done so far are cut, the next number is known. */
  ghost predicate Cut(batches: seq<seq<BatchEntry>>, id: u32, done: seq<Lane>, parallel: nat) {
    batches == Batches(done, Max(1, parallel)) && id == Wrap32(TotalPorts(done))
  }

  /** The loop over the port ranges for one test. */
  method CutTest(p: Protocol, test: string, ranges: seq<PortSpec>, directions: seq<Direction>, parallel: nat,
                 batches0: seq<seq<BatchEntry>>, id0: u32, ghost done0: seq<Lane>)
    returns (batches: seq<seq<BatchEntry>>, id: u32)
    requires ValidRanges(ranges) && Cut(batches0, id0, done0, parallel)
    ensures Cut(batches, id, done0 + LanesOf(test, p.transports, ranges, directions), parallel)
  {
    batches, id := batches0, id0;
    ghost var done := done0;
    ghost var all := done0 + LanesOf(test, p.transports, ranges, directions);
    for j := 0 to |ranges|
      invariant all == done + LanesOf(test, p.transports, ranges[j..], directions)
      invariant Cut(batches, id, done, parallel)
    {
      var transport := ParseTransport(ranges[j].transport);
      assert ranges[j..][1..] == ranges[j + 1..];
      ghost var later := LanesOf(test, p.transports, ranges[j + 1..], directions);
      if transport.Some? && transport.value in p.transports {
        ghost var lanes := LanesOn(test, ranges[j], transport.value, directions);
        assert done + (lanes + later) == (done + lanes) + later;
        batches, id := CutRange(test, ranges[j], transport.value, directions, parallel, batches, id, done);
        done := done + lanes;
      } else {
        assert [] + later == later;
      }
    }
    assert done == all;
  }

  /** The loop over the directions for one test and range: opposite directions never share a batch. */
  method CutRange(test: string, spec: PortSpec, transport: Transport, directions: seq<Direction>, parallel: nat,
                  batches0: seq<seq<BatchEntry>>, id0: u32, ghost done0: seq<Lane>)
    returns (batches: seq<seq<BatchEntry>>, id: u32)
    requires spec.start <= spec.end && Cut(batches0, id0, done0, parallel)
    ensures Cut(batches, id, done0 + LanesOn(test, spec, transport, directions), parallel)
  {
    hide Cut, Max;
    batches, id := batches0, id0;
    ghost var lanes := LanesOn(test, spec, transport, directions);
    ghost var done := done0;
    for d := 0 to |directions|
      invariant done == done0 + lanes[..d]
      invariant Cut(batches, id, done, parallel)
    {
      batches, id := CutLane(test, spec, transport, directions[d], parallel, batches, id, done);
      done := done + [lanes[d]];
    }
    assert lanes[..|directions|] == lanes;
  }

  lemma {:induction false} CutOneMore(done: seq<Lane>, lane: Lane, n: nat)
    requires n > 0
    ensures Batches(done + [lane], n) == Batches(done, n) + Chunks(lane.Entries(TotalPorts(done)), n)
    ensures TotalPorts(done + [lane]) == TotalPorts(done) + lane.Ports()
  {
    assert (done + [lane])[..|done|] == done;
  }

  /** What the batches will be when `batches` are handed on, `batch` is filling up and `rest` is to come. */
  ghost function ToCut<T>(batches: seq<seq<T>>, batch: seq<T>, rest: seq<T>, n: nat): seq<seq<T>>
    requires n > 0
  {
    batches + Chunks(batch + rest, n)
  }

  lemma {:induction false} PushEntry<T>(batches: seq<seq<T>>, batch: seq<T>, s: seq<T>, k: nat, n: nat)
    requires |batch| < n && k < |s|
    ensures var batch' := batch + [s[k]];
            ToCut(batches, batch, s[k..], n) ==
            if |batch'| >= n then ToCut(batches + [batch'], [], s[k + 1..], n) else ToCut(batches, batch', s[k + 1..], n)
  {
    var batch' := batch + [s[k]];
    assert batch + s[k..] == batch' + s[k + 1..];
    if |batch'| >= n {
      ChunksFull(batch', s[k + 1..], n);
      assert [] + s[k + 1..] == s[k + 1..];
    }
  }

  lemma {:induction false} FirstCut<T>(batches: seq<seq<T>>, s: seq<T>, n: nat)
    requires n > 0
    ensures ToCut(batches, [], s[0..], n) == batches + Chunks(s, n)
  {
    assert [] + s[0..] == s;
  }

  lemma {:induction false} LastCut<T>(batches: seq<seq<T>>, batch: seq<T>, n: nat)
    requires |batch| < n
    ensures ToCut(batches, batch, [], n) == if batch == [] then batches else batches + [batch]
  {
    assert batch + [] == batch;
  }

  /** The innermost loop, over the ports of one range in one direction. */
  method CutLane(test: string, spec: PortSpec, transport: Transport, direction: Direction, parallel: nat,
                 batches0: seq<seq<BatchEntry>>, id0: u32, ghost done: seq<Lane>)
    returns (batches: seq<seq<BatchEntry>>, id: u32)
    requires spec.start <= spec.end && Cut(batches0, id0, done, parallel)
    ensures Cut(batches, id, done + [Lane(test, spec, transport, direction)], parallel)
  {
    hide *;
    var batchSize := Max(1, parallel);
    var batch: seq<BatchEntry> := [];
    batches, id := batches0, id0;
    ghost var lane := Lane(test, spec, transport, direction);
    ghost var first := TotalPorts(done);
    ghost var entries := lane.Entries(first);
    ghost var k := 0;
    CutLater(batches0, id0, done, lane, parallel);
    FirstCut(batches0, entries, batchSize);
    for port := spec.start to spec.end + 1
      invariant port == spec.start + k && k <= |entries| && |batch| < batchSize
      invariant id == Wrap32(first + k)
      invariant ToCut(batches, batch, entries[k..], batchSize) == batches0 + Chunks(entries, batchSize)
    {
      var p: u16 := port;
      var entry := BatchEntry(id, test, transport, spec.transport, p, direction);
      LaneEntry(lane, first, k);
      PushEntry(batches, batch, entries, k, batchSize);
      batch := batch + [entry];
      id := Next32(id);
      k := k + 1;
      if |batch| >= batchSize {
        batches, batch := batches + [batch], [];
      }
    }
    assert k == |entries| && entries[k..] == [];
    LastCut(batches, batch, batchSize);
    if batch != [] {
      batches := batches + [batch];
    }
  }

  lemma {:induction false} LaneEntry(lane: Lane, first: nat, k: nat)
    requires k < lane.Ports()
    ensures |lane.Entries(first)| == lane.Ports()
    ensures lane.Entries(first)[k] ==
            BatchEntry(Wrap32(first + k), lane.test, lane.transport, lane.spec.transport, lane.spec.start + k, lane.direction)
    ensures Wrap32(first + k + 1) == Next32(Wrap32(first + k))
  {
  }

  /** What a further lane adds. */
  lemma {:induction false} CutLater(batches: seq<seq<BatchEntry>>, id: u32, done: seq<Lane>, lane: Lane, parallel: nat)
    requires Cut(batches, id, done, parallel) && lane.spec.start <= lane.spec.end
    ensures Max(1, parallel) > 0 && id == Wrap32(TotalPorts(done))
    ensures |lane.Entries(TotalPorts(done))| == lane.Ports() == lane.spec.end - lane.spec.start + 1
    ensures Cut(batches + Chunks(lane.Entries(TotalPorts(done)), Max(1, parallel)), Wrap32(TotalPorts(done) + lane.Ports()),
                done + [lane], parallel)
  {
    CutOneMore(done, lane, Max(1, parallel));
    hide Batches, Chunks, TotalPorts, Wrap32;
  }

  // ----- what the enumeration covers -----

  lemma {:induction false} BatchesFlatten(lanes: seq<Lane>, n: nat)
    requires n > 0
    ensures Flatten(Batches(lanes, n)) == Enumerate(lanes)
  {
    if lanes == [] {
    } else {
      var before := lanes[..|lanes| - 1];
      var cut := lanes[|lanes| - 1].Entries(TotalPorts(before));
      BatchesFlatten(before, n);
      ChunksFlatten(cut, n);
      FlattenAppend(Batches(before, n), Chunks(cut, n));
    }
  }

  /** Tests are numbered consecutively from 0, modulo 2^32. */
  lemma {:induction false} EnumerateIds(lanes: seq<Lane>)
    ensures |Enumerate(lanes)| == TotalPorts(lanes)
    ensures forall i :: 0 <= i < |Enumerate(lanes)| ==> Enumerate(lanes)[i].id == Wrap32(i)
  {
    if lanes == [] {
    } else {
      EnumerateIds(lanes[..|lanes| - 1]);
    }
  }

  /** A batch that one end can run at once: one test, transport and direction, ports strictly
      ascending (so no port is bound twice) and no identifier used twice. */
  ghost predicate Concurrent(batch: seq<BatchEntry>) {
    forall i, j :: 0 <= i < j < |batch| ==>
      && batch[i].testName == batch[j].testName
      && batch[i].transport == batch[j].transport
      && batch[i].transportStr == batch[j].transportStr
      && batch[i].direction == batch[j].direction
      && batch[i].port < batch[j].port
      && batch[i].id != batch[j].id
  }

  /** What holds of each entry on its own. */
  predicate Known(registry: Registry, e: BatchEntry) {
    Find(registry, e.testName).Some? && ParseTransport(e.transportStr) == Some(e.transport)
  }

  ghost predicate GoodBatch(registry: Registry, n: nat, batch: seq<BatchEntry>) {
    1 <= |batch| <= n && Concurrent(batch) && forall e <- batch :: Known(registry, e)
  }

  lemma {:induction false} ChunksGood(registry: Registry, entries: seq<BatchEntry>, n: nat)
    requires n > 0 && Concurrent(entries)
    requires forall e <- entries :: Known(registry, e)
    ensures forall batch <- Chunks(entries, n) :: GoodBatch(registry, n, batch)
  {
    if |entries| > n {
      ChunksGood(registry, entries[n..], n);
    }
  }

  /** Identifiers wrap, yet fewer than 2^32 consecutive ones are distinct. */
  lemma {:induction false} WrapDistinct(a: nat, b: nat)
    requires a < b < a + 0x1_0000_0000
    ensures Wrap32(a) != Wrap32(b)
  {
    WrapIsMod(a);
    WrapIsMod(b);
  }

  lemma {:induction false} LaneConcurrent(lane: Lane, first: nat)
    ensures Concurrent(lane.Entries(first))
  {
    var entries := lane.Entries(first);
    forall i, j | 0 <= i < j < |entries|
      ensures entries[i].id != entries[j].id
    {
      assert entries[i].id == Wrap32(first + i) && entries[j].id == Wrap32(first + j);
      WrapDistinct(first + i, first + j);
    }
  }

  predicate KnownLane(registry: Registry, lane: Lane) {
    Find(registry, lane.test).Some? && ParseTransport(lane.spec.transport) == Some(lane.transport)
  }

  lemma {:induction false} BatchesGood(registry: Registry, lanes: seq<Lane>, n: nat)
    requires n > 0 && forall lane <- lanes :: KnownLane(registry, lane)
    ensures forall batch <- Batches(lanes, n) :: GoodBatch(registry, n, batch)
  {
    if lanes == [] {
    } else {
      var before := lanes[..|lanes| - 1];
      var last := lanes[|lanes| - 1];
      BatchesGood(registry, before, n);
      LaneConcurrent(last, TotalPorts(before));
      assert KnownLane(registry, last);
      ChunksGood(registry, last.Entries(TotalPorts(before)), n);
    }
  }
}
