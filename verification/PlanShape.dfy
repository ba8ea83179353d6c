/** The plan of a scan, said without the loops that make it: which tests it holds, in which order,
    under which identifiers, and where it is cut. */
module PlanShape {
  import opened Messages
  import opened Schedule

  // ----- what is due -----

  /** The name of a transport. */
  predicate Names(name: string, t: Transport) {
    match t
    case Tcp => name == "tcp"
    case Udp => name == "udp"
    case Icmp => name == "icmp"
  }

  /** The first protocol of that name can use that range. */
  ghost predicate Suits(registry: Registry, test: string, spec: PortSpec) {
    exists k, t ::
      && 0 <= k < |registry| && registry[k].name == test && (forall j :: 0 <= j < k ==> registry[j].name != test)
      && t in registry[k].transports && Names(spec.transport, t)
  }

  /** The place of a test in a scan: the test and the range by their positions, the direction, the port. */
  datatype Slot = Slot(test: nat, range: nat, reverse: bool, port: u16)

  /** One direction of one test on one range. */
  predicate SameLane(a: Slot, b: Slot) {
    a.test == b.test && a.range == b.range && a.reverse == b.reverse
  }

  /** By test, then range, then forward before reverse, then port. */
  predicate Earlier(a: Slot, b: Slot) {
    || a.test < b.test
    || (a.test == b.test
        && (|| a.range < b.range
            || (a.range == b.range && (if a.reverse == b.reverse then a.port < b.port else b.reverse))))
  }

  ghost predicate Rising(slots: seq<Slot>) {
    forall i, j :: 0 <= i < j < |slots| ==> Earlier(slots[i], slots[j])
  }

  /** A selected test, a range it can use, a port of that range; in reverse only if both directions are wanted. */
  ghost predicate Due(registry: Registry, tests: seq<string>, ranges: seq<PortSpec>, bidir: bool, s: Slot) {
    && s.test < |tests| && s.range < |ranges| && Suits(registry, tests[s.test], ranges[s.range])
    && (s.reverse ==> bidir) && ranges[s.range].start <= s.port <= ranges[s.range].end
  }

  /** The test of that slot, as the n-th. */
  ghost predicate Fills(tests: seq<string>, ranges: seq<PortSpec>, s: Slot, n: nat, e: BatchEntry) {
    && s.test < |tests| && s.range < |ranges|
    && e.id == n % 0x1_0000_0000 && e.testName == tests[s.test] && e.port == s.port
    && e.transportStr == ranges[s.range].transport && Names(e.transportStr, e.transport)
    && e.direction == if s.reverse then ServerToClient else ClientToServer
  }

  lemma {:induction false} ParsesExactly(name: string, t: Transport)
    ensures ParseTransport(name) == Some(t) <==> Names(name, t)
  {
  }

  lemma {:induction false} FindFirst(registry: Registry, name: string) returns (k: nat)
    requires Find(registry, name).Some?
    ensures k < |registry| && registry[k] == Find(registry, name).value && registry[k].name == name
    ensures forall j :: 0 <= j < k ==> registry[j].name != name
  {
    if registry[0].name == name {
      k := 0;
    } else {
      k := FindFirst(registry[1..], name);
      k := k + 1;
    }
  }

  lemma {:induction false} SuitsExactly(registry: Registry, test: string, spec: PortSpec)
    ensures Suits(registry, test, spec) <==>
            var p, t := Find(registry, test), ParseTransport(spec.transport);
            p.Some? && t.Some? && t.value in p.value.transports
  {
    var p, t := Find(registry, test), ParseTransport(spec.transport);
    forall u: Transport
      ensures Names(spec.transport, u) <==> t == Some(u)
    {
      ParsesExactly(spec.transport, u);
    }
    if p.Some? {
      var k := FindFirst(registry, test);
      if t.Some? && t.value in p.value.transports {
        assert Names(spec.transport, t.value);
      }
    }
  }

  // ----- lanes in order -----

  /** The lane of a slot, whatever its port. */
  ghost predicate LaneOf(tests: seq<string>, ranges: seq<PortSpec>, lane: Lane, s: Slot) {
    && s.test < |tests| && s.range < |ranges| && lane.test == tests[s.test] && lane.spec == ranges[s.range]
    && Names(lane.spec.transport, lane.transport)
    && lane.direction == if s.reverse then ServerToClient else ClientToServer
  }

  ghost predicate LaneDue(registry: Registry, tests: seq<string>, ranges: seq<PortSpec>, bidir: bool, s: Slot) {
    && s.test < |tests| && s.range < |ranges| && Suits(registry, tests[s.test], ranges[s.range]) && (s.reverse ==> bidir)
  }

  /** A part of the selection: one range of one test, the ranges of a test from one on, or the tests
      from one on. */
  datatype Part = One(test: nat, range: nat) | Ranges(test: nat, range: nat) | Tests(test: nat)

  predicate In(part: Part, s: Slot) {
    match part
    case One(t, r) => s.test == t && s.range == r
    case Ranges(t, r) => s.test == t && s.range >= r
    case Tests(t) => s.test >= t
  }

  /** One key for each lane, in order, and a key for every lane of that part that is due. */
  ghost predicate Keyed(registry: Registry, tests: seq<string>, ranges: seq<PortSpec>, bidir: bool,
                        lanes: seq<Lane>, keys: seq<Slot>, part: Part) {
    && |keys| == |lanes|
    && (forall k :: 0 <= k < |keys| ==>
          LaneOf(tests, ranges, lanes[k], keys[k]) && LaneDue(registry, tests, ranges, bidir, keys[k]) && In(part, keys[k])
          && keys[k].port == 0)
    && Rising(keys)
    && forall s: Slot :: In(part, s) && LaneDue(registry, tests, ranges, bidir, s) ==> s.(port := 0) in keys
  }

  lemma {:induction false} RisingAppend(a: seq<Slot>, b: seq<Slot>)
    requires Rising(a) && Rising(b) && forall x, y :: x in a && y in b ==> Earlier(x, y)
    ensures Rising(a + b)
  {
    forall i, j | 0 <= i < j < |a + b|
      ensures Earlier((a + b)[i], (a + b)[j])
    {
      if i < |a| <= j {
        assert a[i] in a && b[j - |a|] in b;
      }
    }
  }

  lemma {:induction false} KeyedAppend(registry: Registry, tests: seq<string>, ranges: seq<PortSpec>, bidir: bool,
                                       lanes: seq<Lane>, keys: seq<Slot>, part: Part,
                                       lanes': seq<Lane>, keys': seq<Slot>, part': Part, both: Part)
    requires Keyed(registry, tests, ranges, bidir, lanes, keys, part)
    requires Keyed(registry, tests, ranges, bidir, lanes', keys', part')
    requires forall x, y :: In(part, x) && In(part', y) ==> Earlier(x, y)
    requires forall s :: In(both, s) <==> In(part, s) || In(part', s)
    ensures Keyed(registry, tests, ranges, bidir, lanes + lanes', keys + keys', both)
  {
    hide LaneOf, LaneDue, Rising, Earlier, In;
    forall x, y | x in keys && y in keys'
      ensures Earlier(x, y)
    {
      var i :| 0 <= i < |keys| && keys[i] == x;
      var j :| 0 <= j < |keys'| && keys'[j] == y;
      assert In(part, keys[i]) && In(part', keys'[j]);
    }
    RisingAppend(keys, keys');
    forall k | 0 <= k < |keys + keys'|
      ensures LaneOf(tests, ranges, (lanes + lanes')[k], (keys + keys')[k])
      ensures LaneDue(registry, tests, ranges, bidir, (keys + keys')[k]) && In(both, (keys + keys')[k])
      ensures (keys + keys')[k].port == 0
    {
      if k >= |keys| {
        assert (keys + keys')[k] == keys'[k - |keys|] && (lanes + lanes')[k] == lanes'[k - |keys|];
      } else {
        assert (keys + keys')[k] == keys[k] && (lanes + lanes')[k] == lanes[k];
      }
    }
  }

  /** A test and a range that suits it: one lane forward, and one in reverse if both directions are wanted. */
  lemma {:induction false} KeysSuited(registry: Registry, tests: seq<string>, ranges: seq<PortSpec>, bidir: bool, t: nat, r: nat,
                                      transport: Transport) returns (keys: seq<Slot>)
    requires t < |tests| && r < |ranges| && Suits(registry, tests[t], ranges[r]) && Names(ranges[r].transport, transport)
    ensures Keyed(registry, tests, ranges, bidir, LanesOn(tests[t], ranges[r], transport, Directions(bidir)), keys, One(t, r))
  {
    hide Suits, Names;
    keys := if bidir then [Slot(t, r, false, 0), Slot(t, r, true, 0)] else [Slot(t, r, false, 0)];
    assert Slot(t, r, false, 0) == keys[0] && (bidir ==> Slot(t, r, true, 0) == keys[1]);
    forall s: Slot | s.test == t && s.range == r && LaneDue(registry, tests, ranges, bidir, s)
      ensures s.(port := 0) in keys
    {
      assert s.(port := 0) == Slot(t, r, s.reverse, 0);
    }
  }

  lemma {:induction false} KeysUnsuited(registry: Registry, tests: seq<string>, ranges: seq<PortSpec>, bidir: bool, t: nat, r: nat)
    requires t < |tests| && r < |ranges| && !Suits(registry, tests[t], ranges[r])
    ensures Keyed(registry, tests, ranges, bidir, [], [], One(t, r))
  {
    hide Suits;
  }

  /** The keys of one test and range. */
  lemma {:induction false} KeysOn(registry: Registry, tests: seq<string>, ranges: seq<PortSpec>, bidir: bool, t: nat, r: nat)
    returns (keys: seq<Slot>)
    requires t < |tests| && r < |ranges| && Find(registry, tests[t]).Some?
    ensures var p, transport := Find(registry, tests[t]).value, ParseTransport(ranges[r].transport);
            var lanes := if transport.Some? && transport.value in p.transports
                         then LanesOn(tests[t], ranges[r], transport.value, Directions(bidir)) else [];
            Keyed(registry, tests, ranges, bidir, lanes, keys, One(t, r))
  {
    hide Keyed, Suits, LanesOn, Find;
    var p, transport := Find(registry, tests[t]).value, ParseTransport(ranges[r].transport);
    SuitsExactly(registry, tests[t], ranges[r]);
    if transport.Some? && transport.value in p.transports {
      ParsesExactly(ranges[r].transport, transport.value);
      keys := KeysSuited(registry, tests, ranges, bidir, t, r, transport.value);
    } else {
      KeysUnsuited(registry, tests, ranges, bidir, t, r);
      keys := [];
    }
  }

  lemma {:induction false} KeysOfTest(registry: Registry, tests: seq<string>, ranges: seq<PortSpec>, bidir: bool, t: nat, r: nat)
    returns (keys: seq<Slot>)
    requires t < |tests| && r <= |ranges| && Find(registry, tests[t]).Some?
    ensures var lanes := LanesOf(tests[t], Find(registry, tests[t]).value.transports, ranges[r..], Directions(bidir));
            Keyed(registry, tests, ranges, bidir, lanes, keys, Ranges(t, r))
    decreases |ranges| - r
  {
    hide Keyed, LanesOn, Directions;
    if r == |ranges| {
      keys := [];
      NoKeys(registry, tests, ranges, bidir, Ranges(t, r));
    } else {
      var first := KeysOn(registry, tests, ranges, bidir, t, r);
      var rest := KeysOfTest(registry, tests, ranges, bidir, t, r + 1);
      keys := first + rest;
      assert ranges[r..][0] == ranges[r] && ranges[r..][1..] == ranges[r + 1..];
      var p, transport := Find(registry, tests[t]).value, ParseTransport(ranges[r].transport);
      var lanes := if transport.Some? && transport.value in p.transports
                   then LanesOn(tests[t], ranges[r], transport.value, Directions(bidir)) else [];
      KeyedAppend(registry, tests, ranges, bidir, lanes, first, One(t, r),
                  LanesOf(tests[t], p.transports, ranges[r + 1..], Directions(bidir)), rest, Ranges(t, r + 1), Ranges(t, r));
    }
  }

  lemma {:induction false} NoKeys(registry: Registry, tests: seq<string>, ranges: seq<PortSpec>, bidir: bool, part: Part)
    requires part == Tests(|tests|) || (part.Ranges? && part.range == |ranges|)
    ensures Keyed(registry, tests, ranges, bidir, [], [], part)
  {
  }

  lemma {:induction false} KeysFrom(registry: Registry, tests: seq<string>, ranges: seq<PortSpec>, bidir: bool, t: nat)
    returns (keys: seq<Slot>)
    requires t <= |tests| && forall test <- tests :: Find(registry, test).Some?
    ensures Keyed(registry, tests, ranges, bidir, Lanes(registry, tests[t..], ranges, Directions(bidir)), keys, Tests(t))
    decreases |tests| - t
  {
    hide Keyed, Directions;
    if t == |tests| {
      keys := [];
      NoKeys(registry, tests, ranges, bidir, Tests(t));
    } else {
      assert tests[t] in tests;
      var first := KeysOfTest(registry, tests, ranges, bidir, t, 0);
      var rest := KeysFrom(registry, tests, ranges, bidir, t + 1);
      keys := first + rest;
      assert tests[t..][0] == tests[t] && tests[t..][1..] == tests[t + 1..] && ranges[0..] == ranges;
      KeyedAppend(registry, tests, ranges, bidir,
                  LanesOf(tests[t], Find(registry, tests[t]).value.transports, ranges, Directions(bidir)), first, Ranges(t, 0),
                  Lanes(registry, tests[t + 1..], ranges, Directions(bidir)), rest, Tests(t + 1), Tests(t));
    }
  }

  // ----- slots in order -----

  function LaneSlots(lane: Lane, key: Slot): seq<Slot> {
    seq(lane.Ports(), j requires 0 <= j < lane.Ports() => key.(port := lane.spec.start + j))
  }

  function SlotsOf(lanes: seq<Lane>, keys: seq<Slot>): seq<Slot>
    requires |keys| == |lanes|
  {
    if lanes == [] then []
    else
      var n := |lanes| - 1;
      SlotsOf(lanes[..n], keys[..n]) + LaneSlots(lanes[n], keys[n])
  }

  ghost predicate Matching(tests: seq<string>, ranges: seq<PortSpec>, lanes: seq<Lane>, keys: seq<Slot>) {
    && |keys| == |lanes| && Rising(keys)
    && forall k :: 0 <= k < |keys| ==> LaneOf(tests, ranges, lanes[k], keys[k]) && keys[k].port == 0
  }

  /** A slot on that lane. */
  predicate OnKey(lane: Lane, key: Slot, s: Slot) {
    s.(port := 0) == key && lane.spec.start <= s.port <= lane.spec.end
  }

  lemma {:induction false} SlotsFrom(lanes: seq<Lane>, keys: seq<Slot>, i: nat) returns (k: nat)
    requires |keys| == |lanes| && (forall j :: 0 <= j < |keys| ==> keys[j].port == 0) && i < |SlotsOf(lanes, keys)|
    ensures k < |lanes| && OnKey(lanes[k], keys[k], SlotsOf(lanes, keys)[i])
  {
    var n := |lanes| - 1;
    var before := SlotsOf(lanes[..n], keys[..n]);
    if i < |before| {
      k := SlotsFrom(lanes[..n], keys[..n], i);
    } else {
      k := n;
      assert SlotsOf(lanes, keys)[i] == LaneSlots(lanes[n], keys[n])[i - |before|];
    }
  }

  lemma {:induction false} SlotsCover(lanes: seq<Lane>, keys: seq<Slot>, k: nat, s: Slot)
    requires |keys| == |lanes| && k < |lanes| && OnKey(lanes[k], keys[k], s)
    ensures s in SlotsOf(lanes, keys)
  {
    var n := |lanes| - 1;
    if k == n {
      assert LaneSlots(lanes[n], keys[n])[s.port - lanes[n].spec.start] == s;
    } else {
      SlotsCover(lanes[..n], keys[..n], k, s);
    }
  }

  lemma {:induction false} SlotsRise(tests: seq<string>, ranges: seq<PortSpec>, lanes: seq<Lane>, keys: seq<Slot>)
    requires Matching(tests, ranges, lanes, keys)
    ensures Rising(SlotsOf(lanes, keys))
  {
    if lanes == [] {
    } else {
      var n := |lanes| - 1;
      var before, last := SlotsOf(lanes[..n], keys[..n]), LaneSlots(lanes[n], keys[n]);
      SlotsRise(tests, ranges, lanes[..n], keys[..n]);
      forall x, y | x in before && y in last
        ensures Earlier(x, y)
      {
        var i :| 0 <= i < |before| && before[i] == x;
        var k := SlotsFrom(lanes[..n], keys[..n], i);
        assert Earlier(keys[k], keys[n]);
      }
      RisingAppend(before, last);
    }
  }

  lemma {:induction false} LaneFills(tests: seq<string>, ranges: seq<PortSpec>, lane: Lane, key: Slot, first: nat)
    requires LaneOf(tests, ranges, lane, key)
    ensures |LaneSlots(lane, key)| == |lane.Entries(first)| == lane.Ports()
    ensures forall j: nat :: j < lane.Ports() ==> Fills(tests, ranges, LaneSlots(lane, key)[j], first + j, lane.Entries(first)[j])
  {
    forall j: nat | j < lane.Ports()
      ensures Fills(tests, ranges, LaneSlots(lane, key)[j], first + j, lane.Entries(first)[j])
    {
      WrapIsMod(first + j);
    }
  }

  lemma {:induction false} SlotsFill(tests: seq<string>, ranges: seq<PortSpec>, lanes: seq<Lane>, keys: seq<Slot>)
    requires Matching(tests, ranges, lanes, keys)
    ensures |SlotsOf(lanes, keys)| == |Enumerate(lanes)| == TotalPorts(lanes)
    ensures forall i :: 0 <= i < |Enumerate(lanes)| ==> Fills(tests, ranges, SlotsOf(lanes, keys)[i], i, Enumerate(lanes)[i])
  {
    hide LaneOf, Fills, LaneSlots, Earlier, Lane.Entries, Lane.Ports;
    if lanes == [] {
    } else {
      var n := |lanes| - 1;
      SlotsFill(tests, ranges, lanes[..n], keys[..n]);
      LaneFills(tests, ranges, lanes[n], keys[n], TotalPorts(lanes[..n]));
    }
  }

  // ----- where it is cut -----

  /** The b-th batch holds 1 to `n` tests of one lane, and is full unless it ends that lane. */
  ghost predicate CutAt(batches: seq<seq<BatchEntry>>, slots: seq<Slot>, n: nat, b: nat)
    requires b < |batches|
  {
    var from := |Flatten(batches[..b])|;
    var to := from + |batches[b]|;
    && 1 <= |batches[b]| <= n && to <= |slots|
    && (forall i :: from <= i < to ==> SameLane(slots[from], slots[i]))
    && (to < |slots| && SameLane(slots[from], slots[to]) ==> |batches[b]| == n)
  }

  lemma {:induction false} ChunkCut<T>(s: seq<T>, n: nat, c: nat)
    requires n > 0 && c < |Chunks(s, n)|
    ensures var from := |Flatten(Chunks(s, n)[..c])|;
            var to := from + |Chunks(s, n)[c]|;
            1 <= |Chunks(s, n)[c]| <= n && to <= |s| && (to < |s| ==> |Chunks(s, n)[c]| == n)
  {
    var chunks := Chunks(s, n);
    if c == 0 {
      assert chunks[..0] == [];
    } else {
      var rest := Chunks(s[n..], n);
      ChunkCut(s[n..], n, c - 1);
      assert chunks[..c] == [s[..n]] + rest[..c - 1];
      FlattenAppend([s[..n]], rest[..c - 1]);
      assert Flatten([s[..n]]) == s[..n];
    }
  }

  /** What follows the batches of earlier lanes does not change how those are cut. */
  lemma {:induction false} CutKept(before: seq<seq<BatchEntry>>, chunks: seq<seq<BatchEntry>>, slots: seq<Slot>, last: seq<Slot>,
                                   n: nat, b: nat)
    requires b < |before| && CutAt(before, slots, n, b)
    requires last != [] ==> forall i :: 0 <= i < |slots| ==> !SameLane(slots[i], last[0])
    ensures CutAt(before + chunks, slots + last, n, b)
  {
    assert (before + chunks)[..b] == before[..b];
    hide Flatten;
  }

  lemma {:induction false} CutAdded(before: seq<seq<BatchEntry>>, entries: seq<BatchEntry>, slots: seq<Slot>, last: seq<Slot>,
                                    n: nat, c: nat)
    requires n > 0 && c < |Chunks(entries, n)| && |Flatten(before)| == |slots| && |last| == |entries|
    requires forall i, j :: 0 <= i < |last| && 0 <= j < |last| ==> SameLane(last[i], last[j])
    ensures CutAt(before + Chunks(entries, n), slots + last, n, |before| + c)
  {
    var chunks := Chunks(entries, n);
    assert (before + chunks)[..|before| + c] == before + chunks[..c];
    FlattenAppend(before, chunks[..c]);
    ChunkCut(entries, n, c);
    hide Flatten, Chunks, SameLane;
    var from := |Flatten(chunks[..c])|;
    assert (slots + last)[|slots| + from] == last[from];
  }

  lemma {:induction false} BatchesCut(tests: seq<string>, ranges: seq<PortSpec>, lanes: seq<Lane>, keys: seq<Slot>, n: nat, b: nat)
    requires Matching(tests, ranges, lanes, keys) && n > 0 && b < |Batches(lanes, n)|
    ensures CutAt(Batches(lanes, n), SlotsOf(lanes, keys), n, b)
  {
    hide LaneOf, CutAt, Flatten, Chunks, Fills, Lane.Entries;
    var l := |lanes| - 1;
    var before, entries := Batches(lanes[..l], n), lanes[l].Entries(TotalPorts(lanes[..l]));
    var slots, last := SlotsOf(lanes[..l], keys[..l]), LaneSlots(lanes[l], keys[l]);
    SlotsFill(tests, ranges, lanes[..l], keys[..l]);
    BatchesFlatten(lanes[..l], n);
    EntriesCount(lanes[l], TotalPorts(lanes[..l]));
    if b < |before| {
      BatchesCut(tests, ranges, lanes[..l], keys[..l], n, b);
      if last != [] {
        forall i | 0 <= i < |slots|
          ensures !SameLane(slots[i], last[0])
        {
          var k := SlotsFrom(lanes[..l], keys[..l], i);
          assert Earlier(keys[k], keys[l]);
        }
      }
      CutKept(before, Chunks(entries, n), slots, last, n, b);
    } else {
      CutAdded(before, entries, slots, last, n, b - |before|);
    }
  }

  lemma {:induction false} EntriesCount(lane: Lane, first: nat)
    ensures |lane.Entries(first)| == lane.Ports()
  {
  }

  ghost predicate AllCut(batches: seq<seq<BatchEntry>>, slots: seq<Slot>, n: nat) {
    forall b :: 0 <= b < |batches| ==> CutAt(batches, slots, n, b)
  }

  // ----- the plan -----

  /** The ranges of a scan after the check: one for ICMP is added if some test needs it. */
  ghost predicate Offered(registry: Registry, config: Config, ranges: seq<PortSpec>) {
    ranges == config.portRanges
              + (if exists test <- config.tests :: forall spec <- config.portRanges :: !Suits(registry, test, spec)
                 then [PortSpec("icmp", 0, 0)] else [])
  }

  lemma {:induction false} SupportedExactly(registry: Registry, test: string, ranges: seq<PortSpec>)
    requires Find(registry, test).Some?
    ensures Supported(ranges, Find(registry, test).value) <==> exists spec <- ranges :: Suits(registry, test, spec)
  {
    var p := Find(registry, test).value;
    forall spec | spec in ranges
      ensures Suits(registry, test, spec) <==>
              ParseTransport(spec.transport).Some? && ParseTransport(spec.transport).value in p.transports
    {
      SuitsExactly(registry, test, spec);
    }
    if spec :| spec in ranges && Suits(registry, test, spec) {
      assert HasMatch(ranges, ParseTransport(spec.transport).value);
    }
    if Supported(ranges, p) {
      var t :| t in p.transports && HasMatch(ranges, t);
      var spec :| spec in ranges && ParseTransport(spec.transport) == Some(t);
      assert Suits(registry, test, spec);
    }
  }

  /** What a plan holds, and where it is cut. */
  ghost predicate Shaped(registry: Registry, config: Config, ranges: seq<PortSpec>, plan: seq<seq<BatchEntry>>, slots: seq<Slot>) {
    && |slots| == |Flatten(plan)| && Rising(slots)
    && (forall s: Slot :: s in slots <==> Due(registry, config.tests, ranges, config.bidir, s))
    && (forall i :: 0 <= i < |slots| ==> Fills(config.tests, ranges, slots[i], i, Flatten(plan)[i]))
    && AllCut(plan, slots, if config.parallel == 0 then 1 else config.parallel)
  }

  /** A plan of that shape. */
  ghost predicate Planned(registry: Registry, config: Config, plan: seq<seq<BatchEntry>>) {
    exists ranges, slots :: Offered(registry, config, ranges) && Shaped(registry, config, ranges, plan, slots)
  }

  lemma {:induction false} PlanIsPlanned(registry: Registry, config: Config)
    requires Plan(registry, config).Success?
    ensures Planned(registry, config, Plan(registry, config).value)
  {
    var ranges, slots := PlanExactly(registry, config);
  }

  lemma {:induction false} RangesOffered(registry: Registry, config: Config)
    requires Plan(registry, config).Success?
    ensures Offered(registry, config, CheckTests(registry, config.portRanges, config.tests).value)
    ensures forall test <- config.tests :: Find(registry, test).Some?
  {
    CheckTestsExact(registry, config.portRanges, config.tests);
    forall test | test in config.tests
      ensures WantsIcmp(registry, config.portRanges, test) <==> forall spec <- config.portRanges :: !Suits(registry, test, spec)
    {
      assert Runnable(registry, config.portRanges, test);
      SupportedExactly(registry, test, config.portRanges);
    }
  }

  /** The plan of every accepted selection, whole: it holds exactly the tests that are due, each once, by
      test, range, direction (forward before reverse) and port, the i-th under the number i modulo 2^32;
      and it is cut into batches that are full except where a test, range and direction ends. */
  lemma {:induction false} PlanExactly(registry: Registry, config: Config) returns (ranges: seq<PortSpec>, slots: seq<Slot>)
    requires Plan(registry, config).Success?
    ensures Offered(registry, config, ranges)
    ensures Shaped(registry, config, ranges, Plan(registry, config).value, slots)
  {
    RangesOffered(registry, config);
    ranges := CheckTests(registry, config.portRanges, config.tests).value;
    var keys := KeysFrom(registry, config.tests, ranges, config.bidir, 0);
    assert config.tests[0..] == config.tests;
    slots := LanesShaped(registry, config, ranges, keys);
  }

  lemma {:induction false} LanesShaped(registry: Registry, config: Config, ranges: seq<PortSpec>, keys: seq<Slot>)
    returns (slots: seq<Slot>)
    requires Keyed(registry, config.tests, ranges, config.bidir,
                   Lanes(registry, config.tests, ranges, Directions(config.bidir)), keys, Tests(0))
    ensures Shaped(registry, config, ranges,
                   Batches(Lanes(registry, config.tests, ranges, Directions(config.bidir)), Max(1, config.parallel)), slots)
  {
    var n := Max(1, config.parallel);
    var lanes := Lanes(registry, config.tests, ranges, Directions(config.bidir));
    KeyedMatches(registry, config.tests, ranges, config.bidir, lanes, keys);
    hide *;
    slots := SlotsOf(lanes, keys);
    AtLeastOne(config.parallel);
    SlotsDue(registry, config.tests, ranges, config.bidir, lanes, keys);
    SlotsFill(config.tests, ranges, lanes, keys);
    SlotsRise(config.tests, ranges, lanes, keys);
    BatchesFlatten(lanes, n);
    BatchesAllCut(config.tests, ranges, lanes, keys, n);
    ShapedSo(registry, config, ranges, Batches(lanes, n), slots);
  }

  lemma {:induction false} AtLeastOne(parallel: nat)
    ensures Max(1, parallel) == (if parallel == 0 then 1 else parallel) > 0
  {
  }

  lemma {:induction false} ShapedSo(registry: Registry, config: Config, ranges: seq<PortSpec>, plan: seq<seq<BatchEntry>>, slots: seq<Slot>)
    requires |slots| == |Flatten(plan)| && Rising(slots)
    requires forall s: Slot :: s in slots <==> Due(registry, config.tests, ranges, config.bidir, s)
    requires forall i :: 0 <= i < |slots| ==> Fills(config.tests, ranges, slots[i], i, Flatten(plan)[i])
    requires AllCut(plan, slots, if config.parallel == 0 then 1 else config.parallel)
    ensures Shaped(registry, config, ranges, plan, slots)
  {
    hide Due, Fills, AllCut, Rising, Flatten;
  }

  lemma {:induction false} KeyedMatches(registry: Registry, tests: seq<string>, ranges: seq<PortSpec>, bidir: bool,
                                        lanes: seq<Lane>, keys: seq<Slot>)
    requires Keyed(registry, tests, ranges, bidir, lanes, keys, Tests(0))
    ensures |keys| == |lanes| && Matching(tests, ranges, lanes, keys)
  {
    hide LaneOf, LaneDue, Rising;
  }

  lemma {:induction false} BatchesAllCut(tests: seq<string>, ranges: seq<PortSpec>, lanes: seq<Lane>, keys: seq<Slot>, n: nat)
    requires |keys| == |lanes| && Matching(tests, ranges, lanes, keys) && n > 0
    ensures AllCut(Batches(lanes, n), SlotsOf(lanes, keys), n)
  {
    hide Matching, CutAt, Batches, SlotsOf;
    forall b | 0 <= b < |Batches(lanes, n)|
      ensures CutAt(Batches(lanes, n), SlotsOf(lanes, keys), n, b)
    {
      BatchesCut(tests, ranges, lanes, keys, n, b);
    }
  }

  lemma {:induction false} SlotsDue(registry: Registry, tests: seq<string>, ranges: seq<PortSpec>, bidir: bool,
                                    lanes: seq<Lane>, keys: seq<Slot>)
    requires Keyed(registry, tests, ranges, bidir, lanes, keys, Tests(0))
    ensures forall s: Slot :: s in SlotsOf(lanes, keys) <==> Due(registry, tests, ranges, bidir, s)
  {
    hide Suits, SlotsOf;
    forall s: Slot
      ensures s in SlotsOf(lanes, keys) <==> Due(registry, tests, ranges, bidir, s)
    {
      if s in SlotsOf(lanes, keys) {
        var i :| 0 <= i < |SlotsOf(lanes, keys)| && SlotsOf(lanes, keys)[i] == s;
        var k := SlotsFrom(lanes, keys, i);
        assert LaneOf(tests, ranges, lanes[k], keys[k]) && LaneDue(registry, tests, ranges, bidir, keys[k]);
      }
      if Due(registry, tests, ranges, bidir, s) {
        assert LaneDue(registry, tests, ranges, bidir, s);
        var k :| 0 <= k < |keys| && keys[k] == s.(port := 0);
        assert LaneOf(tests, ranges, lanes[k], keys[k]);
        SlotsCover(lanes, keys, k, s);
      }
    }
  }

  // ----- when there is no plan -----

  ghost predicate Registered(registry: Registry, test: string) {
    exists k :: 0 <= k < |registry| && registry[k].name == test
  }

  /** A test with a range it can use, or one that is known and can do without, because it supports ICMP. */
  ghost predicate Usable(registry: Registry, ranges: seq<PortSpec>, test: string) {
    || (exists spec <- ranges :: Suits(registry, test, spec))
    || Suits(registry, test, PortSpec("icmp", 0, 0))
  }

  lemma {:induction false} UsableExactly(registry: Registry, ranges: seq<PortSpec>, test: string)
    ensures Usable(registry, ranges, test) <==> Runnable(registry, ranges, test)
    ensures Registered(registry, test) <==> Find(registry, test).Some?
  {
    SuitsExactly(registry, test, PortSpec("icmp", 0, 0));
    if Find(registry, test).Some? {
      SupportedExactly(registry, test, ranges);
      var k := FindFirst(registry, test);
    } else {
      forall spec
        ensures !Suits(registry, test, spec)
      {
        SuitsExactly(registry, test, spec);
      }
    }
    if k :| 0 <= k < |registry| && registry[k].name == test {
      assert registry[k] in registry;
    }
  }

  /** The first selected test that cannot run, and why: it is not known, or no range suits it. */
  ghost predicate FirstUnusable(registry: Registry, config: Config, error: SessionError, k: nat) {
    && k < |config.tests| && !Usable(registry, config.portRanges, config.tests[k])
    && (forall j :: 0 <= j < k ==> Usable(registry, config.portRanges, config.tests[j]))
    && error == if Registered(registry, config.tests[k]) then NeedsPortRange(config.tests[k]) else UnknownProtocol(config.tests[k])
  }

  /** A selection is refused exactly if a range ends before it starts, or else if some test cannot run; the
      first such test decides the error. */
  lemma {:induction false} RefusedExactly(registry: Registry, config: Config)
    ensures var r := Plan(registry, config);
            if exists spec <- config.portRanges :: spec.start > spec.end then r == Failure(InvalidPortRange)
            else if r.Failure? then exists k: nat :: FirstUnusable(registry, config, r.error, k)
            else forall test <- config.tests :: Usable(registry, config.portRanges, test)
  {
    forall test: string
      ensures Usable(registry, config.portRanges, test) <==> Runnable(registry, config.portRanges, test)
      ensures Registered(registry, test) <==> Find(registry, test).Some?
    {
      UsableExactly(registry, config.portRanges, test);
    }
    CheckTestsExact(registry, config.portRanges, config.tests);
    if CheckTests(registry, config.portRanges, config.tests).Failure? {
      var k := CheckFails(registry, config.portRanges, config.tests);
      hide Usable, Runnable, CheckTests, Registered, Find;
      assert FirstUnusable(registry, config, CheckTests(registry, config.portRanges, config.tests).error, k);
    }
  }

  // ----- there is only one such plan -----

  lemma {:induction false} RisingTail(s: seq<Slot>)
    requires Rising(s) && s != []
    ensures Rising(s[1..]) && s[0] !in s[1..]
    ensures forall x :: x in s[1..] <==> x in s && x != s[0]
  {
    assert s == [s[0]] + s[1..];
    forall i | 0 <= i < |s[1..]|
      ensures s[1..][i] != s[0]
    {
      assert Earlier(s[0], s[i + 1]);
    }
  }

  lemma {:induction false} RisingFirst(a: seq<Slot>, b: seq<Slot>)
    requires Rising(a) && Rising(b) && a != [] && b != [] && forall s :: s in a <==> s in b
    ensures a[0] == b[0]
  {
    assert a[0] in b && b[0] in a;
    var j :| 0 <= j < |b| && b[j] == a[0];
    var i :| 0 <= i < |a| && a[i] == b[0];
  }

  lemma {:induction false} AlsoThere(a: seq<Slot>, b: seq<Slot>)
    requires a != [] && forall s :: s in a <==> s in b
    ensures b != []
  {
    assert a[0] in b;
  }

  lemma {:induction false} RisingUnique(a: seq<Slot>, b: seq<Slot>)
    requires Rising(a) && Rising(b) && forall s :: s in a <==> s in b
    ensures a == b
  {
    if a == [] || b == [] {
      if a != [] {
        AlsoThere(a, b);
      }
      if b != [] {
        AlsoThere(b, a);
      }
    } else {
      RisingFirst(a, b);
      RisingTail(a);
      RisingTail(b);
      hide Rising;
      RisingUnique(a[1..], b[1..]);
      assert a == [a[0]] + a[1..] && b == [b[0]] + b[1..];
    }
  }

  lemma {:induction false} FlattenPart(plan: seq<seq<BatchEntry>>, b: nat)
    requires b < |plan|
    ensures var from, to := |Flatten(plan[..b])|, |Flatten(plan[..b])| + |plan[b]|;
            to <= |Flatten(plan)| && Flatten(plan)[from..to] == plan[b]
  {
    assert plan == (plan[..b] + [plan[b]]) + plan[b + 1..];
    FlattenAppend(plan[..b] + [plan[b]], plan[b + 1..]);
    FlattenLast(plan[..b], plan[b]);
  }

  lemma {:induction false} CutUnique(plan: seq<seq<BatchEntry>>, plan': seq<seq<BatchEntry>>, slots: seq<Slot>, n: nat, b: nat)
    requires Flatten(plan) == Flatten(plan') && AllCut(plan, slots, n) && AllCut(plan', slots, n)
    requires b <= |plan| && b <= |plan'|
    ensures plan[..b] == plan'[..b]
  {
    if b > 0 {
      CutUnique(plan, plan', slots, n, b - 1);
      assert CutAt(plan, slots, n, b - 1) && CutAt(plan', slots, n, b - 1);
      FlattenPart(plan, b - 1);
      FlattenPart(plan', b - 1);
      assert plan[..b] == plan[..b - 1] + [plan[b - 1]] && plan'[..b] == plan'[..b - 1] + [plan'[b - 1]];
    }
  }

  lemma {:induction false} CutLength(plan: seq<seq<BatchEntry>>, plan': seq<seq<BatchEntry>>, slots: seq<Slot>, n: nat)
    requires Flatten(plan) == Flatten(plan') && AllCut(plan, slots, n) && AllCut(plan', slots, n)
    ensures |plan| >= |plan'|
  {
    if |plan| < |plan'| {
      CutUnique(plan, plan', slots, n, |plan|);
      assert plan[..|plan|] == plan;
      assert CutAt(plan', slots, n, |plan|);
      FlattenPart(plan', |plan|);
      assert false;
    }
  }

  /** The shape leaves nothing open: two plans that have it are the same, batch by batch. */
  lemma {:induction false} ShapeIsUnique(registry: Registry, config: Config, ranges: seq<PortSpec>,
                                         plan: seq<seq<BatchEntry>>, slots: seq<Slot>, plan': seq<seq<BatchEntry>>, slots': seq<Slot>)
    requires Shaped(registry, config, ranges, plan, slots) && Shaped(registry, config, ranges, plan', slots')
    ensures plan == plan' && slots == slots'
  {
    var n := if config.parallel == 0 then 1 else config.parallel;
    hide Rising, AllCut, Due;
    RisingUnique(slots, slots');
    forall i | 0 <= i < |slots|
      ensures Flatten(plan)[i] == Flatten(plan')[i]
    {
      assert Fills(config.tests, ranges, slots[i], i, Flatten(plan)[i]) && Fills(config.tests, ranges, slots[i], i, Flatten(plan')[i]);
    }
    assert Flatten(plan) == Flatten(plan');
    CutLength(plan, plan', slots, n);
    CutLength(plan', plan, slots, n);
    CutUnique(plan, plan', slots, n, |plan|);
    assert plan[..|plan|] == plan && plan'[..|plan|] == plan';
  }
}
