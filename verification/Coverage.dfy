/** Which tests a scan runs: the enumeration contains every selected combination and no other,
    every test is within a batch both ends accept, and selections without overlap test no port twice. */
module Coverage {
  import opened Messages
  import opened Schedule

  // ----- lanes -----

  /** A lane belongs to a scan: a selected test, a range of a transport it supports, a direction. */
  ghost predicate Selected(registry: Registry, tests: seq<string>, ranges: seq<PortSpec>, dirs: seq<Direction>, lane: Lane) {
    && lane.test in tests && Find(registry, lane.test).Some? && lane.spec in ranges
    && ParseTransport(lane.spec.transport) == Some(lane.transport)
    && lane.transport in Find(registry, lane.test).value.transports
    && lane.direction in dirs
  }

  lemma {:induction false} LanesOfExact(test: string, transports: seq<Transport>, ranges: seq<PortSpec>,
                                        dirs: seq<Direction>, lane: Lane)
    ensures lane in LanesOf(test, transports, ranges, dirs) <==>
            && lane.test == test && lane.spec in ranges && ParseTransport(lane.spec.transport) == Some(lane.transport)
            && lane.transport in transports && lane.direction in dirs
  {
    if ranges == [] {
    } else {
      LanesOfExact(test, transports, ranges[1..], dirs, lane);
      var t := ParseTransport(ranges[0].transport);
      if t.Some? && t.value in transports {
        var lanes := LanesOn(test, ranges[0], t.value, dirs);
        if lane.direction in dirs && lane == Lane(test, ranges[0], t.value, lane.direction) {
          var d :| 0 <= d < |dirs| && dirs[d] == lane.direction;
          assert lanes[d] == lane;
        }
      }
    }
  }

  /** The lanes of a scan are exactly the selected ones. */
  lemma {:induction false} LanesExact(registry: Registry, tests: seq<string>, ranges: seq<PortSpec>,
                                      dirs: seq<Direction>, lane: Lane)
    ensures lane in Lanes(registry, tests, ranges, dirs) <==> Selected(registry, tests, ranges, dirs, lane)
  {
    if tests == [] {
    } else {
      LanesExact(registry, tests[1..], ranges, dirs, lane);
      var p := Find(registry, tests[0]);
      if p.Some? {
        LanesOfExact(tests[0], p.value.transports, ranges, dirs, lane);
      }
    }
  }

  /** An entry lies on a lane. */
  predicate OnLane(e: BatchEntry, lane: Lane) {
    && e.testName == lane.test && e.transport == lane.transport && e.transportStr == lane.spec.transport
    && e.direction == lane.direction && lane.spec.start <= e.port <= lane.spec.end
  }

  /** Each port of each lane occurs in the enumeration, and nothing else does. */
  lemma {:induction false} EnumerateCovers(lanes: seq<Lane>, k: nat, port: u16) returns (i: nat)
    requires k < |lanes| && lanes[k].spec.start <= port <= lanes[k].spec.end
    ensures i < |Enumerate(lanes)| && OnLane(Enumerate(lanes)[i], lanes[k]) && Enumerate(lanes)[i].port == port
  {
    var n := |lanes| - 1;
    var before := Enumerate(lanes[..n]);
    if k == n {
      i := |before| + (port - lanes[n].spec.start);
      assert Enumerate(lanes)[i] == lanes[n].Entries(TotalPorts(lanes[..n]))[port - lanes[n].spec.start];
    } else {
      i := EnumerateCovers(lanes[..n], k, port);
    }
  }

  lemma {:induction false} EnumerateFrom(lanes: seq<Lane>, i: nat) returns (k: nat)
    requires i < |Enumerate(lanes)|
    ensures k < |lanes| && OnLane(Enumerate(lanes)[i], lanes[k])
  {
    var n := |lanes| - 1;
    var before := Enumerate(lanes[..n]);
    if i < |before| {
      k := EnumerateFrom(lanes[..n], i);
    } else {
      k := n;
      assert Enumerate(lanes)[i] == lanes[n].Entries(TotalPorts(lanes[..n]))[i - |before|];
    }
  }

  // ----- no port twice -----

  /** No test selected twice, and ranges of one transport disjoint. */
  ghost predicate NoOverlap(tests: seq<string>, ranges: seq<PortSpec>) {
    && (forall i, j :: 0 <= i < j < |tests| ==> tests[i] != tests[j])
    && forall i, j :: 0 <= i < j < |ranges| ==>
         ranges[i].transport != ranges[j].transport || ranges[i].end < ranges[j].start || ranges[j].end < ranges[i].start
  }

  ghost predicate Apart(a: Lane, b: Lane) {
    || a.test != b.test || a.direction != b.direction || a.spec.transport != b.spec.transport
    || a.spec.end < b.spec.start || b.spec.end < a.spec.start
  }

  ghost predicate AllApart(lanes: seq<Lane>) {
    forall i, j :: 0 <= i < j < |lanes| ==> Apart(lanes[i], lanes[j])
  }

  lemma {:induction false} ApartAppend(a: seq<Lane>, b: seq<Lane>)
    requires AllApart(a) && AllApart(b) && forall x, y :: x in a && y in b ==> Apart(x, y)
    ensures AllApart(a + b)
  {
    forall i, j | 0 <= i < j < |a + b|
      ensures Apart((a + b)[i], (a + b)[j])
    {
      if i < |a| <= j {
        assert a[i] in a && b[j - |a|] in b;
      }
    }
  }

  lemma {:induction false} LanesOfApart(test: string, transports: seq<Transport>, ranges: seq<PortSpec>, dirs: seq<Direction>)
    requires NoOverlap([], ranges) && forall i, j :: 0 <= i < j < |dirs| ==> dirs[i] != dirs[j]
    ensures AllApart(LanesOf(test, transports, ranges, dirs))
  {
    if ranges == [] {
    } else {
      LanesOfApart(test, transports, ranges[1..], dirs);
      var t := ParseTransport(ranges[0].transport);
      if t.Some? && t.value in transports {
        var first, rest := LanesOn(test, ranges[0], t.value, dirs), LanesOf(test, transports, ranges[1..], dirs);
        forall x, y | x in first && y in rest
          ensures Apart(x, y)
        {
          LanesOfExact(test, transports, ranges[1..], dirs, y);
          var j :| 1 <= j < |ranges| && ranges[j] == y.spec;
        }
        ApartAppend(first, rest);
      }
    }
  }

  lemma {:induction false} LanesApart(registry: Registry, tests: seq<string>, ranges: seq<PortSpec>, dirs: seq<Direction>)
    requires NoOverlap(tests, ranges) && forall i, j :: 0 <= i < j < |dirs| ==> dirs[i] != dirs[j]
    ensures AllApart(Lanes(registry, tests, ranges, dirs))
  {
    if tests == [] {
    } else {
      LanesApart(registry, tests[1..], ranges, dirs);
      var p := Find(registry, tests[0]);
      if p.Some? {
        var first := LanesOf(tests[0], p.value.transports, ranges, dirs);
        var rest := Lanes(registry, tests[1..], ranges, dirs);
        LanesOfApart(tests[0], p.value.transports, ranges, dirs);
        forall x, y | x in first && y in rest
          ensures Apart(x, y)
        {
          LanesOfExact(tests[0], p.value.transports, ranges, dirs, x);
          LanesExact(registry, tests[1..], ranges, dirs, y);
          var j :| 1 <= j < |tests| && tests[j] == y.test;
        }
        ApartAppend(first, rest);
      }
    }
  }

  /** Two entries that would merge under one key. */
  predicate SameSlot(d: BatchEntry, e: BatchEntry) {
    d.testName == e.testName && d.transportStr == e.transportStr && d.direction == e.direction && d.port == e.port
  }

  lemma {:induction false} EnumerateDistinct(lanes: seq<Lane>, i: nat, j: nat)
    requires AllApart(lanes) && i < j < |Enumerate(lanes)|
    ensures !SameSlot(Enumerate(lanes)[i], Enumerate(lanes)[j])
  {
    var n := |lanes| - 1;
    var before := Enumerate(lanes[..n]);
    var last := lanes[n].Entries(TotalPorts(lanes[..n]));
    if j < |before| {
      EnumerateDistinct(lanes[..n], i, j);
    } else {
      assert Enumerate(lanes)[j] == last[j - |before|];
      if i < |before| {
        var k := EnumerateFrom(lanes[..n], i);
        assert Apart(lanes[k], lanes[n]);
      } else {
        assert Enumerate(lanes)[i] == last[i - |before|];
      }
    }
  }
}
