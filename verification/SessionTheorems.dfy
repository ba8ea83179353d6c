/** The theorems about whole scans. A run is any finite sequence of enabled actions from the
    initial state, so each statement covers every interleaving of sends, receipts, local
    completions and report arrivals, for every outcome the network may give each test. */
module SessionTheorems {
  import opened Messages
  import opened Schedule
  import opened ClientBatch
  import opened ServerBatch
  import opened Session
  import opened SessionProofs
  import opened SessionSafety

  lemma {:induction false} Initially(su: Setup, w: World)
    ensures Inv(su, w, INITIAL) && Work(su, INITIAL) == Steps(su)
  {
    OffsetEnds(su.plan);
    assert Handshake(su, INITIAL);
  }

  lemma {:induction false} RunFrom(su: Setup, w: World, s: State, actions: seq<Action>)
    requires Sound(su) && Inv(su, w, s) && s.client.batch <= |su.plan| && IsRun(su, w, s, actions)
    ensures var t := After(su, w, s, actions);
            Inv(su, w, t) && t.client.batch <= |su.plan| && Work(su, t) == Work(su, s) - |actions|
    decreases |actions|
  {
    hide Inv, Work, Enabled, Next;
    if actions == [] {
    } else {
      StepKept(su, w, s, actions[0]);
      RunFrom(su, w, Next(su, w, s, actions[0]), actions[1..]);
    }
  }

  /** The state a run from the start has reached. */
  function Reached(su: Setup, w: World, actions: seq<Action>): State
    requires IsRun(su, w, INITIAL, actions)
  {
    After(su, w, INITIAL, actions)
  }

  lemma {:induction false} ReachedInv(su: Setup, w: World, actions: seq<Action>)
    requires Sound(su) && IsRun(su, w, INITIAL, actions)
    ensures var t := Reached(su, w, actions);
            Inv(su, w, t) && t.client.batch <= |su.plan| && Work(su, t) == Steps(su) - |actions|
  {
    Initially(su, w);
    hide Inv, Work;
    RunFrom(su, w, INITIAL, actions);
  }

  // ----- no protocol error -----

  /** Neither end ever takes one of its error branches: no oversized batch, no unexpected or
      undecodable message, no unknown or duplicate report, no missing local result. */
  lemma {:induction false} NoProtocolError(su: Setup, w: World, actions: seq<Action>)
    requires Sound(su) && IsRun(su, w, INITIAL, actions)
    ensures !Reached(su, w, actions).client.phase.ClientBroken?
    ensures !Reached(su, w, actions).server.phase.ServerBroken?
  {
    ReachedInv(su, w, actions);
    InvUnbroken(su, w, Reached(su, w, actions));
  }

  lemma {:induction false} InvUnbroken(su: Setup, w: World, s: State)
    requires Inv(su, w, s)
    ensures !s.client.phase.ClientBroken? && !s.server.phase.ServerBroken?
  {
    hide Owed, Holds, Tested, MirrorOf, LedgerAt;
  }

  // ----- no deadlock, and termination -----

  /** As long as the scan is not over some step can be taken, so the two ends never both wait
      for the other; this holds for every channel capacity of at least one message. */
  lemma {:induction false} NoDeadlock(su: Setup, w: World, actions: seq<Action>) returns (a: Action)
    requires Sound(su) && IsRun(su, w, INITIAL, actions)
    requires !Over(Reached(su, w, actions))
    ensures Enabled(su, Reached(su, w, actions), a)
  {
    ReachedInv(su, w, actions);
    a := SomeStep(su, w, Reached(su, w, actions));
  }

  lemma {:induction false} SomeStep(su: Setup, w: World, s: State) returns (a: Action)
    requires Sound(su) && Inv(su, w, s) && !Over(s)
    ensures Enabled(su, s, a)
  {
    hide Holds, LedgerAt, MirrorOf;
    if InBatch(su, w, s) {
      a := SomeBatchStep(su, w, s);
    } else if ClientCanSend(su, s.client) {
      a := ClientSends;
    } else if ServerCanSend(s.server) {
      a := ServerSends;
    } else if s.toServer != [] {
      a := ServerReceives;
    } else {
      a := ClientReceives;
    }
  }

  lemma {:induction false} SomeBatchStep(su: Setup, w: World, s: State) returns (a: Action)
    requires Sound(su) && InBatch(su, w, s)
    ensures Enabled(su, s, a)
  {
    hide Holds, LedgerAt, Mirrors, ReportOf, GoodBatch;
    if s.client.phase.Testing? {
      var p :| p in s.client.phase.running;
      a := ClientTestEnds(p);
    } else if s.toClient != [] {
      a := ClientReceives;
    } else if s.server.phase.Serving? {
      var p :| p in s.server.phase.serving;
      a := ServerTestEnds(p);
    } else if s.toServer != [] {
      a := ServerReceives;
    } else {
      a := ClientSends;
    }
  }

  lemma {:induction false} WorkLeft(su: Setup, w: World, s: State)
    requires Inv(su, w, s) && s.client.batch <= |su.plan|
    ensures Work(su, s) >= 0
    ensures Work(su, s) == 0 <==> Over(s)
  {
    hide Holds, LedgerAt, Mirrors, ReportOf;
    OffsetEnds(su.plan);
    if InBatch(su, w, s) {
      OffsetNext(su.plan, s.client.batch);
    }
  }

  /** Every run takes at most 5 steps per test, 2 per batch and 8 besides, and it has taken
      exactly that many when and only when both ends have finished. Together with `NoDeadlock`:
      however the scheduler picks, every scan ends, with `Bye` consumed. */
  lemma {:induction false} EveryRunEnds(su: Setup, w: World, actions: seq<Action>)
    requires Sound(su) && IsRun(su, w, INITIAL, actions)
    ensures |actions| <= 5 * |Flatten(su.plan)| + 2 * |su.plan| + 8
    ensures |actions| == 5 * |Flatten(su.plan)| + 2 * |su.plan| + 8 <==> Over(Reached(su, w, actions))
  {
    ReachedInv(su, w, actions);
    WorkLeft(su, w, Reached(su, w, actions));
  }

  // ----- the outcome -----

  /** However a scan is interleaved, it ends with the same results in the same order and the same
      counters at each end: results in test order, each the verdict of both halves. */
  lemma {:induction false} Outcome(su: Setup, w: World, actions: seq<Action>)
    requires Sound(su) && IsRun(su, w, INITIAL, actions) && Over(Reached(su, w, actions))
    ensures var all := |Flatten(su.plan)|;
            var t := Reached(su, w, actions);
            && t.client.ledger == LedgerAt(su, w, all)
            && t.server.counters == Count(w.serverRuns, 0, {}, all).Wrapped()
  {
    var t := Reached(su, w, actions);
    ReachedInv(su, w, actions);
    CountNoneSkipped(w.serverRuns, t.server.served, 0, {}, t.server.served);
  }

  /** Agreement of the two summaries: both count every test sent exactly once, the client never
      counts more passes than the server, and each final result is a pass exactly when both
      halves passed. */
  lemma {:induction false} VerdictsAgree(su: Setup, w: World, actions: seq<Action>)
    requires Sound(su) && IsRun(su, w, INITIAL, actions) && Over(Reached(su, w, actions))
    ensures var all := |Flatten(su.plan)|;
            var client, server := Count(w.Verdicts(), 0, {}, all), Count(w.serverRuns, 0, {}, all);
            var t := Reached(su, w, actions);
            && t.client.ledger.counters == client.Wrapped() && t.server.counters == server.Wrapped()
            && client.Total() == server.Total() == all
            && client.passed <= server.passed
    ensures var results := Reached(su, w, actions).client.ledger.results;
            su.keep ==>
              && |results| == |Flatten(su.plan)|
              && forall i: nat :: i < |results| ==>
                   && results[i].result == Verdict(w.clientRuns(i), w.serverRuns(i))
                   && (results[i].result.Pass? <==> w.clientRuns(i).Pass? && w.serverRuns(i).Pass?)
                   && (results[i].serverError.Some? <==> !w.serverRuns(i).Pass?)
  {
    var all := |Flatten(su.plan)|;
    Outcome(su, w, actions);
    CountTotal(w.Verdicts(), all);
    CountTotal(w.serverRuns, all);
    CountFewerPasses(w.Verdicts(), w.serverRuns, all);
  }

  // ----- one batch in flight, and where the two halves of a test meet -----

  /** Two entries that may run at once: one test, transport and direction, different ports. */
  predicate SideBySide(d: BatchEntry, e: BatchEntry) {
    d.testName == e.testName && d.transport == e.transport && d.direction == e.direction && d.port != e.port
  }

  /** The two halves of a test: the same identifier, test, transport and port, opposite roles. */
  predicate Halves(e: BatchEntry, entry: ServerEntry) {
    && entry.id == e.id && entry.protocol == e.testName && entry.transport == e.transport
    && entry.direction == e.direction.Opposite() && entry.targetAddr.port == e.port
  }

  /** These tests, in progress together, are tests of the batch and may run at once. */
  ghost predicate OfBatch(batch: seq<BatchEntry>, running: set<nat>) {
    && (forall p <- running :: p < |batch|)
    && forall p, q :: p in running && q in running && p != q ==> SideBySide(batch[p], batch[q])
  }

  /** At every reachable state all tests in progress, at either end, belong to the client's current
      batch; the server runs the other halves of that batch; and tests in progress at one end share
      test, transport and direction and never a port. */
  lemma {:induction false} OneBatchInFlight(su: Setup, w: World, actions: seq<Action>)
    requires Sound(su) && IsRun(su, w, INITIAL, actions)
    ensures var s := Reached(su, w, actions);
            && (s.client.phase.Testing? ==>
                  InPlan(su, s.client) && OfBatch(su.plan[s.client.batch], s.client.phase.running))
            && (s.server.phase.Serving? ==>
                  && InPlan(su, s.client) && OfBatch(su.plan[s.client.batch], s.server.phase.serving)
                  && |s.server.batch| == |su.plan[s.client.batch]|
                  && forall p <- s.server.phase.serving :: Halves(su.plan[s.client.batch][p], s.server.batch[p]))
  {
    hide Inv, Sound, GoodBatch, Concurrent, Mirrors, SideBySide, Halves, IsRun, Reached;
    var s := Reached(su, w, actions);
    ReachedInv(su, w, actions);
    if s.client.phase.Testing? || s.server.phase.Serving? {
      InProgress(su, w, s);
      AllSideBySide(su.plan[s.client.batch]);
    }
  }

  lemma {:induction false} AllSideBySide(batch: seq<BatchEntry>)
    requires Concurrent(batch)
    ensures forall p, q :: 0 <= p < |batch| && 0 <= q < |batch| && p != q ==> SideBySide(batch[p], batch[q])
  {
    forall p, q | 0 <= p < |batch| && 0 <= q < |batch| && p != q
      ensures SideBySide(batch[p], batch[q])
    {
      ConcurrentPair(batch, p, q);
    }
  }

  lemma {:induction false} ConcurrentPair(batch: seq<BatchEntry>, p: nat, q: nat)
    requires Concurrent(batch) && p < |batch| && q < |batch| && p != q
    ensures SideBySide(batch[p], batch[q])
  {
  }

  lemma {:induction false} InProgress(su: Setup, w: World, s: State)
    requires Sound(su) && Inv(su, w, s) && (s.client.phase.Testing? || s.server.phase.Serving?)
    ensures InPlan(su, s.client)
    ensures var batch := su.plan[s.client.batch];
            && Concurrent(batch)
            && (s.client.phase.Testing? ==> s.client.phase.running <= Upto(|batch|))
            && (s.server.phase.Serving? ==>
                  && |s.server.batch| == |batch| && s.server.phase.serving <= Upto(|batch|)
                  && forall p: nat :: p < |batch| ==>
                       && Halves(batch[p], s.server.batch[p])
                       && Mirrors(su.server, ParseBind(su.server, su.showAddr(su.target)), batch[p], s.server.batch[p]))
  {
    hide Holds, LedgerAt, Decode, ReportOf, Concurrent, Count;
    assert InBatch(su, w, s);
    var batch := su.plan[s.client.batch];
    assert batch in su.plan;
    if s.server.phase.Serving? {
      forall p: nat | p < |batch|
        ensures Halves(batch[p], s.server.batch[p])
        ensures Mirrors(su.server, ParseBind(su.server, su.showAddr(su.target)), batch[p], s.server.batch[p])
      {
        assert batch[p] in batch;
        MirrorIsOpposite(su.server, s.server.bindAddr, batch[p]);
      }
    }
  }

  /** The address a client's half of a test uses: its own to bind, the target to dial. */
  function ClientTarget(su: Setup, e: BatchEntry): SocketAddr {
    (if e.direction == ServerToClient then su.local else su.target).(port := e.port)
  }

  /** While the server runs a test, the address it uses is on the test's port. For a reverse test it is the
      client's own address exactly when the server sees the client under the client's own host. For a forward
      test its host is what the text of the target is read as, a socket address or else a bare host, or else
      the unspecified address; so it is the target as soon as the text is read back as the target. */
  lemma {:induction false} Rendezvous(su: Setup, w: World, actions: seq<Action>, p: nat)
    requires Sound(su) && IsRun(su, w, INITIAL, actions)
    ensures var s := Reached(su, w, actions);
            s.server.phase.Serving? && p in s.server.phase.serving ==>
              && InPlan(su, s.client) && p < |su.plan[s.client.batch]| == |s.server.batch|
              && var e := su.plan[s.client.batch][p];
              var there, text := s.server.batch[p].targetAddr, su.showAddr(su.target);
              var socket, host := su.server.parseSocket(text), su.server.parseHost(text);
              && there.port == e.port
              && (e.direction == ServerToClient ==>
                    (there == ClientTarget(su, e) <==> su.server.clientSeen.host == su.local.host))
              && (e.direction == ClientToServer ==>
                    && there.host == (if socket.Some? then socket.value.host else if host.Some? then host.value else "::")
                    && (socket == Some(su.target) ==> there == ClientTarget(su, e)))
  {
    var s := Reached(su, w, actions);
    ReachedInv(su, w, actions);
    if s.server.phase.Serving? && p in s.server.phase.serving {
      InProgress(su, w, s);
      hide Inv, Sound;
      var e := su.plan[s.client.batch][p];
      assert Mirrors(su.server, ParseBind(su.server, su.showAddr(su.target)), e, s.server.batch[p]);
    }
  }
}
