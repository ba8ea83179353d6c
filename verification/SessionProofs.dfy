/** Every step of a scan keeps the invariant and uses up exactly one unit of work. */
module SessionProofs {
  import opened Messages
  import opened Schedule
  import opened ClientBatch
  import opened ServerBatch
  import opened Session

  // ----- numbering -----

  lemma {:induction false} FlattenTo(plan: seq<seq<BatchEntry>>, b: nat)
    requires b < |plan|
    ensures Flatten(plan) == Flatten(plan[..b]) + plan[b] + Flatten(plan[b + 1..])
    ensures Flatten(plan[..b + 1]) == Flatten(plan[..b]) + plan[b]
  {
    assert plan[..b + 1][..b] == plan[..b];
    assert plan == plan[..b + 1] + plan[b + 1..];
    FlattenAppend(plan[..b + 1], plan[b + 1..]);
  }

  lemma {:induction false} OffsetNext(plan: seq<seq<BatchEntry>>, b: nat)
    requires b < |plan|
    ensures Offset(plan, b + 1) == Offset(plan, b) + |plan[b]| <= |Flatten(plan)|
  {
    FlattenTo(plan, b);
  }

  lemma {:induction false} FlattenAt(plan: seq<seq<BatchEntry>>, b: nat, p: nat)
    requires b < |plan| && p < |plan[b]|
    ensures Offset(plan, b) + p < |Flatten(plan)| && Flatten(plan)[Offset(plan, b) + p] == plan[b][p]
  {
    FlattenTo(plan, b);
  }

  lemma {:induction false} OffsetEnds(plan: seq<seq<BatchEntry>>)
    ensures Offset(plan, 0) == 0 && Offset(plan, |plan|) == |Flatten(plan)|
  {
    assert plan[..|plan|] == plan && plan[..0] == [];
  }

  // ----- the client -----

  lemma {:induction false} ClientSendWork(su: Setup, c: Client)
    requires ClientCanSend(su, c) && c.batch <= |su.plan|
    requires c.phase.Sending? ==> c.phase.next <= |su.plan[c.batch]|
    ensures var c' := ClientSend(su, c).process;
            && c'.batch == c.batch
            && ClientUnsent(su, c') == ClientUnsent(su, c) - 1 && ClientTests(su, c') == ClientTests(su, c)
  {
  }

  lemma {:induction false} SendingKept(server: ServerSetup, w: World, s: State, t: State, batch: seq<BatchEntry>, o: nat)
    requires batch != [] && BatchAt(server, w, s, batch, o) && s.client.phase.Sending?
    requires t.server == s.server && t.toClient == s.toClient
    requires t.toServer == s.toServer + [Script(batch)[s.client.phase.next]]
    requires t.client.completed == s.client.completed
    requires t.client.phase == if s.client.phase.next < |batch| then Sending(s.client.phase.next + 1) else Testing(Upto(|batch|))
    ensures BatchAt(server, w, t, batch, o)
  {
    var k := s.client.phase.next;
    var m := |s.server.batch|;
    assert Script(batch)[m..k] + [Script(batch)[k]] == Script(batch)[m..k + 1];
    assert Gathers(server, t.server, t.toServer, t.toClient, batch, o, k + 1);
    assert 0 in Upto(|batch|);
  }

  lemma {:induction false} ClientTestWork(su: Setup, w: World, c: Client, p: nat)
    requires c.phase.Testing? && InPlan(su, c) && p in c.phase.running && p < |su.plan[c.batch]|
    ensures var c' := ClientTestEnd(su, w, c, p);
            && c'.batch == c.batch
            && ClientUnsent(su, c') == ClientUnsent(su, c) && ClientTests(su, c') == ClientTests(su, c) - 1
  {
  }

  lemma {:induction false} TestedMore(w: World, batch: seq<BatchEntry>, o: nat, completed: map<u32, ProtocolResult>, running: set<nat>, p: nat)
    requires DistinctIds(batch) && p < |batch| && p in running && Tested(w, batch, o, completed, running)
    ensures Tested(w, batch, o, completed[batch[p].id := w.clientRuns(o + p)], running - {p})
  {
  }

  lemma {:induction false} TestedAll(w: World, batch: seq<BatchEntry>, o: nat, completed: map<u32, ProtocolResult>)
    requires batch != [] && Tested(w, batch, o, completed, {})
    ensures Ids(batch) != {} && Holds(w, batch, o, Collect(Ids(batch), completed, map[]))
  {
    assert batch[0].id in Ids(batch);
    forall id | id in Ids(batch)
      ensures id in completed
    {
      var q: nat :| q < |batch| && batch[q].id == id;
    }
  }

  lemma {:induction false} ClientTestKept(server: ServerSetup, w: World, s: State, t: State, batch: seq<BatchEntry>, o: nat, p: nat)
    requires batch != [] && DistinctIds(batch) && BatchAt(server, w, s, batch, o) && s.client.phase.Testing?
    requires p in s.client.phase.running && p < |batch|
    requires t.server == s.server && t.toServer == s.toServer && t.toClient == s.toClient
    requires t.client.completed == s.client.completed[batch[p].id := w.clientRuns(o + p)]
    requires var running := s.client.phase.running - {p};
             t.client.phase == if running == {} then Collecting(Collect(Ids(batch), t.client.completed, map[])) else Testing(running)
    ensures BatchAt(server, w, t, batch, o)
  {
    TestedMore(w, batch, o, s.client.completed, s.client.phase.running, p);
    if t.client.phase.Collecting? {
      TestedAll(w, batch, o, t.client.completed);
    }
    assert Waits(server, w, t, batch, o, Ids(batch));
  }

  /** Reading a report leaves the others owed. */
  lemma {:induction false} OwedPop(w: World, batch: seq<BatchEntry>, o: nat, r: set<nat>, q: seq<Message>, outstanding: set<u32>)
    requires q != [] && Owed(w, batch, o, r, q, outstanding)
    ensures Owed(w, batch, o, r, q[1..], outstanding - {q[0].id})
  {
    assert q == [q[0]] + q[1..];
  }

  lemma {:induction false} HoldsReport(w: World, batch: seq<BatchEntry>, o: nat, view: Collect, m: Message)
    requires DistinctIds(batch) && Holds(w, batch, o, view)
    requires ReportOf(w, batch, o, m) && m.Report? && m.id in view.expected
    ensures OnReport(view, m).Success?
    ensures OnReport(view, m).value.expected == view.expected - {m.id}
    ensures Holds(w, batch, o, OnReport(view, m).value)
  {
    var p: nat :| p < |batch| && m == ResultToReport(batch[p].id, w.serverRuns(o + p));
    assert HoldsAt(w, batch, o, view, p);
    HoldsReportSame(w, batch, o, view, p);
    var next := OnReport(view, m).value;
    assert m.id in Ids(batch);
    assert next.completed.Keys == view.completed.Keys;
    forall q: nat | q < |batch|
      ensures HoldsAt(w, batch, o, next, q)
    {
      if q != p {
        assert batch[q].id != m.id;
        assert HoldsAt(w, batch, o, view, q);
        HoldsReportOther(w, batch, o, view, m, q);
      }
    }
  }

  lemma {:induction false} HoldsReportSame(w: World, batch: seq<BatchEntry>, o: nat, view: Collect, p: nat)
    requires p < |batch| && HoldsAt(w, batch, o, view, p) && batch[p].id in view.expected
    ensures var r := OnReport(view, ResultToReport(batch[p].id, w.serverRuns(o + p)));
            && r.Success? && HoldsAt(w, batch, o, r.value, p)
            && r.value.expected == view.expected - {batch[p].id}
  {
    ReportCarriesVerdict(batch[p].id, w.clientRuns(o + p), w.serverRuns(o + p));
  }

  lemma {:induction false} HoldsReportOther(w: World, batch: seq<BatchEntry>, o: nat, view: Collect, m: Message, q: nat)
    requires q < |batch| && HoldsAt(w, batch, o, view, q) && m.Report? && batch[q].id != m.id
    requires OnReport(view, m).Success?
    ensures HoldsAt(w, batch, o, OnReport(view, m).value, q)
  {
  }

  lemma {:induction false} HoldsDomain(w: World, batch: seq<BatchEntry>, o: nat, view: Collect)
    requires Holds(w, batch, o, view)
    ensures forall e <- batch :: e.id in view.completed
  {
    forall e | e in batch
      ensures e.id in view.completed
    {
      var p: nat :| p < |batch| && batch[p] == e;
      assert HoldsAt(w, batch, o, view, p);
    }
  }

  lemma {:induction false} FinalEntry(su: Setup, w: World, b: nat, view: Collect, k: nat)
    requires b < |su.plan| && k < |su.plan[b]|
    requires Holds(w, su.plan[b], Offset(su.plan, b), view) && view.expected == {}
    ensures su.plan[b][k].id in view.completed
    ensures Offset(su.plan, b) + k < |Flatten(su.plan)|
    ensures var e := su.plan[b][k];
            ToResult(e, view.completed[e.id], Lookup(view.serverErrors, e.id)) ==
            ResultAt(su, w, Offset(su.plan, b) + k)
  {
    FlattenAt(su.plan, b, k);
    assert HoldsAt(w, su.plan[b], Offset(su.plan, b), view, k);
  }

  lemma {:induction false} SettledNext(batch: seq<BatchEntry>, completed: map<u32, ProtocolResult>,
                                       serverErrors: map<u32, string>, keep: bool, ledger: Ledger, k: nat)
    requires k < |batch| && forall e <- batch :: e.id in completed
    ensures var e := batch[k];
            Settled(batch[k..], completed, serverErrors, keep, ledger) ==
            Settled(batch[k + 1..], completed, serverErrors, keep,
                    Record(ledger, keep, ToResult(e, completed[e.id], Lookup(serverErrors, e.id))))
  {
    assert batch[k..][0] == batch[k] && batch[k..][1..] == batch[k + 1..];
  }

  /** Settling a batch whose reports are all in extends the ledger by the verdicts of its tests. */
  lemma {:induction false} SettleVerdicts(su: Setup, w: World, b: nat, view: Collect, ledger: Ledger, k: nat)
    requires b < |su.plan| && k <= |su.plan[b]|
    requires Holds(w, su.plan[b], Offset(su.plan, b), view) && view.expected == {}
    requires forall e <- su.plan[b] :: e.id in view.completed
    requires Offset(su.plan, b) + |su.plan[b]| <= |Flatten(su.plan)|
    requires ledger == LedgerAt(su, w, Offset(su.plan, b) + k)
    ensures Settled(su.plan[b][k..], view.completed, view.serverErrors, su.keep, ledger) ==
            LedgerAt(su, w, Offset(su.plan, b) + |su.plan[b]|)
    decreases |su.plan[b]| - k
  {
    hide LedgerAt, Holds, Record, ToResult, Lookup, ResultAt;
    var batch := su.plan[b];
    var o := Offset(su.plan, b);
    if k < |batch| {
      SettledNext(batch, view.completed, view.serverErrors, su.keep, ledger, k);
      hide Settled;
      FinalEntry(su, w, b, view, k);
      LedgerNext(su, w, o + k);
      assert o + k + 1 == o + (k + 1);
      SettleVerdicts(su, w, b, view, LedgerAt(su, w, o + (k + 1)), k + 1);
    } else {
      assert batch[k..] == [];
    }
  }

  lemma {:induction false} LedgerNext(su: Setup, w: World, n: nat)
    requires n < |Flatten(su.plan)|
    ensures Record(LedgerAt(su, w, n), su.keep, ResultAt(su, w, n)) == LedgerAt(su, w, n + 1)
  {
    BumpIsAdd(Count(w.Verdicts(), 0, {}, n), w.Verdicts()(n));
  }

  // ----- the server -----

  lemma {:induction false} GatherMore(su: Setup, sv: Server, toServer: seq<Message>, batch: seq<BatchEntry>, o: nat, k: nat)
    requires GoodBatch(su.server.registry, sv.parallel, batch)
    requires Gathers(su.server, sv, toServer, [], batch, o, k) && toServer != []
    ensures var sv' := ServerReceive(su, sv, toServer[0]);
            && sv'.parallel == sv.parallel && sv'.bindAddr == sv.bindAddr
            && sv'.counters == sv.counters && sv'.served == sv.served
            && (if |sv.batch| < |batch| then
                  Gathers(su.server, sv', toServer[1..], [], batch, o, k) && |sv'.batch| == |sv.batch| + 1
                else
                  && k == |batch| + 1 && toServer[1..] == []
                  && sv'.phase == Serving(Upto(|batch|), false) && Serves(su.server, sv', batch, o))
  {
    var m := |sv.batch|;
    assert toServer[0] == Script(batch)[m];
    assert toServer[1..] == Script(batch)[m + 1..k];
    if m < |batch| {
      assert batch[m] in batch;
      MirrorIsOpposite(su.server, sv.bindAddr, batch[m]);
    } else {
      assert 0 in Upto(|batch|);
    }
  }

  lemma {:induction false} OwedAll(w: World, batch: seq<BatchEntry>, o: nat)
    requires DistinctIds(batch)
    ensures Owed(w, batch, o, Upto(|batch|), [], Ids(batch))
  {
    CountIds(batch);
  }

  /** A test that ends turns into a report in the channel. */
  lemma {:induction false} OwedPush(w: World, batch: seq<BatchEntry>, o: nat, r: set<nat>, q: seq<Message>,
                                    outstanding: set<u32>, p: nat)
    requires DistinctIds(batch) && Owed(w, batch, o, r, q, outstanding) && p in r && p < |batch|
    ensures Owed(w, batch, o, r - {p}, q + [ResultToReport(batch[p].id, w.serverRuns(o + p))], outstanding)
  {
    var m := ResultToReport(batch[p].id, w.serverRuns(o + p));
    assert ReportOf(w, batch, o, m);
    assert |r - {p}| == |r| - 1;
  }

  lemma {:induction false} ServesOn(su: Setup, w: World, sv: Server, batch: seq<BatchEntry>, o: nat, p: nat)
    requires Serves(su.server, sv, batch, o) && sv.phase.Serving? && p in sv.phase.serving && p < |batch|
    ensures var sent := ServerTestEnd(w, sv, p);
            && Serves(su.server, sent.process, batch, o)
            && ServingSet(sent.process) == ServingSet(sv) - {p}
            && sent.process.parallel == sv.parallel && sent.process.bindAddr == sv.bindAddr
            && sent.message == ResultToReport(batch[p].id, w.serverRuns(o + p))
  {
    assert Mirrors(su.server, sv.bindAddr, batch[p], sv.batch[p]);
  }

  lemma {:induction false} ServesCounts(w: World, sv: Server, p: nat)
    requires sv.phase.Serving? && p in sv.phase.serving && p < |sv.batch|
    requires sv.counters == ServerTally(w, sv).Wrapped()
    ensures var sv' := ServerTestEnd(w, sv, p).process;
            sv'.counters == ServerTally(w, sv').Wrapped()
  {
    var n := sv.served + |sv.batch|;
    CountOneMore(w.serverRuns, sv.served, sv.phase.serving, p, n);
    BumpIsAdd(Count(w.serverRuns, sv.served, sv.phase.serving, n), w.serverRuns(sv.served + p));
    CountNoneSkipped(w.serverRuns, sv.served, n, {}, n);
  }

  lemma {:induction false} ServesStart(w: World, sv: Server, sv': Server)
    requires sv.phase.Gathering? && sv.counters == ServerTally(w, sv).Wrapped()
    requires sv'.phase.Serving? && sv'.phase.serving == Upto(|sv'.batch|)
    requires sv'.served == sv.served && sv'.counters == sv.counters
    ensures sv'.counters == ServerTally(w, sv').Wrapped()
  {
    CountAllSkipped(w.serverRuns, sv.served, Upto(|sv'.batch|), |sv'.batch|);
    CountNoneSkipped(w.serverRuns, sv.served, sv.served, Upto(|sv'.batch|), sv.served);
  }

  // ----- steps of the server and receipt of a report, within a batch -----

  lemma {:induction false} ServerTestKept(su: Setup, w: World, s: State, t: State, batch: seq<BatchEntry>, o: nat, p: nat)
    requires DistinctIds(batch) && BatchAt(su.server, w, s, batch, o)
    requires s.server.phase.Serving? && p in s.server.phase.serving && p < |s.server.batch|
    requires t.client == s.client && t.toServer == s.toServer
    requires t.server == ServerTestEnd(w, s.server, p).process
    requires t.toClient == s.toClient + [ServerTestEnd(w, s.server, p).message]
    ensures BatchAt(su.server, w, t, batch, o)
  {
    var outstanding := if s.client.phase.Testing? then Ids(batch) else s.client.phase.view.expected;
    assert Waits(su.server, w, s, batch, o, outstanding);
    ServesOn(su, w, s.server, batch, o, p);
    OwedPush(w, batch, o, ServingSet(s.server), s.toClient, outstanding, p);
    assert Waits(su.server, w, t, batch, o, outstanding) by {
      hide Owed;
    }
  }

  lemma {:induction false} ServerGatherKept(su: Setup, w: World, s: State, t: State, batch: seq<BatchEntry>, o: nat)
    requires GoodBatch(su.server.registry, s.server.parallel, batch) && BatchAt(su.server, w, s, batch, o)
    requires s.server.phase.Gathering? && s.toServer != []
    requires t.client == s.client && t.toServer == s.toServer[1..] && t.toClient == s.toClient
    requires t.server == ServerReceive(su, s.server, s.toServer[0])
    ensures BatchAt(su.server, w, t, batch, o)
    ensures t.server.parallel == s.server.parallel && t.server.bindAddr == s.server.bindAddr
    ensures t.server.counters == s.server.counters && t.server.served == s.server.served
    ensures t.server.phase.Gathering? || t.server.phase == Serving(Upto(|t.server.batch|), false)
  {
    var k := if s.client.phase.Sending? then s.client.phase.next else |batch| + 1;
    assert Gathers(su.server, s.server, s.toServer, s.toClient, batch, o, k);
    GatherMore(su, s.server, s.toServer, batch, o, k);
    if t.server.phase.Serving? {
      OwedAll(w, batch, o);
      assert Waits(su.server, w, t, batch, o, Ids(batch)) by {
        hide Owed, Serves;
      }
    } else {
      assert Gathers(su.server, t.server, t.toServer, t.toClient, batch, o, k);
    }
  }

  lemma {:induction false} ReportKept(su: Setup, w: World, s: State, batch: seq<BatchEntry>, o: nat)
    requires DistinctIds(batch) && BatchAt(su.server, w, s, batch, o)
    requires s.client.phase.Collecting? && s.toClient != []
    ensures OnReport(s.client.phase.view, s.toClient[0]).Success?
    ensures var next := OnReport(s.client.phase.view, s.toClient[0]).value;
            && next.expected <= Ids(batch) && Holds(w, batch, o, next)
            && Serves(su.server, s.server, batch, o) && s.toServer == []
            && Owed(w, batch, o, ServingSet(s.server), s.toClient[1..], next.expected)
  {
    var view := s.client.phase.view;
    OwedPop(w, batch, o, ServingSet(s.server), s.toClient, view.expected);
    HoldsReport(w, batch, o, view, s.toClient[0]);
  }
}
