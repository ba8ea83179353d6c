/** The two sequential programs joined: what the client makes of what the server sends, for every
    order in which the tests of a batch end at either end. */
module Programs {
  import opened Messages
  import opened Schedule
  import opened PlanShape
  import opened ClientBatch
  import opened ServerBatch
  import opened Session
  import opened SessionProofs
  import opened SessionSafety
  import opened Endpoints
  import opened EndToEnd

  // ----- one batch -----

  lemma {:induction false} StartHolds(w: World, batch: seq<BatchEntry>, o: nat)
    requires DistinctIds(batch)
    ensures Holds(w, batch, o, Collect(Ids(batch), RunsOf(batch, Shift(w.clientRuns, o)), map[]))
  {
    var completed := RunsOf(batch, Shift(w.clientRuns, o));
    RunsOfHolds(batch, Shift(w.clientRuns, o));
    hide RunsOf, DistinctIds;
    forall p: nat | p < |batch|
      ensures HoldsAt(w, batch, o, Collect(Ids(batch), completed, map[]), p)
    {
      assert batch[p] in batch;
    }
  }

  /** Reports of the batch's own tests leave every test with its verdict. */
  lemma {:induction false} CollectHolds(w: World, batch: seq<BatchEntry>, o: nat, view: Collect, inbox: seq<Message>)
    requires DistinctIds(batch) && Holds(w, batch, o, view) && |view.expected| <= |inbox|
    requires forall k :: 0 <= k < |view.expected| ==> ReportOf(w, batch, o, inbox[k])
    requires Answers(view.expected, inbox[..|view.expected|])
    ensures var r := CollectAll(view, inbox);
            && r.Success? && r.value.view.expected == {} && Holds(w, batch, o, r.value.view)
            && r.value.unread == inbox[|view.expected|..]
    decreases |inbox|
  {
    var n := |view.expected|;
    if view.expected == {} {
    } else {
      var m := inbox[0];
      AnswersFirst(view.expected, inbox[..n]);
      assert ReportOf(w, batch, o, m) && inbox[..n][1..] == inbox[1..][..n - 1];
      HoldsReport(w, batch, o, view, m);
      var next := OnReport(view, m).value;
      assert |next.expected| == n - 1;
      assert CollectAll(view, inbox) == CollectAll(next, inbox[1..]);
      hide Holds, ReportOf, Answers, OnReport, DistinctIds, CollectAll;
      CollectHolds(w, batch, o, next, inbox[1..]);
    }
  }

  /** What a server that mirrors the batch reports is one report for each of its tests. */
  lemma {:induction false} ReportsAnswer(server: ServerSetup, bindAddr: Option<SocketAddr>, w: World, batch: seq<BatchEntry>,
                                         entries: seq<ServerEntry>, o: nat, reports: seq<Message>)
    requires DistinctIds(batch) && |entries| == |batch| && forall i :: 0 <= i < |batch| ==> entries[i].id == batch[i].id
    requires ReportsBatch(entries, Shift(w.serverRuns, o), reports)
    ensures |reports| == |batch| && Answers(Ids(batch), reports)
    ensures forall k :: 0 <= k < |reports| ==> ReportOf(w, batch, o, reports[k])
  {
    var order: seq<nat> :| ReportsInOrder(entries, Shift(w.serverRuns, o), order, reports);
    CountIds(batch);
    forall k | 0 <= k < |reports|
      ensures reports[k] == ResultToReport(batch[order[k]].id, w.serverRuns(o + order[k]))
      ensures reports[k].Report? && reports[k].id == batch[order[k]].id && batch[order[k]] in batch
      ensures ReportOf(w, batch, o, reports[k])
    {
      TellsExactly(reports[k], batch[order[k]].id, w.serverRuns(o + order[k]));
    }
    hide ResultToReport, ReportOf;
  }

  /** From the ledger before a batch to the ledger after it. */
  lemma {:induction false} BatchVerdicts(su: Setup, w: World, b: nat, reports: seq<Message>, rest: seq<Message>)
    requires Sound(su) && b < |su.plan|
    requires var batch := su.plan[b];
             && |reports| == |batch| && Answers(Ids(batch), reports)
             && forall k :: 0 <= k < |reports| ==> ReportOf(w, batch, Offset(su.plan, b), reports[k])
    requires Offset(su.plan, b) <= |Flatten(su.plan)|
    ensures var batch, o := su.plan[b], Offset(su.plan, b);
            && o + |batch| <= |Flatten(su.plan)|
            && Reconcile(batch, RunsOf(batch, Shift(w.clientRuns, o)), reports + rest, su.keep, LedgerAt(su, w, o)) ==
               Success(BatchDone(LedgerAt(su, w, o + |batch|), rest))
  {
    var batch, o := su.plan[b], Offset(su.plan, b);
    var view := Collect(Ids(batch), RunsOf(batch, Shift(w.clientRuns, o)), map[]);
    assert DistinctIds(batch) by {
      assert batch in su.plan;
    }
    CountIds(batch);
    assert (reports + rest)[..|batch|] == reports && (reports + rest)[|batch|..] == rest;
    StartHolds(w, batch, o);
    hide Sound, Holds, ReportOf, Answers, DistinctIds, CollectAll, RunsOf, Settle, LedgerAt, Ids;
    CollectHolds(w, batch, o, view, reports + rest);
    SettledBatch(su, w, b, CollectAll(view, reports + rest).value.view, LedgerAt(su, w, o));
  }

  // ----- all batches -----

  /** How a server gathers the next batch of the plan. */
  lemma {:induction false} GathersNext(su: Setup, bindAddr: Option<SocketAddr>, b: nat)
    requires Sound(su) && b < |su.plan|
    ensures var g := GatherAll(su.server, Max(1, su.parallel), bindAddr, [], Scripts(su.plan[b..]));
            && DistinctIds(su.plan[b]) && su.plan[b] != []
            && g.Success? && |g.value.batch| == |su.plan[b]| && !g.value.doneAfter && g.value.unread == Scripts(su.plan[b + 1..])
            && forall i :: 0 <= i < |su.plan[b]| ==> g.value.batch[i].id == su.plan[b][i].id
  {
    var batch, parallel := su.plan[b], Max(1, su.parallel);
    assert batch in su.plan && GoodBatch(su.server.registry, parallel, batch);
    assert su.plan[b..][0] == batch && su.plan[b..][1..] == su.plan[b + 1..];
    hide Sound, GatherAll, Script;
    GatherScript(su.server, parallel, bindAddr, batch, Scripts(su.plan[b + 1..]));
    var g := GatherAll(su.server, parallel, bindAddr, [], Scripts(su.plan[b..]));
    forall i | 0 <= i < |batch|
      ensures g.value.batch[i].id == batch[i].id
    {
      assert Mirrors(su.server, bindAddr, batch[i], g.value.batch[i]);
    }
  }

  lemma {:induction false} ReportsFirst(server: ServerSetup, parallel: nat, bindAddr: Option<SocketAddr>, runs: nat -> ProtocolResult,
                                        served: nat, inbox: seq<Message>, reports: seq<Message>)
    requires ReportsAll(server, parallel, bindAddr, runs, served, inbox, reports)
    requires var g := GatherAll(server, parallel, bindAddr, [], inbox);
             g.Success? && g.value.batch != [] && !g.value.doneAfter
    ensures var g := GatherAll(server, parallel, bindAddr, [], inbox).value;
            var n := |g.batch|;
            && n <= |reports| && ReportsBatch(g.batch, Shift(runs, served), reports[..n])
            && ReportsAll(server, parallel, bindAddr, runs, served + n, g.unread, reports[n..])
  {
    hide GatherAll, ReportsBatch;
  }

  /** What the reports of a server that is sent the rest of the plan start with. */
  lemma {:induction false} ReportsSplit(su: Setup, bindAddr: Option<SocketAddr>, w: World, b: nat, reports: seq<Message>)
    requires Sound(su) && b < |su.plan|
    requires ReportsAll(su.server, Max(1, su.parallel), bindAddr, w.serverRuns, Offset(su.plan, b), Scripts(su.plan[b..]), reports)
    ensures var batch, o := su.plan[b], Offset(su.plan, b);
            && |batch| <= |reports| && Answers(Ids(batch), reports[..|batch|])
            && (forall k :: 0 <= k < |batch| ==> ReportOf(w, batch, o, reports[..|batch|][k]))
            && ReportsAll(su.server, Max(1, su.parallel), bindAddr, w.serverRuns, o + |batch|, Scripts(su.plan[b + 1..]),
                          reports[|batch|..])
  {
    hide *;
    GathersNext(su, bindAddr, b);
    ReportsFirst(su.server, Max(1, su.parallel), bindAddr, w.serverRuns, Offset(su.plan, b), Scripts(su.plan[b..]), reports);
    var g := GatherAll(su.server, Max(1, su.parallel), bindAddr, [], Scripts(su.plan[b..]));
    ReportsAnswer(su.server, bindAddr, w, su.plan[b], g.value.batch, Offset(su.plan, b), reports[..|su.plan[b]|]);
  }

  lemma {:induction false} ReportsEnd(server: ServerSetup, parallel: nat, bindAddr: Option<SocketAddr>, runs: nat -> ProtocolResult,
                                      served: nat, reports: seq<Message>)
    requires ReportsAll(server, parallel, bindAddr, runs, served, Scripts([]), reports)
    ensures reports == []
  {
    assert GatherAll(server, parallel, bindAddr, [], [Done]) == Success(Gathered([], true, [Done][1..]));
  }

  lemma {:induction false} ScanReports(su: Setup, bindAddr: Option<SocketAddr>, w: World, b: nat, reports: seq<Message>, summary: Summary)
    requires Sound(su) && b <= |su.plan| && Offset(su.plan, b) <= |Flatten(su.plan)|
    requires ReportsAll(su.server, Max(1, su.parallel), bindAddr, w.serverRuns, Offset(su.plan, b), Scripts(su.plan[b..]), reports)
    ensures ScanAll(su.plan[b..], w.clientRuns, Offset(su.plan, b), reports + [Bye(summary)], su.keep,
                    LedgerAt(su, w, Offset(su.plan, b))) == Success(LedgerAt(su, w, |Flatten(su.plan)|))
    decreases |su.plan| - b
  {
    hide *;
    if b == |su.plan| {
      assert su.plan[b..] == [];
      ReportsEnd(su.server, Max(1, su.parallel), bindAddr, w.serverRuns, Offset(su.plan, b), reports);
      OffsetEnds(su.plan);
      ScanEnd(w.clientRuns, Offset(su.plan, b), [Bye(summary)], su.keep, LedgerAt(su, w, Offset(su.plan, b)));
      assert reports + [Bye(summary)] == [Bye(summary)];
    } else {
      var n := |su.plan[b]|;
      ReportsSplit(su, bindAddr, w, b, reports);
      OffsetNext(su.plan, b);
      var rest := reports[n..] + [Bye(summary)];
      assert reports[..n] + rest == reports + [Bye(summary)];
      BatchVerdicts(su, w, b, reports[..n], rest);
      ScanNext(su.plan, b, w.clientRuns, Offset(su.plan, b), reports + [Bye(summary)], su.keep, LedgerAt(su, w, Offset(su.plan, b)));
      ScanReports(su, bindAddr, w, b + 1, reports[n..], summary);
    }
  }

  // ----- the two programs -----

  /** All a client sends for an accepted scan. */
  function ClientMessages(scan: Scan): seq<Message>
    requires Plan(scan.registry, scan.config).Success?
  {
    [ConfigureMessage(ToSetup(scan))] + Scripts(ToSetup(scan).plan)
  }

  lemma {:induction false} ServerFed(su: Setup, runs: nat -> ProtocolResult)
    requires Sound(su)
    ensures ServerOutcome(su.server, runs, [ConfigureMessage(su)] + Scripts(su.plan)) ==
            Success(Count(runs, 0, {}, |Flatten(su.plan)|).Wrapped())
  {
    hide *;
    SoundBatches(su);
    ServerTold(su, runs);
    ServesPlan(su.server, Max(1, su.parallel), ParseBind(su.server, su.showAddr(su.target)), runs, su.plan, 0);
  }

  lemma {:induction false} SoundBatches(su: Setup)
    requires Sound(su)
    ensures forall batch <- su.plan :: GoodBatch(su.server.registry, Max(1, su.parallel), batch)
  {
    hide GoodBatch;
  }

  lemma {:induction false} ServerTold(su: Setup, runs: nat -> ProtocolResult)
    ensures ServerOutcome(su.server, runs, [ConfigureMessage(su)] + Scripts(su.plan)) ==
            ServeAll(su.server, Max(1, su.parallel), ParseBind(su.server, su.showAddr(su.target)), runs, 0, Scripts(su.plan))
  {
    assert ([ConfigureMessage(su)] + Scripts(su.plan))[1..] == Scripts(su.plan);
    hide Scripts, ServeAll, ParseBind;
  }

  lemma {:induction false} ClientFed(scan: Scan, runs: nat -> ProtocolResult, rest: seq<Message>)
    requires Plan(scan.registry, scan.config).Success?
    ensures ClientOutcome(scan.registry, scan.config, runs, [Ack(true, None)] + rest, !scan.json || scan.jsonExport) ==
            ScanAll(ToSetup(scan).plan, runs, 0, rest, !scan.json || scan.jsonExport, Ledger(NO_COUNTS, []))
  {
    assert ([Ack(true, None)] + rest)[1..] == rest;
    hide Plan, ScanAll;
  }

  /** The two programs joined, for every accepted scan. A server that is sent what the client sends
      ends with the count of its own results; and a client that is sent what that server then sends,
      in whatever order tests end at either end, ends with one result per test, in test order, each the
      verdict of both halves. This is the outcome of every interleaving of the step system. */
  lemma {:induction false} ProgramsAgree(scan: Scan, w: World, reports: seq<Message>)
    requires Accepted(scan)
    requires var su := ToSetup(scan);
             ReportsAll(su.server, Max(1, su.parallel), ParseBind(su.server, su.showAddr(su.target)), w.serverRuns, 0,
                        Scripts(su.plan), reports)
    ensures var su := ToSetup(scan);
            var all := |Flatten(su.plan)|;
            var summary := Count(w.serverRuns, 0, {}, all).Wrapped();
            && ServerOutcome(su.server, w.serverRuns, ClientMessages(scan)) == Success(summary)
            && ClientOutcome(scan.registry, scan.config, w.clientRuns, [Ack(true, None)] + reports + [Bye(summary)], !scan.json || scan.jsonExport) ==
               Success(LedgerAt(su, w, all))
  {
    var su := ToSetup(scan);
    AcceptedIsSound(scan);
    hide Sound, Plan, Scripts, ReportsAll, ScanAll, ServeAll, LedgerAt, Count, GoodBatch, ParseBind, Offset, ClientOutcome,
      ServerOutcome, Accepted;
    var summary := Count(w.serverRuns, 0, {}, |Flatten(su.plan)|).Wrapped();
    OffsetEnds(su.plan);
    NothingYet(su, w);
    assert su.plan[0..] == su.plan;
    ScanReports(su, ParseBind(su.server, su.showAddr(su.target)), w, 0, reports, summary);
    ServerFed(su, w.serverRuns);
    ClientFed(scan, w.clientRuns, reports + [Bye(summary)]);
    assert [Ack(true, None)] + reports + [Bye(summary)] == [Ack(true, None)] + (reports + [Bye(summary)]);
  }

  lemma {:induction false} NothingYet(su: Setup, w: World)
    ensures LedgerAt(su, w, 0) == Ledger(NO_COUNTS, [])
  {
  }

  /** Both programs on each other's messages: the server is run on what the client is going to send, the
      client on what the server has sent, and what the client then sends is what the server was run on.
      Both end as every interleaving does: the client with what the two halves of each test of its plan say
      together, the server with the sums of its own. */
  method RunTogether(scan: Scan, w: World)
    returns (r: Result<Ledger, SessionError>, summary: Result<Summary, SessionError>, toServer: seq<Message>, toClient: seq<Message>)
    requires Accepted(scan)
    ensures Planned(scan.registry, scan.config, Plan(scan.registry, scan.config).value)
    ensures var tests := Flatten(Plan(scan.registry, scan.config).value);
            && r.Success? && Records(tests, w, !scan.json || scan.jsonExport, r.value)
            && summary.Success? && Sums(summary.value, w.serverRuns, |tests|)
    ensures r == Success(LedgerAt(ToSetup(scan), w, |Flatten(ToSetup(scan).plan)|))
    ensures toServer == ClientMessages(scan)
    ensures toClient != [] && toClient[0] == Ack(true, None) && toClient[|toClient| - 1] == Bye(summary.value)
  {
    var su := ToSetup(scan);
    hide Plan, Scripts, ReportsAll, LedgerAt, Count, ParseBind, ClientOutcome, ServerOutcome, Accepted, Flatten, Records, Sums, Planned;
    ghost var reports: seq<Message>;
    summary, toClient, reports := RunServer(scan.server, w.serverRuns, ClientMessages(scan));
    assert ClientMessages(scan)[0] == ConfigureMessage(su) && ClientMessages(scan)[1..] == Scripts(su.plan);
    ProgramsAgree(scan, w, reports);
    LedgerRecords(su, w);
    CountSums(w.serverRuns, |Flatten(su.plan)|);
    r, toServer := RunClient(scan.registry, scan.config, scan.target, scan.showAddr, scan.timeoutMs, w.clientRuns, toClient,
                             scan.json, scan.jsonExport);
  }
}
