/** What holds of every run: no protocol error, no deadlock, a fixed number of steps, and an
    outcome that does not depend on the interleaving. */
module SessionSafety {
  import opened Messages
  import opened Schedule
  import opened ClientBatch
  import opened ServerBatch
  import opened Session
  import opened SessionProofs

  /** A step keeps the invariant and is exactly one unit of work. */
  ghost predicate Kept(su: Setup, w: World, s: State, t: State) {
    Inv(su, w, t) && s.client.batch <= |su.plan| && t.client.batch <= |su.plan| && Work(su, t) == Work(su, s) - 1
  }

  lemma {:induction false} CurrentGood(su: Setup, c: Client)
    requires Sound(su) && InPlan(su, c)
    ensures GoodBatch(su.server.registry, Max(1, su.parallel), su.plan[c.batch])
    ensures DistinctIds(su.plan[c.batch]) && su.plan[c.batch] != []
  {
    assert su.plan[c.batch] in su.plan;
  }

  lemma {:induction false} ClientSendsStep(su: Setup, w: World, s: State)
    requires Sound(su) && Inv(su, w, s) && Enabled(su, s, ClientSends)
    ensures Kept(su, w, s, Next(su, w, s, ClientSends))
  {
    var t := Next(su, w, s, ClientSends);
    match s.client.phase
    case Configuring =>
      assert Handshake(su, t);
      ClientSendWork(su, s.client);
    case Sending(_) =>
      CurrentGood(su, s.client);
      ClientSendWork(su, s.client);
      SendingKept(su.server, w, s, t, su.plan[s.client.batch], Offset(su.plan, s.client.batch));
      assert InBatch(su, w, t);
    case SendDone =>
      assert Closing(su, w, t);
  }

  lemma {:induction false} ClientTestEndsStep(su: Setup, w: World, s: State, p: nat)
    requires Sound(su) && Inv(su, w, s) && Enabled(su, s, ClientTestEnds(p))
    ensures Kept(su, w, s, Next(su, w, s, ClientTestEnds(p)))
  {
    hide Gathers, Serves, Owed, Tested, Holds, GoodBatch;
    var t := Next(su, w, s, ClientTestEnds(p));
    CurrentGood(su, s.client);
    ClientTestWork(su, w, s.client, p);
    ClientTestKept(su.server, w, s, t, su.plan[s.client.batch], Offset(su.plan, s.client.batch), p);
    assert InBatch(su, w, t);
  }

  lemma {:induction false} ServerSendsStep(su: Setup, w: World, s: State)
    requires Sound(su) && Inv(su, w, s) && Enabled(su, s, ServerSends)
    ensures Kept(su, w, s, Next(su, w, s, ServerSends))
  {
    var t := Next(su, w, s, ServerSends);
    assert Handshake(su, t) || Closing(su, w, t);
  }

  lemma {:induction false} ServerTestWork(su: Setup, w: World, sv: Server, p: nat)
    requires sv.phase.Serving? && p in sv.phase.serving && p < |sv.batch|
    ensures var sv' := ServerTestEnd(w, sv, p).process;
            ServerTests(su, sv') == ServerTests(su, sv) - 1 && ServerUnsent(sv') == ServerUnsent(sv)
  {
    assert |sv.phase.serving - {p}| == |sv.phase.serving| - 1;
  }

  lemma {:induction false} ServerTestEndsStep(su: Setup, w: World, s: State, p: nat)
    requires Sound(su) && Inv(su, w, s) && Enabled(su, s, ServerTestEnds(p))
    ensures Kept(su, w, s, Next(su, w, s, ServerTestEnds(p)))
  {
    hide BatchAt, GoodBatch, LedgerAt;
    var t := Next(su, w, s, ServerTestEnds(p));
    assert InBatch(su, w, s);
    CurrentGood(su, s.client);
    ServerTestKept(su, w, s, t, su.plan[s.client.batch], Offset(su.plan, s.client.batch), p);
    ServesCounts(w, s.server, p);
    ServerTestWork(su, w, s.server, p);
    hide Count;
    assert Accounts(su, w, t.server);
    assert InBatch(su, w, t);
  }

  /** What gathering one message changes. */
  ghost predicate TookOne(su: Setup, w: World, s: State, t: State) {
    && t.client == s.client && s.toServer != [] && t.toServer == s.toServer[1..] && t.toClient == s.toClient
    && t.server.parallel == s.server.parallel && t.server.bindAddr == s.server.bindAddr
    && t.server.counters == s.server.counters && t.server.served == s.server.served
    && s.server.phase.Gathering?
    && (t.server.phase.Gathering? || t.server.phase == Serving(Upto(|t.server.batch|), false))
  }

  lemma {:induction false} TookAccounts(su: Setup, w: World, s: State, t: State)
    requires Accounts(su, w, s.server) && TookOne(su, w, s, t)
    ensures Accounts(su, w, t.server)
  {
    if t.server.phase.Serving? {
      ServesStart(w, s.server, t.server);
    }
    hide Count, ParseBind;
  }

  lemma {:induction false} TookWork(su: Setup, w: World, s: State, t: State)
    requires TookOne(su, w, s, t) && s.client.batch <= |su.plan|
    ensures Work(su, t) == Work(su, s) - 1
  {
    hide Flatten;
  }

  lemma {:induction false} ServerGathersStep(su: Setup, w: World, s: State)
    requires Sound(su) && Inv(su, w, s) && InBatch(su, w, s) && Enabled(su, s, ServerReceives)
    requires s.server.phase.Gathering?
    ensures Kept(su, w, s, Next(su, w, s, ServerReceives))
  {
    hide BatchAt, GoodBatch, LedgerAt, Handshake, Closing, ServerTally, OnMessage, Work, Count;
    var t := Next(su, w, s, ServerReceives);
    CurrentGood(su, s.client);
    ServerGatherKept(su, w, s, t, su.plan[s.client.batch], Offset(su.plan, s.client.batch));
    assert TookOne(su, w, s, t) && InBatch(su, w, t);
    hide Next, TookOne, Sound, Accounts;
    TookAccounts(su, w, s, t);
    TookWork(su, w, s, t);
  }

  lemma {:induction false} ServerReceivesStep(su: Setup, w: World, s: State)
    requires Sound(su) && Inv(su, w, s) && Enabled(su, s, ServerReceives)
    ensures Kept(su, w, s, Next(su, w, s, ServerReceives))
  {
    var t := Next(su, w, s, ServerReceives);
    if InBatch(su, w, s) {
      ServerGathersStep(su, w, s);
    } else if s.server.phase.AwaitConfigure? {
      assert Handshake(su, t);
    } else {
      assert Closing(su, w, t);
    }
  }

  lemma {:induction false} ClientReceivesStep(su: Setup, w: World, s: State)
    requires Sound(su) && Inv(su, w, s) && Enabled(su, s, ClientReceives)
    ensures Kept(su, w, s, Next(su, w, s, ClientReceives))
  {
    var t := Next(su, w, s, ClientReceives);
    match s.client.phase
    case AwaitAck =>
      AckStep(su, w, s);
    case Collecting(_) =>
      ReportStep(su, w, s);
    case AwaitBye =>
      assert Closing(su, w, t);
  }

  lemma {:induction false} AckStep(su: Setup, w: World, s: State)
    requires Sound(su) && Inv(su, w, s) && Enabled(su, s, ClientReceives) && s.client.phase.AwaitAck?
    ensures Kept(su, w, s, Next(su, w, s, ClientReceives))
  {
    var t := Next(su, w, s, ClientReceives);
    OffsetEnds(su.plan);
    assert s.client.ledger == LedgerAt(su, w, 0);
    if su.plan != [] {
      assert InBatch(su, w, t);
    } else {
      assert Closing(su, w, t);
    }
  }

  lemma {:induction false} ReportStep(su: Setup, w: World, s: State)
    requires Sound(su) && Inv(su, w, s) && Enabled(su, s, ClientReceives) && s.client.phase.Collecting?
    ensures Kept(su, w, s, Next(su, w, s, ClientReceives))
  {
    hide BatchAt, GoodBatch, LedgerAt, Holds, Serves, Owed;
    assert InBatch(su, w, s);
    var b := s.client.batch;
    var batch := su.plan[b];
    var o := Offset(su.plan, b);
    CurrentGood(su, s.client);
    ReportKept(su, w, s, batch, o);
    if OnReport(s.client.phase.view, s.toClient[0]).value.expected != {} {
      MiddleReportStep(su, w, s);
    } else {
      LastReportStep(su, w, s);
    }
  }

  lemma {:induction false} MiddleReportStep(su: Setup, w: World, s: State)
    requires Inv(su, w, s) && InBatch(su, w, s) && Enabled(su, s, ClientReceives) && s.client.phase.Collecting?
    requires OnReport(s.client.phase.view, s.toClient[0]).Success?
    requires var next := OnReport(s.client.phase.view, s.toClient[0]).value;
             var batch := su.plan[s.client.batch];
             var o := Offset(su.plan, s.client.batch);
             && next.expected != {} && next.expected <= Ids(batch) && Holds(w, batch, o, next)
             && Serves(su.server, s.server, batch, o) && s.toServer == []
             && Owed(w, batch, o, ServingSet(s.server), s.toClient[1..], next.expected)
    ensures Kept(su, w, s, Next(su, w, s, ClientReceives))
  {
    hide GoodBatch, LedgerAt, Holds, Serves, Owed, Gathers, Handshake, Closing, OnReport;
    var t := Next(su, w, s, ClientReceives);
    assert BatchAt(su.server, w, t, su.plan[s.client.batch], Offset(su.plan, s.client.batch));
    assert InBatch(su, w, t);
  }

  lemma {:induction false} LastReportStep(su: Setup, w: World, s: State)
    requires Sound(su) && Inv(su, w, s) && InBatch(su, w, s) && Enabled(su, s, ClientReceives) && s.client.phase.Collecting?
    requires OnReport(s.client.phase.view, s.toClient[0]).Success?
    requires var next := OnReport(s.client.phase.view, s.toClient[0]).value;
             var batch := su.plan[s.client.batch];
             var o := Offset(su.plan, s.client.batch);
             && next.expected == {} && Holds(w, batch, o, next)
             && Serves(su.server, s.server, batch, o) && s.toServer == []
             && Owed(w, batch, o, ServingSet(s.server), s.toClient[1..], {})
    ensures Kept(su, w, s, Next(su, w, s, ClientReceives))
  {
    hide GoodBatch, LedgerAt, Holds, Handshake, OnReport, BatchAt;
    var b := s.client.batch;
    var batch := su.plan[b];
    var o := Offset(su.plan, b);
    ServesDone(su, w, s.server, batch, o, s.toClient[1..]);
    hide Serves, Owed;
    SettledBatch(su, w, b, OnReport(s.client.phase.view, s.toClient[0]).value, s.client.ledger);
    var t := Next(su, w, s, ClientReceives);
    OffsetNext(su.plan, b);
    OffsetEnds(su.plan);
    if b + 1 < |su.plan| {
      NextBatch(su, w, t, o + |batch|);
      assert InBatch(su, w, t);
    } else {
      assert Closing(su, w, t);
    }
  }

  lemma {:induction false} ServesDone(su: Setup, w: World, sv: Server, batch: seq<BatchEntry>, o: nat, q: seq<Message>)
    requires Serves(su.server, sv, batch, o) && Owed(w, batch, o, ServingSet(sv), q, {})
    ensures q == [] && sv.phase.Gathering? && sv.batch == [] && sv.served == o + |batch|
  {
  }

  lemma {:induction false} SettledBatch(su: Setup, w: World, b: nat, view: Collect, ledger: Ledger)
    requires Sound(su) && b < |su.plan| && Offset(su.plan, b) <= |Flatten(su.plan)|
    requires Holds(w, su.plan[b], Offset(su.plan, b), view) && view.expected == {}
    requires ledger == LedgerAt(su, w, Offset(su.plan, b))
    ensures Offset(su.plan, b) + |su.plan[b]| <= |Flatten(su.plan)|
    ensures Settle(su.plan[b], view.completed, view.serverErrors, su.keep, ledger) ==
            Success(LedgerAt(su, w, Offset(su.plan, b) + |su.plan[b]|))
  {
    var batch := su.plan[b];
    assert batch in su.plan && DistinctIds(batch);
    OffsetNext(su.plan, b);
    HoldsDomain(w, batch, Offset(su.plan, b), view);
    assert batch[0..] == batch;
    hide Holds, LedgerAt, GoodBatch;
    SettleVerdicts(su, w, b, view, ledger, 0);
    SettleExact(batch, view.completed, view.serverErrors, view.completed, view.serverErrors, su.keep, ledger);
  }

  lemma {:induction false} NextBatch(su: Setup, w: World, t: State, o: nat)
    requires InPlan(su, t.client) && t.client.phase == Sending(0) && t.client.completed == map[]
    requires t.server.phase.Gathering? && t.server.batch == [] && t.server.served == o
    requires t.toServer == [] && t.toClient == []
    ensures BatchAt(su.server, w, t, su.plan[t.client.batch], o)
  {
  }

  /** Every step from a state of a run keeps the invariant and uses one unit of work. */
  lemma {:induction false} StepKept(su: Setup, w: World, s: State, a: Action)
    requires Sound(su) && Inv(su, w, s) && Enabled(su, s, a)
    ensures Kept(su, w, s, Next(su, w, s, a))
  {
    match a
    case ClientSends => ClientSendsStep(su, w, s);
    case ClientReceives => ClientReceivesStep(su, w, s);
    case ClientTestEnds(p) => ClientTestEndsStep(su, w, s, p);
    case ServerSends => ServerSendsStep(su, w, s);
    case ServerReceives => ServerReceivesStep(su, w, s);
    case ServerTestEnds(p) => ServerTestEndsStep(su, w, s, p);
  }
}
