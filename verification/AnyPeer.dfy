/** Each process of the step system against any peer. Whatever messages it is handed, and in whatever order
    its tests end, it ends as the sequential program does on the same inbox, and has sent the same. */
module AnyPeer {
  import opened Messages
  import opened Schedule
  import opened ClientBatch
  import opened ServerBatch
  import opened Session
  import opened SessionProofs
  import opened Endpoints
  import EndToEnd

  predicate OfClient(a: Action) {
    a.ClientSends? || a.ClientReceives? || a.ClientTestEnds?
  }

  // ----- what a client has left to do -----

  /** An outcome and the messages sent on the way to it. */
  datatype Left = Left(outcome: Result<Ledger, SessionError>, sends: seq<Message>)

  /** The rest of a batch of which `view` has been collected. */
  function Remaining(batch: seq<BatchEntry>, view: Collect, inbox: seq<Message>, keep: bool, ledger: Ledger)
    : Result<BatchDone, SessionError>
  {
    match CollectAll(view, inbox)
    case Failure(e) => Failure(e)
    case Success(Collected(all, unread)) =>
      match Settle(batch, all.completed, all.serverErrors, keep, ledger)
      case Failure(e) => Failure(e)
      case Success(done) => Success(BatchDone(done, unread))
  }

  function FromBatch(su: Setup, w: World, b: nat, inbox: seq<Message>, ledger: Ledger): Left
    requires b <= |su.plan|
  {
    Left(ScanAll(su.plan[b..], w.clientRuns, Offset(su.plan, b), inbox, su.keep, ledger),
         ScanSends(su.plan[b..], w.clientRuns, Offset(su.plan, b), inbox, su.keep, ledger))
  }

  function Behind(su: Setup, w: World, b: nat, done: Result<BatchDone, SessionError>): Left
    requires b < |su.plan|
  {
    if done.Failure? then Left(Failure(done.error), []) else FromBatch(su, w, b + 1, done.value.unread, done.value.ledger)
  }

  /** What a batch comes to that has not been reported on yet. */
  function InFull(su: Setup, w: World, b: nat, inbox: seq<Message>, ledger: Ledger): Left
    requires b < |su.plan|
  {
    Behind(su, w, b,
           Reconcile(su.plan[b], RunsOf(su.plan[b], Shift(w.clientRuns, Offset(su.plan, b))), inbox, su.keep, ledger))
  }

  function Greeted(su: Setup, w: World, inbox: seq<Message>, ledger: Ledger): Left {
    if inbox == [] then Left(Failure(ChannelClosed), [])
    else if !inbox[0].Ack? then Left(Failure(ExpectedAck), [])
    else if !inbox[0].ok then Left(Failure(ConfigRejected), [])
    else FromBatch(su, w, 0, inbox[1..], ledger)
  }

  /** Where a client can be, whatever its peer sends. */
  ghost predicate Going(su: Setup, w: World, c: Client) {
    && c.batch <= |su.plan|
    && match c.phase
       case Sending(k) => InPlan(su, c) && k <= |su.plan[c.batch]| && c.completed == map[]
       case Testing(running) =>
         InPlan(su, c) && running != {} && Tested(w, su.plan[c.batch], Offset(su.plan, c.batch), c.completed, running)
       case Collecting(view) => InPlan(su, c) && view.expected != {}
       case SendDone => c.batch == |su.plan|
       case AwaitBye => c.batch == |su.plan|
       case _ => true
  }

  ghost function ClientLeft(su: Setup, w: World, c: Client, inbox: seq<Message>): Left
    requires Going(su, w, c)
  {
    match c.phase
    case Configuring => var l := Greeted(su, w, inbox, c.ledger); l.(sends := [ConfigureMessage(su)] + l.sends)
    case AwaitAck => Greeted(su, w, inbox, c.ledger)
    case Sending(k) =>
      var l := InFull(su, w, c.batch, inbox, c.ledger);
      l.(sends := Script(su.plan[c.batch])[k..] + l.sends)
    case Testing(_) => InFull(su, w, c.batch, inbox, c.ledger)
    case Collecting(view) => Behind(su, w, c.batch, Remaining(su.plan[c.batch], view, inbox, su.keep, c.ledger))
    case SendDone => FromBatch(su, w, |su.plan|, inbox, c.ledger)
    case AwaitBye => FromBatch(su, w, |su.plan|, inbox, c.ledger).(sends := [])
    case ClientFinished => Left(Success(c.ledger), [])
    case ClientBroken(e) => Left(Failure(e), [])
  }

  ghost predicate Batched(plan: seq<seq<BatchEntry>>) {
    forall batch <- plan :: batch != [] && DistinctIds(batch)
  }

  lemma {:induction false} InFullIsFrom(su: Setup, w: World, b: nat, inbox: seq<Message>, ledger: Ledger)
    requires b < |su.plan|
    ensures FromBatch(su, w, b, inbox, ledger) ==
            var l := InFull(su, w, b, inbox, ledger); l.(sends := Script(su.plan[b]) + l.sends)
  {
    hide ScanAll, ScanSends, Reconcile, RunsOf, Offset, Script, CollectAll, Settle, Shift, Flatten;
    ScanNext(su.plan, b, w.clientRuns, Offset(su.plan, b), inbox, su.keep, ledger);
    OffsetNext(su.plan, b);
  }

  /** Starting a batch, or the farewell, takes nothing away. */
  lemma {:induction false} BatchStarted(su: Setup, w: World, c: Client, b: nat, inbox: seq<Message>)
    requires b <= |su.plan|
    ensures Going(su, w, StartBatch(su, c, b))
    ensures ClientLeft(su, w, StartBatch(su, c, b), inbox) == FromBatch(su, w, b, inbox, c.ledger)
  {
    hide FromBatch, InFull, Script, Tested, Offset;
    if b < |su.plan| {
      InFullIsFrom(su, w, b, inbox, c.ledger);
      assert Script(su.plan[b])[0..] == Script(su.plan[b]);
    }
  }

  lemma {:induction false} ClientSent(su: Setup, w: World, c: Client, inbox: seq<Message>)
    requires Going(su, w, c) && ClientCanSend(su, c) && Batched(su.plan)
    ensures var sent := ClientSend(su, c);
            && Going(su, w, sent.process)
            && ClientLeft(su, w, c, inbox) ==
               var l := ClientLeft(su, w, sent.process, inbox); l.(sends := [sent.message] + l.sends)
  {
    hide InFull, Greeted, ScanAll, ScanSends, Script, Offset, DistinctIds, ToTest;
    ScanEnd(w.clientRuns, Offset(su.plan, |su.plan|), inbox, su.keep, c.ledger);
    assert su.plan[|su.plan|..] == [];
    if c.phase.Sending? {
      var batch, k := su.plan[c.batch], c.phase.next;
      assert batch in su.plan;
      assert Script(batch)[k..] == [Script(batch)[k]] + Script(batch)[k + 1..];
      if k == |batch| {
        assert 0 in Upto(|batch|);
        assert Script(batch)[k + 1..] == [];
      }
    }
  }

  lemma {:induction false} TestedHolds(batch: seq<BatchEntry>, w: World, o: nat, completed: map<u32, ProtocolResult>)
    requires batch != [] && DistinctIds(batch) && Tested(w, batch, o, completed, {})
    ensures Ids(batch) != {} && completed == RunsOf(batch, Shift(w.clientRuns, o))
  {
    var runs := Shift(w.clientRuns, o);
    TestedAll(w, batch, o, completed);
    assert HoldsRuns(completed, batch, runs) by {
      hide RunsOf, DistinctIds;
    }
    hide *;
    RunsOfHolds(batch, runs);
    SameRuns(completed, RunsOf(batch, runs), batch, runs);
  }

  lemma {:induction false} ClientTested(su: Setup, w: World, c: Client, p: nat, inbox: seq<Message>)
    requires Going(su, w, c) && Batched(su.plan)
    requires c.phase.Testing? && p in c.phase.running && p < |su.plan[c.batch]|
    ensures var c' := ClientTestEnd(su, w, c, p);
            Going(su, w, c') && ClientLeft(su, w, c', inbox) == ClientLeft(su, w, c, inbox)
  {
    hide Offset, FromBatch, CollectAll, Settle, RunsOf, Tested, DistinctIds, Ids;
    var batch, o := su.plan[c.batch], Offset(su.plan, c.batch);
    assert batch in su.plan;
    TestedMore(w, batch, o, c.completed, c.phase.running, p);
    var c' := ClientTestEnd(su, w, c, p);
    if c'.phase.Collecting? {
      TestedHolds(batch, w, o, c'.completed);
    }
  }

  lemma {:induction false} AckRead(su: Setup, w: World, c: Client, inbox: seq<Message>)
    requires Going(su, w, c) && c.phase.AwaitAck? && inbox != []
    ensures var c' := ClientReceive(su, c, inbox[0]);
            Going(su, w, c') && ClientLeft(su, w, c', inbox[1..]) == ClientLeft(su, w, c, inbox)
  {
    hide StartBatch, FromBatch, InFull, Settle, OnReport, Remaining, Tested;
    BatchStarted(su, w, c, 0, inbox[1..]);
  }

  lemma {:induction false} RemainingNext(batch: seq<BatchEntry>, view: Collect, inbox: seq<Message>, keep: bool, ledger: Ledger)
    requires view.expected != {} && inbox != []
    ensures Remaining(batch, view, inbox, keep, ledger) ==
            var next := OnReport(view, inbox[0]);
            if next.Failure? then Failure(next.error)
            else if next.value.expected != {} then Remaining(batch, next.value, inbox[1..], keep, ledger)
            else
              var settled := Settle(batch, next.value.completed, next.value.serverErrors, keep, ledger);
              if settled.Failure? then Failure(settled.error) else Success(BatchDone(settled.value, inbox[1..]))
  {
    hide Settle, OnReport;
    var next := OnReport(view, inbox[0]);
    if next.Success? && next.value.expected == {} {
      assert CollectAll(next.value, inbox[1..]) == Success(Collected(next.value, inbox[1..]));
    }
  }

  lemma {:induction false} ReportRead(su: Setup, w: World, c: Client, inbox: seq<Message>)
    requires Going(su, w, c) && c.phase.Collecting? && inbox != []
    ensures var c' := ClientReceive(su, c, inbox[0]);
            Going(su, w, c') && ClientLeft(su, w, c', inbox[1..]) == ClientLeft(su, w, c, inbox)
  {
    hide FromBatch, InFull, Settle, OnReport, StartBatch, Remaining, Tested;
    var batch, view := su.plan[c.batch], c.phase.view;
    RemainingNext(batch, view, inbox, su.keep, c.ledger);
    var next := OnReport(view, inbox[0]);
    if next.Success? && next.value.expected == {} {
      var settled := Settle(batch, next.value.completed, next.value.serverErrors, su.keep, c.ledger);
      if settled.Success? {
        BatchStarted(su, w, c.(ledger := settled.value), c.batch + 1, inbox[1..]);
      }
    }
  }

  lemma {:induction false} ByeRead(su: Setup, w: World, c: Client, inbox: seq<Message>)
    requires Going(su, w, c) && c.phase.AwaitBye? && inbox != []
    ensures var c' := ClientReceive(su, c, inbox[0]);
            Going(su, w, c') && ClientLeft(su, w, c', inbox[1..]) == ClientLeft(su, w, c, inbox)
  {
    hide ScanAll, InFull, Settle, OnReport, StartBatch, Remaining, Tested;
    ScanEnd(w.clientRuns, Offset(su.plan, |su.plan|), inbox, su.keep, c.ledger);
    assert su.plan[|su.plan|..] == [];
  }

  lemma {:induction false} ClientRead(su: Setup, w: World, c: Client, inbox: seq<Message>)
    requires Going(su, w, c) && ClientCanReceive(su, c) && inbox != []
    ensures var c' := ClientReceive(su, c, inbox[0]);
            Going(su, w, c') && ClientLeft(su, w, c', inbox[1..]) == ClientLeft(su, w, c, inbox)
  {
    hide Going, ClientLeft, ClientReceive;
    match c.phase {
      case AwaitAck => AckRead(su, w, c, inbox);
      case Collecting(view) => ReportRead(su, w, c, inbox);
      case AwaitBye => ByeRead(su, w, c, inbox);
    }
  }

  /** No step of a client changes what it comes to, and each adds to what is sent what it takes from what is left. */
  lemma {:induction false} ClientKept(su: Setup, w: World, s: State, a: Action)
    requires Going(su, w, s.client) && Batched(su.plan) && OfClient(a) && Enabled(su, s, a)
    ensures var t := Next(su, w, s, a);
            && Going(su, w, t.client)
            && ClientLeft(su, w, t.client, t.toClient).outcome == ClientLeft(su, w, s.client, s.toClient).outcome
            && t.toServer + ClientLeft(su, w, t.client, t.toClient).sends ==
               s.toServer + ClientLeft(su, w, s.client, s.toClient).sends
  {
    hide Going, ClientLeft, Batched, ClientCanSend, ClientSend, ClientCanReceive, ClientReceive, ClientTestEnd;
    match a {
      case ClientSends => ClientSent(su, w, s.client, s.toClient);
      case ClientReceives => ClientRead(su, w, s.client, s.toClient);
      case ClientTestEnds(p) => ClientTested(su, w, s.client, p, s.toClient);
      case _ =>
    }
  }

  lemma {:induction false} ClientRun(su: Setup, w: World, s: State, actions: seq<Action>)
    requires Going(su, w, s.client) && Batched(su.plan) && (forall a <- actions :: OfClient(a)) && IsRun(su, w, s, actions)
    ensures var t := After(su, w, s, actions);
            && Going(su, w, t.client)
            && ClientLeft(su, w, t.client, t.toClient).outcome == ClientLeft(su, w, s.client, s.toClient).outcome
            && t.toServer + ClientLeft(su, w, t.client, t.toClient).sends ==
               s.toServer + ClientLeft(su, w, s.client, s.toClient).sends
    decreases |actions|
  {
    hide Going, Batched, ClientLeft, OfClient, Enabled, Next;
    if actions != [] {
      ClientKept(su, w, s, actions[0]);
      ClientRun(su, w, Next(su, w, s, actions[0]), actions[1..]);
    }
  }

  /** It has finished or broken off, or waits for a message that does not come. */
  predicate ClientHalts(su: Setup, s: State) {
    s.client.phase.ClientFinished? || s.client.phase.ClientBroken? || (ClientCanReceive(su, s.client) && s.toClient == [])
  }

  function ClientEnd(c: Client): Result<Ledger, SessionError> {
    match c.phase
    case ClientFinished => Success(c.ledger)
    case ClientBroken(e) => Failure(e)
    case _ => Failure(ChannelClosed)
  }

  lemma {:induction false} ClientHalted(su: Setup, w: World, s: State)
    requires Going(su, w, s.client)
    ensures ClientHalts(su, s) ==> ClientLeft(su, w, s.client, s.toClient) == Left(ClientEnd(s.client), [])
    ensures !ClientHalts(su, s) && |s.toServer| < su.capacity ==> exists a :: OfClient(a) && Enabled(su, s, a)
  {
    if s.client.phase.AwaitBye? {
      ScanEnd(w.clientRuns, Offset(su.plan, |su.plan|), s.toClient, su.keep, s.client.ledger);
      assert su.plan[|su.plan|..] == [];
    }
    hide ScanAll, ScanSends, Reconcile, Settle, Tested, Offset;
    if !ClientHalts(su, s) && |s.toServer| < su.capacity {
      var a := Acts(su, w, s);
      assert OfClient(a);
    }
  }

  lemma {:induction false} Acts(su: Setup, w: World, s: State) returns (a: Action)
    requires Going(su, w, s.client) && !ClientHalts(su, s) && |s.toServer| < su.capacity
    ensures OfClient(a) && Enabled(su, s, a)
  {
    if ClientCanSend(su, s.client) {
      a := ClientSends;
    } else if ClientCanReceive(su, s.client) {
      a := ClientReceives;
    } else {
      var p :| p in s.client.phase.running;
      a := ClientTestEnds(p);
    }
  }

  /** What a client sends that is handed this inbox. */
  function AllSent(scan: EndToEnd.Scan, runs: nat -> ProtocolResult, inbox: seq<Message>): seq<Message>
    requires Plan(scan.registry, scan.config).Success?
  {
    [Configure(Some(scan.showAddr(scan.target)), scan.timeoutMs, 3, scan.config.parallel)]
    + if inbox == [] || !inbox[0].Ack? || !inbox[0].ok then []
      else ScanSends(Plan(scan.registry, scan.config).value, runs, 0, inbox[1..], !scan.json || scan.jsonExport,
                     Ledger(NO_COUNTS, []))
  }

  lemma {:induction false} ClientStarts(scan: EndToEnd.Scan, w: World, inbox: seq<Message>)
    requires Plan(scan.registry, scan.config).Success?
    ensures var su := EndToEnd.ToSetup(scan);
            && Going(su, w, INITIAL.client) && Batched(su.plan)
            && ClientLeft(su, w, INITIAL.client, inbox) ==
               Left(ClientOutcome(scan.registry, scan.config, w.clientRuns, inbox, !scan.json || scan.jsonExport),
                    AllSent(scan, w.clientRuns, inbox))
  {
    var su := EndToEnd.ToSetup(scan);
    PlanBatched(scan.registry, scan.config);
    hide Plan, ScanAll, ScanSends, Batched;
    OffsetEnds(su.plan);
    assert su.plan[0..] == su.plan;
  }

  lemma {:induction false} PlanBatched(registry: Registry, config: Config)
    requires Plan(registry, config).Success?
    ensures Batched(Plan(registry, config).value)
  {
    var ranges := CheckTests(registry, config.portRanges, config.tests).value;
    var lanes := Lanes(registry, config.tests, ranges, Directions(config.bidir));
    LanesKnown(registry, config.tests, ranges, Directions(config.bidir));
    BatchesGood(registry, lanes, Max(1, config.parallel));
  }

  /** The client of the step system, handed any messages at all by its peer, refines the sequential program: in
      whatever order its tests end, it sends a prefix of what that program sends; as long as it has neither
      ended nor run out of messages it can go on if there is room; and then it has sent all of that, and ends
      with that program's result. */
  lemma {:induction false} ClientRefines(scan: EndToEnd.Scan, w: World, server: Server, inbox: seq<Message>, actions: seq<Action>)
    requires Plan(scan.registry, scan.config).Success? && forall a <- actions :: OfClient(a)
    requires IsRun(EndToEnd.ToSetup(scan), w, State(INITIAL.client, server, [], inbox), actions)
    ensures var su := EndToEnd.ToSetup(scan);
            var t := After(su, w, State(INITIAL.client, server, [], inbox), actions);
            var sent := AllSent(scan, w.clientRuns, inbox);
            && t.toServer <= sent
            && (ClientHalts(su, t) ==>
                  && t.toServer == sent
                  && ClientOutcome(scan.registry, scan.config, w.clientRuns, inbox, !scan.json || scan.jsonExport) ==
                     ClientEnd(t.client))
            && (!ClientHalts(su, t) && |t.toServer| < su.capacity ==> exists a :: OfClient(a) && Enabled(su, t, a))
  {
    var su, s := EndToEnd.ToSetup(scan), State(INITIAL.client, server, [], inbox);
    hide *;
    ClientStarts(scan, w, inbox);
    ClientRun(su, w, s, actions);
    var t := After(su, w, s, actions);
    ClientHalted(su, w, t);
    assert [] + AllSent(scan, w.clientRuns, inbox) == AllSent(scan, w.clientRuns, inbox);
    assert t.toServer + [] == t.toServer;
  }

  // ----- the server -----

  predicate OfServer(a: Action) {
    a.ServerSends? || a.ServerReceives? || a.ServerTestEnds?
  }

  /** How far a server has come: the reports of earlier batches, its inbox when it turned to this one, and
      the order in which tests of this batch have ended. */
  datatype Trail = Trail(done: seq<Message>, start: seq<Message>, order: seq<nat>)

  /** The reports of those tests of a batch that have ended. */
  ghost predicate Part(batch: seq<ServerEntry>, runs: nat -> ProtocolResult, order: seq<nat>, part: seq<Message>, serving: set<nat>) {
    && serving <= Upto(|batch|) && |order| == |part| == |batch| - |serving|
    && (forall k, l :: 0 <= k < l < |order| ==> order[k] != order[l])
    && (forall k :: 0 <= k < |order| ==> order[k] !in serving && order[k] < |batch|)
    && forall k :: 0 <= k < |order| ==> Tells(part[k], batch[order[k]].id, runs(order[k]))
  }

  /** The configuration that a server has taken from the first message. */
  ghost predicate Told(su: Setup, sv: Server, inbox: seq<Message>) {
    && inbox != [] && inbox[0].Configure? && inbox[0].clientVersion == 3
    && sv.parallel == Max(1, inbox[0].parallel)
    && sv.bindAddr == (if inbox[0].target.Some? then ParseBind(su.server, inbox[0].target.value) else None)
  }

  /** The batch under way began at `start`, behind reports that are `done`. */
  ghost predicate Underway(su: Setup, w: World, inbox: seq<Message>, sv: Server, trail: Trail) {
    && Told(su, sv, inbox)
    && ServerOutcome(su.server, w.serverRuns, inbox) ==
       ServeAll(su.server, sv.parallel, sv.bindAddr, w.serverRuns, sv.served, trail.start)
    && Completes(su.server, sv.parallel, sv.bindAddr, w.serverRuns, inbox[1..], trail.done, sv.served, trail.start)
    && sv.counters == ServerTally(w, sv).Wrapped()
  }

  /** All reports have been sent, and the outcome is certain. */
  ghost predicate Decided(su: Setup, w: World, inbox: seq<Message>, sv: Server, trail: Trail, r: Result<Summary, SessionError>) {
    && Told(su, sv, inbox) && ServerOutcome(su.server, w.serverRuns, inbox) == r
    && ReportsAll(su.server, sv.parallel, sv.bindAddr, w.serverRuns, 0, inbox[1..], trail.done)
  }

  ghost predicate Unstarted(sv: Server) {
    sv.batch == [] && sv.served == 0 && sv.counters == NO_COUNTS
  }

  ghost predicate InService(su: Setup, w: World, inbox: seq<Message>, s: State, trail: Trail) {
    var sv := s.server;
    match sv.phase
    case AwaitConfigure => Unstarted(sv) && s.toServer == inbox && s.toClient == []
    case SendAck(None) => Told(su, sv, inbox) && Unstarted(sv) && s.toServer == inbox[1..] && s.toClient == []
    case SendAck(Some(version)) =>
      && inbox != [] && inbox[0].Configure? && inbox[0].clientVersion == version != 3 && s.toClient == []
    case Gathering =>
      && Underway(su, w, inbox, sv, trail) && s.toClient == [Ack(true, None)] + trail.done
      && GatherAll(su.server, sv.parallel, sv.bindAddr, [], trail.start) ==
         GatherAll(su.server, sv.parallel, sv.bindAddr, sv.batch, s.toServer)
    case Serving(serving, doneAfter) =>
      && Underway(su, w, inbox, sv, trail) && sv.batch != [] && serving != {}
      && GatherAll(su.server, sv.parallel, sv.bindAddr, [], trail.start) == Success(Gathered(sv.batch, doneAfter, s.toServer))
      && |trail.done| < |s.toClient| && s.toClient[..|trail.done| + 1] == [Ack(true, None)] + trail.done
      && Part(sv.batch, Shift(w.serverRuns, sv.served), trail.order, s.toClient[|trail.done| + 1..], serving)
    case SendBye =>
      && Decided(su, w, inbox, sv, trail, Success(sv.counters)) && s.toClient == [Ack(true, None)] + trail.done
    case ServerFinished =>
      && Decided(su, w, inbox, sv, trail, Success(sv.counters))
      && s.toClient == [Ack(true, None)] + trail.done + [Bye(sv.counters)]
    case ServerBroken(e) =>
      || (inbox != [] && !inbox[0].Configure? && e == ExpectedConfigure && s.toClient == [])
      || (inbox != [] && inbox[0].Configure? && inbox[0].clientVersion != 3 && e == VersionMismatch
          && s.toClient == [Ack(false, Some(VersionComplaint(inbox[0].clientVersion)))])
      || (Decided(su, w, inbox, sv, trail, Failure(e)) && s.toClient == [Ack(true, None)] + trail.done)
  }

  lemma {:induction false} ServerConfigured(su: Setup, w: World, inbox: seq<Message>, s: State, t: State, trail: Trail)
    requires InService(su, w, inbox, s, trail) && s.server.phase.AwaitConfigure? && inbox != []
    requires t.server == ServerReceive(su, s.server, inbox[0]) && t.toServer == inbox[1..] && t.toClient == s.toClient
    ensures InService(su, w, inbox, t, trail)
  {
    hide ServerOutcome, ReportsAll, ParseBind, Decided;
  }

  lemma {:induction false} ServerGreets(su: Setup, w: World, inbox: seq<Message>, s: State, t: State, trail: Trail)
    requires InService(su, w, inbox, s, trail) && s.server.phase == SendAck(None)
    requires t.server == ServerSend(s.server).process && t.toServer == s.toServer
    requires t.toClient == s.toClient + [ServerSend(s.server).message]
    ensures InService(su, w, inbox, t, Trail([], inbox[1..], []))
  {
    var sv := t.server;
    CompletesFirst(su.server, sv.parallel, sv.bindAddr, w.serverRuns, inbox[1..]);
    hide ServeAll, Completes, GatherAll, ParseBind;
    NothingCounted(w.serverRuns);
  }

  lemma {:induction false} ServerRefuses(su: Setup, w: World, inbox: seq<Message>, s: State, trail: Trail, error: SessionError)
    requires Underway(su, w, inbox, s.server, trail)
    requires GatherAll(su.server, s.server.parallel, s.server.bindAddr, [], trail.start) == Failure(error)
    ensures Decided(su, w, inbox, s.server, trail, Failure(error))
  {
    hide Completes, ReportsAll, ServeAll, ServerOutcome, ParseBind, GatherAll, ServerTally;
    var sv := s.server;
    ServeNext(su.server, sv.parallel, sv.bindAddr, w.serverRuns, sv.served, trail.start);
    CompletesNext(su.server, sv.parallel, sv.bindAddr, w.serverRuns, inbox[1..], trail.done, sv.served, trail.start, []);
    assert trail.done + [] == trail.done;
  }

  lemma {:induction false} ServerClosing(su: Setup, w: World, inbox: seq<Message>, s: State, trail: Trail)
    requires Underway(su, w, inbox, s.server, trail) && !s.server.phase.Serving?
    requires var g := GatherAll(su.server, s.server.parallel, s.server.bindAddr, [], trail.start);
             g.Success? && g.value.batch == []
    ensures Decided(su, w, inbox, s.server, trail, Success(s.server.counters))
  {
    hide Completes, ReportsAll, ServeAll, ServerOutcome, ParseBind, GatherAll, ServerTally;
    var sv := s.server;
    TallyServed(w, sv);
    ServeNext(su.server, sv.parallel, sv.bindAddr, w.serverRuns, sv.served, trail.start);
    CompletesNext(su.server, sv.parallel, sv.bindAddr, w.serverRuns, inbox[1..], trail.done, sv.served, trail.start, []);
    assert trail.done + [] == trail.done;
  }

  lemma {:induction false} PartStarts(batch: seq<ServerEntry>, runs: nat -> ProtocolResult)
    ensures Part(batch, runs, [], [], Upto(|batch|))
  {
  }

  /** The batch that is gathered here, or what refuses it, decides how the session goes on. */
  lemma {:induction false} ServerGathers(su: Setup, w: World, inbox: seq<Message>, s: State, t: State, trail: Trail)
    requires InService(su, w, inbox, s, trail) && s.server.phase.Gathering? && s.toServer != []
    requires t.server == ServerReceive(su, s.server, s.toServer[0]) && t.toServer == s.toServer[1..] && t.toClient == s.toClient
    ensures InService(su, w, inbox, t, trail.(order := []))
  {
    hide Completes, ReportsAll, ServeAll, ServerOutcome, ParseBind, OnMessage, ServerTally, Part;
    var sv := s.server;
    match OnMessage(su.server, sv.parallel, sv.bindAddr, sv.batch, s.toServer[0]) {
      case Failure(e) => ServerRefuses(su, w, inbox, s, trail, e);
      case Success(More(batch)) =>
        TallyServed(w, sv);
        TallyServed(w, t.server);
      case Success(Ready(batch, doneAfter)) =>
        if batch == [] {
          ServerClosing(su, w, inbox, s, trail);
        } else {
          ServesStart(w, sv, t.server);
          PartStarts(batch, Shift(w.serverRuns, sv.served));
          assert 0 in Upto(|batch|);
          assert s.toClient[..|trail.done| + 1] == s.toClient && s.toClient[|trail.done| + 1..] == [];
        }
    }
  }

  lemma {:induction false} TallyServed(w: World, sv: Server)
    requires !sv.phase.Serving?
    ensures ServerTally(w, sv) == Count(w.serverRuns, 0, {}, sv.served)
  {
    CountNoneSkipped(w.serverRuns, sv.served, 0, {}, sv.served);
  }

  // ----- the tests of a batch -----

  lemma {:induction false} PartMore(batch: seq<ServerEntry>, runs: nat -> ProtocolResult, order: seq<nat>, part: seq<Message>,
                                    serving: set<nat>, p: nat)
    requires Part(batch, runs, order, part, serving) && p in serving && p < |batch|
    ensures Part(batch, runs, order + [p], part + [ResultToReport(batch[p].id, runs(p))], serving - {p})
  {
    TellsExactly(ResultToReport(batch[p].id, runs(p)), batch[p].id, runs(p));
    hide Tells, ResultToReport;
  }

  /** The last test of a batch has ended. */
  lemma {:induction false} BatchServed(su: Setup, w: World, inbox: seq<Message>, sv: Server, t: Server, trail: Trail,
                                       doneAfter: bool, unread: seq<Message>, order: seq<nat>, part: seq<Message>)
    requires Underway(su, w, inbox, sv, trail) && sv.batch != []
    requires GatherAll(su.server, sv.parallel, sv.bindAddr, [], trail.start) == Success(Gathered(sv.batch, doneAfter, unread))
    requires Part(sv.batch, Shift(w.serverRuns, sv.served), order, part, {})
    requires t.parallel == sv.parallel && t.bindAddr == sv.bindAddr && t.served == sv.served + |sv.batch| && !t.phase.Serving?
    requires t.counters == ServerTally(w, t).Wrapped()
    ensures if doneAfter then Decided(su, w, inbox, t, trail.(done := trail.done + part), Success(t.counters))
            else Underway(su, w, inbox, t, Trail(trail.done + part, unread, []))
  {
    hide Completes, ReportsAll, ReportsBatch, ServeAll, ServerOutcome, ParseBind, GatherAll, ServerTally, Count;
    TallyServed(w, t);
    ServeNext(su.server, sv.parallel, sv.bindAddr, w.serverRuns, sv.served, trail.start);
    ReportsGiven(sv.batch, Shift(w.serverRuns, sv.served), order, part);
    CompletesNext(su.server, sv.parallel, sv.bindAddr, w.serverRuns, inbox[1..], trail.done, sv.served, trail.start, part);
  }

  lemma {:induction false} ServerTested(su: Setup, w: World, inbox: seq<Message>, s: State, t: State, trail: Trail, p: nat)
    returns (trail': Trail)
    requires InService(su, w, inbox, s, trail)
    requires s.server.phase.Serving? && p in s.server.phase.serving && p < |s.server.batch|
    requires t.server == ServerTestEnd(w, s.server, p).process && t.toServer == s.toServer
    requires t.toClient == s.toClient + [ServerTestEnd(w, s.server, p).message]
    ensures InService(su, w, inbox, t, trail')
  {
    hide Completes, ReportsAll, ServeAll, ServerOutcome, ParseBind, GatherAll, ServerTally, Part, Tells, ResultToReport, Bump;
    var sv, d := s.server, |trail.done| + 1;
    var runs, part := Shift(w.serverRuns, sv.served), s.toClient[d..];
    PartMore(sv.batch, runs, trail.order, part, sv.phase.serving, p);
    ShiftAt(w.serverRuns, sv.served, p);
    ServesCounts(w, sv, p);
    var order, part' := trail.order + [p], part + [ResultToReport(sv.batch[p].id, runs(p))];
    assert t.toClient[..d] == s.toClient[..d] && t.toClient[d..] == part';
    if sv.phase.serving == {p} {
      BatchServed(su, w, inbox, sv, t.server, trail, sv.phase.doneAfter, s.toServer, order, part');
      trail' := Trail(trail.done + part', s.toServer, []);
      assert t.toClient == [Ack(true, None)] + trail'.done;
    } else {
      trail' := trail.(order := order);
    }
  }

  // ----- every step of a server -----

  lemma {:induction false} ServerSaid(su: Setup, w: World, inbox: seq<Message>, s: State, t: State, trail: Trail)
    requires InService(su, w, inbox, s, trail) && ServerCanSend(s.server) && s.server.phase != SendAck(None)
    requires t.server == ServerSend(s.server).process && t.toServer == s.toServer
    requires t.toClient == s.toClient + [ServerSend(s.server).message]
    ensures InService(su, w, inbox, t, trail)
  {
    hide ParseBind, ReportsAll, ServerOutcome;
  }

  lemma {:induction false} ServerKept(su: Setup, w: World, inbox: seq<Message>, s: State, a: Action, trail: Trail) returns (trail': Trail)
    requires InService(su, w, inbox, s, trail) && OfServer(a) && Enabled(su, s, a)
    ensures InService(su, w, inbox, Next(su, w, s, a), trail')
  {
    assert s.server.phase.AwaitConfigure? ==> s.toServer == inbox;
    hide InService, ServerSend, ServerReceive, ServerTestEnd;
    var t := Next(su, w, s, a);
    match a {
      case ServerSends =>
        if s.server.phase == SendAck(None) {
          ServerGreets(su, w, inbox, s, t, trail);
          trail' := Trail([], inbox[1..], []);
        } else {
          ServerSaid(su, w, inbox, s, t, trail);
          trail' := trail;
        }
      case ServerReceives =>
        if s.server.phase.AwaitConfigure? {
          ServerConfigured(su, w, inbox, s, t, trail);
          trail' := trail;
        } else {
          ServerGathers(su, w, inbox, s, t, trail);
          trail' := trail.(order := []);
        }
      case ServerTestEnds(p) =>
        trail' := ServerTested(su, w, inbox, s, t, trail, p);
      case _ =>
        trail' := trail;
    }
  }

  lemma {:induction false} ServerRun(su: Setup, w: World, inbox: seq<Message>, s: State, actions: seq<Action>, trail: Trail)
    returns (trail': Trail)
    requires InService(su, w, inbox, s, trail) && (forall a <- actions :: OfServer(a)) && IsRun(su, w, s, actions)
    ensures InService(su, w, inbox, After(su, w, s, actions), trail')
    decreases |actions|
  {
    hide InService, OfServer, Enabled, Next;
    if actions == [] {
      trail' := trail;
    } else {
      trail' := ServerKept(su, w, inbox, s, actions[0], trail);
      trail' := ServerRun(su, w, inbox, Next(su, w, s, actions[0]), actions[1..], trail');
    }
  }

  predicate ServerHalts(s: State) {
    s.server.phase.ServerFinished? || s.server.phase.ServerBroken? || (ServerCanReceive(s.server) && s.toServer == [])
  }

  function ServerEnd(sv: Server): Result<Summary, SessionError> {
    match sv.phase
    case ServerFinished => Success(sv.counters)
    case ServerBroken(e) => Failure(e)
    case _ => Failure(ChannelClosed)
  }

  /** What a server sends that is handed this inbox and comes to that end. */
  ghost predicate ServerSays(server: ServerSetup, runs: nat -> ProtocolResult, inbox: seq<Message>, r: Result<Summary, SessionError>,
                             sent: seq<Message>) {
    if inbox == [] || !inbox[0].Configure? then sent == []
    else if inbox[0].clientVersion != 3 then sent == [Ack(false, Some(VersionComplaint(inbox[0].clientVersion)))]
    else
      var bindAddr := if inbox[0].target.Some? then ParseBind(server, inbox[0].target.value) else None;
      exists reports ::
        && sent == [Ack(true, None)] + reports + (if r.Success? then [Bye(r.value)] else [])
        && ReportsAll(server, Max(1, inbox[0].parallel), bindAddr, runs, 0, inbox[1..], reports)
  }

  lemma {:induction false} ServerHalted(su: Setup, w: World, inbox: seq<Message>, s: State, trail: Trail)
    requires InService(su, w, inbox, s, trail) && ServerHalts(s)
    ensures ServerOutcome(su.server, w.serverRuns, inbox) == ServerEnd(s.server)
    ensures ServerSays(su.server, w.serverRuns, inbox, ServerEnd(s.server), s.toClient)
  {
    hide Completes, ReportsAll, ServeAll, ParseBind, ServerTally, Part;
    if s.server.phase.Gathering? {
      ServerRefuses(su, w, inbox, s, trail, ChannelClosed);
    }
    assert [Ack(true, None)] + trail.done + [] == [Ack(true, None)] + trail.done;
  }

  lemma {:induction false} ServerActs(su: Setup, w: World, inbox: seq<Message>, s: State, trail: Trail) returns (a: Action)
    requires InService(su, w, inbox, s, trail) && !ServerHalts(s) && |s.toClient| < su.capacity
    ensures OfServer(a) && Enabled(su, s, a)
  {
    hide Underway, Told;
    if ServerCanSend(s.server) {
      a := ServerSends;
    } else if ServerCanReceive(s.server) {
      a := ServerReceives;
    } else {
      var p :| p in s.server.phase.serving;
      a := ServerTestEnds(p);
    }
  }

  /** The server of the step system, handed any messages at all by its peer, refines the sequential program: as
      long as it has neither ended nor run out of messages it can go on if there is room; and then, whatever the
      order in which its tests ended, it ends with that program's result and has sent what that program sends. */
  lemma {:induction false} ServerRefines(su: Setup, w: World, client: Client, inbox: seq<Message>, actions: seq<Action>)
    requires forall a <- actions :: OfServer(a)
    requires IsRun(su, w, State(client, INITIAL.server, inbox, []), actions)
    ensures var t := After(su, w, State(client, INITIAL.server, inbox, []), actions);
            && (ServerHalts(t) ==>
                  && ServerOutcome(su.server, w.serverRuns, inbox) == ServerEnd(t.server)
                  && ServerSays(su.server, w.serverRuns, inbox, ServerEnd(t.server), t.toClient))
            && (!ServerHalts(t) && |t.toClient| < su.capacity ==> exists a :: OfServer(a) && Enabled(su, t, a))
  {
    var s := State(client, INITIAL.server, inbox, []);
    var trail := Trail([], [], []);
    assert InService(su, w, inbox, s, trail);
    hide *;
    trail := ServerRun(su, w, inbox, s, actions, trail);
    var t := After(su, w, s, actions);
    if ServerHalts(t) {
      ServerHalted(su, w, inbox, t, trail);
    } else if |t.toClient| < su.capacity {
      var a := ServerActs(su, w, inbox, t, trail);
      assert OfServer(a) && Enabled(su, t, a);
    }
  }
}
