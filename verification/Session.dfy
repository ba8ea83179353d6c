/** A whole scan as a step system: two processes, a bounded FIFO channel each way, and at each
    end a set of tests in progress that finish in any order. */
module Session {
  import opened Messages
  import opened Schedule
  import opened ClientBatch
  import opened ServerBatch

  /** Everything fixed before the first message: the batches, the address the client probes, its
      own address on the control connection, and the bound on each channel. */
  datatype Setup = Setup(
    plan: seq<seq<BatchEntry>>, parallel: nat, timeoutMs: u64, keep: bool,
    target: SocketAddr, local: SocketAddr, showAddr: SocketAddr -> string, server: ServerSetup, capacity: nat)

  /** What the network makes of each test: the result its half returns at each end, by test number. */
  datatype World = World(clientRuns: nat -> ProtocolResult, serverRuns: nat -> ProtocolResult) {
    function Verdicts(): nat -> ProtocolResult {
      (i: nat) => Verdict(clientRuns(i), serverRuns(i))
    }
  }

  // ----- states -----

  datatype ClientPhase =
    | Configuring
    | AwaitAck
    | Sending(next: nat)
    | Testing(running: set<nat>)
    | Collecting(view: Collect)
    | SendDone
    | AwaitBye
    | ClientFinished
    | ClientBroken(clientError: SessionError)

  datatype Client = Client(phase: ClientPhase, batch: nat, completed: map<u32, ProtocolResult>, ledger: Ledger)

  datatype ServerPhase =
    | AwaitConfigure
    | SendAck(refused: Option<u32>)
    | Gathering
    | Serving(serving: set<nat>, doneAfter: bool)
    | SendBye
    | ServerFinished
    | ServerBroken(serverError: SessionError)

  /** `served` counts the tests of earlier batches; the program does not read it. */
  datatype Server = Server(
    phase: ServerPhase, parallel: nat, bindAddr: Option<SocketAddr>,
    batch: seq<ServerEntry>, served: nat, counters: Summary)

  datatype State = State(client: Client, server: Server, toServer: seq<Message>, toClient: seq<Message>)

  const NO_COUNTS := Summary(0, 0, 0)

  const INITIAL := State(
    Client(Configuring, 0, map[], Ledger(NO_COUNTS, [])),
    Server(AwaitConfigure, 1, None, [], 0, NO_COUNTS), [], [])

  // ----- steps of the client -----

  function Offset(plan: seq<seq<BatchEntry>>, b: nat): nat
    requires b <= |plan|
  {
    |Flatten(plan[..b])|
  }

  function StartBatch(su: Setup, c: Client, b: nat): Client {
    c.(batch := b, completed := map[], phase := if b < |su.plan| then Sending(0) else SendDone)
  }

  predicate InPlan(su: Setup, c: Client) {
    c.batch < |su.plan|
  }

  function ConfigureMessage(su: Setup): Message {
    Configure(Some(su.showAddr(su.target)), su.timeoutMs, PROTOCOL_VERSION, su.parallel)
  }

  predicate ClientCanSend(su: Setup, c: Client) {
    c.phase.Configuring? || c.phase.SendDone? || (c.phase.Sending? && InPlan(su, c))
  }

  datatype Sent<T> = Sent(process: T, message: Message)

  function ClientSend(su: Setup, c: Client): Sent<Client>
    requires ClientCanSend(su, c)
  {
    match c.phase
    case Configuring => Sent(c.(phase := AwaitAck), ConfigureMessage(su))
    case Sending(k) =>
      var b := su.plan[c.batch];
      if k < |b| then Sent(c.(phase := Sending(k + 1)), ToTest(b[k]))
      else Sent(c.(phase := Testing(Upto(|b|))), BatchEnd)
    case SendDone => Sent(c.(phase := AwaitBye), Done)
  }

  function ClientTestEnd(su: Setup, w: World, c: Client, p: nat): Client
    requires c.phase.Testing? && InPlan(su, c) && p < |su.plan[c.batch]|
  {
    var b := su.plan[c.batch];
    var completed := c.completed[b[p].id := w.clientRuns(Offset(su.plan, c.batch) + p)];
    var running := c.phase.running - {p};
    c.(completed := completed,
       phase := if running == {} then Collecting(Collect(Ids(b), completed, map[])) else Testing(running))
  }

  predicate ClientCanReceive(su: Setup, c: Client) {
    c.phase.AwaitAck? || c.phase.AwaitBye? || (c.phase.Collecting? && InPlan(su, c))
  }

  function ClientReceive(su: Setup, c: Client, m: Message): Client
    requires ClientCanReceive(su, c)
  {
    match c.phase
    case AwaitAck =>
      if !m.Ack? then c.(phase := ClientBroken(ExpectedAck))
      else if !m.ok then c.(phase := ClientBroken(ConfigRejected))
      else StartBatch(su, c, 0)
    case Collecting(view) =>
      var next := OnReport(view, m);
      if next.Failure? then c.(phase := ClientBroken(next.error))
      else if next.value.expected != {} then c.(phase := Collecting(next.value))
      else
        var settled := Settle(su.plan[c.batch], next.value.completed, next.value.serverErrors, su.keep, c.ledger);
        if settled.Failure? then c.(phase := ClientBroken(settled.error))
        else StartBatch(su, c.(ledger := settled.value), c.batch + 1)
    case AwaitBye => c.(phase := if m.Bye? then ClientFinished else ClientBroken(ExpectedBye))
  }

  // ----- steps of the server -----

  predicate ServerCanSend(sv: Server) {
    sv.phase.SendAck? || sv.phase.SendBye?
  }

  function ServerSend(sv: Server): Sent<Server>
    requires ServerCanSend(sv)
  {
    match sv.phase
    case SendAck(None) => Sent(sv.(phase := Gathering), Ack(true, None))
    case SendAck(Some(version)) =>
      Sent(sv.(phase := ServerBroken(VersionMismatch)), Ack(false, Some(VersionComplaint(version))))
    case SendBye => Sent(sv.(phase := ServerFinished), Bye(sv.counters))
  }

  predicate ServerCanReceive(sv: Server) {
    sv.phase.AwaitConfigure? || sv.phase.Gathering?
  }

  function ServerReceive(su: Setup, sv: Server, m: Message): Server
    requires ServerCanReceive(sv)
  {
    match sv.phase
    case AwaitConfigure =>
      if !m.Configure? then sv.(phase := ServerBroken(ExpectedConfigure))
      else if m.clientVersion != PROTOCOL_VERSION then sv.(phase := SendAck(Some(m.clientVersion)))
      else
        sv.(phase := SendAck(None), parallel := Max(1, m.parallel),
            bindAddr := if m.target.Some? then ParseBind(su.server, m.target.value) else None)
    case Gathering =>
      match OnMessage(su.server, sv.parallel, sv.bindAddr, sv.batch, m)
      case Failure(e) => sv.(phase := ServerBroken(e))
      case Success(More(batch)) => sv.(batch := batch)
      case Success(Ready(batch, doneAfter)) =>
        if batch == [] then sv.(phase := SendBye)
        else sv.(batch := batch, phase := Serving(Upto(|batch|), doneAfter))
  }

  /** A test of the server ends: it is counted and reported, and after the last one the server
      turns to the next batch, or to its farewell. */
  function ServerTestEnd(w: World, sv: Server, p: nat): Sent<Server>
    requires sv.phase.Serving? && p < |sv.batch|
  {
    var result := w.serverRuns(sv.served + p);
    var serving := sv.phase.serving - {p};
    var counted := sv.(counters := Bump(sv.counters, result));
    Sent(if serving != {} then counted.(phase := Serving(serving, sv.phase.doneAfter))
         else counted.(phase := if sv.phase.doneAfter then SendBye else Gathering,
                       batch := [], served := sv.served + |sv.batch|),
         ResultToReport(sv.batch[p].id, result))
  }

  // ----- the system -----

  datatype Action =
    | ClientSends
    | ClientReceives
    | ClientTestEnds(pos: nat)
    | ServerSends
    | ServerReceives
    | ServerTestEnds(pos: nat)

  predicate Enabled(su: Setup, s: State, a: Action) {
    match a
    case ClientSends => ClientCanSend(su, s.client) && |s.toServer| < su.capacity
    case ClientReceives => ClientCanReceive(su, s.client) && s.toClient != []
    case ClientTestEnds(p) =>
      s.client.phase.Testing? && InPlan(su, s.client) && p in s.client.phase.running && p < |su.plan[s.client.batch]|
    case ServerSends => ServerCanSend(s.server) && |s.toClient| < su.capacity
    case ServerReceives => ServerCanReceive(s.server) && s.toServer != []
    case ServerTestEnds(p) =>
      s.server.phase.Serving? && p in s.server.phase.serving && p < |s.server.batch| && |s.toClient| < su.capacity
  }

  function Next(su: Setup, w: World, s: State, a: Action): State
    requires Enabled(su, s, a)
  {
    match a
    case ClientSends =>
      var sent := ClientSend(su, s.client);
      s.(client := sent.process, toServer := s.toServer + [sent.message])
    case ClientReceives =>
      s.(client := ClientReceive(su, s.client, s.toClient[0]), toClient := s.toClient[1..])
    case ClientTestEnds(p) => s.(client := ClientTestEnd(su, w, s.client, p))
    case ServerSends =>
      var sent := ServerSend(s.server);
      s.(server := sent.process, toClient := s.toClient + [sent.message])
    case ServerReceives =>
      s.(server := ServerReceive(su, s.server, s.toServer[0]), toServer := s.toServer[1..])
    case ServerTestEnds(p) =>
      var sent := ServerTestEnd(w, s.server, p);
      s.(server := sent.process, toClient := s.toClient + [sent.message])
  }

  predicate IsRun(su: Setup, w: World, s: State, actions: seq<Action>)
    decreases |actions|
  {
    actions == [] || (Enabled(su, s, actions[0]) && IsRun(su, w, Next(su, w, s, actions[0]), actions[1..]))
  }

  function After(su: Setup, w: World, s: State, actions: seq<Action>): State
    requires IsRun(su, w, s, actions)
    decreases |actions|
  {
    if actions == [] then s else After(su, w, Next(su, w, s, actions[0]), actions[1..])
  }

  /** A scan both ends can run: batches within the limit, tests the server knows, room for a message. */
  ghost predicate Sound(su: Setup) {
    su.capacity >= 1 && forall batch <- su.plan :: GoodBatch(su.server.registry, Max(1, su.parallel), batch)
  }

  predicate Over(s: State) {
    s.client.phase.ClientFinished? && s.server.phase.ServerFinished?
  }

  // ----- what the client must end with -----

  function ResultAt(su: Setup, w: World, i: nat): TestEntry
    requires i < |Flatten(su.plan)|
  {
    ToResult(Flatten(su.plan)[i], Verdict(w.clientRuns(i), w.serverRuns(i)), ServerReason(w.serverRuns(i)))
  }

  /** The ledger after the first `n` tests. */
  function LedgerAt(su: Setup, w: World, n: nat): Ledger
    requires n <= |Flatten(su.plan)|
  {
    Ledger(Count(w.Verdicts(), 0, {}, n).Wrapped(),
           if su.keep then seq(n, i requires 0 <= i < n => ResultAt(su, w, i)) else [])
  }

  // ----- the invariant -----

  /** The server's batch is the mirror image of a prefix of the client's. */
  ghost predicate MirrorOf(server: ServerSetup, sv: Server, batch: seq<BatchEntry>) {
    |sv.batch| <= |batch| && forall i :: 0 <= i < |sv.batch| ==> Mirrors(server, sv.bindAddr, batch[i], sv.batch[i])
  }

  /** The client has sent the first `k` messages of a batch whose tests are numbered from `o`;
      the server has taken some of them. */
  ghost predicate Gathers(server: ServerSetup, sv: Server, toServer: seq<Message>, toClient: seq<Message>,
                          batch: seq<BatchEntry>, o: nat, k: nat)
  {
    var m := |sv.batch|;
    && sv.phase.Gathering? && sv.served == o && MirrorOf(server, sv, batch)
    && m <= k <= |batch| + 1 && toServer == Script(batch)[m..k] && toClient == []
  }

  ghost predicate ReportOf(w: World, batch: seq<BatchEntry>, o: nat, m: Message) {
    exists p: nat :: p < |batch| && m == ResultToReport(batch[p].id, w.serverRuns(o + p))
  }

  function ServingSet(sv: Server): set<nat> {
    if sv.phase.Serving? then sv.phase.serving else {}
  }

  /** Each outstanding test is either still in progress at the server (`r`) or has its report
      in the channel (`q`), and never both. */
  ghost predicate Owed(w: World, batch: seq<BatchEntry>, o: nat, r: set<nat>, q: seq<Message>, outstanding: set<u32>) {
    && |outstanding| == |r| + |q|
    && (forall p <- r :: p < |batch| && batch[p].id in outstanding)
    && (forall i :: 0 <= i < |q| ==> ReportOf(w, batch, o, q[i]))
    && (forall i :: 0 <= i < |q| ==> q[i].Report? && q[i].id in outstanding)
    && (forall i, j :: 0 <= i < j < |q| ==> q[i].id != q[j].id)
    && (forall i, p :: 0 <= i < |q| && p in r ==> q[i].id != batch[p].id)
  }

  /** The server has the whole batch: it is running tests, or it has finished them all. */
  ghost predicate Serves(server: ServerSetup, sv: Server, batch: seq<BatchEntry>, o: nat) {
    if sv.phase.Serving? then
      && sv.phase.serving != {} && !sv.phase.doneAfter && sv.served == o
      && MirrorOf(server, sv, batch) && |sv.batch| == |batch|
    else
      sv.phase.Gathering? && sv.batch == [] && sv.served == o + |batch|
  }

  /** The client's view of the p-th test: local while it is still to be reported, final afterwards. */
  ghost predicate HoldsAt(w: World, batch: seq<BatchEntry>, o: nat, view: Collect, p: nat)
    requires p < |batch|
  {
    var id := batch[p].id;
    && id in view.completed
    && view.completed[id] == (if id in view.expected then w.clientRuns(o + p)
                              else Verdict(w.clientRuns(o + p), w.serverRuns(o + p)))
    && Lookup(view.serverErrors, id) == (if id in view.expected then None else ServerReason(w.serverRuns(o + p)))
  }

  ghost predicate Holds(w: World, batch: seq<BatchEntry>, o: nat, view: Collect) {
    view.completed.Keys == Ids(batch) && forall p: nat :: p < |batch| ==> HoldsAt(w, batch, o, view, p)
  }

  /** Client results while local tests are in progress. */
  ghost predicate Tested(w: World, batch: seq<BatchEntry>, o: nat, completed: map<u32, ProtocolResult>, running: set<nat>) {
    && running <= Upto(|batch|) && completed.Keys <= Ids(batch)
    && forall p: nat :: p < |batch| && p !in running ==>
         batch[p].id in completed && completed[batch[p].id] == w.clientRuns(o + p)
  }

  ghost predicate Handshake(su: Setup, s: State) {
    && s.client.batch == 0 && s.client.completed == map[] && s.client.ledger == Ledger(NO_COUNTS, [])
    && s.server.batch == [] && s.server.served == 0
    && match s.client.phase
       case Configuring => s.server.phase.AwaitConfigure? && s.toServer == [] && s.toClient == []
       case AwaitAck =>
         || (s.server.phase.AwaitConfigure? && s.toServer == [ConfigureMessage(su)] && s.toClient == [])
         || (s.server.phase == SendAck(None) && s.toServer == [] && s.toClient == [])
         || (s.server.phase.Gathering? && s.toServer == [] && s.toClient == [Ack(true, None)])
       case _ => false
  }

  /** Where the server stands while the client waits for the reports of `outstanding`. */
  ghost predicate Waits(server: ServerSetup, w: World, s: State, batch: seq<BatchEntry>, o: nat, outstanding: set<u32>) {
    || (Gathers(server, s.server, s.toServer, s.toClient, batch, o, |batch| + 1) && outstanding == Ids(batch))
    || (Serves(server, s.server, batch, o) && s.toServer == []
        && Owed(w, batch, o, ServingSet(s.server), s.toClient, outstanding))
  }

  ghost predicate BatchAt(server: ServerSetup, w: World, s: State, batch: seq<BatchEntry>, o: nat) {
    match s.client.phase
    case Sending(k) =>
      k <= |batch| && s.client.completed == map[] && Gathers(server, s.server, s.toServer, s.toClient, batch, o, k)
    case Testing(running) =>
      running != {} && Tested(w, batch, o, s.client.completed, running) && Waits(server, w, s, batch, o, Ids(batch))
    case Collecting(view) =>
      && view.expected != {} && view.expected <= Ids(batch) && Holds(w, batch, o, view)
      && Waits(server, w, s, batch, o, view.expected)
    case _ => false
  }

  ghost predicate InBatch(su: Setup, w: World, s: State) {
    && InPlan(su, s.client)
    && var o := Offset(su.plan, s.client.batch);
    && o <= |Flatten(su.plan)| && s.client.ledger == LedgerAt(su, w, o)
    && BatchAt(su.server, w, s, su.plan[s.client.batch], o)
  }

  ghost predicate Closing(su: Setup, w: World, s: State) {
    var all := |Flatten(su.plan)|;
    && s.client.batch == |su.plan| && s.client.ledger == LedgerAt(su, w, all)
    && s.server.batch == [] && s.server.served == all
    && match s.client.phase
       case SendDone => s.server.phase.Gathering? && s.toServer == [] && s.toClient == []
       case AwaitBye =>
         || (s.server.phase.Gathering? && s.toServer == [Done] && s.toClient == [])
         || (s.server.phase.SendBye? && s.toServer == [] && s.toClient == [])
         || (s.server.phase.ServerFinished? && s.toServer == [] && s.toClient == [Bye(s.server.counters)])
       case ClientFinished => s.server.phase.ServerFinished? && s.toServer == [] && s.toClient == []
       case _ => false
  }

  /** What the server has counted: the tests of earlier batches and those of this one that ended. */
  function ServerTally(w: World, sv: Server): Tally {
    Count(w.serverRuns, sv.served, ServingSet(sv), if sv.phase.Serving? then sv.served + |sv.batch| else sv.served)
  }

  ghost predicate Configured(su: Setup, sv: Server) {
    sv.phase.AwaitConfigure? ||
    (sv.parallel == Max(1, su.parallel) && sv.bindAddr == ParseBind(su.server, su.showAddr(su.target)))
  }

  ghost predicate Accounts(su: Setup, w: World, sv: Server) {
    Configured(su, sv) && sv.counters == ServerTally(w, sv).Wrapped()
  }

  ghost predicate Inv(su: Setup, w: World, s: State) {
    Accounts(su, w, s.server) && (Handshake(su, s) || InBatch(su, w, s) || Closing(su, w, s))
  }

  // ----- how much is left to do -----

  function ClientUnsent(su: Setup, c: Client): int
    requires c.batch <= |su.plan|
  {
    var tests, batches := |Flatten(su.plan)| - Offset(su.plan, c.batch), |su.plan| - c.batch;
    match c.phase
    case Configuring => tests + batches + 2
    case AwaitAck => tests + batches + 1
    case Sending(k) => tests + batches + 1 - k
    case Testing(_) => if InPlan(su, c) then tests + batches - |su.plan[c.batch]| else 0
    case Collecting(_) => if InPlan(su, c) then tests + batches - |su.plan[c.batch]| else 0
    case SendDone => 1
    case _ => 0
  }

  function ClientTests(su: Setup, c: Client): int
    requires c.batch <= |su.plan|
  {
    var tests := |Flatten(su.plan)| - Offset(su.plan, c.batch);
    match c.phase
    case Testing(running) => if InPlan(su, c) then tests - |su.plan[c.batch]| + |running| else 0
    case Collecting(_) => if InPlan(su, c) then tests - |su.plan[c.batch]| else 0
    case _ => tests
  }

  function ServerTests(su: Setup, sv: Server): int {
    |Flatten(su.plan)| - sv.served - (if sv.phase.Serving? then |sv.batch| - |sv.phase.serving| else 0)
  }

  function ServerUnsent(sv: Server): int {
    match sv.phase
    case AwaitConfigure => 2
    case SendAck(_) => 2
    case Gathering => 1
    case Serving(_, _) => 1
    case SendBye => 1
    case _ => 0
  }

  /** Steps still to be taken: each message is sent and received, each test ends once at each end. */
  function Work(su: Setup, s: State): int
    requires s.client.batch <= |su.plan|
  {
    2 * ClientUnsent(su, s.client) + |s.toServer| + ClientTests(su, s.client)
    + 2 * ServerTests(su, s.server) + 2 * ServerUnsent(s.server) + |s.toClient|
  }

  function Steps(su: Setup): nat {
    5 * |Flatten(su.plan)| + 2 * |su.plan| + 8
  }
}
