/** The server's half: gather a batch under the agreed limit, turn every test around, run the
    tests at once, and report each as it finishes. */
module ServerBatch {
  import opened Messages
  import opened Schedule
  import opened ClientBatch
  import PortText

  datatype SocketAddr = SocketAddr(host: string, port: u16)

  const UNSPECIFIED := SocketAddr("::", 0)

  /** What a server knows besides its messages: its tests, the address from which it sees the
      client, and how the standard library reads addresses. */
  datatype ServerSetup = ServerSetup(
    registry: Registry, clientSeen: SocketAddr,
    parseSocket: string -> Option<SocketAddr>, parseHost: string -> Option<string>)

  /** A socket address, or else a bare host with port 0. */
  function ParseBind(server: ServerSetup, value: string): Option<SocketAddr> {
    var socket := server.parseSocket(value);
    if socket.Some? then socket
    else
      var host := server.parseHost(value);
      if host.Some? then Some(SocketAddr(host.value, 0)) else None
  }

  /** Why a server refuses a client of another version. */
  function VersionComplaint(version: u32): string {
    "client protocol version " + PortText.ToString(version) + " does not match server version "
    + PortText.ToString(PROTOCOL_VERSION)
  }

  datatype ServerEntry = ServerEntry(
    id: u32, protocol: string, transport: Transport, direction: Direction, targetAddr: SocketAddr)

  function Decode(server: ServerSetup, bindAddr: Option<SocketAddr>, m: Message): Result<ServerEntry, SessionError>
    requires m.Test?
  {
    var transport := ParseTransport(m.transport);
    var direction := ParseDirection(m.direction);
    if Find(server.registry, m.protocol).None? then Failure(UnknownProtocol(m.protocol))
    else if transport.None? then Failure(UnknownTransport(m.transport))
    else if direction.None? then Failure(UnknownDirection(m.direction))
    else
      var turned := direction.value.Opposite();
      var base := if turned == ClientToServer then server.clientSeen
                  else if bindAddr.Some? then bindAddr.value else UNSPECIFIED;
      Success(ServerEntry(m.id, m.protocol, transport.value, turned, base.(port := m.port)))
  }

  /** Which tests a server understands, what it makes of them, and otherwise which part it complains of. */
  lemma {:induction false} DecodeExactly(server: ServerSetup, bindAddr: Option<SocketAddr>, m: Message)
    requires m.Test?
    ensures var r, known := Decode(server, bindAddr, m), Find(server.registry, m.protocol).Some?;
            if !known then r == Failure(UnknownProtocol(m.protocol))
            else if m.transport != "tcp" && m.transport != "udp" && m.transport != "icmp" then
              r == Failure(UnknownTransport(m.transport))
            else if m.direction != "->" && m.direction != "<-" then r == Failure(UnknownDirection(m.direction))
            else
              && r.Success? && r.value.id == m.id && r.value.protocol == m.protocol
              && r.value.transport == (if m.transport == "tcp" then Tcp else if m.transport == "udp" then Udp else Icmp)
              && r.value.direction == (if m.direction == "->" then ServerToClient else ClientToServer)
              && r.value.targetAddr.port == m.port
              && r.value.targetAddr.host == (if m.direction == "<-" then server.clientSeen.host
                                             else if bindAddr.Some? then bindAddr.value.host else "::")
  {
  }

  datatype Gather = More(batch: seq<ServerEntry>) | Ready(batch: seq<ServerEntry>, doneAfter: bool)

  function OnMessage(server: ServerSetup, parallel: nat, bindAddr: Option<SocketAddr>,
                     batch: seq<ServerEntry>, m: Message): Result<Gather, SessionError>
  {
    match m
    case Test(_, _, _, _, _) =>
      if |batch| >= parallel then Failure(BatchTooLarge)
      else
        var entry := Decode(server, bindAddr, m);
        if entry.Failure? then Failure(entry.error) else Success(More(batch + [entry.value]))
    case BatchEnd => if batch != [] then Success(Ready(batch, false)) else Failure(UnexpectedMessage)
    case Done => Success(Ready(batch, true))
    case _ => Failure(UnexpectedMessage)
  }

  datatype Gathered = Gathered(batch: seq<ServerEntry>, doneAfter: bool, unread: seq<Message>)

  function GatherAll(server: ServerSetup, parallel: nat, bindAddr: Option<SocketAddr>,
                     batch: seq<ServerEntry>, inbox: seq<Message>): (r: Result<Gathered, SessionError>)
    ensures r.Success? ==> |r.value.unread| < |inbox|
    decreases |inbox|
  {
    if inbox == [] then Failure(ChannelClosed)
    else
      match OnMessage(server, parallel, bindAddr, batch, inbox[0])
      case Failure(e) => Failure(e)
      case Success(More(more)) => GatherAll(server, parallel, bindAddr, more, inbox[1..])
      case Success(Ready(ready, doneAfter)) => Success(Gathered(ready, doneAfter, inbox[1..]))
  }

  method GatherBatch(server: ServerSetup, parallel: nat, bindAddr: Option<SocketAddr>, inbox: seq<Message>)
    returns (r: Result<Gathered, SessionError>)
    ensures r == GatherAll(server, parallel, bindAddr, [], inbox)
  {
    var batch: seq<ServerEntry> := [];
    var unread := inbox;
    while unread != []
      invariant GatherAll(server, parallel, bindAddr, [], inbox) == GatherAll(server, parallel, bindAddr, batch, unread)
      decreases |unread|
    {
      var m := unread[0];
      unread := unread[1..];
      match m {
        case Test(_, _, _, _, _) =>
          if |batch| >= parallel {
            return Failure(BatchTooLarge);
          }
          var entry := Decode(server, bindAddr, m);
          if entry.Failure? {
            return Failure(entry.error);
          }
          batch := batch + [entry.value];
        case BatchEnd =>
          return if batch != [] then Success(Gathered(batch, false, unread)) else Failure(UnexpectedMessage);
        case Done =>
          return Success(Gathered(batch, true, unread));
        case _ =>
          return Failure(UnexpectedMessage);
      }
    }
    r := Failure(ChannelClosed);
  }

  function TestsAhead(inbox: seq<Message>): (k: nat)
    ensures k <= |inbox| && forall i :: 0 <= i < k ==> inbox[i].Test?
    ensures k < |inbox| ==> !inbox[k].Test?
  {
    if inbox == [] || !inbox[0].Test? then 0 else 1 + TestsAhead(inbox[1..])
  }

  ghost predicate Acceptable(server: ServerSetup, parallel: nat, bindAddr: Option<SocketAddr>, had: nat, inbox: seq<Message>) {
    var k := TestsAhead(inbox);
    && k < |inbox| && had + k <= parallel
    && (forall i :: 0 <= i < k ==> Decode(server, bindAddr, inbox[i]).Success?)
    && (inbox[k] == Done || (inbox[k] == BatchEnd && had + k > 0))
  }

  /** A batch is accepted exactly when the tests ahead fit under the limit, are all understood,
      and are closed by `Done` or, if there is any test, by `BatchEnd`. */
  lemma {:induction false} GatherExact(server: ServerSetup, parallel: nat, bindAddr: Option<SocketAddr>,
                                       batch: seq<ServerEntry>, inbox: seq<Message>)
    requires |batch| <= parallel
    ensures GatherAll(server, parallel, bindAddr, batch, inbox).Success? <==>
            Acceptable(server, parallel, bindAddr, |batch|, inbox)
    decreases |inbox|
  {
    if inbox != [] && inbox[0].Test? {
      var rest := inbox[1..];
      var entry := Decode(server, bindAddr, inbox[0]);
      var k := TestsAhead(inbox);
      if |batch| < parallel && entry.Success? {
        GatherExact(server, parallel, bindAddr, batch + [entry.value], rest);
        assert forall i :: 0 <= i < k - 1 ==> rest[i] == inbox[i + 1];
        assert forall i :: 1 <= i < k ==> inbox[i] == rest[i - 1];
        assert k < |inbox| ==> inbox[k] == rest[k - 1];
      }
    }
  }

  /** What a batch is refused for: the first message that is not a test that is understood and fits. */
  ghost predicate RefusedFor(server: ServerSetup, parallel: nat, bindAddr: Option<SocketAddr>, had: nat, inbox: seq<Message>,
                             error: SessionError, k: nat) {
    && k <= |inbox| && had + k <= parallel
    && (forall i :: 0 <= i < k ==> inbox[i].Test? && Decode(server, bindAddr, inbox[i]).Success?)
    && if k == |inbox| then error == ChannelClosed
       else if inbox[k].Test? then
         if had + k == parallel then error == BatchTooLarge else Decode(server, bindAddr, inbox[k]) == Failure(error)
       else inbox[k] != Done && (inbox[k] == BatchEnd ==> had + k == 0) && error == UnexpectedMessage
  }

  lemma {:induction false} GatherFails(server: ServerSetup, parallel: nat, bindAddr: Option<SocketAddr>,
                                       batch: seq<ServerEntry>, inbox: seq<Message>) returns (k: nat)
    requires |batch| <= parallel && GatherAll(server, parallel, bindAddr, batch, inbox).Failure?
    ensures RefusedFor(server, parallel, bindAddr, |batch|, inbox, GatherAll(server, parallel, bindAddr, batch, inbox).error, k)
    decreases |inbox|
  {
    hide Decode;
    k := 0;
    if inbox != [] && inbox[0].Test? && |batch| < parallel {
      var entry := Decode(server, bindAddr, inbox[0]);
      if entry.Success? {
        var rest := GatherFails(server, parallel, bindAddr, batch + [entry.value], inbox[1..]);
        k := rest + 1;
        assert forall i :: 0 < i < k ==> inbox[i] == inbox[1..][i - 1];
      }
    }
  }

  /** Nothing beyond the closing message is read. */
  lemma {:induction false} GatherShape(server: ServerSetup, parallel: nat, bindAddr: Option<SocketAddr>,
                                       batch: seq<ServerEntry>, inbox: seq<Message>)
    requires GatherAll(server, parallel, bindAddr, batch, inbox).Success?
    ensures var k := TestsAhead(inbox);
            var r := GatherAll(server, parallel, bindAddr, batch, inbox).value;
            && k < |inbox| && r.unread == inbox[k + 1..] && r.doneAfter == (inbox[k] == Done)
            && |r.batch| == |batch| + k && r.batch[..|batch|] == batch
    decreases |inbox|
  {
    if inbox[0].Test? {
      var entry := Decode(server, bindAddr, inbox[0]).value;
      GatherShape(server, parallel, bindAddr, batch + [entry], inbox[1..]);
      var r := GatherAll(server, parallel, bindAddr, batch, inbox).value;
      assert r.batch[..|batch|] == r.batch[..|batch| + 1][..|batch|];
    }
  }

  /** The gathered batch is the tests ahead, each decoded, in the order they were sent. */
  lemma {:induction false} GatherContents(server: ServerSetup, parallel: nat, bindAddr: Option<SocketAddr>,
                                          batch: seq<ServerEntry>, inbox: seq<Message>, i: nat)
    requires GatherAll(server, parallel, bindAddr, batch, inbox).Success? && i < TestsAhead(inbox)
    ensures var r := GatherAll(server, parallel, bindAddr, batch, inbox).value;
            |batch| + i < |r.batch| && Decode(server, bindAddr, inbox[i]) == Success(r.batch[|batch| + i])
    decreases |inbox|
  {
    hide Decode;
    var entry := Decode(server, bindAddr, inbox[0]).value;
    var r := GatherAll(server, parallel, bindAddr, batch, inbox).value;
    assert r == GatherAll(server, parallel, bindAddr, batch + [entry], inbox[1..]).value;
    if i == 0 {
      GatherShape(server, parallel, bindAddr, batch + [entry], inbox[1..]);
      assert r.batch[|batch|] == r.batch[..|batch| + 1][|batch|];
    } else {
      GatherContents(server, parallel, bindAddr, batch + [entry], inbox[1..], i - 1);
    }
  }

  /** What the server makes of the client's entry. */
  ghost predicate Mirrors(server: ServerSetup, bindAddr: Option<SocketAddr>, e: BatchEntry, entry: ServerEntry) {
    Decode(server, bindAddr, ToTest(e)) == Success(entry)
  }

  /** For every test the two ends take opposite roles on the same port and transport, under the
      same identifier; a registered test with a known transport string is never refused. */
  lemma {:induction false} MirrorIsOpposite(server: ServerSetup, bindAddr: Option<SocketAddr>, e: BatchEntry)
    requires Known(server.registry, e)
    ensures Decode(server, bindAddr, ToTest(e)).Success?
    ensures var entry := Decode(server, bindAddr, ToTest(e)).value;
            && entry.id == e.id && entry.protocol == e.testName && entry.transport == e.transport
            && entry.direction == e.direction.Opposite() && entry.targetAddr.port == e.port
            && entry.targetAddr.host ==
               (if e.direction == ServerToClient then server.clientSeen.host
                else if bindAddr.Some? then bindAddr.value.host else UNSPECIFIED.host)
  {
  }

  lemma {:induction false} OneMore(before: Tally, runs: nat -> ProtocolResult, running: set<nat>, p: nat, n: nat)
    requires p in running && p < n
    ensures Bump(before.Plus(Count(runs, 0, running, n)).Wrapped(), runs(p)) ==
            before.Plus(Count(runs, 0, running - {p}, n)).Wrapped()
  {
    var t := Count(runs, 0, running, n);
    CountOneMore(runs, 0, running, p, n);
    BumpIsAdd(before.Plus(t), runs(p));
    assert before.Plus(t).Add(runs(p)) == before.Plus(t.Add(runs(p)));
  }

  lemma {:induction false} NoneEnded(before: Tally, runs: nat -> ProtocolResult, n: nat)
    ensures before.Plus(Count(runs, 0, Upto(n), n)) == before
  {
    CountAllSkipped(runs, 0, Upto(n), n);
  }

  /** Runs a gathered batch: `runs(p)` is what the server's half of the p-th test returns, and
      which test finishes next is not known. Every test is counted once and reported once. */
  method ServeBatch(batch: seq<ServerEntry>, runs: nat -> ProtocolResult, counters0: Summary, ghost before: Tally)
    returns (counters: Summary, reports: seq<Message>, ghost order: seq<nat>)
    requires counters0 == before.Wrapped()
    ensures counters == before.Plus(Count(runs, 0, {}, |batch|)).Wrapped()
    ensures |order| == |reports| == |batch|
    ensures forall k, l :: 0 <= k < l < |order| ==> order[k] != order[l]
    ensures forall k :: 0 <= k < |order| ==>
      order[k] < |batch| && Tells(reports[k], batch[order[k]].id, runs(order[k]))
  {
    counters, reports, order := counters0, [], [];
    var running := Upto(|batch|);
    NoneEnded(before, runs, |batch|);
    hide Count, Bump, ResultToReport, Tells;
    while running != {}
      invariant running <= Upto(|batch|) && |order| == |reports| == |batch| - |running|
      invariant forall k, l :: 0 <= k < l < |order| ==> order[k] != order[l]
      invariant forall k :: 0 <= k < |order| ==> order[k] !in running && order[k] < |batch|
      invariant forall k :: 0 <= k < |order| ==> Tells(reports[k], batch[order[k]].id, runs(order[k]))
      invariant counters == before.Plus(Count(runs, 0, running, |batch|)).Wrapped()
      decreases |running|
    {
      var p :| p in running;
      var result := runs(p);
      OneMore(before, runs, running, p, |batch|);
      counters := Bump(counters, result);
      var report := ResultToReport(batch[p].id, result);
      TellsExactly(report, batch[p].id, result);
      reports := reports + [report];
      order := order + [p];
      running := running - {p};
    }
  }
}
