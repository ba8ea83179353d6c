/** The values both ends of a scan share: directions, transports, test results,
    control messages and the summary counters. Machine integers are subset types;
    where the program's arithmetic can wrap, the wrap is written out. */
module Messages {

  type byte = n: int | 0 <= n < 0x100
  type u16 = n: int | 0 <= n < 0x1_0000
  type u32 = n: int | 0 <= n < 0x1_0000_0000
  type u64 = n: int | 0 <= n < 0x1_0000_0000_0000_0000

  function Numbers(n: nat): (s: seq<nat>)
    ensures |s| == n && forall i :: 0 <= i < n ==> s[i] == i
  {
    seq(n, (i: nat) => i)
  }

  lemma {:induction false} InNumbers(n: nat)
    ensures forall p: nat :: p in Numbers(n) <==> p < n
  {
    forall p: nat
      ensures p in Numbers(n) <==> p < n
    {
      if p < n {
        assert Numbers(n)[p] == p;
      }
    }
  }

  function Below(n: nat): (r: set<nat>)
    ensures forall p: nat :: p in r <==> p < n
  {
    InNumbers(n);
    set p <- Numbers(n)
  }

  lemma {:induction false} BelowCount(n: nat)
    ensures |Below(n)| == n
  {
    if n == 0 {
      assert Below(n) == {};
    } else {
      BelowCount(n - 1);
      assert Below(n) == Below(n - 1) + {n - 1};
    }
  }

  /** The numbers below `n`. */
  function Upto(n: nat): (r: set<nat>)
    ensures forall p: nat :: p in r <==> p < n
    ensures |r| == n
  {
    BelowCount(n);
    Below(n)
  }

  const PROTOCOL_VERSION: u32 := 3

  datatype Option<+T> = None | Some(value: T)

  datatype Result<+T, +E> = Success(value: T) | Failure(error: E)

  datatype Direction = ClientToServer | ServerToClient {
    function AsStr(): string {
      if ClientToServer? then "->" else "<-"
    }

    function Opposite(): Direction {
      if ClientToServer? then ServerToClient else ClientToServer
    }
  }

  function ParseDirection(s: string): Option<Direction> {
    if s == "->" then Some(ClientToServer)
    else if s == "<-" then Some(ServerToClient)
    else None
  }

  datatype Transport = Tcp | Udp | Icmp

  function ParseTransport(s: string): Option<Transport> {
    if s == "tcp" then Some(Tcp)
    else if s == "udp" then Some(Udp)
    else if s == "icmp" then Some(Icmp)
    else None
  }

  /** What one end reports about one test. `Error` carries no byte counts. */
  datatype ProtocolResult =
    | Pass(sentBytes: u64, receivedBytes: u64)
    | Fail(reason: string, sentBytes: u64, receivedBytes: u64)
    | Error(reason: string)

  datatype Message =
    | Hello(version: u32, fingerprint: string)
    | Configure(target: Option<string>, timeoutMs: u64, clientVersion: u32, parallel: nat)
    | Ack(ok: bool, message: Option<string>)
    | Test(id: u32, protocol: string, transport: string, port: u16, direction: string)
    | BatchEnd
    | Report(id: u32, sent: Option<u64>, received: Option<u64>, error: Option<string>)
    | Done
    | Bye(summary: Summary)

  /** The reasons for which a session ends early; one per error message of the program. */
  datatype SessionError =
    | InvalidPortRange
    | UnknownProtocol(name: string)
    | NeedsPortRange(name: string)
    | UnknownTransport(name: string)
    | UnknownDirection(name: string)
    | ExpectedConfigure
    | VersionMismatch
    | ConfigRejected
    | ExpectedAck
    | BatchTooLarge
    | UnexpectedMessage
    | ExpectedReport
    | UnexpectedReportId(id: u32)
    | MissingLocalResult(id: u32)
    | ExpectedBye
    | ChannelClosed

  /** The report a server sends about its half of a test: the variant is not named,
      only which optional fields are present. */
  function ResultToReport(id: u32, result: ProtocolResult): Message {
    match result
    case Pass(sent, received) => Report(id, Some(sent), Some(received), None)
    case Fail(reason, sent, received) => Report(id, Some(sent), Some(received), Some(reason))
    case Error(reason) => Report(id, None, None, Some(reason))
  }

  /** What the client does to its own result when a report for that test arrives. */
  function ApplyReport(local: ProtocolResult, report: Message): ProtocolResult
    requires report.Report?
  {
    if report.error.Some? && local.Pass? then
      if report.sent.None? && report.received.None? then
        Error("server: " + report.error.value)
      else
        Fail("server: " + report.error.value, local.sentBytes, local.receivedBytes)
    else
      local
  }

  /** The verdict the two ends should reach together, stated on results rather than reports:
      a local failure stands, a local pass survives only a server pass, and otherwise
      takes the server's variant. */
  function Verdict(local: ProtocolResult, server: ProtocolResult): ProtocolResult {
    if !local.Pass? || server.Pass? then local
    else if server.Error? then Error("server: " + server.reason)
    else Fail("server: " + server.reason, local.sentBytes, local.receivedBytes)
  }

  function ServerReason(server: ProtocolResult): Option<string> {
    if server.Pass? then None else Some(server.reason)
  }

  /** The erased variant is recovered: applying the server's report is the intended verdict,
      and that verdict is a pass exactly when both halves passed. */
  lemma {:induction false} ReportCarriesVerdict(id: u32, local: ProtocolResult, server: ProtocolResult)
    ensures ApplyReport(local, ResultToReport(id, server)) == Verdict(local, server)
    ensures ResultToReport(id, server).error == ServerReason(server)
    ensures Verdict(local, server).Pass? <==> local.Pass? && server.Pass?
    ensures Verdict(local, server).Error? <==> local.Error? || (local.Pass? && server.Error?)
  {
  }

  /** The report of that result under that identifier, field by field. */
  predicate Tells(m: Message, id: u32, result: ProtocolResult) {
    && m.Report? && m.id == id
    && (result.Error? ==> m.sent == None && m.received == None)
    && (!result.Error? ==> m.sent == Some(result.sentBytes) && m.received == Some(result.receivedBytes))
    && (if result.Pass? then m.error == None else m.error == Some(result.reason))
  }

  lemma {:induction false} TellsExactly(m: Message, id: u32, result: ProtocolResult)
    ensures Tells(m, id, result) <==> m == ResultToReport(id, result)
  {
  }

  /** What is recorded of a test when its halves end like this, field by field: a local result that is no
      pass stands; a local pass stands if the other half passed, and else gives way to what happened there;
      and the other half's reason is kept besides. */
  predicate Joins(client: ProtocolResult, server: ProtocolResult, result: ProtocolResult, serverError: Option<string>) {
    && (!client.Pass? || server.Pass? ==> result == client)
    && (client.Pass? && server.Fail? ==> result == Fail("server: " + server.reason, client.sentBytes, client.receivedBytes))
    && (client.Pass? && server.Error? ==> result == Error("server: " + server.reason))
    && (if server.Pass? then serverError == None else serverError == Some(server.reason))
  }

  lemma {:induction false} JoinsExactly(client: ProtocolResult, server: ProtocolResult, result: ProtocolResult, serverError: Option<string>)
    ensures Joins(client, server, result, serverError) <==> result == Verdict(client, server) && serverError == ServerReason(server)
  {
  }

  // ----- counters -----

  /** `n += 1` on a `u32`. */
  function Next32(n: u32): u32 {
    if n == 0xFFFF_FFFF then 0 else n + 1
  }

  /** The value of a `u32` counter after `n` increments from 0. */
  function Wrap32(n: nat): u32 {
    if n == 0 then 0 else Next32(Wrap32(n - 1))
  }

  lemma {:induction false} WrapIsMod(n: nat)
    ensures Wrap32(n) == n % 0x1_0000_0000
  {
    if n == 0 {
    } else {
      WrapIsMod(n - 1);
    }
  }

  /** The three `u32` counters, incremented with wrap-around. */
  datatype Summary = Summary(passed: u32, failed: u32, errors: u32)

  function Bump(s: Summary, r: ProtocolResult): Summary {
    match r
    case Pass(_, _) => s.(passed := Next32(s.passed))
    case Fail(_, _, _) => s.(failed := Next32(s.failed))
    case Error(_) => s.(errors := Next32(s.errors))
  }

  /** True, unbounded counts of results. */
  datatype Tally = Tally(passed: nat, failed: nat, errors: nat) {
    function Total(): nat {
      passed + failed + errors
    }

    function Add(r: ProtocolResult): Tally {
      match r
      case Pass(_, _) => this.(passed := passed + 1)
      case Fail(_, _, _) => this.(failed := failed + 1)
      case Error(_) => this.(errors := errors + 1)
    }

    function Plus(t: Tally): Tally {
      Tally(passed + t.passed, failed + t.failed, errors + t.errors)
    }

    function Wrapped(): Summary {
      Summary(Wrap32(passed), Wrap32(failed), Wrap32(errors))
    }
  }

  lemma {:induction false} BumpIsAdd(t: Tally, r: ProtocolResult)
    ensures Bump(t.Wrapped(), r) == t.Add(r).Wrapped()
  {
  }

  /** Counts the results of tests `0 .. n`, leaving out those at `base + p` for `p` in `skip`. */
  function Count(f: nat -> ProtocolResult, base: nat, skip: set<nat>, n: nat): Tally {
    if n == 0 then Tally(0, 0, 0)
    else
      var rest := Count(f, base, skip, n - 1);
      if n - 1 >= base && n - 1 - base in skip then rest else rest.Add(f(n - 1))
  }

  /** One more finished test adds its own result and nothing else, whatever the order. */
  lemma {:induction false} CountOneMore(f: nat -> ProtocolResult, base: nat, skip: set<nat>, p: nat, n: nat)
    requires p in skip
    ensures Count(f, base, skip - {p}, n) ==
            if base + p < n then Count(f, base, skip, n).Add(f(base + p)) else Count(f, base, skip, n)
  {
    if n == 0 {
    } else {
      CountOneMore(f, base, skip, p, n - 1);
    }
  }

  lemma {:induction false} CountNoneSkipped(f: nat -> ProtocolResult, base: nat, base': nat, skip: set<nat>, n: nat)
    requires forall p <- skip :: n <= base + p
    ensures Count(f, base, skip, n) == Count(f, base', {}, n)
  {
    if n == 0 {
    } else {
      CountNoneSkipped(f, base, base', skip, n - 1);
    }
  }

  lemma {:induction false} CountAllSkipped(f: nat -> ProtocolResult, base: nat, skip: set<nat>, m: nat)
    requires forall p: nat :: p < m ==> p in skip
    ensures Count(f, base, skip, base + m) == Count(f, base, skip, base)
  {
    if m == 0 {
    } else {
      CountAllSkipped(f, base, skip, m - 1);
    }
  }

  lemma {:induction false} CountTotal(f: nat -> ProtocolResult, n: nat)
    ensures Count(f, 0, {}, n).Total() == n
  {
    if n == 0 {
    } else {
      CountTotal(f, n - 1);
    }
  }

  /** Results that are pointwise no better can only lower the number of passes. */
  lemma {:induction false} CountFewerPasses(f: nat -> ProtocolResult, g: nat -> ProtocolResult, n: nat)
    requires forall i: nat :: i < n && f(i).Pass? ==> g(i).Pass?
    ensures Count(f, 0, {}, n).passed <= Count(g, 0, {}, n).passed
  {
    if n == 0 {
    } else {
      CountFewerPasses(f, g, n - 1);
    }
  }

  datatype Kind = Passes | Fails | Errs

  predicate EndsAs(r: ProtocolResult, kind: Kind) {
    match kind
    case Passes => r.Pass?
    case Fails => r.Fail?
    case Errs => r.Error?
  }

  /** Two halves that together end so. */
  predicate JointlyEnd(client: ProtocolResult, server: ProtocolResult, kind: Kind) {
    match kind
    case Passes => client.Pass? && server.Pass?
    case Fails => client.Fail? || (client.Pass? && server.Fail?)
    case Errs => client.Error? || (client.Pass? && server.Error?)
  }

  /** The tests below `n` that end so. */
  function Those(f: nat -> ProtocolResult, n: nat, kind: Kind): set<nat> {
    set i <- Upto(n) | EndsAs(f(i), kind)
  }

  function Jointly(f: nat -> ProtocolResult, g: nat -> ProtocolResult, n: nat, kind: Kind): set<nat> {
    set i <- Upto(n) | JointlyEnd(f(i), g(i), kind)
  }

  lemma {:induction false} VerdictsJoint(f: nat -> ProtocolResult, g: nat -> ProtocolResult, verdicts: nat -> ProtocolResult, n: nat, kind: Kind)
    requires forall i: nat :: i < n ==> verdicts(i) == Verdict(f(i), g(i))
    ensures Those(verdicts, n, kind) == Jointly(f, g, n, kind)
  {
    forall i: nat | i < n
      ensures EndsAs(verdicts(i), kind) <==> JointlyEnd(f(i), g(i), kind)
    {
      ReportCarriesVerdict(0, f(i), g(i));
    }
  }

  /** The counters are the numbers of tests that pass, fail and err, modulo 2^32. */
  predicate Sums(s: Summary, f: nat -> ProtocolResult, n: nat) {
    && s.passed == |Those(f, n, Passes)| % 0x1_0000_0000
    && s.failed == |Those(f, n, Fails)| % 0x1_0000_0000
    && s.errors == |Those(f, n, Errs)| % 0x1_0000_0000
  }

  lemma {:induction false} ThoseNext(f: nat -> ProtocolResult, n: nat, kind: Kind)
    ensures |Those(f, n + 1, kind)| == |Those(f, n, kind)| + (if EndsAs(f(n), kind) then 1 else 0)
  {
    hide EndsAs, Those;
    var more := if EndsAs(f(n), kind) then {n} else {};
    forall i: nat
      ensures i in Those(f, n + 1, kind) <==> i in Those(f, n, kind) + more
    {
      AmongThose(f, n, kind, i);
      AmongThose(f, n + 1, kind, i);
    }
    AmongThose(f, n, kind, n);
    assert Those(f, n + 1, kind) == Those(f, n, kind) + more;
  }

  lemma {:induction false} AmongThose(f: nat -> ProtocolResult, n: nat, kind: Kind, i: nat)
    ensures i in Those(f, n, kind) <==> i < n && EndsAs(f(i), kind)
  {
    hide EndsAs;
  }

  lemma {:induction false} CountIsSize(f: nat -> ProtocolResult, n: nat)
    ensures Count(f, 0, {}, n) == Tally(|Those(f, n, Passes)|, |Those(f, n, Fails)|, |Those(f, n, Errs)|)
  {
    hide Those;
    if n == 0 {
      NothingThere(f);
    } else {
      CountIsSize(f, n - 1);
      ThoseNext(f, n - 1, Passes);
      ThoseNext(f, n - 1, Fails);
      ThoseNext(f, n - 1, Errs);
    }
  }

  lemma {:induction false} NothingThere(f: nat -> ProtocolResult)
    ensures forall kind: Kind :: |Those(f, 0, kind)| == 0
  {
    forall kind: Kind
      ensures Those(f, 0, kind) == {}
    {
    }
  }

  /** The wrapping counters of a session, whatever the order in which its tests ended. */
  lemma {:induction false} CountSums(f: nat -> ProtocolResult, n: nat)
    ensures Sums(Count(f, 0, {}, n).Wrapped(), f, n)
  {
    CountIsSize(f, n);
    hide Count, Those;
    WrapIsMod(|Those(f, n, Passes)|);
    WrapIsMod(|Those(f, n, Fails)|);
    WrapIsMod(|Those(f, n, Errs)|);
  }
}
