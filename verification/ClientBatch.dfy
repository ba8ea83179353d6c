/** The client's half of one batch: send it, run it, match the server's reports against the
    local results in whatever order both arrive, and settle the verdicts in batch order. */
module ClientBatch {
  import opened Messages
  import opened Schedule

  datatype TestEntry = TestEntry(
    protocol: string, transport: string, port: u16, direction: Direction,
    result: ProtocolResult, serverError: Option<string>)

  function ToTest(e: BatchEntry): Message {
    Test(e.id, e.testName, e.transportStr, e.port, e.direction.AsStr())
  }

  function ToTests(batch: seq<BatchEntry>): seq<Message> {
    seq(|batch|, i requires 0 <= i < |batch| => ToTest(batch[i]))
  }

  /** Everything the client sends for one batch. */
  function Script(batch: seq<BatchEntry>): (script: seq<Message>)
    ensures |script| == |batch| + 1
    ensures script[|batch|] == BatchEnd
    ensures forall i :: 0 <= i < |batch| ==> script[i] == ToTest(batch[i])
  {
    ToTests(batch) + [BatchEnd]
  }

  function Ids(batch: seq<BatchEntry>): set<u32> {
    set e <- batch :: e.id
  }

  ghost predicate DistinctIds(batch: seq<BatchEntry>) {
    forall i, j :: 0 <= i < j < |batch| ==> batch[i].id != batch[j].id
  }

  /** The client's view while reports come in. */
  datatype Collect = Collect(
    expected: set<u32>, completed: map<u32, ProtocolResult>, serverErrors: map<u32, string>)

  function OnReport(c: Collect, m: Message): Result<Collect, SessionError> {
    if !m.Report? then Failure(ExpectedReport)
    else if m.id !in c.expected then Failure(UnexpectedReportId(m.id))
    else
      var c' := c.(expected := c.expected - {m.id});
      if m.error.None? then Success(c')
      else if m.id !in c.completed then Failure(MissingLocalResult(m.id))
      else
        Success(c'.(completed := c.completed[m.id := ApplyReport(c.completed[m.id], m)],
                    serverErrors := c.serverErrors[m.id := m.error.value]))
  }

  datatype Collected = Collected(view: Collect, unread: seq<Message>)

  /** Reads reports until none is expected any more. */
  function CollectAll(c: Collect, inbox: seq<Message>): Result<Collected, SessionError>
    decreases |inbox|
  {
    if c.expected == {} then Success(Collected(c, inbox))
    else if inbox == [] then Failure(ChannelClosed)
    else
      match OnReport(c, inbox[0])
      case Failure(e) => Failure(e)
      case Success(c') => CollectAll(c', inbox[1..])
  }

  datatype Ledger = Ledger(counters: Summary, results: seq<TestEntry>)

  function ToResult(e: BatchEntry, result: ProtocolResult, serverError: Option<string>): TestEntry {
    TestEntry(e.testName, e.transportStr, e.port, e.direction, result, serverError)
  }

  function Record(ledger: Ledger, keep: bool, entry: TestEntry): Ledger {
    Ledger(Bump(ledger.counters, entry.result), if keep then ledger.results + [entry] else ledger.results)
  }

  function Lookup(m: map<u32, string>, id: u32): Option<string> {
    if id in m then Some(m[id]) else None
  }

  /** Counts and records the results of a batch in batch order, taking each out of the maps. */
  function Settle(batch: seq<BatchEntry>, completed: map<u32, ProtocolResult>, serverErrors: map<u32, string>,
                  keep: bool, ledger: Ledger): Result<Ledger, SessionError>
  {
    if batch == [] then Success(ledger)
    else if batch[0].id !in completed then Failure(MissingLocalResult(batch[0].id))
    else
      var id := batch[0].id;
      var entry := ToResult(batch[0], completed[id], Lookup(serverErrors, id));
      Settle(batch[1..], completed - {id}, serverErrors - {id}, keep, Record(ledger, keep, entry))
  }

  /** The local results keyed by identifier, once every local test has finished. */
  ghost predicate HoldsRuns(completed: map<u32, ProtocolResult>, batch: seq<BatchEntry>, runs: nat -> ProtocolResult) {
    && completed.Keys == Ids(batch)
    && forall p: nat :: p < |batch| ==> batch[p].id in completed && completed[batch[p].id] == runs(p)
  }

  /** That map, built in batch order. */
  function RunsOf(batch: seq<BatchEntry>, runs: nat -> ProtocolResult): map<u32, ProtocolResult> {
    if batch == [] then map[]
    else
      var n := |batch| - 1;
      RunsOf(batch[..n], runs)[batch[n].id := runs(n)]
  }

  lemma {:induction false} RunsOfHolds(batch: seq<BatchEntry>, runs: nat -> ProtocolResult)
    requires DistinctIds(batch)
    ensures HoldsRuns(RunsOf(batch, runs), batch, runs)
  {
    if batch == [] {
    } else {
      var n := |batch| - 1;
      RunsOfHolds(batch[..n], runs);
      assert batch == batch[..n] + [batch[n]];
      HoldsOneMore(batch[..n], batch[n], RunsOf(batch[..n], runs), runs);
    }
  }

  lemma {:induction false} HoldsOneMore(batch: seq<BatchEntry>, e: BatchEntry, completed: map<u32, ProtocolResult>,
                                        runs: nat -> ProtocolResult)
    requires HoldsRuns(completed, batch, runs) && DistinctIds(batch + [e])
    ensures HoldsRuns(completed[e.id := runs(|batch|)], batch + [e], runs)
  {
    var longer := batch + [e];
    assert Ids(longer) == Ids(batch) + {e.id} by {
      assert longer[|batch|] in longer;
    }
    forall p: nat | p < |batch|
      ensures longer[p] == batch[p] && batch[p].id != e.id
    {
      assert longer[p].id != longer[|batch|].id;
    }
  }

  datatype BatchDone = BatchDone(ledger: Ledger, unread: seq<Message>)

  function Reconcile(batch: seq<BatchEntry>, completed: map<u32, ProtocolResult>, inbox: seq<Message>,
                     keep: bool, ledger: Ledger): Result<BatchDone, SessionError>
  {
    match CollectAll(Collect(Ids(batch), completed, map[]), inbox)
    case Failure(e) => Failure(e)
    case Success(Collected(view, unread)) =>
      match Settle(batch, view.completed, view.serverErrors, keep, ledger)
      case Failure(e) => Failure(e)
      case Success(done) => Success(BatchDone(done, unread))
  }

  /** `runs(p)` is what the local half of the p-th test returns. Local tests finish in an
      arbitrary order; `inbox` holds what the server sends, in the order it arrives. */
  method ExecuteBatch(batch: seq<BatchEntry>, runs: nat -> ProtocolResult, inbox: seq<Message>, keep: bool, ledger: Ledger)
    returns (r: Result<BatchDone, SessionError>, sent: seq<Message>)
    requires DistinctIds(batch)
    ensures sent == Script(batch)
    ensures r == Reconcile(batch, RunsOf(batch, runs), inbox, keep, ledger)
  {
    sent := SendBatch(batch);
    var completed := RunLocally(batch, runs);
    RunsOfHolds(batch, runs);
    SameRuns(completed, RunsOf(batch, runs), batch, runs);
    hide Script, CollectAll, Settle, RunsOf, HoldsRuns, DistinctIds;
    var collected := CollectReports(batch, completed, inbox);
    if collected.Failure? {
      return Failure(collected.error), sent;
    }
    var view := collected.value.view;
    var settled := SettleBatch(batch, view.completed, view.serverErrors, keep, ledger);
    if settled.Failure? {
      return Failure(settled.error), sent;
    }
    r := Success(BatchDone(settled.value, collected.value.unread));
  }

  method SendBatch(batch: seq<BatchEntry>) returns (sent: seq<Message>)
    ensures sent == Script(batch)
    ensures |sent| == |batch| + 1 && sent[|batch|] == BatchEnd
    ensures forall i :: 0 <= i < |batch| ==>
      var e := batch[i];
      sent[i] == Test(e.id, e.testName, e.transportStr, e.port, if e.direction == ClientToServer then "->" else "<-")
  {
    sent := [];
    for i := 0 to |batch|
      invariant sent == Script(batch)[..i]
    {
      sent := sent + [ToTest(batch[i])];
    }
    sent := sent + [BatchEnd];
  }

  /** Reads reports until each expected one has come, in whatever order. */
  method CollectReports(batch: seq<BatchEntry>, completed: map<u32, ProtocolResult>, inbox: seq<Message>)
    returns (r: Result<Collected, SessionError>)
    ensures r == CollectAll(Collect(Ids(batch), completed, map[]), inbox)
  {
    var expected := Ids(batch);
    var merged: map<u32, ProtocolResult> := completed;
    var serverErrors: map<u32, string> := map[];
    var unread := inbox;
    while expected != {}
      invariant CollectAll(Collect(Ids(batch), completed, map[]), inbox) ==
                CollectAll(Collect(expected, merged, serverErrors), unread)
      decreases |unread|
    {
      if unread == [] {
        return Failure(ChannelClosed);
      }
      var m := unread[0];
      if !m.Report? {
        return Failure(ExpectedReport);
      }
      if m.id !in expected {
        return Failure(UnexpectedReportId(m.id));
      }
      expected := expected - {m.id};
      if m.error.Some? {
        if m.id !in merged {
          return Failure(MissingLocalResult(m.id));
        }
        var local := merged[m.id];
        if local.Pass? {
          merged := merged[m.id :=
            if m.sent.None? && m.received.None? then Error("server: " + m.error.value)
            else Fail("server: " + m.error.value, local.sentBytes, local.receivedBytes)];
        }
        assert merged == merged[m.id := merged[m.id]];
        serverErrors := serverErrors[m.id := m.error.value];
      }
      unread := unread[1..];
    }
    r := Success(Collected(Collect(expected, merged, serverErrors), unread));
  }

  /** Takes each result out of the maps in batch order, counts it and records it. */
  method SettleBatch(batch: seq<BatchEntry>, completed: map<u32, ProtocolResult>, serverErrors: map<u32, string>,
                     keep: bool, ledger0: Ledger)
    returns (r: Result<Ledger, SessionError>)
    ensures r == Settle(batch, completed, serverErrors, keep, ledger0)
  {
    var ledger := ledger0;
    var left: map<u32, ProtocolResult> := completed;
    var leftErrors: map<u32, string> := serverErrors;
    for i := 0 to |batch|
      invariant Settle(batch, completed, serverErrors, keep, ledger0) == Settle(batch[i..], left, leftErrors, keep, ledger)
    {
      var e := batch[i];
      assert batch[i..][0] == e && batch[i..][1..] == batch[i + 1..];
      if e.id !in left {
        return Failure(MissingLocalResult(e.id));
      }
      ledger := Record(ledger, keep, ToResult(e, left[e.id], Lookup(leftErrors, e.id)));
      left, leftErrors := left - {e.id}, leftErrors - {e.id};
    }
    r := Success(ledger);
  }

  /** Runs every test of the batch; which one finishes next is not known. */
  method RunLocally(batch: seq<BatchEntry>, runs: nat -> ProtocolResult) returns (completed: map<u32, ProtocolResult>)
    requires DistinctIds(batch)
    ensures HoldsRuns(completed, batch, runs)
  {
    completed := map[];
    var running := Upto(|batch|);
    while running != {}
      invariant running <= Upto(|batch|)
      invariant forall p: nat :: p < |batch| && p !in running ==>
        batch[p].id in completed && completed[batch[p].id] == runs(p)
      invariant completed.Keys <= Ids(batch)
      decreases |running|
    {
      var p :| p in running;
      completed := completed[batch[p].id := runs(p)];
      running := running - {p};
    }
    assert completed.Keys == Ids(batch);
  }

  // ----- which report sequences are accepted -----

  /** One report for each expected test, in any order. */
  ghost predicate Answers(expected: set<u32>, reports: seq<Message>) {
    && |reports| == |expected|
    && (forall k :: 0 <= k < |reports| ==> reports[k].Report? && reports[k].id in expected)
    && forall k, l :: 0 <= k < l < |reports| ==> reports[k].id != reports[l].id
  }

  /** What a report says about one test, folded into the view. */
  ghost predicate Folded(before: Collect, after: Collect, m: Message)
    requires m.Report?
  {
    && m.id in before.completed && m.id in after.completed
    && after.completed[m.id] == ApplyReport(before.completed[m.id], m)
    && Lookup(after.serverErrors, m.id) == (if m.error.Some? then m.error else Lookup(before.serverErrors, m.id))
  }

  lemma {:induction false} AnswersFirst(expected: set<u32>, reports: seq<Message>)
    requires reports != []
    ensures var m := reports[0];
            Answers(expected, reports) <==>
            m.Report? && m.id in expected && Answers(expected - {m.id}, reports[1..])
  {
    var m := reports[0];
    var rest := reports[1..];
    assert forall k :: 0 <= k < |rest| ==> rest[k] == reports[k + 1];
    assert forall k :: 1 <= k < |reports| ==> reports[k] == rest[k - 1];
  }

  /** Collection succeeds exactly on a permutation of the expected identifiers, and reads no further. */
  lemma {:induction false} CollectExact(c: Collect, inbox: seq<Message>)
    requires c.expected <= c.completed.Keys
    ensures var r := CollectAll(c, inbox);
            var n := |c.expected|;
            && (r.Success? <==> n <= |inbox| && Answers(c.expected, inbox[..n]))
            && (r.Success? ==> r.value.unread == inbox[n..])
    decreases |inbox|
  {
    var n := |c.expected|;
    if c.expected != {} && inbox != [] {
      var m := inbox[0];
      var step := OnReport(c, m);
      if n <= |inbox| {
        AnswersFirst(c.expected, inbox[..n]);
        assert inbox[..n][1..] == inbox[1..][..n - 1];
      }
      if step.Success? {
        assert step.value.expected == c.expected - {m.id};
        CollectExact(step.value, inbox[1..]);
      }
    }
  }

  /** What collection fails for: the first message that is not a report of its own for an expected test. */
  ghost predicate RejectedFor(expected: set<u32>, inbox: seq<Message>, error: SessionError, k: nat) {
    && k <= |inbox| && k < |expected|
    && (forall i :: 0 <= i < k ==> inbox[i].Report? && inbox[i].id in expected)
    && (forall i, j :: 0 <= i < j < k ==> inbox[i].id != inbox[j].id)
    && if k == |inbox| then error == ChannelClosed
       else if !inbox[k].Report? then error == ExpectedReport
       else
         && (inbox[k].id in expected ==> exists i :: 0 <= i < k && inbox[i].id == inbox[k].id)
         && error == UnexpectedReportId(inbox[k].id)
  }

  lemma {:induction false} CollectFails(c: Collect, inbox: seq<Message>) returns (k: nat)
    requires c.expected <= c.completed.Keys && CollectAll(c, inbox).Failure?
    ensures RejectedFor(c.expected, inbox, CollectAll(c, inbox).error, k)
    decreases |inbox|
  {
    k := 0;
    assert |c.expected| > 0;
    if inbox != [] && OnReport(c, inbox[0]).Success? {
      var next := OnReport(c, inbox[0]).value;
      assert next.expected == c.expected - {inbox[0].id};
      var rest := CollectFails(next, inbox[1..]);
      k := rest + 1;
      RejectedLater(c.expected, inbox, CollectAll(c, inbox).error, rest);
    }
  }

  lemma {:induction false} RejectedLater(expected: set<u32>, inbox: seq<Message>, error: SessionError, k: nat)
    requires inbox != [] && inbox[0].Report? && inbox[0].id in expected
    requires RejectedFor(expected - {inbox[0].id}, inbox[1..], error, k)
    ensures RejectedFor(expected, inbox, error, k + 1)
  {
    assert |expected - {inbox[0].id}| == |expected| - 1;
    assert forall i :: 0 < i < |inbox| ==> inbox[i] == inbox[1..][i - 1];
  }

  /** Nothing a report says about other tests touches a test. */
  lemma {:induction false} CollectKeeps(c: Collect, inbox: seq<Message>, id: u32)
    requires CollectAll(c, inbox).Success? && id !in c.expected
    ensures var after := CollectAll(c, inbox).value.view;
            && after.completed.Keys == c.completed.Keys
            && (id in c.completed ==> after.completed[id] == c.completed[id])
            && Lookup(after.serverErrors, id) == Lookup(c.serverErrors, id)
    decreases |inbox|
  {
    if c.expected != {} {
      CollectKeeps(OnReport(c, inbox[0]).value, inbox[1..], id);
    }
  }

  /** Each test ends with its own local result and its own report folded together. */
  lemma {:induction false} CollectFolds(c: Collect, inbox: seq<Message>, k: nat)
    requires CollectAll(c, inbox).Success? && c.expected <= c.completed.Keys && k < |c.expected|
    ensures k < |inbox| && inbox[k].Report? && inbox[k].id in c.expected
    ensures Folded(c, CollectAll(c, inbox).value.view, inbox[k])
    decreases |inbox|
  {
    var m := inbox[0];
    var next := OnReport(c, m).value;
    assert |next.expected| == |c.expected| - 1;
    if k == 0 {
      CollectKeeps(next, inbox[1..], m.id);
    } else {
      CollectFolds(next, inbox[1..], k - 1);
    }
  }

  /** Two arrival orders of the same reports leave the same view behind. */
  lemma {:induction false} CollectOrder(c: Collect, inbox: seq<Message>, inbox': seq<Message>)
    requires c.expected <= c.completed.Keys
    requires |c.expected| <= |inbox| && |c.expected| <= |inbox'|
    requires multiset(inbox[..|c.expected|]) == multiset(inbox'[..|c.expected|])
    requires CollectAll(c, inbox).Success?
    ensures CollectAll(c, inbox').Success?
    ensures CollectAll(c, inbox').value.view == CollectAll(c, inbox).value.view
  {
    var n := |c.expected|;
    var first, second := inbox[..n], inbox'[..n];
    CollectExact(c, inbox);
    CollectExact(c, inbox');
    AnswersPermuted(c.expected, first, second);
    var a, b := CollectAll(c, inbox).value.view, CollectAll(c, inbox').value.view;
    CollectDomain(c, inbox);
    CollectDomain(c, inbox');
    forall id | id in c.completed
      ensures a.completed[id] == b.completed[id] && Lookup(a.serverErrors, id) == Lookup(b.serverErrors, id)
    {
      if id in c.expected {
        var k := FindReport(c.expected, first, id);
        assert first[k] in multiset(second);
        var l :| 0 <= l < n && second[l] == first[k];
        CollectFolds(c, inbox, k);
        CollectFolds(c, inbox', l);
      } else {
        CollectKeeps(c, inbox, id);
        CollectKeeps(c, inbox', id);
      }
    }
    forall id: u32 | id !in c.completed
      ensures Lookup(a.serverErrors, id) == Lookup(b.serverErrors, id)
    {
      CollectKeeps(c, inbox, id);
      CollectKeeps(c, inbox', id);
    }
    SameLookup(a.serverErrors, b.serverErrors);
    assert a.completed == b.completed;
  }

  lemma {:induction false} CollectDomain(c: Collect, inbox: seq<Message>)
    requires CollectAll(c, inbox).Success?
    ensures CollectAll(c, inbox).value.view.completed.Keys == c.completed.Keys
    ensures CollectAll(c, inbox).value.view.expected == {}
    decreases |inbox|
  {
    if c.expected != {} {
      CollectDomain(OnReport(c, inbox[0]).value, inbox[1..]);
    }
  }

  lemma {:induction false} SameLookup(a: map<u32, string>, b: map<u32, string>)
    requires forall id: u32 :: Lookup(a, id) == Lookup(b, id)
    ensures a == b
  {
    forall id: u32
      ensures id in a <==> id in b
      ensures id in a ==> a[id] == b[id]
    {
      assert Lookup(a, id) == Lookup(b, id);
    }
  }

  lemma {:induction false} FindReport(expected: set<u32>, reports: seq<Message>, id: u32) returns (k: nat)
    requires Answers(expected, reports) && id in expected
    ensures k < |reports| && reports[k].id == id
  {
    AnswersFirst(expected, reports);
    if reports[0].id == id {
      k := 0;
    } else {
      k := FindReport(expected - {reports[0].id}, reports[1..], id);
      k := k + 1;
    }
  }

  lemma {:induction false} AnswersPermuted(expected: set<u32>, a: seq<Message>, b: seq<Message>)
    requires Answers(expected, a) && multiset(a) == multiset(b)
    ensures Answers(expected, b)
  {
    assert |a| == |multiset(a)| == |b|;
    forall k | 0 <= k < |b|
      ensures b[k] in a
    {
      assert b[k] in multiset(b);
      assert b[k] in multiset(a);
    }
    assert forall k :: 0 <= k < |b| ==> b[k].Report? && b[k].id in expected;
    forall k, l | 0 <= k < l < |b|
      ensures b[k].id != b[l].id
    {
      if b[k].id == b[l].id {
        var i :| 0 <= i < |a| && a[i] == b[k];
        var j :| 0 <= j < |a| && a[j] == b[l];
        assert i == j;
        Twice(b, k, l);
        Once(a, i);
        assert false;
      }
    }
  }

  lemma {:induction false} Twice<T>(s: seq<T>, k: nat, l: nat)
    requires k < l < |s| && s[k] == s[l]
    ensures multiset(s)[s[k]] >= 2
  {
    assert s == s[..l] + s[l..];
    assert s[k] in s[..l] && s[l] == s[l..][0];
    assert s[k] in multiset(s[..l]) && s[k] in multiset(s[l..]);
  }

  lemma {:induction false} Once<T>(s: seq<T>, i: nat)
    requires i < |s| && forall j :: 0 <= j < |s| && j != i ==> s[j] != s[i]
    ensures multiset(s)[s[i]] == 1
  {
    assert s == s[..i] + [s[i]] + s[i + 1..];
    assert s[i] !in s[..i] && s[i] !in s[i + 1..];
    assert s[i] !in multiset(s[..i]) && s[i] !in multiset(s[i + 1..]);
  }

  // ----- settling -----

  function Settled(batch: seq<BatchEntry>, completed: map<u32, ProtocolResult>, serverErrors: map<u32, string>,
                   keep: bool, ledger: Ledger): Ledger
    requires forall e <- batch :: e.id in completed
  {
    if batch == [] then ledger
    else
      var e := batch[0];
      Settled(batch[1..], completed, serverErrors, keep,
              Record(ledger, keep, ToResult(e, completed[e.id], Lookup(serverErrors, e.id))))
  }

  /** Removing each result as it is used loses nothing as long as identifiers are distinct. */
  lemma {:induction false} SettleExact(batch: seq<BatchEntry>, completed: map<u32, ProtocolResult>,
                                       serverErrors: map<u32, string>, left: map<u32, ProtocolResult>,
                                       leftErrors: map<u32, string>, keep: bool, ledger: Ledger)
    requires DistinctIds(batch)
    requires forall e <- batch :: e.id in completed && e.id in left && left[e.id] == completed[e.id]
    requires forall e <- batch :: Lookup(leftErrors, e.id) == Lookup(serverErrors, e.id)
    ensures Settle(batch, left, leftErrors, keep, ledger) ==
            Success(Settled(batch, completed, serverErrors, keep, ledger))
  {
    if batch == [] {
    } else {
      var e := batch[0];
      SettleExact(batch[1..], completed, serverErrors, left - {e.id}, leftErrors - {e.id}, keep,
                  Record(ledger, keep, ToResult(e, completed[e.id], Lookup(serverErrors, e.id))));
    }
  }

  /** A batch is reconciled exactly when the inbox starts with one report per test, in any order, and
      then nothing beyond them is read. */
  lemma {:induction false} ReconcileExact(batch: seq<BatchEntry>, runs: nat -> ProtocolResult, completed: map<u32, ProtocolResult>,
                                          inbox: seq<Message>, keep: bool, ledger: Ledger)
    requires DistinctIds(batch) && HoldsRuns(completed, batch, runs)
    ensures var r := Reconcile(batch, completed, inbox, keep, ledger);
            && (r.Success? <==> |batch| <= |inbox| && Answers(Ids(batch), inbox[..|batch|]))
            && (r.Success? ==> r.value.unread == inbox[|batch|..])
  {
    CountIds(batch);
    var c := Collect(Ids(batch), completed, map[]);
    CollectExact(c, inbox);
    if CollectAll(c, inbox).Success? {
      CollectDomain(c, inbox);
      var view := CollectAll(c, inbox).value.view;
      hide CollectAll, Answers;
      SettleExact(batch, view.completed, view.serverErrors, view.completed, view.serverErrors, keep, ledger);
    }
  }

  /** Once every local test has ended a batch fails only for what collection fails for. */
  lemma {:induction false} ReconcileFails(batch: seq<BatchEntry>, runs: nat -> ProtocolResult, completed: map<u32, ProtocolResult>,
                                          inbox: seq<Message>, keep: bool, ledger: Ledger) returns (k: nat)
    requires DistinctIds(batch) && HoldsRuns(completed, batch, runs)
    requires Reconcile(batch, completed, inbox, keep, ledger).Failure?
    ensures RejectedFor(Ids(batch), inbox, Reconcile(batch, completed, inbox, keep, ledger).error, k)
  {
    var c := Collect(Ids(batch), completed, map[]);
    if CollectAll(c, inbox).Success? {
      CollectDomain(c, inbox);
      var view := CollectAll(c, inbox).value.view;
      hide CollectAll;
      SettleExact(batch, view.completed, view.serverErrors, view.completed, view.serverErrors, keep, ledger);
      assert false;
    } else {
      k := CollectFails(c, inbox);
      hide CollectAll, RejectedFor, Settle;
    }
  }

  /** A batch is reconciled exactly when the server's first messages are one report per test;
      then neither the order in which local tests finish nor the order in which reports arrive
      shows in the ledger. */
  lemma {:induction false} ReconcileOrder(batch: seq<BatchEntry>, runs: nat -> ProtocolResult,
                       completed: map<u32, ProtocolResult>, completed': map<u32, ProtocolResult>,
                       inbox: seq<Message>, inbox': seq<Message>, keep: bool, ledger: Ledger)
    requires DistinctIds(batch) && HoldsRuns(completed, batch, runs) && HoldsRuns(completed', batch, runs)
    requires |batch| <= |inbox| && |batch| <= |inbox'|
    requires multiset(inbox[..|batch|]) == multiset(inbox'[..|batch|])
    ensures var r := Reconcile(batch, completed, inbox, keep, ledger);
            var r' := Reconcile(batch, completed', inbox', keep, ledger);
            && (r.Success? <==> Answers(Ids(batch), inbox[..|batch|]))
            && (r.Success? ==> r'.Success? && r.value.ledger == r'.value.ledger)
            && (r.Success? ==> r.value.unread == inbox[|batch|..])
  {
    SameRuns(completed, completed', batch, runs);
    CountIds(batch);
    var c := Collect(Ids(batch), completed, map[]);
    CollectExact(c, inbox);
    if CollectAll(c, inbox).Success? {
      CollectOrder(c, inbox, inbox');
      CollectDomain(c, inbox);
      var view := CollectAll(c, inbox).value.view;
      SettleExact(batch, view.completed, view.serverErrors, view.completed, view.serverErrors, keep, ledger);
    }
  }

  lemma {:induction false} SameRuns(a: map<u32, ProtocolResult>, b: map<u32, ProtocolResult>, batch: seq<BatchEntry>, runs: nat -> ProtocolResult)
    requires HoldsRuns(a, batch, runs) && HoldsRuns(b, batch, runs)
    ensures a == b
  {
    forall id | id in a
      ensures a[id] == b[id]
    {
      var p: nat :| p < |batch| && batch[p].id == id;
    }
  }

  lemma {:induction false} CountIds(batch: seq<BatchEntry>)
    requires DistinctIds(batch)
    ensures |Ids(batch)| == |batch|
  {
    if batch == [] {
    } else {
      CountIds(batch[1..]);
      assert Ids(batch) == Ids(batch[1..]) + {batch[0].id};
    }
  }
}
