/** The two programs as sequential code: each reads its inbox in order and runs its tests in an
    order it does not control. */
module Endpoints {
  import opened Messages
  import opened Schedule
  import opened ClientBatch
  import opened ServerBatch
  import opened Session
  import PortText
  import opened PlanShape

  // ----- the server -----

  /** The summary a server arrives at from its inbox, or the error that ends the session.
      `runs(i)` is what its half of the i-th test returns. */
  function ServeAll(server: ServerSetup, parallel: nat, bindAddr: Option<SocketAddr>, runs: nat -> ProtocolResult,
                    served: nat, inbox: seq<Message>): Result<Summary, SessionError>
    decreases |inbox|
  {
    var g := GatherAll(server, parallel, bindAddr, [], inbox);
    if g.Failure? then Failure(g.error)
    else if g.value.batch == [] then Success(Count(runs, 0, {}, served).Wrapped())
    else
      var next := served + |g.value.batch|;
      if g.value.doneAfter then Success(Count(runs, 0, {}, next).Wrapped())
      else ServeAll(server, parallel, bindAddr, runs, next, g.value.unread)
  }

  function ServerOutcome(server: ServerSetup, runs: nat -> ProtocolResult, inbox: seq<Message>): Result<Summary, SessionError> {
    if inbox == [] then Failure(ChannelClosed)
    else if !inbox[0].Configure? then Failure(ExpectedConfigure)
    else if inbox[0].clientVersion != PROTOCOL_VERSION then Failure(VersionMismatch)
    else
      var target := inbox[0].target;
      var bindAddr := if target.Some? then ParseBind(server, target.value) else None;
      ServeAll(server, Max(1, inbox[0].parallel), bindAddr, runs, 0, inbox[1..])
  }

  /** The results of the tests numbered from `from`. */
  function Shift(runs: nat -> ProtocolResult, from: nat): nat -> ProtocolResult {
    (p: nat) => runs(from + p)
  }

  lemma {:induction false} CountShift(runs: nat -> ProtocolResult, from: nat, n: nat)
    ensures Count(runs, 0, {}, from).Plus(Count(Shift(runs, from), 0, {}, n)) == Count(runs, 0, {}, from + n)
  {
    hide *;
    if n == 0 {
      NothingBefore(runs, from);
    } else {
      CountShift(runs, from, n - 1);
      CountNext(Shift(runs, from), n - 1);
      CountNext(runs, from + n - 1);
      ShiftAt(runs, from, n - 1);
      PlusAdd(Count(runs, 0, {}, from), Count(Shift(runs, from), 0, {}, n - 1), runs(from + n - 1));
    }
  }

  lemma {:induction false} CountNext(f: nat -> ProtocolResult, n: nat)
    ensures Count(f, 0, {}, n + 1) == Count(f, 0, {}, n).Add(f(n))
  {
  }

  lemma {:induction false} NothingBefore(runs: nat -> ProtocolResult, from: nat)
    ensures Count(runs, 0, {}, from).Plus(Count(Shift(runs, from), 0, {}, 0)) == Count(runs, 0, {}, from)
  {
    assert Count(Shift(runs, from), 0, {}, 0) == Tally(0, 0, 0);
    hide Count;
  }

  lemma {:induction false} ShiftAt(runs: nat -> ProtocolResult, from: nat, p: nat)
    ensures Shift(runs, from)(p) == runs(from + p)
  {
  }

  lemma {:induction false} PlusAdd(t: Tally, u: Tally, r: ProtocolResult)
    ensures t.Plus(u.Add(r)) == t.Plus(u).Add(r)
  {
  }

  lemma {:induction false} ServeNext(server: ServerSetup, parallel: nat, bindAddr: Option<SocketAddr>,
                                     runs: nat -> ProtocolResult, served: nat, inbox: seq<Message>)
    ensures var g := GatherAll(server, parallel, bindAddr, [], inbox);
            ServeAll(server, parallel, bindAddr, runs, served, inbox) ==
            if g.Failure? then Failure(g.error)
            else if g.value.batch == [] then Success(Count(runs, 0, {}, served).Wrapped())
            else if g.value.doneAfter then Success(Count(runs, 0, {}, served + |g.value.batch|).Wrapped())
            else ServeAll(server, parallel, bindAddr, runs, served + |g.value.batch|, g.value.unread)
  {
    hide GatherAll, Count;
  }

  // What a server reports.

  /** Every number below `n` once. */
  ghost predicate IsOrder(order: seq<nat>, n: nat) {
    && |order| == n && (forall k :: 0 <= k < n ==> order[k] < n)
    && forall k, l :: 0 <= k < l < n ==> order[k] != order[l]
  }

  /** One report for each test of the batch, with its own result, in the order in which they end. */
  ghost predicate ReportsInOrder(batch: seq<ServerEntry>, runs: nat -> ProtocolResult, order: seq<nat>, reports: seq<Message>) {
    && IsOrder(order, |batch|) && |reports| == |batch|
    && forall k :: 0 <= k < |batch| ==> Tells(reports[k], batch[order[k]].id, runs(order[k]))
  }

  ghost predicate ReportsBatch(batch: seq<ServerEntry>, runs: nat -> ProtocolResult, reports: seq<Message>) {
    exists order: seq<nat> :: ReportsInOrder(batch, runs, order, reports)
  }

  /** The reports of a session: batch after batch as they are gathered from the inbox, each test of
      a batch once, in some order. */
  ghost predicate ReportsAll(server: ServerSetup, parallel: nat, bindAddr: Option<SocketAddr>, runs: nat -> ProtocolResult,
                             served: nat, inbox: seq<Message>, reports: seq<Message>)
    decreases |inbox|
  {
    var g := GatherAll(server, parallel, bindAddr, [], inbox);
    if g.Failure? || g.value.batch == [] then reports == []
    else
      var n := |g.value.batch|;
      && n <= |reports| && ReportsBatch(g.value.batch, Shift(runs, served), reports[..n])
      && (if g.value.doneAfter then reports[n..] == []
          else ReportsAll(server, parallel, bindAddr, runs, served + n, g.value.unread, reports[n..]))
  }

  lemma {:induction false} ReportsNext(server: ServerSetup, parallel: nat, bindAddr: Option<SocketAddr>,
                                       runs: nat -> ProtocolResult, served: nat, inbox: seq<Message>,
                                       more: seq<Message>, tail: seq<Message>)
    requires var g := GatherAll(server, parallel, bindAddr, [], inbox);
             if g.Failure? || g.value.batch == [] then more == tail == []
             else
               && |more| == |g.value.batch| && ReportsBatch(g.value.batch, Shift(runs, served), more)
               && (if g.value.doneAfter then tail == []
                   else ReportsAll(server, parallel, bindAddr, runs, served + |more|, g.value.unread, tail))
    ensures ReportsAll(server, parallel, bindAddr, runs, served, inbox, more + tail)
  {
    hide GatherAll, ReportsBatch;
    assert (more + tail)[..|more|] == more && (more + tail)[|more|..] == tail;
  }

  lemma {:induction false} ReportsGiven(batch: seq<ServerEntry>, runs: nat -> ProtocolResult, order: seq<nat>, reports: seq<Message>)
    requires |order| == |reports| == |batch|
    requires forall k, l :: 0 <= k < l < |order| ==> order[k] != order[l]
    requires forall k :: 0 <= k < |order| ==>
      order[k] < |batch| && Tells(reports[k], batch[order[k]].id, runs(order[k]))
    ensures ReportsBatch(batch, runs, reports)
  {
    assert ReportsInOrder(batch, runs, order, reports);
  }

  /** One round of the server's main loop, on the tests numbered from `served`. */
  method ServeOne(server: ServerSetup, parallel: nat, bindAddr: Option<SocketAddr>, runs: nat -> ProtocolResult,
                  served: nat, inbox: seq<Message>, counters0: Summary)
    returns (g: Result<Gathered, SessionError>, counters: Summary, reports: seq<Message>)
    requires counters0 == Count(runs, 0, {}, served).Wrapped()
    ensures g == GatherAll(server, parallel, bindAddr, [], inbox)
    ensures g.Success? ==>
      |g.value.unread| < |inbox| && counters == Count(runs, 0, {}, served + |g.value.batch|).Wrapped()
    ensures if g.Failure? || g.value.batch == [] then reports == []
            else |reports| == |g.value.batch| && ReportsBatch(g.value.batch, Shift(runs, served), reports)
    ensures ServeAll(server, parallel, bindAddr, runs, served, inbox) ==
            if g.Failure? then Failure(g.error)
            else if g.value.batch == [] || g.value.doneAfter then Success(counters)
            else ServeAll(server, parallel, bindAddr, runs, served + |g.value.batch|, g.value.unread)
  {
    hide *;
    ServeNext(server, parallel, bindAddr, runs, served, inbox);
    g := GatherBatch(server, parallel, bindAddr, inbox);
    counters, reports := counters0, [];
    if g.Success? && g.value.batch != [] {
      ghost var order: seq<nat>;
      counters, reports, order :=
        ServeBatch(g.value.batch, Shift(runs, served), counters0, Count(runs, 0, {}, served));
      ReportsGiven(g.value.batch, Shift(runs, served), order, reports);
      CountShift(runs, served, |g.value.batch|);
    }
  }

  /** Whatever completes the reports of the rest of the inbox completes those of the whole. */
  ghost predicate Completes(server: ServerSetup, parallel: nat, bindAddr: Option<SocketAddr>, runs: nat -> ProtocolResult,
                            inbox: seq<Message>, reports: seq<Message>, served: nat, unread: seq<Message>) {
    forall tail | ReportsAll(server, parallel, bindAddr, runs, served, unread, tail) ::
      ReportsAll(server, parallel, bindAddr, runs, 0, inbox, reports + tail)
  }

  lemma {:induction false} CompletesNext(server: ServerSetup, parallel: nat, bindAddr: Option<SocketAddr>, runs: nat -> ProtocolResult,
                                         inbox: seq<Message>, reports: seq<Message>, served: nat, unread: seq<Message>,
                                         more: seq<Message>)
    requires Completes(server, parallel, bindAddr, runs, inbox, reports, served, unread)
    requires var g := GatherAll(server, parallel, bindAddr, [], unread);
             if g.Failure? || g.value.batch == [] then more == []
             else |more| == |g.value.batch| && ReportsBatch(g.value.batch, Shift(runs, served), more)
    ensures var g := GatherAll(server, parallel, bindAddr, [], unread);
            if g.Failure? || g.value.batch == [] || g.value.doneAfter then
              ReportsAll(server, parallel, bindAddr, runs, 0, inbox, reports + more)
            else
              Completes(server, parallel, bindAddr, runs, inbox, reports + more, served + |more|, g.value.unread)
  {
    hide GatherAll, ReportsBatch, ReportsAll;
    var g := GatherAll(server, parallel, bindAddr, [], unread);
    if g.Failure? || g.value.batch == [] || g.value.doneAfter {
      ReportsNext(server, parallel, bindAddr, runs, served, unread, more, []);
      assert more + [] == more;
    } else {
      forall tail | ReportsAll(server, parallel, bindAddr, runs, served + |more|, g.value.unread, tail)
        ensures ReportsAll(server, parallel, bindAddr, runs, 0, inbox, reports + more + tail)
      {
        ReportsNext(server, parallel, bindAddr, runs, served, unread, more, tail);
        SeqAssoc(reports, more, tail);
      }
    }
  }

  lemma {:induction false} CompletesFirst(server: ServerSetup, parallel: nat, bindAddr: Option<SocketAddr>, runs: nat -> ProtocolResult,
                                          inbox: seq<Message>)
    ensures Completes(server, parallel, bindAddr, runs, inbox, [], 0, inbox)
  {
    hide ReportsAll;
    forall tail: seq<Message>
      ensures [] + tail == tail
    {
    }
  }

  /** The server's main loop: batch after batch until `Done`, in whatever order tests end. */
  method ServeBatches(server: ServerSetup, parallel: nat, bindAddr: Option<SocketAddr>, runs: nat -> ProtocolResult,
                      inbox: seq<Message>)
    returns (r: Result<Summary, SessionError>, reports: seq<Message>)
    ensures r == ServeAll(server, parallel, bindAddr, runs, 0, inbox)
    ensures ReportsAll(server, parallel, bindAddr, runs, 0, inbox, reports)
  {
    hide *;
    reports := [];
    var counters, unread := NO_COUNTS, inbox;
    var served: nat := 0;
    NothingCounted(runs);
    CompletesFirst(server, parallel, bindAddr, runs, inbox);
    while true
      invariant counters == Count(runs, 0, {}, served).Wrapped()
      invariant ServeAll(server, parallel, bindAddr, runs, 0, inbox) ==
                ServeAll(server, parallel, bindAddr, runs, served, unread)
      invariant Completes(server, parallel, bindAddr, runs, inbox, reports, served, unread)
      decreases |unread|
    {
      var g, after, more := ServeOne(server, parallel, bindAddr, runs, served, unread, counters);
      CompletesNext(server, parallel, bindAddr, runs, inbox, reports, served, unread, more);
      reports := reports + more;
      if g.Failure? {
        return Failure(g.error), reports;
      }
      counters := after;
      if g.value.batch == [] || g.value.doneAfter {
        return Success(counters), reports;
      }
      served := served + |g.value.batch|;
      unread := g.value.unread;
    }
  }

  lemma {:induction false} NothingCounted(runs: nat -> ProtocolResult)
    ensures NO_COUNTS == Count(runs, 0, {}, 0).Wrapped()
  {
  }

  lemma {:induction false} VersionRefused()
    ensures forall version: u32 ::
      VersionComplaint(version) ==
      "client protocol version " + PortText.ToString(version) + " does not match server version 3"
  {
    assert PortText.ToString(3) == "3";
    hide PortText.ToString;
    forall version: u32
      ensures VersionComplaint(version) ==
              "client protocol version " + PortText.ToString(version) + " does not match server version 3"
    {
      assert " does not match server version " + "3" == " does not match server version 3";
    }
  }

  /** The summary of a session is the one its inbox determines. A session that gets past its
      configuration sends an acceptance, then for each batch one report a test in the order in which
      they end, and, if it succeeds, that summary. */
  method RunServer(server: ServerSetup, runs: nat -> ProtocolResult, inbox: seq<Message>)
    returns (r: Result<Summary, SessionError>, sent: seq<Message>, ghost reports: seq<Message>)
    ensures r == ServerOutcome(server, runs, inbox)
    ensures r.Failure? ==>
      if inbox == [] then r.error == ChannelClosed
      else if !inbox[0].Configure? then r.error == ExpectedConfigure
      else if inbox[0].clientVersion != 3 then r.error == VersionMismatch
      else
        var bindAddr := if inbox[0].target.Some? then ParseBind(server, inbox[0].target.value) else None;
        ServeRefused(server, if inbox[0].parallel == 0 then 1 else inbox[0].parallel, bindAddr, inbox[1..], r.error)
    ensures if inbox == [] || !inbox[0].Configure? then sent == []
            else if inbox[0].clientVersion != 3 then
              sent == [Ack(false, Some("client protocol version " + PortText.ToString(inbox[0].clientVersion)
                                       + " does not match server version 3"))]
            else
              var target := inbox[0].target;
              var bindAddr := if target.Some? then ParseBind(server, target.value) else None;
              && sent == [Ack(true, None)] + reports + (if r.Success? then [Bye(r.value)] else [])
              && ReportsAll(server, Max(1, inbox[0].parallel), bindAddr, runs, 0, inbox[1..], reports)
  {
    VersionRefused();
    hide ServeAll, ReportsAll, VersionComplaint, ServeRefused;
    sent, reports := [], [];
    if inbox == [] {
      return Failure(ChannelClosed), sent, reports;
    }
    if !inbox[0].Configure? {
      return Failure(ExpectedConfigure), sent, reports;
    }
    if inbox[0].clientVersion != PROTOCOL_VERSION {
      return Failure(VersionMismatch), [Ack(false, Some(VersionComplaint(inbox[0].clientVersion)))], reports;
    }
    var target := inbox[0].target;
    var bindAddr := if target.Some? then ParseBind(server, target.value) else None;
    sent := [Ack(true, None)];
    var reported: seq<Message>;
    r, reported := ServeBatches(server, Max(1, inbox[0].parallel), bindAddr, runs, inbox[1..]);
    if r.Failure? {
      ServeFails(server, Max(1, inbox[0].parallel), bindAddr, runs, 0, inbox[1..]);
    }
    reports := reported;
    sent := sent + reported;
    if r.Success? {
      sent := sent + [Bye(r.value)];
    }
  }

  // ----- which inboxes a server serves -----

  /** Batches of tests that are understood and fit the limit, none empty but perhaps the last, each closed by
      `BatchEnd` and the last by `Done`. */
  ghost predicate WellSent(server: ServerSetup, parallel: nat, bindAddr: Option<SocketAddr>, inbox: seq<Message>)
    decreases |inbox|
  {
    var k := TestsAhead(inbox);
    && k < |inbox| && k <= parallel
    && (forall i :: 0 <= i < k ==> Decode(server, bindAddr, inbox[i]).Success?)
    && (inbox[k] == Done || (inbox[k] == BatchEnd && k > 0 && WellSent(server, parallel, bindAddr, inbox[k + 1..])))
  }

  /** The tests before `Done`. */
  function TestsSent(inbox: seq<Message>): nat
    decreases |inbox|
  {
    var k := TestsAhead(inbox);
    if k < |inbox| && inbox[k] == BatchEnd then k + TestsSent(inbox[k + 1..]) else k
  }

  lemma {:induction false} WellSentAhead(server: ServerSetup, parallel: nat, bindAddr: Option<SocketAddr>, inbox: seq<Message>)
    ensures var k := TestsAhead(inbox);
            WellSent(server, parallel, bindAddr, inbox) <==>
            Acceptable(server, parallel, bindAddr, 0, inbox)
            && (inbox[k] == Done || WellSent(server, parallel, bindAddr, inbox[k + 1..]))
  {
    hide Decode;
  }

  lemma {:induction false} TestsSentAhead(inbox: seq<Message>)
    ensures var k := TestsAhead(inbox);
            TestsSent(inbox) == k + if k < |inbox| && inbox[k] == BatchEnd then TestsSent(inbox[k + 1..]) else 0
  {
  }

  /** How gathering takes such an inbox apart. */
  lemma {:induction false} WellSentNext(server: ServerSetup, parallel: nat, bindAddr: Option<SocketAddr>, inbox: seq<Message>)
    ensures var g := GatherAll(server, parallel, bindAddr, [], inbox);
            && (WellSent(server, parallel, bindAddr, inbox) <==>
                  g.Success? && (g.value.doneAfter || WellSent(server, parallel, bindAddr, g.value.unread)))
            && (g.Success? ==>
                  && |g.value.unread| < |inbox| && (g.value.batch == [] ==> g.value.doneAfter)
                  && TestsSent(inbox) == |g.value.batch| + (if g.value.doneAfter then 0 else TestsSent(g.value.unread)))
  {
    hide *;
    GatherExact(server, parallel, bindAddr, [], inbox);
    WellSentAhead(server, parallel, bindAddr, inbox);
    TestsSentAhead(inbox);
    if GatherAll(server, parallel, bindAddr, [], inbox).Success? {
      GatherShape(server, parallel, bindAddr, [], inbox);
      AcceptableEnds(server, parallel, bindAddr, inbox);
    }
  }

  lemma {:induction false} ServesExactly(server: ServerSetup, parallel: nat, bindAddr: Option<SocketAddr>, runs: nat -> ProtocolResult,
                                         served: nat, inbox: seq<Message>)
    ensures var r := ServeAll(server, parallel, bindAddr, runs, served, inbox);
            && (r.Success? <==> WellSent(server, parallel, bindAddr, inbox))
            && (r.Success? ==> r.value == Count(runs, 0, {}, served + TestsSent(inbox)).Wrapped())
    decreases |inbox|
  {
    hide *;
    ServeNext(server, parallel, bindAddr, runs, served, inbox);
    WellSentNext(server, parallel, bindAddr, inbox);
    var g := GatherAll(server, parallel, bindAddr, [], inbox);
    if g.Success? && !g.value.doneAfter {
      ServesExactly(server, parallel, bindAddr, runs, served + |g.value.batch|, g.value.unread);
    }
  }

  /** What ends a session early after its configuration: behind the batches that are taken, the first message
      that has no place there. */
  ghost predicate ServeRefused(server: ServerSetup, parallel: nat, bindAddr: Option<SocketAddr>, inbox: seq<Message>, error: SessionError)
    decreases |inbox|
  {
    var k := TestsAhead(inbox);
    if 0 < k < |inbox| && inbox[k] == BatchEnd && Acceptable(server, parallel, bindAddr, 0, inbox) then
      ServeRefused(server, parallel, bindAddr, inbox[k + 1..], error)
    else
      exists l: nat :: RefusedFor(server, parallel, bindAddr, 0, inbox, error, l)
  }

  lemma {:induction false} ServeFails(server: ServerSetup, parallel: nat, bindAddr: Option<SocketAddr>, runs: nat -> ProtocolResult,
                                      served: nat, inbox: seq<Message>)
    requires ServeAll(server, parallel, bindAddr, runs, served, inbox).Failure?
    ensures ServeRefused(server, parallel, bindAddr, inbox, ServeAll(server, parallel, bindAddr, runs, served, inbox).error)
    decreases |inbox|
  {
    hide ServeAll, GatherAll, Acceptable, RefusedFor, Count, TestsAhead;
    ServeNext(server, parallel, bindAddr, runs, served, inbox);
    GatherExact(server, parallel, bindAddr, [], inbox);
    var g := GatherAll(server, parallel, bindAddr, [], inbox);
    if g.Success? {
      GatherShape(server, parallel, bindAddr, [], inbox);
      AcceptableEnds(server, parallel, bindAddr, inbox);
      ServeFails(server, parallel, bindAddr, runs, served + |g.value.batch|, g.value.unread);
    } else {
      var l := GatherFails(server, parallel, bindAddr, [], inbox);
    }
  }

  lemma {:induction false} AcceptableEnds(server: ServerSetup, parallel: nat, bindAddr: Option<SocketAddr>, inbox: seq<Message>)
    requires Acceptable(server, parallel, bindAddr, 0, inbox)
    ensures var k := TestsAhead(inbox); k < |inbox| && (inbox[k] == Done || (inbox[k] == BatchEnd && k > 0))
  {
  }

  /** A server succeeds exactly when it is sent a configuration of version 3 and then such batches, under the
      limit that the configuration gives (at least 1); its summary sums all tests before `Done`. */
  lemma {:induction false} ServerExactly(server: ServerSetup, runs: nat -> ProtocolResult, inbox: seq<Message>)
    ensures var r := ServerOutcome(server, runs, inbox);
            && (r.Success? <==>
                  && inbox != [] && inbox[0].Configure? && inbox[0].clientVersion == 3
                  && var bindAddr := if inbox[0].target.Some? then ParseBind(server, inbox[0].target.value) else None;
                  WellSent(server, if inbox[0].parallel == 0 then 1 else inbox[0].parallel, bindAddr, inbox[1..]))
            && (r.Success? ==> Sums(r.value, runs, TestsSent(inbox[1..])))
  {
    hide ServeAll, Count, WellSent, ParseBind, TestsSent, Sums;
    if inbox != [] && inbox[0].Configure? {
      var bindAddr := if inbox[0].target.Some? then ParseBind(server, inbox[0].target.value) else None;
      ServesExactly(server, Max(1, inbox[0].parallel), bindAddr, runs, 0, inbox[1..]);
      CountSums(runs, TestsSent(inbox[1..]));
    }
  }

  /** All a client sends for a plan. */
  function Scripts(plan: seq<seq<BatchEntry>>): seq<Message> {
    if plan == [] then [Done] else Script(plan[0]) + Scripts(plan[1..])
  }

  lemma {:induction false} TestsOfScript(batch: seq<BatchEntry>, from: nat, rest: seq<Message>)
    requires from <= |batch|
    ensures TestsAhead(Script(batch)[from..] + rest) == |batch| - from
    decreases |batch| - from
  {
    var inbox := Script(batch)[from..] + rest;
    assert inbox[0] == Script(batch)[from];
    if from < |batch| {
      TestsOfScript(batch, from + 1, rest);
      assert inbox[1..] == Script(batch)[from + 1..] + rest;
    }
  }

  lemma {:induction false} GatherScript(server: ServerSetup, parallel: nat, bindAddr: Option<SocketAddr>,
                                        batch: seq<BatchEntry>, rest: seq<Message>)
    requires GoodBatch(server.registry, parallel, batch)
    ensures var g := GatherAll(server, parallel, bindAddr, [], Script(batch) + rest);
            && g.Success? && |g.value.batch| == |batch| && !g.value.doneAfter && g.value.unread == rest
            && forall i :: 0 <= i < |batch| ==> Mirrors(server, bindAddr, batch[i], g.value.batch[i])
  {
    var inbox := Script(batch) + rest;
    assert inbox == Script(batch)[0..] + rest;
    TestsOfScript(batch, 0, rest);
    forall i | 0 <= i < |batch|
      ensures inbox[i] == ToTest(batch[i]) && Decode(server, bindAddr, inbox[i]).Success?
    {
      assert batch[i] in batch;
      MirrorIsOpposite(server, bindAddr, batch[i]);
    }
    GatherExact(server, parallel, bindAddr, [], inbox);
    GatherShape(server, parallel, bindAddr, [], inbox);
    assert inbox[|batch| + 1..] == rest;
    forall i | 0 <= i < |batch|
      ensures Mirrors(server, bindAddr, batch[i], GatherAll(server, parallel, bindAddr, [], inbox).value.batch[i])
    {
      GatherContents(server, parallel, bindAddr, [], inbox, i);
    }
  }

  lemma {:induction false} ServesScript(server: ServerSetup, parallel: nat, bindAddr: Option<SocketAddr>,
                                        runs: nat -> ProtocolResult, batch: seq<BatchEntry>, rest: seq<Message>, served: nat)
    requires GoodBatch(server.registry, parallel, batch)
    ensures ServeAll(server, parallel, bindAddr, runs, served, Script(batch) + rest) ==
            ServeAll(server, parallel, bindAddr, runs, served + |batch|, rest)
  {
    GatherScript(server, parallel, bindAddr, batch, rest);
    assert batch != [];
    hide GoodBatch, Mirrors, GatherAll, Count, Script;
  }

  lemma {:induction false} FlattenFirst(plan: seq<seq<BatchEntry>>)
    requires plan != []
    ensures |Flatten(plan)| == |plan[0]| + |Flatten(plan[1..])|
  {
    FlattenAppend([plan[0]], plan[1..]);
    assert plan == [plan[0]] + plan[1..];
    assert Flatten([plan[0]]) == plan[0];
  }

  /** A server that is sent a sound plan serves all of it and counts every test once. */
  lemma {:induction false} ServesPlan(server: ServerSetup, parallel: nat, bindAddr: Option<SocketAddr>, runs: nat -> ProtocolResult,
                                      plan: seq<seq<BatchEntry>>, served: nat)
    requires forall batch <- plan :: GoodBatch(server.registry, parallel, batch)
    ensures ServeAll(server, parallel, bindAddr, runs, served, Scripts(plan)) ==
            Success(Count(runs, 0, {}, served + |Flatten(plan)|).Wrapped())
    decreases |plan|
  {
    hide GoodBatch;
    if plan == [] {
      ServeNext(server, parallel, bindAddr, runs, served, [Done]);
      hide ServeAll, Count;
      assert GatherAll(server, parallel, bindAddr, [], [Done]) == Success(Gathered([], true, [Done][1..]));
    } else {
      hide ServeAll, Count, Script;
      assert plan[0] in plan;
      FlattenFirst(plan);
      ServesScript(server, parallel, bindAddr, runs, plan[0], Scripts(plan[1..]), served);
      ServesPlan(server, parallel, bindAddr, runs, plan[1..], served + |plan[0]|);
    }
  }

  // ----- the client -----

  /** What a client makes of its inbox once its configuration is accepted: batch by batch, then `Bye`. */
  function ScanAll(plan: seq<seq<BatchEntry>>, runs: nat -> ProtocolResult, first: nat, inbox: seq<Message>,
                   keep: bool, ledger: Ledger): Result<Ledger, SessionError>
    decreases |plan|
  {
    if plan == [] then
      if inbox == [] then Failure(ChannelClosed)
      else if inbox[0].Bye? then Success(ledger) else Failure(ExpectedBye)
    else
      var done := Reconcile(plan[0], RunsOf(plan[0], Shift(runs, first)), inbox, keep, ledger);
      if done.Failure? then Failure(done.error)
      else ScanAll(plan[1..], runs, first + |plan[0]|, done.value.unread, keep, done.value.ledger)
  }

  /** What a client sends once its configuration is accepted: the script of each batch it gets to, and
      `Done` if it gets through. */
  function ScanSends(plan: seq<seq<BatchEntry>>, runs: nat -> ProtocolResult, first: nat, inbox: seq<Message>,
                     keep: bool, ledger: Ledger): (sent: seq<Message>)
    ensures ScanAll(plan, runs, first, inbox, keep, ledger).Success? ==> sent == Scripts(plan)
    decreases |plan|
  {
    if plan == [] then [Done]
    else
      var done := Reconcile(plan[0], RunsOf(plan[0], Shift(runs, first)), inbox, keep, ledger);
      Script(plan[0])
      + (if done.Failure? then []
         else ScanSends(plan[1..], runs, first + |plan[0]|, done.value.unread, keep, done.value.ledger))
  }

  function ClientOutcome(registry: Registry, config: Config, runs: nat -> ProtocolResult, inbox: seq<Message>, keep: bool)
    : Result<Ledger, SessionError>
  {
    var plan := Plan(registry, config);
    if plan.Failure? then Failure(plan.error)
    else if inbox == [] then Failure(ChannelClosed)
    else if !inbox[0].Ack? then Failure(ExpectedAck)
    else if !inbox[0].ok then Failure(ConfigRejected)
    else ScanAll(plan.value, runs, 0, inbox[1..], keep, Ledger(NO_COUNTS, []))
  }

  /** One block of reports per batch, in the order of the batches and in any order within each, then
      `Bye`. What follows is not read. */
  ghost predicate CompleteInbox(plan: seq<seq<BatchEntry>>, inbox: seq<Message>)
    decreases |plan|
  {
    if plan == [] then inbox != [] && inbox[0].Bye?
    else
      var n := |plan[0]|;
      n <= |inbox| && Answers(Ids(plan[0]), inbox[..n]) && CompleteInbox(plan[1..], inbox[n..])
  }

  lemma {:induction false} ScanExactly(plan: seq<seq<BatchEntry>>, runs: nat -> ProtocolResult, first: nat, inbox: seq<Message>,
                                       keep: bool, ledger: Ledger)
    requires forall batch <- plan :: DistinctIds(batch)
    ensures ScanAll(plan, runs, first, inbox, keep, ledger).Success? <==> CompleteInbox(plan, inbox)
    decreases |plan|
  {
    hide Reconcile, RunsOf, Answers, DistinctIds, Ids, HoldsRuns;
    if plan == [] {
    } else {
      assert plan[0] in plan;
      var batch, completed := plan[0], RunsOf(plan[0], Shift(runs, first));
      RunsOfHolds(batch, Shift(runs, first));
      ReconcileExact(batch, Shift(runs, first), completed, inbox, keep, ledger);
      var done := Reconcile(batch, completed, inbox, keep, ledger);
      if done.Success? {
        ScanExactly(plan[1..], runs, first + |batch|, done.value.unread, keep, done.value.ledger);
      }
    }
  }

  /** What ends a scan early: behind the blocks of reports that are taken, the first message that has no
      place there. */
  ghost predicate ScanRejected(plan: seq<seq<BatchEntry>>, inbox: seq<Message>, error: SessionError)
    decreases |plan|
  {
    if plan == [] then if inbox == [] then error == ChannelClosed else !inbox[0].Bye? && error == ExpectedBye
    else
      var n := |plan[0]|;
      if n <= |inbox| && Answers(Ids(plan[0]), inbox[..n]) then ScanRejected(plan[1..], inbox[n..], error)
      else exists k: nat :: RejectedFor(Ids(plan[0]), inbox, error, k)
  }

  lemma {:induction false} ScanFails(plan: seq<seq<BatchEntry>>, runs: nat -> ProtocolResult, first: nat, inbox: seq<Message>,
                                     keep: bool, ledger: Ledger)
    requires forall batch <- plan :: DistinctIds(batch)
    requires ScanAll(plan, runs, first, inbox, keep, ledger).Failure?
    ensures ScanRejected(plan, inbox, ScanAll(plan, runs, first, inbox, keep, ledger).error)
    decreases |plan|
  {
    hide Reconcile, RunsOf, Answers, DistinctIds, Ids, HoldsRuns, RejectedFor;
    if plan == [] {
    } else {
      assert plan[0] in plan;
      var batch, completed := plan[0], RunsOf(plan[0], Shift(runs, first));
      RunsOfHolds(batch, Shift(runs, first));
      ReconcileExact(batch, Shift(runs, first), completed, inbox, keep, ledger);
      var done := Reconcile(batch, completed, inbox, keep, ledger);
      if done.Success? {
        ScanFails(plan[1..], runs, first + |batch|, done.value.unread, keep, done.value.ledger);
      } else {
        var k := ReconcileFails(batch, Shift(runs, first), completed, inbox, keep, ledger);
      }
    }
  }

  lemma {:induction false} PlanDistinct(registry: Registry, config: Config)
    requires Plan(registry, config).Success?
    ensures forall batch <- Plan(registry, config).value :: DistinctIds(batch)
  {
    var ranges := CheckTests(registry, config.portRanges, config.tests).value;
    var lanes := Lanes(registry, config.tests, ranges, Directions(config.bidir));
    LanesKnown(registry, config.tests, ranges, Directions(config.bidir));
    BatchesGood(registry, lanes, Max(1, config.parallel));
  }

  lemma {:induction false} LanesKnown(registry: Registry, tests: seq<string>, ranges: seq<PortSpec>, dirs: seq<Direction>)
    ensures forall lane <- Lanes(registry, tests, ranges, dirs) :: KnownLane(registry, lane)
  {
    if tests == [] {
    } else {
      LanesKnown(registry, tests[1..], ranges, dirs);
      var p := Find(registry, tests[0]);
      if p.Some? {
        LanesOfKnown(registry, tests[0], p.value.transports, ranges, dirs);
      }
    }
  }

  lemma {:induction false} LanesOfKnown(registry: Registry, test: string, transports: seq<Transport>,
                                        ranges: seq<PortSpec>, dirs: seq<Direction>)
    requires Find(registry, test).Some?
    ensures forall lane <- LanesOf(test, transports, ranges, dirs) :: KnownLane(registry, lane)
  {
    if ranges == [] {
    } else {
      LanesOfKnown(registry, test, transports, ranges[1..], dirs);
    }
  }

  /** A client succeeds exactly when its selection is accepted and its inbox is an acceptance, one block
      of reports per batch, and `Bye`; and each failure names what came instead. */
  lemma {:induction false} ClientExactly(registry: Registry, config: Config, runs: nat -> ProtocolResult, inbox: seq<Message>, keep: bool)
    ensures ClientOutcome(registry, config, runs, inbox, keep).Success? <==>
            && Plan(registry, config).Success?
            && inbox != [] && inbox[0].Ack? && inbox[0].ok
            && CompleteInbox(Plan(registry, config).value, inbox[1..])
    ensures var r, plan := ClientOutcome(registry, config, runs, inbox, keep), Plan(registry, config);
            r.Failure? ==>
              if plan.Failure? then r.error == plan.error
              else if inbox == [] then r.error == ChannelClosed
              else if !inbox[0].Ack? then r.error == ExpectedAck
              else if !inbox[0].ok then r.error == ConfigRejected
              else ScanRejected(plan.value, inbox[1..], r.error)
  {
    hide Plan, ScanAll, CompleteInbox, ScanRejected;
    if Plan(registry, config).Success? && inbox != [] {
      PlanDistinct(registry, config);
      ScanExactly(Plan(registry, config).value, runs, 0, inbox[1..], keep, Ledger(NO_COUNTS, []));
      if ScanAll(Plan(registry, config).value, runs, 0, inbox[1..], keep, Ledger(NO_COUNTS, [])).Failure? {
        ScanFails(Plan(registry, config).value, runs, 0, inbox[1..], keep, Ledger(NO_COUNTS, []));
      }
    }
  }

  lemma {:induction false} ScanNext(plan: seq<seq<BatchEntry>>, b: nat, runs: nat -> ProtocolResult, first: nat,
                                    inbox: seq<Message>, keep: bool, ledger: Ledger)
    requires b < |plan|
    ensures var done := Reconcile(plan[b], RunsOf(plan[b], Shift(runs, first)), inbox, keep, ledger);
            && ScanAll(plan[b..], runs, first, inbox, keep, ledger) ==
               (if done.Failure? then Failure(done.error)
                else ScanAll(plan[b + 1..], runs, first + |plan[b]|, done.value.unread, keep, done.value.ledger))
            && ScanSends(plan[b..], runs, first, inbox, keep, ledger) ==
               Script(plan[b])
               + (if done.Failure? then []
                  else ScanSends(plan[b + 1..], runs, first + |plan[b]|, done.value.unread, keep, done.value.ledger))
  {
    assert plan[b..][0] == plan[b] && plan[b..][1..] == plan[b + 1..];
    hide Reconcile, RunsOf, Script;
  }

  lemma {:induction false} ScanEnd(runs: nat -> ProtocolResult, first: nat, inbox: seq<Message>, keep: bool, ledger: Ledger)
    ensures ScanAll([], runs, first, inbox, keep, ledger) ==
            if inbox == [] then Failure(ChannelClosed) else if inbox[0].Bye? then Success(ledger) else Failure(ExpectedBye)
    ensures ScanSends([], runs, first, inbox, keep, ledger) == [Done]
  {
  }

  /** One round of the client's main loop. */
  method ScanOne(plan: seq<seq<BatchEntry>>, b: nat, runs: nat -> ProtocolResult, first: nat,
                 inbox: seq<Message>, keep: bool, ledger: Ledger)
    returns (done: Result<BatchDone, SessionError>, script: seq<Message>)
    requires b < |plan| && DistinctIds(plan[b])
    ensures ScanAll(plan[b..], runs, first, inbox, keep, ledger) ==
            if done.Failure? then Failure(done.error)
            else ScanAll(plan[b + 1..], runs, first + |plan[b]|, done.value.unread, keep, done.value.ledger)
    ensures ScanSends(plan[b..], runs, first, inbox, keep, ledger) ==
            script
            + (if done.Failure? then []
               else ScanSends(plan[b + 1..], runs, first + |plan[b]|, done.value.unread, keep, done.value.ledger))
  {
    hide *;
    ScanNext(plan, b, runs, first, inbox, keep, ledger);
    done, script := ExecuteBatch(plan[b], Shift(runs, first), inbox, keep, ledger);
  }

  /** The client's main loop: batch after batch, then `Done`, then the server's `Bye`. */
  method ScanBatches(plan: seq<seq<BatchEntry>>, runs: nat -> ProtocolResult, inbox: seq<Message>, keep: bool)
    returns (r: Result<Ledger, SessionError>, sent: seq<Message>)
    requires forall b :: 0 <= b < |plan| ==> DistinctIds(plan[b])
    ensures r == ScanAll(plan, runs, 0, inbox, keep, Ledger(NO_COUNTS, []))
    ensures sent == ScanSends(plan, runs, 0, inbox, keep, Ledger(NO_COUNTS, []))
  {
    hide *;
    sent := [];
    r := Success(Ledger(NO_COUNTS, []));
    var unread := inbox;
    var first: nat := 0;
    var b: nat := 0;
    assert plan[0..] == plan;
    while b < |plan| && r.Success?
      invariant b <= |plan|
      invariant ScanAll(plan, runs, 0, inbox, keep, Ledger(NO_COUNTS, [])) ==
                if r.Failure? then r else ScanAll(plan[b..], runs, first, unread, keep, r.value)
      invariant ScanSends(plan, runs, 0, inbox, keep, Ledger(NO_COUNTS, [])) ==
                sent + if r.Failure? then [] else ScanSends(plan[b..], runs, first, unread, keep, r.value)
    {
      var done, script := ScanOne(plan, b, runs, first, unread, keep, r.value);
      SeqAssoc(sent, script,
        if done.Failure? then [] else ScanSends(plan[b + 1..], runs, first + |plan[b]|, done.value.unread, keep, done.value.ledger));
      sent := sent + script;
      first := first + |plan[b]|;
      b := b + 1;
      if done.Success? {
        unread := done.value.unread;
        r := Success(done.value.ledger);
      } else {
        r := Failure(done.error);
      }
    }
    if r.Success? {
      assert plan[b..] == [];
      ScanEnd(runs, first, unread, keep, r.value);
      sent := sent + [Done];
      if unread == [] {
        r := Failure(ChannelClosed);
      } else if !unread[0].Bye? {
        r := Failure(ExpectedBye);
      }
    }
  }

  lemma {:induction false} SeqAssoc<T>(a: seq<T>, b: seq<T>, c: seq<T>)
    ensures a + (b + c) == (a + b) + c
  {
  }

  /** The client: check the selection, agree on it, then scan. What it sends is fixed on every outcome.
      The batches are cut beforehand here; cutting does not depend on what is received. */
  method RunClient(registry: Registry, config: Config, target: SocketAddr, showAddr: SocketAddr -> string, timeoutMs: u64,
                   runs: nat -> ProtocolResult, inbox: seq<Message>, json: bool, jsonExport: bool)
    returns (r: Result<Ledger, SessionError>, sent: seq<Message>)
    ensures r == ClientOutcome(registry, config, runs, inbox, !json || jsonExport)
    ensures var plan := Plan(registry, config);
            var configure := Configure(Some(showAddr(target)), timeoutMs, 3, config.parallel);
            && sent == (if plan.Failure? then []
                        else if inbox == [] || !inbox[0].Ack? || !inbox[0].ok then [configure]
                        else [configure] + ScanSends(plan.value, runs, 0, inbox[1..], !json || jsonExport, Ledger(NO_COUNTS, [])))
            && (r.Success? ==> plan.Success? && sent == [configure] + Scripts(plan.value))
            && (plan.Success? ==> Planned(registry, config, plan.value))
  {
    sent := [];
    var cut := CutBatches(registry, config);
    if cut.Failure? {
      return Failure(cut.error), sent;
    }
    PlanDistinct(registry, config);
    PlanIsPlanned(registry, config);
    hide Planned;
    sent := [Configure(Some(showAddr(target)), timeoutMs, PROTOCOL_VERSION, config.parallel)];
    if inbox == [] {
      return Failure(ChannelClosed), sent;
    }
    if !inbox[0].Ack? {
      return Failure(ExpectedAck), sent;
    }
    if !inbox[0].ok {
      return Failure(ConfigRejected), sent;
    }
    hide Plan, ScanAll, ScanSends, Scripts, DistinctIds;
    var scanned: seq<Message>;
    r, scanned := ScanBatches(cut.value, runs, inbox[1..], !json || jsonExport);
    sent := sent + scanned;
  }
}
