/** The merge, said without the pass that makes it: the results in order, cut wherever two neighbours do
    not belong together, one entry for each piece. */
module MergeBlocks {
  import opened Messages
  import opened ClientBatch
  import opened Merge

  // ----- the order -----

  /** Lexicographic order: at the first difference, or as a proper prefix. */
  ghost predicate Before(a: string, b: string) {
    exists k: nat ::
      k <= |a| && k < |b| && a[..k] == b[..k] && (k == |a| || a[k] < b[k])
  }

  /** By test, transport, direction (forward first) and port. */
  ghost predicate InOrder(a: TestEntry, b: TestEntry) {
    || Before(a.protocol, b.protocol)
    || (a.protocol == b.protocol
        && (|| Before(a.transport, b.transport)
            || (a.transport == b.transport
                && (|| (a.direction == ClientToServer && b.direction == ServerToClient)
                    || (a.direction == b.direction && a.port <= b.port)))))
  }

  lemma {:induction false} LessIsBefore(a: string, b: string)
    ensures StrLess(a, b) <==> Before(a, b)
  {
    if b != [] && a != [] && a[0] == b[0] {
      LessIsBefore(a[1..], b[1..]);
      if k: nat :| k <= |a| && k < |b| && a[..k] == b[..k] && (k == |a| || a[k] < b[k]) {
        assert k > 0;
        assert a[1..][..k - 1] == a[..k][1..] && b[1..][..k - 1] == b[..k][1..];
      }
      if k: nat :| k <= |a[1..]| && k < |b[1..]| && a[1..][..k] == b[1..][..k] && (k == |a[1..]| || a[1..][k] < b[1..][k]) {
        assert a[..k + 1] == [a[0]] + a[1..][..k] && b[..k + 1] == [b[0]] + b[1..][..k];
      }
    } else if b != [] {
      if a == [] || a[0] < b[0] {
        assert a[..0] == b[..0];
      }
      if k: nat :| k <= |a| && k < |b| && a[..k] == b[..k] && (k == |a| || a[k] < b[k]) {
        if k > 0 {
          FirstAgree(a, b, k);
        }
      }
    }
  }

  lemma {:induction false} FirstAgree(a: string, b: string, k: nat)
    requires 0 < k <= |a| && k <= |b| && a[..k] == b[..k]
    ensures a[0] == b[0]
  {
    assert a[..k][0] == b[..k][0];
  }

  lemma {:induction false} DirectionsOrdered()
    ensures StrLess(ClientToServer.AsStr(), ServerToClient.AsStr()) && !StrLess(ServerToClient.AsStr(), ClientToServer.AsStr())
  {
  }

  lemma {:induction false} KeyInOrder(a: TestEntry, b: TestEntry)
    ensures !KeyLess(KeyOf(b), KeyOf(a)) <==> InOrder(a, b)
  {
    LessIsBefore(a.protocol, b.protocol);
    LessIsBefore(a.transport, b.transport);
    KeyTotal(KeyOf(a), KeyOf(b));
    KeyIrreflexive(KeyOf(a));
    DirectionsOrdered();
    StrIrreflexive(a.direction.AsStr());
    if KeyLess(KeyOf(a), KeyOf(b)) && KeyLess(KeyOf(b), KeyOf(a)) {
      KeyTransitive(KeyOf(a), KeyOf(b), KeyOf(a));
    }
    hide Before, StrLess;
  }

  /** The results in order; those with equal test, transport, direction and port as they came. */
  lemma {:induction false} SortOrders(results: seq<TestEntry>)
    ensures multiset(Sort(results)) == multiset(results)
    ensures forall i, j :: 0 <= i < j < |Sort(results)| ==> InOrder(Sort(results)[i], Sort(results)[j])
    ensures forall k: Key :: Select(Sort(results), k) == Select(results, k)
  {
    SortIsStable(results);
    hide InOrder, KeyLess, Sort;
    var s := Sort(results);
    forall i, j | 0 <= i < j < |s|
      ensures InOrder(s[i], s[j])
    {
      KeyInOrder(s[i], s[j]);
    }
  }

  // ----- the pieces -----

  /** An entry says of a test what its result says: its status, and the reason if it is no pass. */
  predicate Says(m: MergedEntry, e: TestEntry) {
    && m.protocol == e.protocol && m.transport == e.transport && m.direction == e.direction && m.serverError == e.serverError
    && match e.result
       case Pass(_, _) => m.status == "pass" && m.reason == ""
       case Fail(reason, _, _) => m.status == "fail" && m.reason == reason
       case Error(reason) => m.status == "error" && m.reason == reason
  }

  /** Two results that differ at most in port and byte counts. */
  predicate Alike(a: TestEntry, b: TestEntry) {
    && a.protocol == b.protocol && a.transport == b.transport && a.direction == b.direction && a.serverError == b.serverError
    && match a.result
       case Pass(_, _) => b.result.Pass?
       case Fail(reason, _, _) => b.result.Fail? && b.result.reason == reason
       case Error(reason) => b.result == Error(reason)
  }

  /** Two neighbours that belong to one entry. */
  predicate Together(a: TestEntry, b: TestEntry) {
    Alike(a, b) && a.port + 1 == b.port
  }

  /** The entry of the results from one position up to another. */
  ghost predicate Covered(s: seq<TestEntry>, m: MergedEntry, from: nat, to: nat)
    requires from < to <= |s|
  {
    && m.count == to - from
    && m.ports == (if m.count == 1 then Single(s[from].port) else Range(s[from].port, s[to - 1].port))
    && forall i :: from <= i < to ==> Says(m, s[i]) && s[i].port == s[from].port + (i - from)
  }

  ghost predicate PieceAt(s: seq<TestEntry>, merged: seq<MergedEntry>, cuts: seq<nat>, k: nat)
    requires k < |merged| && |cuts| == |merged| + 1
  {
    cuts[k] < cuts[k + 1] <= |s| && Covered(s, merged[k], cuts[k], cuts[k + 1])
  }

  /** One entry for each piece, in order, and a cut exactly where two neighbours do not belong together. */
  ghost predicate Pieces(s: seq<TestEntry>, merged: seq<MergedEntry>, cuts: seq<nat>) {
    && |cuts| == |merged| + 1 && cuts[0] == 0 && cuts[|merged|] == |s|
    && (forall k :: 0 <= k < |merged| ==> PieceAt(s, merged, cuts, k))
    && forall i :: 0 < i < |s| ==> (i in cuts <==> !Together(s[i - 1], s[i]))
  }

  lemma {:induction false} ExtendsTogether(s: seq<TestEntry>, last: MergedEntry, from: nat, e: TestEntry)
    requires from < |s| && Covered(s, last, from, |s|)
    ensures Extends(last, e) <==> Together(s[|s| - 1], e)
  {
    assert Says(last, s[|s| - 1]);
  }

  lemma {:induction false} CoveredKept(s: seq<TestEntry>, e: TestEntry, m: MergedEntry, from: nat, to: nat)
    requires from < to <= |s| && Covered(s, m, from, to)
    ensures Covered(s + [e], m, from, to)
  {
    hide Says;
  }

  lemma {:induction false} CoveredLonger(s: seq<TestEntry>, e: TestEntry, m: MergedEntry, from: nat)
    requires from < |s| && Covered(s, m, from, |s|) && Extends(m, e)
    ensures Covered(s + [e], Extend(m, e), from, |s| + 1)
  {
    assert Says(m, s[|s| - 1]);
  }

  lemma {:induction false} CoveredFresh(s: seq<TestEntry>, e: TestEntry)
    ensures Covered(s + [e], Fresh(e), |s|, |s| + 1)
  {
  }

  lemma {:induction false} PieceKept(s: seq<TestEntry>, e: TestEntry, merged: seq<MergedEntry>, cuts: seq<nat>,
                                     merged': seq<MergedEntry>, cuts': seq<nat>, k: nat)
    requires |cuts| == |merged| + 1 && |cuts'| == |merged'| + 1 && k < |merged| && k < |merged'|
    requires merged[k] == merged'[k] && cuts[k] == cuts'[k] && cuts[k + 1] == cuts'[k + 1]
    requires PieceAt(s, merged, cuts, k)
    ensures PieceAt(s + [e], merged', cuts', k)
  {
    hide Covered;
    CoveredKept(s, e, merged[k], cuts[k], cuts[k + 1]);
  }

  lemma {:induction false} PieceLonger(s: seq<TestEntry>, e: TestEntry, merged: seq<MergedEntry>, cuts: seq<nat>)
    requires Pieces(s, merged, cuts) && merged != [] && Extends(merged[|merged| - 1], e)
    ensures Pieces(s + [e], merged[..|merged| - 1] + [Extend(merged[|merged| - 1], e)], cuts[..|merged|] + [|s| + 1])
  {
    hide Covered, Extends, Extend, Together;
    var n := |merged|;
    var merged', cuts' := merged[..n - 1] + [Extend(merged[n - 1], e)], cuts[..n] + [|s| + 1];
    assert PieceAt(s, merged, cuts, n - 1);
    CoveredLonger(s, e, merged[n - 1], cuts[n - 1]);
    ExtendsTogether(s, merged[n - 1], cuts[n - 1], e);
    assert PieceAt(s + [e], merged', cuts', n - 1);
    forall k | 0 <= k < n
      ensures PieceAt(s + [e], merged', cuts', k)
    {
      if k < n - 1 {
        PieceKept(s, e, merged, cuts, merged', cuts', k);
      }
    }
    CutsBelow(s, merged, cuts);
    CutsMoved(cuts, n, |s|, cuts');
    Cuts(s, e, cuts, cuts');
  }

  /** The cuts of a longer sequence are those of the shorter but perhaps its end. */
  lemma {:induction false} Cuts(s: seq<TestEntry>, e: TestEntry, cuts: seq<nat>, cuts': seq<nat>)
    requires forall i :: 0 < i < |s| ==> (i in cuts <==> !Together(s[i - 1], s[i]))
    requires forall i :: 0 < i < |s| ==> (i in cuts' <==> i in cuts)
    requires s != [] ==> (|s| in cuts' <==> !Together(s[|s| - 1], e))
    ensures forall i :: 0 < i < |s + [e]| ==> (i in cuts' <==> !Together((s + [e])[i - 1], (s + [e])[i]))
  {
    hide Together;
  }

  lemma {:induction false} CutsBelow(s: seq<TestEntry>, merged: seq<MergedEntry>, cuts: seq<nat>)
    requires Pieces(s, merged, cuts)
    ensures forall k :: 0 <= k < |merged| ==> cuts[k] < |s|
  {
    forall k | 0 <= k < |merged|
      ensures cuts[k] < |s|
    {
      assert PieceAt(s, merged, cuts, k);
    }
  }

  lemma {:induction false} CutsMoved(cuts: seq<nat>, n: nat, end: nat, cuts': seq<nat>)
    requires |cuts| == n + 1 && cuts[n] == end && cuts' == cuts[..n] + [end + 1]
    requires forall k :: 0 <= k < n ==> cuts[k] < end
    ensures end !in cuts' && forall i :: 0 <= i < end ==> (i in cuts' <==> i in cuts)
  {
    forall i | 0 <= i < end
      ensures i in cuts' <==> i in cuts
    {
      assert cuts == cuts[..n] + [end];
    }
  }

  lemma {:induction false} PieceOpened(s: seq<TestEntry>, e: TestEntry, merged: seq<MergedEntry>, cuts: seq<nat>)
    requires Pieces(s, merged, cuts) && (merged != [] ==> !Extends(merged[|merged| - 1], e))
    ensures Pieces(s + [e], merged + [Fresh(e)], cuts + [|s| + 1])
  {
    hide Covered, Extends, Fresh, Together;
    var n := |merged|;
    var merged', cuts' := merged + [Fresh(e)], cuts + [|s| + 1];
    CoveredFresh(s, e);
    assert PieceAt(s + [e], merged', cuts', n);
    forall k | 0 <= k < n
      ensures PieceAt(s + [e], merged', cuts', k)
    {
      PieceKept(s, e, merged, cuts, merged', cuts', k);
    }
    if n != 0 {
      assert PieceAt(s, merged, cuts, n - 1);
      ExtendsTogether(s, merged[n - 1], cuts[n - 1], e);
    }
    assert |s| in cuts' by {
      assert cuts'[n] == |s|;
    }
    Cuts(s, e, cuts, cuts');
  }

  lemma {:induction false} AbsorbPieces(s: seq<TestEntry>, e: TestEntry, merged: seq<MergedEntry>, cuts: seq<nat>)
    returns (cuts': seq<nat>)
    requires Pieces(s, merged, cuts)
    ensures Pieces(s + [e], Absorb(merged, e), cuts')
  {
    assert |cuts| == |merged| + 1;
    hide Pieces, Extends, Extend, Fresh;
    if merged != [] && Extends(merged[|merged| - 1], e) {
      PieceLonger(s, e, merged, cuts);
      cuts' := cuts[..|merged|] + [|s| + 1];
    } else {
      PieceOpened(s, e, merged, cuts);
      cuts' := cuts + [|s| + 1];
    }
  }

  /** The merged entries of any results in order are exactly those of the pieces. */
  lemma {:induction false} MergePieces(s: seq<TestEntry>) returns (cuts: seq<nat>)
    ensures Pieces(s, MergeAll(s), cuts)
  {
    if s == [] {
      cuts := [0];
    } else {
      hide *;
      var n := |s| - 1;
      cuts := MergePieces(s[..n]);
      cuts := AbsorbPieces(s[..n], s[n], MergeAll(s[..n]), cuts);
      MergeNext(s, n);
      assert s[..n] + [s[n]] == s && s[..n + 1] == s;
    }
  }

  lemma {:induction false} NothingMerges()
    ensures Sort([]) == [] && MergeAll([]) == []
  {
  }

  /** Sorts, and goes over the sorted results once: the entries are those of their pieces. */
  method MergeIntoRanges(results: seq<TestEntry>) returns (merged: seq<MergedEntry>, ghost cuts: seq<nat>)
    ensures merged == MergeAll(Sort(results))
    ensures Pieces(Sort(results), merged, cuts)
  {
    hide MergeAll, Sort, Insert, KeyLess, Pieces;
    NothingMerges();
    cuts := MergePieces(Sort(results));
    merged := [];
    if results == [] {
      return;
    }
    var sorted := Sort(results);
    assert sorted[..0] == [];
    for i := 0 to |sorted|
      invariant merged == MergeAll(sorted[..i])
    {
      var e := sorted[i];
      var n := |merged|;
      MergeNext(sorted, i);
      if n != 0 && Extends(merged[n - 1], e) {
        var last := merged[n - 1];
        merged := merged[n - 1 :=
          last.(ports := match last.ports
                         case Single(p) => Range(p, e.port)
                         case Range(s, _) => Range(s, e.port),
                count := last.count + 1)];
      } else {
        merged := merged + [Fresh(e)];
      }
    }
    assert sorted[..|sorted|] == sorted;
  }

  // ----- what an entry says -----

  predicate HoldsPort(ports: PortRange, port: u16) {
    match ports
    case Single(p) => port == p
    case Range(first, last) => first <= port <= last
  }

  lemma {:induction false} PieceSays(s: seq<TestEntry>, m: MergedEntry, from: nat, to: nat, port: u16)
    requires from < to <= |s| && Covered(s, m, from, to)
    ensures HoldsPort(m.ports, port) <==> exists i :: from <= i < to && s[i].port == port
  {
    if to - from > 1 {
      assert Says(m, s[to - 1]);
      if HoldsPort(m.ports, port) {
        var i := from + (port - s[from].port);
        assert Says(m, s[i]);
      }
    }
  }

  /** The piece a result lies in. */
  lemma {:induction false} FindPiece(s: seq<TestEntry>, merged: seq<MergedEntry>, cuts: seq<nat>, i: nat, n: nat) returns (k: nat)
    requires Pieces(s, merged, cuts) && n <= |merged| && i < cuts[n]
    ensures k < |merged| && cuts[k] <= i < cuts[k + 1] && PieceAt(s, merged, cuts, k)
  {
    assert PieceAt(s, merged, cuts, n - 1);
    if i >= cuts[n - 1] {
      k := n - 1;
    } else {
      k := FindPiece(s, merged, cuts, i, n - 1);
    }
  }

  /** On the fields of the results themselves: every port of an entry comes from a result with that port of
      which the entry says what its result says; and every result lies, by its port, in such an entry. */
  lemma {:induction false} EntriesSay(results: seq<TestEntry>)
    ensures forall m, port: u16 :: m in MergeAll(Sort(results)) && HoldsPort(m.ports, port) ==>
              exists e <- results :: e.port == port && Says(m, e)
    ensures forall e <- results :: exists m <- MergeAll(Sort(results)) :: HoldsPort(m.ports, e.port) && Says(m, e)
  {
    var s := Sort(results);
    SortIsStable(results);
    var merged := MergeAll(s);
    var cuts := MergePieces(s);
    hide MergeAll, Sort, Ordered, Says, HoldsPort, Together;
    forall m, port: u16 | m in merged && HoldsPort(m.ports, port)
      ensures exists e <- results :: e.port == port && Says(m, e)
    {
      var k :| 0 <= k < |merged| && merged[k] == m;
      assert PieceAt(s, merged, cuts, k);
      PieceSays(s, m, cuts[k], cuts[k + 1], port);
      var i :| cuts[k] <= i < cuts[k + 1] && s[i].port == port;
      assert s[i] in multiset(s) && s[i] in multiset(results);
      assert s[i] in results && Says(m, s[i]);
    }
    forall e | e in results
      ensures exists m <- merged :: HoldsPort(m.ports, e.port) && Says(m, e)
    {
      assert e in multiset(results) && e in multiset(s);
      var i :| 0 <= i < |s| && s[i] == e;
      var k := FindPiece(s, merged, cuts, i, |merged|);
      PieceSays(s, merged[k], cuts[k], cuts[k + 1], e.port);
      assert merged[k] in merged && Says(merged[k], e);
    }
  }
}
