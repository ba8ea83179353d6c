/** How good the merge is: minimal on distinct keys, independent of the order of the results
    exactly when equal keys say the same, and in step with the counters. */
module MergeTheorems {
  import opened Messages
  import opened ClientBatch
  import opened Merge

  // ----- membership -----

  lemma {:induction false} FindEntry(merged: seq<MergedEntry>, o: Seen) returns (k: nat)
    requires (forall m <- merged :: Proper(m)) && o in ExpandAll(merged)
    ensures k < |merged| && o in Expand(merged[k])
    ensures o == At(merged[k], o.port) && merged[k].ports.First() <= o.port <= merged[k].ports.Last()
  {
    var n := |merged| - 1;
    if o in Expand(merged[n]) {
      k := n;
      var m := merged[n];
      assert Proper(m);
      var j :| 0 <= j < m.count && Expand(m)[j] == o;
      assert o == At(m, m.ports.First() + j);
    } else {
      k := FindEntry(merged[..n], o);
    }
  }

  lemma {:induction false} EntrySeen(merged: seq<MergedEntry>, k: nat, port: u16)
    requires (forall m <- merged :: Proper(m)) && k < |merged|
    requires merged[k].ports.First() <= port <= merged[k].ports.Last()
    ensures At(merged[k], port) in ExpandAll(merged)
  {
    var n := |merged| - 1;
    if k == n {
      assert Proper(merged[n]);
      assert Expand(merged[n])[port - merged[n].ports.First()] == At(merged[n], port);
    } else {
      EntrySeen(merged[..n], k, port);
    }
  }

  lemma {:induction false} SeenInMerge(results: seq<TestEntry>, o: Seen)
    ensures forall m <- MergeAll(Sort(results)) :: Proper(m)
    ensures o in ExpandAll(MergeAll(Sort(results))) <==> o in AllSeen(results)
  {
    MergeConserves(results);
    assert o in ExpandAll(MergeAll(Sort(results))) <==> o in multiset(ExpandAll(MergeAll(Sort(results))));
    assert o in AllSeen(results) <==> o in multiset(AllSeen(results));
  }

  predicate Covers(m: MergedEntry, o: Seen) {
    At(m, o.port) == o && m.ports.First() <= o.port <= m.ports.Last()
  }

  /** What a merged range means: a port lies in a range with these fields if and only if some
      result has exactly these fields and this port. */
  lemma {:induction false} RangeMeaning(results: seq<TestEntry>, o: Seen)
    ensures (exists m <- MergeAll(Sort(results)) :: Covers(m, o)) <==> (exists e <- results :: ToSeen(e) == o)
  {
    var merged := MergeAll(Sort(results));
    SeenInMerge(results, o);
    hide MergeAll, Sort, ExpandAll, Proper;
    if exists m <- merged :: Covers(m, o) {
      var m :| m in merged && Covers(m, o);
      var k :| 0 <= k < |merged| && merged[k] == m;
      EntrySeen(merged, k, o.port);
      var i :| 0 <= i < |AllSeen(results)| && AllSeen(results)[i] == o;
      assert results[i] in results && ToSeen(results[i]) == o;
    }
    if exists e <- results :: ToSeen(e) == o {
      var e :| e in results && ToSeen(e) == o;
      var i :| 0 <= i < |results| && results[i] == e;
      assert AllSeen(results)[i] == o;
      var k := FindEntry(merged, o);
      assert merged[k] in merged;
    }
  }

  // ----- minimality -----

  ghost predicate DistinctKeys(s: seq<TestEntry>) {
    forall i, j :: 0 <= i < j < |s| ==> KeyOf(s[i]) != KeyOf(s[j])
  }

  function FirstSeen(m: MergedEntry): Seen {
    At(m, m.ports.First())
  }

  function SeenKey(o: Seen): Key {
    Key(o.protocol, o.transport, o.direction.AsStr(), o.port)
  }

  /** `o` stands directly before `p`: the same fields, the next port. */
  predicate Precedes(o: Seen, p: Seen) {
    o.port + 1 == p.port && p.(port := o.port) == o
  }

  ghost predicate AllDifferent<T(!new)>(s: seq<T>) {
    forall i, j :: 0 <= i < j < |s| ==> s[i] != s[j]
  }

  /** `e` is the first of the results with its key. */
  predicate LeadsKey(s: seq<TestEntry>, e: TestEntry) {
    [e] <= Select(s, KeyOf(e))
  }

  /** `e` is the last of the results with its key. */
  predicate EndsKey(s: seq<TestEntry>, e: TestEntry) {
    var same := Select(s, KeyOf(e));
    same != [] && same[|same| - 1] == e
  }

  /** No two results say the same, and where results of neighbouring ports say the same but for the
      port, they are the last result of the lower port and the first of the upper. */
  ghost predicate Seamless(s: seq<TestEntry>) {
    && AllDifferent(AllSeen(s))
    && forall a, b :: a in s && b in s && Precedes(ToSeen(a), ToSeen(b)) ==> EndsKey(s, a) && LeadsKey(s, b)
  }

  lemma {:induction false} PrecedesLess(o: Seen, p: Seen)
    requires Precedes(o, p)
    ensures KeyLess(SeenKey(o), SeenKey(p))
  {
  }

  /** Nothing fits between neighbouring ports of the same test, transport and direction. */
  lemma {:induction false} NoneBetween(o: Seen, k: Key, p: Seen)
    requires Precedes(o, p)
    ensures !(KeyLess(SeenKey(o), k) && KeyLess(k, SeenKey(p)))
  {
    StrIrreflexive(o.protocol);
    StrIrreflexive(o.transport);
    StrIrreflexive(o.direction.AsStr());
    if StrLess(o.protocol, k.protocol) && StrLess(k.protocol, o.protocol) {
      StrTransitive(o.protocol, k.protocol, o.protocol);
    }
    if StrLess(o.transport, k.transport) && StrLess(k.transport, o.transport) {
      StrTransitive(o.transport, k.transport, o.transport);
    }
    if StrLess(o.direction.AsStr(), k.direction) && StrLess(k.direction, o.direction.AsStr()) {
      StrTransitive(o.direction.AsStr(), k.direction, o.direction.AsStr());
    }
  }

  // Where the pass opens an entry.

  /** The pass opens an entry here: nothing stands before, or what does is no direct predecessor. */
  predicate IsOpening(s: seq<TestEntry>, i: nat) {
    i < |s| && (i == 0 || !Precedes(ToSeen(s[i - 1]), ToSeen(s[i])))
  }

  function Openings(s: seq<TestEntry>): (r: seq<nat>)
    ensures forall k :: 0 <= k < |r| ==> IsOpening(s, r[k])
    ensures forall k, l :: 0 <= k < l < |r| ==> r[k] < r[l]
    ensures forall i: nat :: IsOpening(s, i) ==> i in r
  {
    if s == [] then []
    else
      var n := |s| - 1;
      var before := s[..n];
      assert forall i: nat :: i < n ==> (IsOpening(s, i) <==> IsOpening(before, i));
      Openings(before) + (if IsOpening(s, n) then [n] else [])
  }

  lemma {:induction false} LastSeen(s: seq<TestEntry>)
    requires s != []
    ensures MergeAll(s) != []
    ensures var last := MergeAll(s)[|MergeAll(s)| - 1];
            At(last, last.ports.Last()) == ToSeen(s[|s| - 1])
  {
  }

  lemma {:induction false} AbsorbFirsts(merged: seq<MergedEntry>, e: TestEntry)
    ensures var after := Absorb(merged, e);
            && |after| == (if merged != [] && Extends(merged[|merged| - 1], e) then |merged| else |merged| + 1)
            && (forall k :: 0 <= k < |merged| ==> FirstSeen(after[k]) == FirstSeen(merged[k]))
            && (|after| > |merged| ==> FirstSeen(after[|merged|]) == ToSeen(e))
  {
  }

  lemma {:induction false} ExtendsPredecessor(last: MergedEntry, e: TestEntry)
    ensures Extends(last, e) <==> Precedes(At(last, last.ports.Last()), ToSeen(e))
  {
  }

  lemma {:induction false} AppendOpens(s: seq<TestEntry>, prior: seq<MergedEntry>, merged: seq<MergedEntry>,
                                       at0: seq<nat>, at: seq<nat>)
    requires s != [] && |prior| == |at0| && |merged| == |at|
    requires forall k :: 0 <= k < |at0| ==> at0[k] < |s| - 1 && FirstSeen(prior[k]) == ToSeen(s[..|s| - 1][at0[k]])
    requires at == at0 || at == at0 + [|s| - 1]
    requires forall k :: 0 <= k < |prior| ==> FirstSeen(merged[k]) == FirstSeen(prior[k])
    requires |merged| > |prior| ==> FirstSeen(merged[|prior|]) == ToSeen(s[|s| - 1])
    ensures forall k :: 0 <= k < |at| ==> at[k] < |s| && FirstSeen(merged[k]) == ToSeen(s[at[k]])
  {
    hide FirstSeen, ToSeen;
  }

  lemma {:induction false} OpeningsNext(s: seq<TestEntry>)
    requires s != []
    ensures var n := |s| - 1;
            && (forall k :: 0 <= k < |Openings(s[..n])| ==> Openings(s[..n])[k] < n)
            && Openings(s) == Openings(s[..n]) + (if IsOpening(s, n) then [n] else [])
  {
  }

  lemma {:induction false} AbsorbsUnlessOpening(s: seq<TestEntry>)
    requires s != []
    ensures var prior, e := MergeAll(s[..|s| - 1]), s[|s| - 1];
            && MergeAll(s) == Absorb(prior, e)
            && (IsOpening(s, |s| - 1) <==> !(prior != [] && Extends(prior[|prior| - 1], e)))
  {
    var n := |s| - 1;
    if n > 0 {
      LastSeen(s[..n]);
      ExtendsPredecessor(MergeAll(s[..n])[|MergeAll(s[..n])| - 1], s[n]);
    } else {
      assert s[..0] == [];
    }
  }

  /** The merged entries start at the openings, one each, in order. */
  lemma {:induction false} MergeOpens(s: seq<TestEntry>)
    ensures |MergeAll(s)| == |Openings(s)|
    ensures forall k :: 0 <= k < |Openings(s)| ==> FirstSeen(MergeAll(s)[k]) == ToSeen(s[Openings(s)[k]])
  {
    if s == [] {
    } else {
      var n := |s| - 1;
      hide *;
      MergeOpens(s[..n]);
      OpeningsNext(s);
      AbsorbsUnlessOpening(s);
      AbsorbFirsts(MergeAll(s[..n]), s[n]);
      AppendOpens(s, MergeAll(s[..n]), MergeAll(s), Openings(s[..n]), Openings(s));
    }
  }

  /** The first and the last position of a key. */
  lemma {:induction false} SelectEnds(s: seq<TestEntry>, i: nat) returns (first: nat, last: nat)
    requires i < |s|
    ensures first <= i <= last < |s| && KeyOf(s[first]) == KeyOf(s[last]) == KeyOf(s[i])
    ensures forall j :: 0 <= j < first || last < j < |s| ==> KeyOf(s[j]) != KeyOf(s[i])
    ensures var same := Select(s, KeyOf(s[i]));
            same != [] && same[0] == s[first] && same[|same| - 1] == s[last]
  {
    var k := KeyOf(s[i]);
    first := SelectFirst(s, k, i);
    last := SelectLast(s, k, i);
  }

  lemma {:induction false} SelectFirst(s: seq<TestEntry>, k: Key, i: nat) returns (first: nat)
    requires i < |s| && KeyOf(s[i]) == k
    ensures first <= i && KeyOf(s[first]) == k && forall j :: 0 <= j < first ==> KeyOf(s[j]) != k
    ensures Select(s, k) != [] && Select(s, k)[0] == s[first]
  {
    if KeyOf(s[0]) == k {
      first := 0;
    } else {
      var rest := SelectFirst(s[1..], k, i - 1);
      first := rest + 1;
      assert forall j :: 0 < j < first ==> s[j] == s[1..][j - 1];
    }
  }

  lemma {:induction false} SelectLast(s: seq<TestEntry>, k: Key, i: nat) returns (last: nat)
    requires i < |s| && KeyOf(s[i]) == k
    ensures i <= last < |s| && KeyOf(s[last]) == k && forall j :: last < j < |s| ==> KeyOf(s[j]) != k
    ensures Select(s, k) != [] && Select(s, k)[|Select(s, k)| - 1] == s[last]
  {
    if j :| 0 < j < |s| && KeyOf(s[j]) == k && j >= i {
      var rest := SelectLast(s[1..], k, j - 1);
      last := rest + 1;
      assert forall j :: last < j < |s| ==> s[j] == s[1..][j - 1];
    } else {
      last := 0;
      SelectNone(s[1..], k);
    }
  }

  lemma {:induction false} SelectNone(s: seq<TestEntry>, k: Key)
    requires forall j :: 0 <= j < |s| ==> KeyOf(s[j]) != k
    ensures Select(s, k) == []
  {
    if s == [] {
    } else {
      SelectNone(s[1..], k);
    }
  }

  lemma {:induction false} PrecedesBefore(s: seq<TestEntry>, p: nat, q: nat)
    requires Ordered(s) && p < |s| && q < |s| && Precedes(ToSeen(s[p]), ToSeen(s[q]))
    ensures p < q && KeyLess(KeyOf(s[p]), KeyOf(s[q]))
  {
    PrecedesLess(ToSeen(s[p]), ToSeen(s[q]));
  }

  /** What stands between a result and its direct predecessor shares the key of one of them. */
  lemma {:induction false} BetweenShares(s: seq<TestEntry>, p: nat, m: nat, q: nat)
    requires Ordered(s) && p < m < q < |s| && Precedes(ToSeen(s[p]), ToSeen(s[q]))
    ensures KeyOf(s[m]) == KeyOf(s[p]) || KeyOf(s[m]) == KeyOf(s[q])
  {
    NoneBetween(ToSeen(s[p]), KeyOf(s[m]), ToSeen(s[q]));
    KeyTotal(KeyOf(s[p]), KeyOf(s[m]));
    KeyTotal(KeyOf(s[m]), KeyOf(s[q]));
  }

  lemma {:induction false} EndsLast(s: seq<TestEntry>, p: nat, m: nat)
    requires AllDifferent(AllSeen(s)) && p < |s| && m < |s| && KeyOf(s[m]) == KeyOf(s[p])
    ensures EndsKey(s, s[p]) ==> m <= p
    ensures LeadsKey(s, s[p]) ==> p <= m
  {
    var f, l := SelectEnds(s, m);
    assert AllSeen(s)[p] == ToSeen(s[p]) && AllSeen(s)[f] == ToSeen(s[f]) && AllSeen(s)[l] == ToSeen(s[l]);
    hide Select, ToSeen, KeyOf;
  }

  /** In seamless ordered results a direct predecessor stands directly before. */
  lemma {:induction false} PredecessorNext(s: seq<TestEntry>, p: nat, q: nat)
    requires Ordered(s) && Seamless(s) && p < |s| && q < |s| && Precedes(ToSeen(s[p]), ToSeen(s[q]))
    ensures p + 1 == q
  {
    hide Ordered, Precedes, AllDifferent, EndsKey, LeadsKey, ToSeen, KeyOf;
    PrecedesBefore(s, p, q);
    assert EndsKey(s, s[p]) && LeadsKey(s, s[q]);
    if p + 1 < q {
      BetweenShares(s, p, q - 1, q);
      if KeyOf(s[q - 1]) == KeyOf(s[p]) {
        EndsLast(s, p, q - 1);
      } else {
        EndsLast(s, q, q - 1);
      }
    }
  }

  /** Every merged entry starts at a result that has no direct predecessor among the results,
      and no two start at the same result. */
  ghost predicate Starts(s: seq<TestEntry>, merged: seq<MergedEntry>) {
    && (forall k :: 0 <= k < |merged| ==> FirstSeen(merged[k]) in AllSeen(s))
    && (forall k, i :: 0 <= k < |merged| && 0 <= i < |s| ==> !Precedes(ToSeen(s[i]), FirstSeen(merged[k])))
    && (forall k, l :: 0 <= k < l < |merged| ==> FirstSeen(merged[k]) != FirstSeen(merged[l]))
  }

  lemma {:induction false} SeamlessStarts(s: seq<TestEntry>)
    requires Ordered(s) && Seamless(s)
    ensures Starts(s, MergeAll(s))
  {
    hide MergeAll, Openings, Precedes, Ordered, FirstSeen, ToSeen;
    MergeOpens(s);
    var merged, at := MergeAll(s), Openings(s);
    forall k | 0 <= k < |merged|
      ensures FirstSeen(merged[k]) in AllSeen(s)
    {
      assert IsOpening(s, at[k]) && AllSeen(s)[at[k]] == ToSeen(s[at[k]]);
    }
    forall k, i | 0 <= k < |merged| && 0 <= i < |s|
      ensures !Precedes(ToSeen(s[i]), FirstSeen(merged[k]))
    {
      assert IsOpening(s, at[k]);
      if Precedes(ToSeen(s[i]), ToSeen(s[at[k]])) {
        PredecessorNext(s, i, at[k]);
      }
    }
    forall k, l | 0 <= k < l < |merged|
      ensures FirstSeen(merged[k]) != FirstSeen(merged[l])
    {
      assert IsOpening(s, at[k]) && IsOpening(s, at[l]);
      assert AllSeen(s)[at[k]] == ToSeen(s[at[k]]) && AllSeen(s)[at[l]] == ToSeen(s[at[l]]);
    }
  }

  /** If entries start where they should, a result with a direct predecessor does not open an entry. */
  lemma {:induction false} StartsOpening(s: seq<TestEntry>, i: nat, j: nat)
    requires Starts(s, MergeAll(s)) && IsOpening(s, j) && i < |s|
    ensures !Precedes(ToSeen(s[i]), ToSeen(s[j]))
    ensures i != j && IsOpening(s, i) ==> ToSeen(s[i]) != ToSeen(s[j])
  {
    hide MergeAll, Precedes, IsOpening, FirstSeen, ToSeen;
    MergeOpens(s);
    var at := Openings(s);
    assert j in at;
    var l :| 0 <= l < |at| && at[l] == j;
    if i != j && IsOpening(s, i) {
      assert i in at;
      var k :| 0 <= k < |at| && at[k] == i;
      assert FirstSeen(MergeAll(s)[k]) != FirstSeen(MergeAll(s)[l]);
    }
  }

  /** The later of two results that say the same opens an entry. */
  lemma {:induction false} TwinOpens(s: seq<TestEntry>, p: nat, q: nat)
    requires Ordered(s) && p < q < |s| && ToSeen(s[p]) == ToSeen(s[q])
    ensures IsOpening(s, q)
  {
    KeyIrreflexive(KeyOf(s[p]));
  }

  lemma {:induction false} StartsDifferent(s: seq<TestEntry>, p: nat, q: nat)
    requires Ordered(s) && Starts(s, MergeAll(s)) && p < q < |s|
    ensures ToSeen(s[p]) != ToSeen(s[q])
  {
    hide *;
    OpensOr(s, p);
    if ToSeen(s[p]) == ToSeen(s[q]) {
      TwinOpens(s, p, q);
      StartsOpening(s, p, q);
      if !IsOpening(s, p) {
        StartsOpening(s, p - 1, q);
      }
    }
  }

  lemma {:induction false} OpensOr(s: seq<TestEntry>, p: nat)
    requires p < |s|
    ensures IsOpening(s, p) || (p > 0 && Precedes(ToSeen(s[p - 1]), ToSeen(s[p])))
  {
  }

  /** If entries start where they should, a direct predecessor stands directly before. */
  lemma {:induction false} StartsNext(s: seq<TestEntry>, p: nat, q: nat)
    requires Ordered(s) && Starts(s, MergeAll(s)) && p < |s| && q < |s| && Precedes(ToSeen(s[p]), ToSeen(s[q]))
    ensures p + 1 == q
  {
    hide *;
    PrecedesBefore(s, p, q);
    OpensOr(s, q);
    if IsOpening(s, q) {
      StartsOpening(s, p, q);
    } else {
      OnePredecessor(ToSeen(s[q - 1]), ToSeen(s[p]), ToSeen(s[q]));
      if p < q - 1 {
        StartsDifferent(s, p, q - 1);
      }
    }
  }

  lemma {:induction false} OnePredecessor(n: Seen, o: Seen, p: Seen)
    requires Precedes(n, p) && Precedes(o, p)
    ensures n == o
  {
  }

  /** In ordered results no key reaches across a place where the key grows. */
  lemma {:induction false} NeighbourEnds(s: seq<TestEntry>, p: nat)
    requires Ordered(s) && p + 1 < |s| && KeyLess(KeyOf(s[p]), KeyOf(s[p + 1]))
    ensures forall j :: p < j < |s| ==> KeyOf(s[j]) != KeyOf(s[p])
    ensures forall j :: 0 <= j <= p ==> KeyOf(s[j]) != KeyOf(s[p + 1])
  {
    KeyIrreflexive(KeyOf(s[p]));
    hide KeyLess, KeyOf;
  }

  lemma {:induction false} KeyEnds(s: seq<TestEntry>, p: nat)
    requires p < |s|
    ensures (forall j :: p < j < |s| ==> KeyOf(s[j]) != KeyOf(s[p])) ==> EndsKey(s, s[p])
    ensures (forall j :: 0 <= j < p ==> KeyOf(s[j]) != KeyOf(s[p])) ==> LeadsKey(s, s[p])
  {
    var f, l := SelectEnds(s, p);
    hide Select, KeyOf;
  }

  /** If entries start where they should, neighbours in what they say are the last and the first
      result of their keys. */
  lemma {:induction false} StartsNeighbours(s: seq<TestEntry>, p: nat, q: nat)
    requires Ordered(s) && Starts(s, MergeAll(s)) && p < |s| && q < |s| && Precedes(ToSeen(s[p]), ToSeen(s[q]))
    ensures EndsKey(s, s[p]) && LeadsKey(s, s[q])
  {
    hide *;
    StartsNext(s, p, q);
    PrecedesBefore(s, p, q);
    NeighbourEnds(s, p);
    KeyEnds(s, p);
    KeyEnds(s, q);
  }

  lemma {:induction false} StartsSeamless(s: seq<TestEntry>)
    requires Ordered(s) && Starts(s, MergeAll(s))
    ensures Seamless(s)
  {
    hide MergeAll, Starts, Ordered, Precedes, EndsKey, LeadsKey, ToSeen;
    forall i, j | 0 <= i < j < |s|
      ensures AllSeen(s)[i] != AllSeen(s)[j]
    {
      StartsDifferent(s, i, j);
    }
    forall a, b | a in s && b in s && Precedes(ToSeen(a), ToSeen(b))
      ensures EndsKey(s, a) && LeadsKey(s, b)
    {
      var p :| 0 <= p < |s| && s[p] == a;
      var q :| 0 <= q < |s| && s[q] == b;
      StartsNeighbours(s, p, q);
    }
  }

  /** The pass opens exactly the entries that have to be opened if and only if the results are seamless. */
  lemma {:induction false} MergeStarts(s: seq<TestEntry>)
    requires Ordered(s)
    ensures Starts(s, MergeAll(s)) <==> Seamless(s)
  {
    hide *;
    if Seamless(s) {
      SeamlessStarts(s);
    }
    if Starts(s, MergeAll(s)) {
      StartsSeamless(s);
    }
  }

  // Being seamless does not depend on the sort.

  lemma {:induction false} Multiplicity<T(!new)>(s: seq<T>)
    ensures AllDifferent(s) <==> forall x :: multiset(s)[x] <= 1
  {
    if s == [] {
    } else {
      var rest := s[1..];
      Multiplicity(rest);
      assert s == [s[0]] + rest;
      assert forall i :: 0 < i < |s| ==> s[i] == rest[i - 1];
      assert multiset(s) == multiset{s[0]} + multiset(rest);
      if AllDifferent(rest) {
        assert AllDifferent(s) <==> s[0] !in rest;
        assert multiset(s)[s[0]] > 1 <==> s[0] in rest;
      } else {
        var x :| multiset(rest)[x] > 1;
        assert multiset(s)[x] > 1;
        var i, j :| 0 <= i < j < |rest| && rest[i] == rest[j];
        assert s[i + 1] == s[j + 1];
      }
    }
  }

  lemma {:induction false} DifferentPermuted<T(!new)>(a: seq<T>, b: seq<T>)
    requires multiset(a) == multiset(b)
    ensures AllDifferent(a) <==> AllDifferent(b)
  {
    Multiplicity(a);
    Multiplicity(b);
  }

  lemma {:induction false} SameEnds(a: seq<TestEntry>, b: seq<TestEntry>, e: TestEntry)
    requires Select(a, KeyOf(e)) == Select(b, KeyOf(e))
    ensures (EndsKey(a, e) <==> EndsKey(b, e)) && (LeadsKey(a, e) <==> LeadsKey(b, e))
  {
  }

  lemma {:induction false} SeamlessSame(a: seq<TestEntry>, b: seq<TestEntry>)
    requires multiset(a) == multiset(b) && forall k: Key :: Select(a, k) == Select(b, k)
    requires Seamless(a)
    ensures Seamless(b)
  {
    hide AllDifferent, Precedes, AllSeen, EndsKey, LeadsKey, ToSeen, KeyOf, Select;
    SeenMultiset(a, b);
    DifferentPermuted(AllSeen(a), AllSeen(b));
    forall x, y | x in b && y in b && Precedes(ToSeen(x), ToSeen(y))
      ensures EndsKey(b, x) && LeadsKey(b, y)
    {
      assert x in multiset(a) && y in multiset(a);
      SameEnds(a, b, x);
      SameEnds(a, b, y);
    }
  }

  lemma {:induction false} SeamlessSort(results: seq<TestEntry>)
    ensures Seamless(Sort(results)) <==> Seamless(results)
  {
    SortIsStable(results);
    hide *;
    if Seamless(results) {
      SeamlessSame(results, Sort(results));
    }
    if Seamless(Sort(results)) {
      SeamlessSame(Sort(results), results);
    }
  }

  lemma {:induction false} DistinctSeamless(results: seq<TestEntry>)
    requires DistinctKeys(results)
    ensures Seamless(results)
  {
    hide Precedes, EndsKey, LeadsKey;
    forall a, b | a in results && b in results && Precedes(ToSeen(a), ToSeen(b))
      ensures EndsKey(results, a) && LeadsKey(results, b)
    {
      var p :| 0 <= p < |results| && results[p] == a;
      var q :| 0 <= q < |results| && results[q] == b;
      hide KeyOf, ToSeen;
      KeyEnds(results, p);
      KeyEnds(results, q);
    }
    forall i, j | 0 <= i < j < |results|
      ensures AllSeen(results)[i] != AllSeen(results)[j]
    {
      assert KeyOf(results[i]) != KeyOf(results[j]);
    }
  }

  // Descriptions of the same results.

  function Firsts(merged: seq<MergedEntry>): set<Seen> {
    set m <- merged :: FirstSeen(m)
  }

  lemma {:induction false} FirstsAtMost(merged: seq<MergedEntry>)
    ensures |Firsts(merged)| <= |merged|
  {
    if merged == [] {
    } else {
      FirstsAtMost(merged[1..]);
      assert Firsts(merged) == Firsts(merged[1..]) + {FirstSeen(merged[0])};
    }
  }

  lemma {:induction false} FirstsExactly(merged: seq<MergedEntry>)
    requires forall k, l :: 0 <= k < l < |merged| ==> FirstSeen(merged[k]) != FirstSeen(merged[l])
    ensures |Firsts(merged)| == |merged|
  {
    if merged == [] {
    } else {
      FirstsExactly(merged[1..]);
      assert Firsts(merged) == Firsts(merged[1..]) + {FirstSeen(merged[0])};
    }
  }

  /** Any set of contiguous uniform ranges that describes the same results. */
  ghost predicate Describes(cover: seq<MergedEntry>, results: seq<TestEntry>) {
    (forall m <- cover :: Proper(m)) && forall o: Seen :: o in ExpandAll(cover) <==> o in AllSeen(results)
  }

  lemma {:induction false} MergeDescribes(results: seq<TestEntry>)
    ensures Describes(MergeAll(Sort(results)), results)
  {
    MergeConserves(results);
    forall o: Seen
      ensures o in ExpandAll(MergeAll(Sort(results))) <==> o in AllSeen(results)
    {
      SeenInMerge(results, o);
    }
  }

  lemma {:induction false} Subset<T>(a: set<T>, b: set<T>)
    requires a <= b
    ensures |a| <= |b|
  {
    assert b == a + (b - a);
  }

  lemma {:induction false} StartInCover(results: seq<TestEntry>, cover: seq<MergedEntry>, s: seq<TestEntry>, o: Seen)
    requires Describes(cover, results) && multiset(AllSeen(s)) == multiset(AllSeen(results))
    requires o in AllSeen(s) && forall i :: 0 <= i < |s| ==> !Precedes(ToSeen(s[i]), o)
    ensures o in Firsts(cover)
  {
    assert o in multiset(AllSeen(results));
    var j := FindEntry(cover, o);
    var m := cover[j];
    assert m in cover;
    if o.port != m.ports.First() {
      var before := At(m, o.port - 1);
      EntrySeen(cover, j, o.port - 1);
      assert before in multiset(AllSeen(s));
      var i :| 0 <= i < |AllSeen(s)| && AllSeen(s)[i] == before;
      assert Precedes(ToSeen(s[i]), o);
      assert false;
    }
  }

  /** Entries that start where they must are no more than any description needs. */
  lemma {:induction false} StartsAtMost(results: seq<TestEntry>, cover: seq<MergedEntry>)
    requires Starts(Sort(results), MergeAll(Sort(results))) && Describes(cover, results)
    ensures |MergeAll(Sort(results))| <= |cover|
  {
    var s := Sort(results);
    var merged := MergeAll(s);
    SortIsStable(results);
    SeenMultiset(s, results);
    hide MergeAll, Sort, Describes, Precedes;
    forall o | o in Firsts(merged)
      ensures o in Firsts(cover)
    {
      var m :| m in merged && FirstSeen(m) == o;
      var k :| 0 <= k < |merged| && merged[k] == m;
      StartInCover(results, cover, s, o);
    }
    Subset(Firsts(merged), Firsts(cover));
    FirstsExactly(merged);
    FirstsAtMost(cover);
  }

  ghost predicate CoveredBy(cover: seq<MergedEntry>, o: Seen) {
    exists m <- cover :: Covers(m, o)
  }

  lemma {:induction false} ExpandCovers(cover: seq<MergedEntry>, o: Seen)
    requires forall m <- cover :: Proper(m)
    ensures o in ExpandAll(cover) <==> CoveredBy(cover, o)
  {
    if o in ExpandAll(cover) {
      var k := FindEntry(cover, o);
      assert cover[k] in cover;
    }
    if CoveredBy(cover, o) {
      var m :| m in cover && Covers(m, o);
      var k :| 0 <= k < |cover| && cover[k] == m;
      EntrySeen(cover, k, o.port);
    }
  }

  /** One entry in the place of two that say the same and overlap or touch. */
  function JoinEntries(m: MergedEntry, n: MergedEntry): MergedEntry {
    var first, last := m.ports.First(), if m.ports.Last() < n.ports.Last() then n.ports.Last() else m.ports.Last();
    if first == last then m.(ports := Single(first), count := 1)
    else m.(ports := Range(first, last), count := if first < last then last - first + 1 else 0)
  }

  predicate Touches(m: MergedEntry, n: MergedEntry) {
    At(m, 0) == At(n, 0) && m.ports.First() <= n.ports.First() <= m.ports.Last() + 1
  }

  lemma {:induction false} JoinCovers(m: MergedEntry, n: MergedEntry, o: Seen)
    requires Proper(m) && Proper(n) && Touches(m, n)
    ensures Proper(JoinEntries(m, n)) && (Covers(JoinEntries(m, n), o) <==> Covers(m, o) || Covers(n, o))
  {
  }

  function Joined(cover: seq<MergedEntry>, j: nat, k: nat): seq<MergedEntry>
    requires j < |cover| && k < |cover|
  {
    var joined := cover[j := JoinEntries(cover[j], cover[k])];
    joined[..k] + joined[k + 1..]
  }

  lemma {:induction false} JoinedCovers(cover: seq<MergedEntry>, j: nat, k: nat, o: Seen)
    requires forall m <- cover :: Proper(m)
    requires j < |cover| && k < |cover| && j != k && Touches(cover[j], cover[k])
    ensures forall m <- Joined(cover, j, k) :: Proper(m)
    ensures CoveredBy(Joined(cover, j, k), o) <==> CoveredBy(cover, o)
  {
    var m, n, shorter := cover[j], cover[k], Joined(cover, j, k);
    JoinCovers(m, n, o);
    hide JoinEntries, Covers, Touches, Proper;
    assert JoinEntries(m, n) == shorter[if j < k then j else j - 1];
    assert forall i :: 0 <= i < |cover| && i != j && i != k ==> cover[i] == shorter[if i < k then i else i - 1];
    assert forall x :: x in shorter ==> x == JoinEntries(m, n) || x in cover;
    if CoveredBy(cover, o) {
      var x :| x in cover && Covers(x, o);
      var i :| 0 <= i < |cover| && cover[i] == x;
      assert i != j && i != k ==> x in shorter;
    }
  }

  /** A description with two such entries can do with one entry less. */
  lemma {:induction false} JoinShortens(results: seq<TestEntry>, cover: seq<MergedEntry>, j: nat, k: nat)
    requires Describes(cover, results) && j < |cover| && k < |cover| && j != k && Touches(cover[j], cover[k])
    ensures Describes(Joined(cover, j, k), results) && |Joined(cover, j, k)| == |cover| - 1
  {
    hide ExpandAll, CoveredBy, Proper, Touches, JoinEntries;
    var shorter := Joined(cover, j, k);
    JoinedCovers(cover, j, k, At(cover[j], 0));
    forall o: Seen
      ensures o in ExpandAll(shorter) <==> o in ExpandAll(cover)
    {
      JoinedCovers(cover, j, k, o);
      ExpandCovers(shorter, o);
      ExpandCovers(cover, o);
    }
  }

  lemma {:induction false} FirstsSeen(s: seq<TestEntry>, k: nat)
    requires k < |MergeAll(s)|
    ensures FirstSeen(MergeAll(s)[k]) in AllSeen(s) && Proper(MergeAll(s)[k])
  {
    MergeExpands(s);
    hide MergeAll;
    assert MergeAll(s)[k] in MergeAll(s);
    EntrySeen(MergeAll(s), k, MergeAll(s)[k].ports.First());
  }

  lemma {:induction false} OneBeforeOther(merged: seq<MergedEntry>, o: Seen, k: nat) returns (j: nat)
    requires (forall m <- merged :: Proper(m)) && o in ExpandAll(merged)
    requires k < |merged| && Precedes(o, FirstSeen(merged[k]))
    ensures j < |merged| && j != k && Touches(merged[j], merged[k])
  {
    j := FindEntry(merged, o);
    assert Covers(merged[j], o);
    hide ExpandAll, Expand, Proper;
  }

  lemma {:induction false} TwoFirsts(m: MergedEntry, n: MergedEntry)
    requires FirstSeen(m) == FirstSeen(n) && Proper(m)
    ensures Touches(m, n)
  {
  }

  /** Where the entries of a merge do not start as they should, two of them touch. */
  lemma {:induction false} TwoTouch(s: seq<TestEntry>) returns (j: nat, k: nat)
    requires !Starts(s, MergeAll(s))
    ensures j < |MergeAll(s)| && k < |MergeAll(s)| && j != k && Touches(MergeAll(s)[j], MergeAll(s)[k])
  {
    var merged := MergeAll(s);
    MergeExpands(s);
    forall k | 0 <= k < |merged|
      ensures FirstSeen(merged[k]) in AllSeen(s) && Proper(merged[k])
    {
      FirstsSeen(s, k);
    }
    hide MergeAll, FirstSeen, Touches, Precedes, Proper, ToSeen, ExpandAll;
    if k', l :| 0 <= k' < l < |merged| && FirstSeen(merged[k']) == FirstSeen(merged[l]) {
      j, k := k', l;
      TwoFirsts(merged[j], merged[k]);
    } else {
      var l, i :| 0 <= l < |merged| && 0 <= i < |s| && Precedes(ToSeen(s[i]), FirstSeen(merged[l]));
      assert AllSeen(s)[i] == ToSeen(s[i]);
      k := l;
      j := OneBeforeOther(merged, ToSeen(s[i]), k);
    }
  }

  ghost predicate Minimal(results: seq<TestEntry>) {
    forall cover | Describes(cover, results) :: |MergeAll(Sort(results))| <= |cover|
  }

  /** Minimality, exactly: no description of the results by contiguous ranges, uniform in test,
      transport, direction, status, reason and server error, is shorter than the merge if and only
      if the results are seamless. */
  lemma {:induction false} MinimalExactly(results: seq<TestEntry>)
    ensures Describes(MergeAll(Sort(results)), results)
    ensures Minimal(results) <==> Seamless(results)
  {
    var s := Sort(results);
    SortIsStable(results);
    MergeDescribes(results);
    SeamlessSort(results);
    MergeStarts(s);
    hide MergeAll, Sort, Describes, Seamless, Starts;
    if Starts(s, MergeAll(s)) {
      forall cover | Describes(cover, results)
        ensures |MergeAll(s)| <= |cover|
      {
        StartsAtMost(results, cover);
      }
    } else {
      var j, k := TwoTouch(s);
      JoinShortens(results, MergeAll(s), j, k);
    }
  }

  /** Results with distinct keys are the common case. */
  lemma {:induction false} MergeMinimal(results: seq<TestEntry>, cover: seq<MergedEntry>)
    requires DistinctKeys(results) && Describes(cover, results)
    ensures Describes(MergeAll(Sort(results)), results)
    ensures |MergeAll(Sort(results))| <= |cover|
  {
    DistinctSeamless(results);
    hide *;
    MinimalExactly(results);
    MinimalHere(results, cover);
  }

  lemma {:induction false} MinimalHere(results: seq<TestEntry>, cover: seq<MergedEntry>)
    requires Minimal(results) && Describes(cover, results)
    ensures |MergeAll(Sort(results))| <= |cover|
  {
  }

  // Three results on two ports, in an order the sort leaves alone.
  const REFUSED := Fail("refused", 0, 0)
  const TWICE_A := TestEntry("open", "tcp", 1, ClientToServer, REFUSED, None)
  const TWICE_B := TestEntry("open", "tcp", 1, ClientToServer, Pass(1, 1), None)
  const TWICE_C := TestEntry("open", "tcp", 2, ClientToServer, REFUSED, None)
  const TWICE := [TWICE_A, TWICE_B, TWICE_C]
  const TWICE_WIDE := MergedEntry("open", "tcp", Range(1, 2), ClientToServer, "fail", "refused", 2, None)

  lemma {:induction false} TwiceMerges()
    ensures MergeAll(Sort(TWICE)) == [Fresh(TWICE_A), Fresh(TWICE_B), Fresh(TWICE_C)]
  {
    StrIrreflexive("open");
    StrIrreflexive("tcp");
    StrIrreflexive("->");
    assert TWICE[1..] == [TWICE_B, TWICE_C] && [TWICE_B, TWICE_C][1..] == [TWICE_C] && [TWICE_C][1..] == [];
    assert Sort([TWICE_C]) == [TWICE_C];
    assert Sort([TWICE_B, TWICE_C]) == [TWICE_B, TWICE_C];
    assert Sort(TWICE) == TWICE;
    assert TWICE[..2] == [TWICE_A, TWICE_B] && [TWICE_A, TWICE_B][..1] == [TWICE_A] && [TWICE_A][..0] == [];
    assert MergeAll([TWICE_A]) == [Fresh(TWICE_A)];
    assert MergeAll([TWICE_A, TWICE_B]) == [Fresh(TWICE_A), Fresh(TWICE_B)];
  }

  lemma {:induction false} TwiceExpands()
    ensures Proper(TWICE_WIDE) && Expand(TWICE_WIDE) == [ToSeen(TWICE_A), ToSeen(TWICE_C)]
  {
    ExpandAt(TWICE_WIDE, 0);
    ExpandAt(TWICE_WIDE, 1);
  }

  lemma {:induction false} ExpandTwo(a: MergedEntry, b: MergedEntry)
    requires Proper(a) && Proper(b)
    ensures ExpandAll([a, b]) == Expand(a) + Expand(b)
  {
    assert [a, b][..1] == [a] && [a][..0] == [];
    assert ExpandAll([a]) == [] + Expand(a);
  }

  lemma {:induction false} TwiceCover()
    ensures Describes([TWICE_WIDE, Fresh(TWICE_B)], TWICE)
  {
    TwiceExpands();
    ExpandFresh(TWICE_B);
    ExpandTwo(TWICE_WIDE, Fresh(TWICE_B));
    assert AllSeen(TWICE) == [ToSeen(TWICE_A), ToSeen(TWICE_B), ToSeen(TWICE_C)];
    hide ExpandAll, Expand, Proper, AllSeen, ToSeen, Fresh;
  }

  /** Results that are not seamless: a port tested twice with different outcomes splits a range
      that two entries would describe. */
  lemma {:induction false} DuplicatesNotMinimal()
    ensures var cover := [TWICE_WIDE, Fresh(TWICE_B)];
            Describes(cover, TWICE) && |cover| < |MergeAll(Sort(TWICE))|
    ensures !DistinctKeys(TWICE) && !Seamless(TWICE)
  {
    TwiceMerges();
    TwiceCover();
    MinimalExactly(TWICE);
    assert KeyOf(TWICE[0]) == KeyOf(TWICE[1]);
    hide Seamless, MergeAll, Sort, Describes;
    if Seamless(TWICE) {
      MinimalHere(TWICE, [TWICE_WIDE, Fresh(TWICE_B)]);
    }
  }

  // ----- independence of the order of the results -----

  /** Results with equal keys say the same. */
  ghost predicate KeysDecide(s: seq<TestEntry>) {
    forall a, b :: a in s && b in s && KeyOf(a) == KeyOf(b) ==> ToSeen(a) == ToSeen(b)
  }

  ghost predicate SeenOrdered(s: seq<Seen>) {
    forall i, j :: 0 <= i < j < |s| ==> !KeyLess(SeenKey(s[j]), SeenKey(s[i]))
  }

  ghost predicate SeenDecided(s: seq<Seen>) {
    forall o, p :: o in s && p in s && SeenKey(o) == SeenKey(p) ==> o == p
  }

  lemma {:induction false} HeadLeast(s: seq<Seen>, o: Seen)
    requires SeenOrdered(s) && o in s
    ensures !KeyLess(SeenKey(o), SeenKey(s[0]))
  {
    var i :| 0 <= i < |s| && s[i] == o;
    KeyIrreflexive(SeenKey(o));
  }

  lemma {:induction false} OrderedHeads(a: seq<Seen>, b: seq<Seen>)
    requires SeenOrdered(a) && SeenOrdered(b) && SeenDecided(a) && multiset(a) == multiset(b) && a != []
    ensures b != [] && a[0] == b[0] && multiset(a[1..]) == multiset(b[1..])
  {
    assert |multiset(a)| == |a| && |multiset(b)| == |b|;
    assert a[0] in multiset(b) && b[0] in multiset(a);
    assert a[0] in b && b[0] in a;
    HeadLeast(a, b[0]);
    HeadLeast(b, a[0]);
    KeyTotal(SeenKey(a[0]), SeenKey(b[0]));
    assert a[0] == b[0];
    hide SeenOrdered, KeyLess, SeenKey, SeenDecided;
    TailMultiset(a);
    TailMultiset(b);
  }

  lemma {:induction false} TailMultiset<T>(a: seq<T>)
    requires a != []
    ensures multiset(a[1..]) == multiset(a) - multiset{a[0]}
  {
    assert a == [a[0]] + a[1..];
  }

  lemma {:induction false} OrderedUnique(a: seq<Seen>, b: seq<Seen>)
    requires SeenOrdered(a) && SeenOrdered(b) && SeenDecided(a) && multiset(a) == multiset(b)
    ensures a == b
  {
    if a == [] {
      assert |multiset(b)| == |b| == 0;
    } else {
      OrderedHeads(a, b);
      hide KeyLess, SeenKey;
      OrderedUnique(a[1..], b[1..]);
      assert a == [a[0]] + a[1..] && b == [b[0]] + b[1..];
    }
  }

  /** The merge looks only at what `AllSeen` keeps. */
  lemma {:induction false} MergeSeen(a: seq<TestEntry>, b: seq<TestEntry>)
    requires AllSeen(a) == AllSeen(b)
    ensures MergeAll(a) == MergeAll(b)
  {
    assert |AllSeen(a)| == |a| && |AllSeen(b)| == |b|;
    if a == [] {
    } else {
      var n := |a| - 1;
      SeenPrefix(a, n);
      SeenPrefix(b, n);
      MergeSeen(a[..n], b[..n]);
      AbsorbSeen(MergeAll(a[..n]), a[n], b[n]);
    }
  }

  lemma {:induction false} SeenPrefix(s: seq<TestEntry>, n: nat)
    requires n < |s|
    ensures AllSeen(s)[n] == ToSeen(s[n]) && AllSeen(s[..n]) == AllSeen(s)[..n]
  {
  }

  lemma {:induction false} AbsorbSeen(merged: seq<MergedEntry>, d: TestEntry, e: TestEntry)
    requires ToSeen(d) == ToSeen(e)
    ensures Absorb(merged, d) == Absorb(merged, e)
  {
  }

  lemma {:induction false} SortedSeen(s: seq<TestEntry>)
    ensures SeenOrdered(AllSeen(Sort(s))) && multiset(AllSeen(Sort(s))) == multiset(AllSeen(s))
  {
    SortIsStable(s);
    SeenMultiset(Sort(s), s);
  }

  lemma {:induction false} SameMerge(a: seq<TestEntry>, b: seq<TestEntry>)
    requires KeysDecide(a) && multiset(a) == multiset(b)
    ensures MergeAll(Sort(a)) == MergeAll(Sort(b))
  {
    hide Sort, SeenOrdered, MergeAll;
    SortedSeen(a);
    SortedSeen(b);
    SeenMultiset(a, b);
    var x, y := AllSeen(Sort(a)), AllSeen(Sort(b));
    forall o, p | o in x && p in x && SeenKey(o) == SeenKey(p)
      ensures o == p
    {
      assert o in multiset(x) && p in multiset(x);
      assert o in multiset(AllSeen(a)) && p in multiset(AllSeen(a));
      var i :| 0 <= i < |a| && AllSeen(a)[i] == o;
      var j :| 0 <= j < |a| && AllSeen(a)[j] == p;
      assert a[i] in a && a[j] in a;
    }
    OrderedUnique(x, y);
    MergeSeen(Sort(a), Sort(b));
  }

  lemma {:induction false} SelectSeen(a: seq<TestEntry>, b: seq<TestEntry>, k: Key)
    requires AllSeen(a) == AllSeen(b)
    ensures AllSeen(Select(a, k)) == AllSeen(Select(b, k))
  {
    assert |AllSeen(a)| == |a| && |AllSeen(b)| == |b|;
    if a == [] {
    } else {
      assert AllSeen(a)[0] == ToSeen(a[0]) && AllSeen(b)[0] == ToSeen(b[0]);
      assert AllSeen(a[1..]) == AllSeen(a)[1..] == AllSeen(b)[1..] == AllSeen(b[1..]);
      SelectSeen(a[1..], b[1..], k);
      SeenAppend([a[0]], Select(a[1..], k));
      SeenAppend([b[0]], Select(b[1..], k));
      assert AllSeen([a[0]]) == [ToSeen(a[0])] && AllSeen([b[0]]) == [ToSeen(b[0])];
      if KeyOf(a[0]) != k {
        assert [] + Select(a[1..], k) == Select(a[1..], k);
        assert [] + Select(b[1..], k) == Select(b[1..], k);
      }
    }
  }

  /** Two results with one key: swapping them shows in the export unless they say the same. */
  lemma {:induction false} SwapShows(x: TestEntry, y: TestEntry, rest: seq<TestEntry>)
    requires KeyOf(x) == KeyOf(y)
    ensures MergeAll(Sort([x, y] + rest)) == MergeAll(Sort([y, x] + rest)) ==> ToSeen(x) == ToSeen(y)
  {
    var a, b := [x, y] + rest, [y, x] + rest;
    if MergeAll(Sort(a)) == MergeAll(Sort(b)) {
      MergeExpands(Sort(a));
      MergeExpands(Sort(b));
      SortIsStable(a);
      SortIsStable(b);
      var k := KeyOf(x);
      SelectSeen(Sort(a), Sort(b), k);
      assert Select(a, k)[0] == x && Select(b, k)[0] == y;
      assert AllSeen(Select(a, k))[0] == ToSeen(x) && AllSeen(Select(b, k))[0] == ToSeen(y);
    }
  }

  lemma {:induction false} OtherStays<T>(s: seq<T>, i: nat, y: T)
    requires i < |s| && y in s && s[i] != y
    ensures y in s[..i] + s[i + 1..]
  {
    var k :| 0 <= k < |s| && s[k] == y;
    assert (s[..i] + s[i + 1..])[if k < i then k else k - 1] == y;
  }

  lemma {:induction false} TwoFirst<T>(x: T, y: T, rest: seq<T>)
    ensures multiset([x, y] + rest) == multiset{x} + (multiset{y} + multiset(rest))
  {
  }

  lemma {:induction false} BringForward<T>(s: seq<T>, x: T, y: T) returns (rest: seq<T>)
    requires x in s && y in s && x != y
    ensures multiset([x, y] + rest) == multiset(s) == multiset([y, x] + rest)
  {
    var i :| 0 <= i < |s| && s[i] == x;
    var t := s[..i] + s[i + 1..];
    TakeOut(s, i);
    OtherStays(s, i, y);
    var j :| 0 <= j < |t| && t[j] == y;
    rest := t[..j] + t[j + 1..];
    TakeOut(t, j);
    TwoFirst(x, y, rest);
    TwoFirst(y, x, rest);
  }

  ghost predicate OrderFree(results: seq<TestEntry>) {
    forall other: seq<TestEntry> | multiset(other) == multiset(results) ::
      MergeAll(Sort(other)) == MergeAll(Sort(results))
  }

  lemma {:induction false} OrderFreeDecides(results: seq<TestEntry>, x: TestEntry, y: TestEntry)
    requires OrderFree(results) && x in results && y in results && KeyOf(x) == KeyOf(y)
    ensures ToSeen(x) == ToSeen(y)
  {
    if x != y {
      var rest := BringForward(results, x, y);
      SwapShows(x, y, rest);
    }
  }

  /** The export is the same for every order of the results if and only if results with equal
      keys say the same. Distinct keys are the common case. */
  lemma {:induction false} MergeOrderFree(results: seq<TestEntry>)
    ensures OrderFree(results) <==> KeysDecide(results)
    ensures DistinctKeys(results) ==> KeysDecide(results)
  {
    hide MergeAll, Sort;
    if KeysDecide(results) {
      forall other: seq<TestEntry> | multiset(other) == multiset(results)
        ensures MergeAll(Sort(other)) == MergeAll(Sort(results))
      {
        SameMerge(results, other);
      }
    }
    if OrderFree(results) {
      forall x, y | x in results && y in results && KeyOf(x) == KeyOf(y)
        ensures ToSeen(x) == ToSeen(y)
      {
        OrderFreeDecides(results, x, y);
      }
    }
  }

  // ----- the counters -----

  function CountStatus(s: seq<TestEntry>, status: string): nat {
    if s == [] then 0 else (if Status(s[0].result) == status then 1 else 0) + CountStatus(s[1..], status)
  }

  function SumCounts(merged: seq<MergedEntry>, status: string): nat {
    if merged == [] then 0
    else
      var n := |merged| - 1;
      SumCounts(merged[..n], status) + (if merged[n].status == status then merged[n].count else 0)
  }

  lemma {:induction false} CountAppend(a: seq<TestEntry>, e: TestEntry, status: string)
    ensures CountStatus(a + [e], status) == CountStatus(a, status) + (if Status(e.result) == status then 1 else 0)
  {
    if a != [] {
      assert (a + [e])[1..] == a[1..] + [e];
      CountAppend(a[1..], e, status);
    } else {
      assert (a + [e])[1..] == [];
    }
  }

  lemma {:induction false} CountInsert(e: TestEntry, s: seq<TestEntry>, status: string)
    ensures CountStatus(Insert(e, s), status) == CountStatus(s, status) + (if Status(e.result) == status then 1 else 0)
  {
    if s != [] && KeyLess(KeyOf(s[0]), KeyOf(e)) {
      CountInsert(e, s[1..], status);
    } else {
      assert ([e] + s)[1..] == s;
    }
  }

  lemma {:induction false} CountSort(s: seq<TestEntry>, status: string)
    ensures CountStatus(Sort(s), status) == CountStatus(s, status)
  {
    if s == [] {
    } else {
      CountSort(s[1..], status);
      CountInsert(s[0], Sort(s[1..]), status);
    }
  }

  lemma {:induction false} SumMerge(s: seq<TestEntry>, status: string)
    ensures SumCounts(MergeAll(s), status) == CountStatus(s, status)
  {
    if s == [] {
    } else {
      var n := |s| - 1;
      var before, e := s[..n], s[n];
      var merged := MergeAll(before);
      assert s == before + [e];
      SumMerge(before, status);
      CountAppend(before, e, status);
      var after := MergeAll(s);
      if merged != [] && Extends(merged[|merged| - 1], e) {
        assert after[..|after| - 1] == merged[..|merged| - 1];
      } else {
        assert after[..|after| - 1] == merged;
      }
    }
  }

  /** The counts of the exported entries of each status add up to the number of such results. */
  lemma {:induction false} CountsMatch(results: seq<TestEntry>, status: string)
    ensures SumCounts(MergeAll(Sort(results)), status) == CountStatus(results, status)
  {
    SumMerge(Sort(results), status);
    CountSort(results, status);
  }
}
