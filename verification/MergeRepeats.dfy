/** How good the merge is when results are repeated: minimality among descriptions that keep every
    result as often as it occurs. */
module MergeRepeats {
  import opened Messages
  import opened ClientBatch
  import opened Merge
  import opened MergeTheorems

  /** A description by contiguous uniform ranges that says each result as often as it occurs. */
  ghost predicate Counts(cover: seq<MergedEntry>, results: seq<TestEntry>) {
    (forall m <- cover :: Proper(m)) && multiset(ExpandAll(cover)) == multiset(AllSeen(results))
  }

  function EndSeen(m: MergedEntry): Seen {
    At(m, m.ports.Last())
  }

  // ----- counting entries -----

  function FirstSeens(cover: seq<MergedEntry>): seq<Seen> {
    seq(|cover|, i requires 0 <= i < |cover| => FirstSeen(cover[i]))
  }

  /** How many entries start at `o`. */
  function StartsAt(cover: seq<MergedEntry>, o: Seen): nat {
    if cover == [] then 0
    else StartsAt(cover[..|cover| - 1], o) + (if FirstSeen(cover[|cover| - 1]) == o then 1 else 0)
  }

  /** How many entries cover `o`. */
  function Holding(cover: seq<MergedEntry>, o: Seen): nat {
    if cover == [] then 0
    else Holding(cover[..|cover| - 1], o) + (if Covers(cover[|cover| - 1], o) then 1 else 0)
  }

  lemma {:induction false} StartsCounted(cover: seq<MergedEntry>, o: Seen)
    ensures StartsAt(cover, o) == multiset(FirstSeens(cover))[o]
  {
    if cover == [] {
    } else {
      var n := |cover| - 1;
      StartsCounted(cover[..n], o);
      assert FirstSeens(cover) == FirstSeens(cover[..n]) + [FirstSeen(cover[n])];
    }
  }

  lemma {:induction false} ExpandOnce(m: MergedEntry, o: Seen)
    requires Proper(m)
    ensures multiset(Expand(m))[o] == if Covers(m, o) then 1 else 0
  {
    var all := Expand(m);
    forall j: nat | j < m.count
      ensures all[j] == At(m, m.ports.First() + j)
    {
      ExpandAt(m, j);
    }
    if Covers(m, o) {
      var i := o.port - m.ports.First();
      assert all[i] == o;
      hide Expand;
      Once(all, i);
    } else {
      assert o !in all;
      assert o !in multiset(all);
    }
  }

  lemma {:induction false} HoldingCounted(cover: seq<MergedEntry>, o: Seen)
    requires forall m <- cover :: Proper(m)
    ensures Holding(cover, o) == multiset(ExpandAll(cover))[o]
  {
    if cover == [] {
    } else {
      var n := |cover| - 1;
      assert cover[n] in cover;
      HoldingCounted(cover[..n], o);
      ExpandOnce(cover[n], o);
      hide Covers, Proper, Expand;
    }
  }

  function Before(o: Seen): Seen
    requires o.port > 0
  {
    o.(port := o.port - 1)
  }

  lemma {:induction false} CoversBefore(m: MergedEntry, o: Seen)
    requires Proper(m)
    ensures FirstSeen(m) == o ==> Covers(m, o) && (o.port > 0 ==> !Covers(m, Before(o)))
    ensures Covers(m, o) && FirstSeen(m) != o ==> o.port > 0 && Covers(m, Before(o))
    ensures o.port > 0 && Covers(m, Before(o)) && EndSeen(m) != Before(o) ==> Covers(m, o)
  {
  }

  /** An entry that covers a result starts there or covers its predecessor. */
  lemma {:induction false} StartsNeeded(cover: seq<MergedEntry>, o: Seen)
    requires forall m <- cover :: Proper(m)
    ensures Holding(cover, o) <= StartsAt(cover, o) + (if o.port == 0 then 0 else Holding(cover, Before(o)))
  {
    if cover == [] {
    } else {
      var n := |cover| - 1;
      assert cover[n] in cover;
      StartsNeeded(cover[..n], o);
      CoversBefore(cover[n], o);
      hide Covers, Proper, FirstSeen, Before;
    }
  }

  /** Where no entry ends at the predecessor, no entry starts without need. */
  lemma {:induction false} StartsUsed(cover: seq<MergedEntry>, o: Seen)
    requires forall m <- cover :: Proper(m) && (o.port > 0 ==> EndSeen(m) != Before(o))
    ensures Holding(cover, o) == StartsAt(cover, o) + (if o.port == 0 then 0 else Holding(cover, Before(o)))
  {
    if cover == [] {
    } else {
      var n := |cover| - 1;
      assert cover[n] in cover;
      StartsUsed(cover[..n], o);
      CoversBefore(cover[n], o);
      hide Covers, Proper, FirstSeen, Before, EndSeen;
    }
  }

  // ----- no two entries abut -----

  /** No entry begins where another that says the same has ended. */
  ghost predicate NoneAbut(cover: seq<MergedEntry>) {
    forall m, n :: m in cover && n in cover ==> !Precedes(EndSeen(m), FirstSeen(n))
  }

  lemma {:induction false} NoneEndsBefore(cover: seq<MergedEntry>, o: Seen)
    requires NoneAbut(cover) && StartsAt(cover, o) > 0
    ensures forall m <- cover :: o.port > 0 ==> EndSeen(m) != Before(o)
  {
    StartsCounted(cover, o);
    assert o in multiset(FirstSeens(cover));
    var i :| 0 <= i < |FirstSeens(cover)| && FirstSeens(cover)[i] == o;
    assert cover[i] in cover && FirstSeen(cover[i]) == o;
  }

  /** Entries that are apart are no more than any description of the same results needs. */
  lemma {:induction false} ApartAtMost(merged: seq<MergedEntry>, cover: seq<MergedEntry>)
    requires (forall m <- merged :: Proper(m)) && (forall m <- cover :: Proper(m))
    requires multiset(ExpandAll(merged)) == multiset(ExpandAll(cover)) && NoneAbut(merged)
    ensures |merged| <= |cover|
  {
    hide Proper, ExpandAll, NoneAbut, Holding, StartsAt, FirstSeens, EndSeen;
    forall o: Seen
      ensures multiset(FirstSeens(merged))[o] <= multiset(FirstSeens(cover))[o]
    {
      StartsCounted(merged, o);
      StartsCounted(cover, o);
      if StartsAt(merged, o) > 0 {
        NoneEndsBefore(merged, o);
        StartsUsed(merged, o);
        StartsNeeded(cover, o);
        SameHolding(merged, cover, o);
        if o.port > 0 {
          SameHolding(merged, cover, Before(o));
        }
      }
    }
    assert multiset(FirstSeens(merged)) <= multiset(FirstSeens(cover));
    Fewer(FirstSeens(merged), FirstSeens(cover));
    SameLength(merged);
    SameLength(cover);
  }

  lemma {:induction false} SameLength(cover: seq<MergedEntry>)
    ensures |FirstSeens(cover)| == |cover|
  {
  }

  lemma {:induction false} SameHolding(a: seq<MergedEntry>, b: seq<MergedEntry>, o: Seen)
    requires (forall m <- a :: Proper(m)) && (forall m <- b :: Proper(m)) && multiset(ExpandAll(a)) == multiset(ExpandAll(b))
    ensures Holding(a, o) == Holding(b, o)
  {
    HoldingCounted(a, o);
    HoldingCounted(b, o);
  }

  lemma {:induction false} Fewer<T>(a: seq<T>, b: seq<T>)
    requires multiset(a) <= multiset(b)
    ensures |a| <= |b|
  {
    assert multiset(b) == multiset(a) + (multiset(b) - multiset(a));
    assert |multiset(a)| == |a| && |multiset(b)| == |b|;
  }

  // ----- joining entries that abut -----

  function One(m: MergedEntry, o: Seen): nat {
    if Covers(m, o) then 1 else 0
  }

  lemma {:induction false} HoldingAppend(a: seq<MergedEntry>, b: seq<MergedEntry>, o: Seen)
    ensures Holding(a + b, o) == Holding(a, o) + Holding(b, o)
  {
    if b == [] {
      assert a + b == a;
    } else {
      var n := |b| - 1;
      assert (a + b)[..|a + b| - 1] == a + b[..n];
      HoldingAppend(a, b[..n], o);
      hide Covers;
    }
  }

  lemma {:induction false} HoldingTakeOut(cover: seq<MergedEntry>, k: nat, o: Seen)
    requires k < |cover|
    ensures Holding(cover, o) == Holding(cover[..k] + cover[k + 1..], o) + One(cover[k], o)
  {
    assert cover == (cover[..k] + [cover[k]]) + cover[k + 1..];
    assert [cover[k]][..0] == [];
    assert Holding([cover[k]], o) == One(cover[k], o);
    hide Holding, One;
    HoldingAppend(cover[..k] + [cover[k]], cover[k + 1..], o);
    HoldingAppend(cover[..k], [cover[k]], o);
    HoldingAppend(cover[..k], cover[k + 1..], o);
  }

  lemma {:induction false} HoldingReplace(cover: seq<MergedEntry>, j: nat, m: MergedEntry, o: Seen)
    requires j < |cover|
    ensures Holding(cover[j := m], o) + One(cover[j], o) == Holding(cover, o) + One(m, o)
  {
    HoldingTakeOut(cover, j, o);
    HoldingTakeOut(cover[j := m], j, o);
    assert cover[j := m][..j] == cover[..j] && cover[j := m][j + 1..] == cover[j + 1..];
  }

  lemma {:induction false} JoinAbutting(m: MergedEntry, n: MergedEntry, o: Seen)
    requires Proper(m) && Proper(n) && Precedes(EndSeen(m), FirstSeen(n))
    ensures Touches(m, n) && Proper(JoinEntries(m, n)) && One(JoinEntries(m, n), o) == One(m, o) + One(n, o)
  {
    JoinCovers(m, n, o);
  }

  /** Two entries that abut can be one. */
  lemma {:induction false} AbuttingShortens(cover: seq<MergedEntry>, j: nat, k: nat)
    requires forall m <- cover :: Proper(m)
    requires j < |cover| && k < |cover| && Precedes(EndSeen(cover[j]), FirstSeen(cover[k]))
    ensures j != k
    ensures var shorter := Joined(cover, j, k);
            && (forall m <- shorter :: Proper(m)) && |shorter| == |cover| - 1
            && multiset(ExpandAll(shorter)) == multiset(ExpandAll(cover))
  {
    var m, n := cover[j], cover[k];
    assert m in cover && n in cover && Proper(m);
    assert j != k;
    JoinAbutting(m, n, EndSeen(m));
    hide Precedes, EndSeen, FirstSeen, ExpandAll, Holding, One, Touches, Proper, Covers, CoveredBy;
    var joined := cover[j := JoinEntries(m, n)];
    var shorter := Joined(cover, j, k);
    hide JoinEntries;
    JoinedCovers(cover, j, k, FirstSeen(m));
    forall o: Seen
      ensures multiset(ExpandAll(shorter))[o] == multiset(ExpandAll(cover))[o]
    {
      JoinAbutting(m, n, o);
      HoldingReplace(cover, j, JoinEntries(m, n), o);
      HoldingTakeOut(joined, k, o);
      HoldingCounted(shorter, o);
      HoldingCounted(cover, o);
    }
  }

  // ----- where entries end -----

  /** The pass closes an entry here: nothing follows, or what does is no direct successor. */
  predicate IsClosing(s: seq<TestEntry>, q: nat) {
    q < |s| && (q == |s| - 1 || !Precedes(ToSeen(s[q]), ToSeen(s[q + 1])))
  }

  /** The position at which the k-th entry ends. */
  function EndAt(s: seq<TestEntry>, k: nat): int {
    (if k + 1 < |Openings(s)| then Openings(s)[k + 1] else |s|) - 1
  }

  lemma {:induction false} AbsorbEnds(merged: seq<MergedEntry>, e: TestEntry)
    ensures var after := Absorb(merged, e);
            && after != [] && EndSeen(after[|after| - 1]) == ToSeen(e)
            && forall k :: 0 <= k < |after| - 1 ==> k < |merged| && EndSeen(after[k]) == EndSeen(merged[k])
  {
  }

  lemma {:induction false} FirstOpens(s: seq<TestEntry>)
    requires s != []
    ensures Openings(s) != [] && Openings(s)[0] == 0
  {
    assert IsOpening(s, 0);
    var r := Openings(s);
    var i :| 0 <= i < |r| && r[i] == 0;
    hide Openings;
  }

  lemma {:induction false} EndNext(s: seq<TestEntry>, k: nat)
    requires s != [] && k < |Openings(s)| - 1
    ensures k < |Openings(s[..|s| - 1])| && 0 <= EndAt(s, k) < |s| - 1 && EndAt(s, k) == EndAt(s[..|s| - 1], k)
  {
    OpeningsNext(s);
    assert Openings(s)[k] < Openings(s)[k + 1];
    hide IsOpening, Openings;
  }

  lemma {:induction false} LastEnd(s: seq<TestEntry>)
    requires s != []
    ensures Openings(s) != [] && EndAt(s, |Openings(s)| - 1) == |s| - 1
  {
    FirstOpens(s);
    hide Openings;
  }

  /** One more result: the last entry ends with it, the others end where they did. */
  lemma {:induction false} AbsorbsLast(s: seq<TestEntry>)
    requires s != []
    ensures var prior, merged := MergeAll(s[..|s| - 1]), MergeAll(s);
            && |prior| == |Openings(s[..|s| - 1])| && |merged| == |Openings(s)| > 0
            && EndSeen(merged[|merged| - 1]) == ToSeen(s[|s| - 1])
            && forall k :: 0 <= k < |merged| - 1 ==> k < |prior| && EndSeen(merged[k]) == EndSeen(prior[k])
  {
    MergeOpens(s);
    MergeOpens(s[..|s| - 1]);
    AbsorbsUnlessOpening(s);
    hide *;
    AbsorbEnds(MergeAll(s[..|s| - 1]), s[|s| - 1]);
  }

  /** The merged entries end directly before the next opening. */
  lemma {:induction false} MergeCloses(s: seq<TestEntry>, k: nat)
    requires k < |Openings(s)|
    ensures |MergeAll(s)| == |Openings(s)| && 0 <= EndAt(s, k) < |s|
    ensures EndSeen(MergeAll(s)[k]) == ToSeen(s[EndAt(s, k)])
  {
    assert s != [];
    hide *;
    AbsorbsLast(s);
    LastEnd(s);
    if k < |Openings(s)| - 1 {
      EndNext(s, k);
      MergeCloses(s[..|s| - 1], k);
      var q := EndAt(s, k);
      assert s[..|s| - 1][q] == s[q];
    }
  }

  lemma {:induction false} EndsClosing(s: seq<TestEntry>, k: nat)
    requires k < |Openings(s)|
    ensures EndAt(s, k) >= 0 && IsClosing(s, EndAt(s, k))
  {
    MergeCloses(s, k);
    if k + 1 < |Openings(s)| {
      assert IsOpening(s, Openings(s)[k + 1]);
    }
    hide Precedes, ToSeen, Openings, MergeAll;
  }

  lemma {:induction false} ClosingEnds(s: seq<TestEntry>, q: nat) returns (k: nat)
    requires IsClosing(s, q)
    ensures k < |Openings(s)| && EndAt(s, k) == q
  {
    FirstOpens(s);
    var r := Openings(s);
    if q == |s| - 1 {
      k := |r| - 1;
    } else {
      assert IsOpening(s, q + 1);
      var i :| 0 <= i < |r| && r[i] == q + 1;
      k := i - 1;
    }
    hide Openings, Precedes;
  }

  /** The entries of a merge are apart when no opening follows on a closing that says the same. */
  ghost predicate ApartAt(s: seq<TestEntry>) {
    forall q: nat, r: nat :: IsClosing(s, q) && IsOpening(s, r) ==> !Precedes(ToSeen(s[q]), ToSeen(s[r]))
  }

  lemma {:induction false} ApartIfAt(s: seq<TestEntry>, j: nat, k: nat)
    requires ApartAt(s) && j < |MergeAll(s)| && k < |MergeAll(s)|
    ensures !Precedes(EndSeen(MergeAll(s)[j]), FirstSeen(MergeAll(s)[k]))
  {
    MergeOpens(s);
    MergeCloses(s, j);
    EndsClosing(s, j);
    assert IsOpening(s, Openings(s)[k]);
    hide MergeAll, Openings, EndAt, EndSeen, FirstSeen, Precedes, ToSeen, IsOpening, IsClosing;
  }

  lemma {:induction false} AtIfApart(s: seq<TestEntry>, q: nat, r: nat)
    requires NoneAbut(MergeAll(s)) && IsClosing(s, q) && IsOpening(s, r)
    ensures q < |s| && r < |s| && !Precedes(ToSeen(s[q]), ToSeen(s[r]))
  {
    var merged, at := MergeAll(s), Openings(s);
    MergeOpens(s);
    var j := ClosingEnds(s, q);
    MergeCloses(s, j);
    assert r in at;
    hide MergeAll, Openings, EndAt, EndSeen, FirstSeen, Precedes, ToSeen, IsClosing;
    var k :| 0 <= k < |at| && at[k] == r;
    assert merged[j] in merged && merged[k] in merged;
  }

  lemma {:induction false} MergeApart(s: seq<TestEntry>)
    ensures NoneAbut(MergeAll(s)) <==> ApartAt(s)
  {
    var merged := MergeAll(s);
    hide MergeAll, EndSeen, FirstSeen, Precedes, ToSeen, IsOpening, IsClosing;
    if ApartAt(s) {
      forall m, n | m in merged && n in merged
        ensures !Precedes(EndSeen(m), FirstSeen(n))
      {
        var j :| 0 <= j < |merged| && merged[j] == m;
        var k :| 0 <= k < |merged| && merged[k] == n;
        ApartIfAt(s, j, k);
      }
    }
    if NoneAbut(merged) {
      forall q: nat, r: nat | IsClosing(s, q) && IsOpening(s, r)
        ensures q < |s| && r < |s| && !Precedes(ToSeen(s[q]), ToSeen(s[r]))
      {
        AtIfApart(s, q, r);
      }
    }
  }

  // ----- the condition on the results -----

  /** The last result with key `k` and the first with key `l` say the same of neighbouring ports. */
  predicate Meet(s: seq<TestEntry>, k: Key, l: Key) {
    var lower, upper := Select(s, k), Select(s, l);
    lower != [] && upper != [] && Precedes(ToSeen(lower[|lower| - 1]), ToSeen(upper[0]))
  }

  /** The x-th result with key `k` and the y-th with key `l` say the same of neighbouring ports. */
  predicate Neighbours(s: seq<TestEntry>, k: Key, x: nat, l: Key, y: nat) {
    x < |Select(s, k)| && y < |Select(s, l)| && Precedes(ToSeen(Select(s, k)[x]), ToSeen(Select(s, l)[y]))
  }

  /** Wherever two results say the same of neighbouring ports, the last result of the lower port and the
      first of the upper do, and one of the two is that last or that first. */
  ghost predicate Smooth(s: seq<TestEntry>) {
    forall k, x: nat, l, y: nat :: Neighbours(s, k, x, l, y) ==> Meet(s, k, l) && (x == |Select(s, k)| - 1 || y == 0)
  }

  lemma {:induction false} SmoothSort(results: seq<TestEntry>)
    ensures Smooth(Sort(results)) <==> Smooth(results)
  {
    SortIsStable(results);
    hide Sort, Select, Precedes, ToSeen;
    assert forall k, x: nat, l, y: nat :: Neighbours(results, k, x, l, y) <==> Neighbours(Sort(results), k, x, l, y);
    assert forall k, l :: Meet(results, k, l) <==> Meet(Sort(results), k, l);
  }

  lemma {:induction false} TailSlices<T>(s: seq<T>, f: nat, l: nat)
    requires s != [] && f <= l <= |s|
    ensures f > 0 ==> s[1..][f - 1..l - 1] == s[f..l]
    ensures f == 0 && l > 0 ==> [s[0]] + s[1..][0..l - 1] == s[f..l]
  {
  }

  lemma {:induction false} SelectBlock(s: seq<TestEntry>, k: Key, f: nat, l: nat)
    requires f <= l <= |s|
    requires forall j :: 0 <= j < |s| ==> (KeyOf(s[j]) == k <==> f <= j < l)
    ensures Select(s, k) == s[f..l]
  {
    hide KeyOf;
    if s == [] {
    } else {
      TailSlices(s, f, l);
      SelectBlock(s[1..], k, if f > 0 then f - 1 else 0, if l > 0 then l - 1 else 0);
      assert KeyOf(s[0]) == k <==> f == 0 < l;
    }
  }

  /** In ordered results those with one key stand together. */
  lemma {:induction false} OrderedBlock(s: seq<TestEntry>, i: nat) returns (f: nat, l: nat)
    requires Ordered(s) && i < |s|
    ensures f <= i < l <= |s| && Select(s, KeyOf(s[i])) == s[f..l]
    ensures forall j :: 0 <= j < |s| ==> (KeyOf(s[j]) == KeyOf(s[i]) <==> f <= j < l)
  {
    var first, last := SelectEnds(s, i);
    f, l := first, last + 1;
    forall j | first <= j <= last
      ensures KeyOf(s[j]) == KeyOf(s[i])
    {
      KeyTotal(KeyOf(s[j]), KeyOf(s[i]));
      KeyIrreflexive(KeyOf(s[i]));
    }
    hide KeyOf, KeyLess;
    SelectBlock(s, KeyOf(s[i]), f, l);
  }

  /** The blocks of neighbours are next to each other. */
  lemma {:induction false} BlocksMeet(s: seq<TestEntry>, q: nat, r: nat) returns (f: nat, b: nat, l: nat)
    requires Ordered(s) && q < |s| && r < |s| && Precedes(ToSeen(s[q]), ToSeen(s[r]))
    ensures f <= q < b <= r < l <= |s|
    ensures Select(s, KeyOf(s[q])) == s[f..b] && Select(s, KeyOf(s[r])) == s[b..l]
    ensures forall j :: f <= j < b ==> KeyOf(s[j]) == KeyOf(s[q])
    ensures forall j :: b <= j < l ==> KeyOf(s[j]) == KeyOf(s[r])
    ensures KeyOf(s[q]) != KeyOf(s[r])
  {
    PrecedesBefore(s, q, r);
    KeyIrreflexive(KeyOf(s[q]));
    var b', l': nat;
    f, b := OrderedBlock(s, q);
    b', l := OrderedBlock(s, r);
    hide Ordered, KeyOf, KeyLess, Precedes, Select, ToSeen;
    assert KeyOf(s[b']) == KeyOf(s[r]);
    if b < b' {
      BetweenShares(s, q, b, r);
    }
  }

  lemma {:induction false} SameKeyApart(s: seq<TestEntry>, i: nat, j: nat)
    requires i < |s| && j < |s| && KeyOf(s[i]) == KeyOf(s[j])
    ensures !Precedes(ToSeen(s[i]), ToSeen(s[j]))
  {
  }

  /** Neighbours in ordered results are kept apart only if something is wrong with their blocks. */
  lemma {:induction false} NeighboursApart(s: seq<TestEntry>, q: nat, f: nat, b: nat, l: nat, r: nat)
    requires f <= q < b <= r < l <= |s|
    requires forall j :: f <= j < b ==> KeyOf(s[j]) == KeyOf(s[q])
    requires forall j :: b <= j < l ==> KeyOf(s[j]) == KeyOf(s[r])
    ensures IsClosing(s, q) <==> q != b - 1 || !Precedes(ToSeen(s[b - 1]), ToSeen(s[b]))
    ensures IsOpening(s, r) <==> r != b || !Precedes(ToSeen(s[b - 1]), ToSeen(s[b]))
  {
    hide KeyOf, Precedes, ToSeen;
    if q != b - 1 {
      SameKeyApart(s, q, q + 1);
    }
    if r != b {
      SameKeyApart(s, r - 1, r);
    }
  }

  lemma {:induction false} MeetBlocks(s: seq<TestEntry>, k: Key, l: Key, f: nat, b: nat, e: nat)
    requires f < b < e <= |s| && Select(s, k) == s[f..b] && Select(s, l) == s[b..e]
    ensures Meet(s, k, l) <==> Precedes(ToSeen(s[b - 1]), ToSeen(s[b]))
  {
    hide Precedes, ToSeen, Select;
  }

  lemma {:induction false} NeighbourBlocks(s: seq<TestEntry>, k: Key, l: Key, f: nat, b: nat, e: nat, q: nat, r: nat)
    requires f <= q < b <= r < e <= |s| && Select(s, k) == s[f..b] && Select(s, l) == s[b..e]
    requires Precedes(ToSeen(s[q]), ToSeen(s[r]))
    ensures Neighbours(s, k, q - f, l, r - b) && |Select(s, k)| == b - f
  {
    hide Precedes, ToSeen, Select;
  }

  lemma {:induction false} SmoothHere(s: seq<TestEntry>, q: nat, r: nat)
    requires Ordered(s) && q < |s| && r < |s| && Precedes(ToSeen(s[q]), ToSeen(s[r]))
    ensures Smooth(s) ==> !(IsClosing(s, q) && IsOpening(s, r))
  {
    hide Ordered, KeyOf, Precedes, Select, ToSeen, IsClosing, IsOpening, Neighbours, Meet;
    var f, b, l := BlocksMeet(s, q, r);
    NeighboursApart(s, q, f, b, l, r);
    NeighbourBlocks(s, KeyOf(s[q]), KeyOf(s[r]), f, b, l, q, r);
    MeetBlocks(s, KeyOf(s[q]), KeyOf(s[r]), f, b, l);
  }

  lemma {:induction false} ApartBlocks(s: seq<TestEntry>, q: nat, f: nat, b: nat, l: nat, r: nat)
    requires ApartAt(s) && f <= q < b <= r < l <= |s| && Precedes(ToSeen(s[q]), ToSeen(s[r]))
    requires forall j :: f <= j < b ==> KeyOf(s[j]) == KeyOf(s[q])
    requires forall j :: b <= j < l ==> KeyOf(s[j]) == KeyOf(s[r])
    ensures Precedes(ToSeen(s[b - 1]), ToSeen(s[b])) && (q == b - 1 || r == b)
  {
    NeighboursApart(s, q, f, b, l, r);
    hide Precedes, ToSeen, KeyOf, IsClosing, IsOpening;
  }

  lemma {:induction false} ApartHere(s: seq<TestEntry>, k: Key, x: nat, l: Key, y: nat)
    requires Ordered(s) && ApartAt(s) && Neighbours(s, k, x, l, y)
    ensures Meet(s, k, l) && (x == |Select(s, k)| - 1 || y == 0)
  {
    hide Ordered, ApartAt, Precedes, ToSeen, Select, KeyOf, Meet;
    var q := SelectPosition(s, k, x);
    var r := SelectPosition(s, l, y);
    var f, b, e := BlocksMeet(s, q, r);
    PositionInBlock(s, k, x, f, b);
    PositionInBlock(s, l, y, b, e);
    MeetBlocks(s, k, l, f, b, e);
    ApartBlocks(s, f + x, f, b, e, b + y);
  }

  lemma {:induction false} SelectPosition(s: seq<TestEntry>, k: Key, x: nat) returns (i: nat)
    requires x < |Select(s, k)|
    ensures i < |s| && s[i] == Select(s, k)[x] && KeyOf(s[i]) == k
  {
    if KeyOf(s[0]) == k && x == 0 {
      i := 0;
    } else {
      i := SelectPosition(s[1..], k, if KeyOf(s[0]) == k then x - 1 else x);
      i := i + 1;
    }
  }

  lemma {:induction false} PositionInBlock(s: seq<TestEntry>, k: Key, x: nat, f: nat, l: nat)
    requires f <= l <= |s| && Select(s, k) == s[f..l] && x < |Select(s, k)|
    ensures f + x < l && s[f + x] == Select(s, k)[x]
  {
  }

  lemma {:induction false} ApartSmooth(s: seq<TestEntry>)
    requires Ordered(s)
    ensures ApartAt(s) <==> Smooth(s)
  {
    hide Ordered, Precedes, Select, ToSeen, IsClosing, IsOpening, Neighbours, Meet;
    if Smooth(s) {
      forall q: nat, r: nat | IsClosing(s, q) && IsOpening(s, r)
        ensures q < |s| && r < |s| && !Precedes(ToSeen(s[q]), ToSeen(s[r]))
      {
        Inside(s, q, r);
        if Precedes(ToSeen(s[q]), ToSeen(s[r])) {
          SmoothHere(s, q, r);
        }
      }
    }
    if ApartAt(s) {
      forall k, x: nat, l, y: nat | Neighbours(s, k, x, l, y)
        ensures Meet(s, k, l) && (x == |Select(s, k)| - 1 || y == 0)
      {
        ApartHere(s, k, x, l, y);
      }
    }
  }

  lemma {:induction false} Inside(s: seq<TestEntry>, q: nat, r: nat)
    requires IsClosing(s, q) && IsOpening(s, r)
    ensures q < |s| && r < |s|
  {
  }

  // ----- the theorem -----

  ghost predicate MinimalCounting(results: seq<TestEntry>) {
    forall cover | Counts(cover, results) :: |MergeAll(Sort(results))| <= |cover|
  }

  lemma {:induction false} ShorterCounting(results: seq<TestEntry>, cover: seq<MergedEntry>) returns (shorter: seq<MergedEntry>)
    requires Counts(cover, results) && !NoneAbut(cover)
    ensures Counts(shorter, results) && |shorter| < |cover|
  {
    hide Precedes, EndSeen, FirstSeen, ExpandAll, Proper;
    var m, n :| m in cover && n in cover && Precedes(EndSeen(m), FirstSeen(n));
    var j :| 0 <= j < |cover| && cover[j] == m;
    var k :| 0 <= k < |cover| && cover[k] == n;
    AbuttingShortens(cover, j, k);
    shorter := Joined(cover, j, k);
  }

  /** Minimality when repeated results count, exactly: no description that says each result as often as
      it occurs is shorter than the merge if and only if the results are smooth. */
  lemma {:induction false} MinimalCountingExactly(results: seq<TestEntry>)
    ensures Counts(MergeAll(Sort(results)), results)
    ensures MinimalCounting(results) <==> Smooth(results)
  {
    var s := Sort(results);
    var merged := MergeAll(s);
    MergeConserves(results);
    SortIsStable(results);
    hide Sort, MergeAll, Smooth, ApartAt, ExpandAll, Proper, Ordered, NoneAbut, Select;
    SmoothSort(results);
    ApartSmooth(s);
    MergeApart(s);
    if NoneAbut(merged) {
      forall cover | Counts(cover, results)
        ensures |merged| <= |cover|
      {
        ApartAtMost(merged, cover);
      }
    } else {
      var shorter := ShorterCounting(results, merged);
    }
  }

  lemma {:induction false} CountsDescribes(cover: seq<MergedEntry>, results: seq<TestEntry>)
    requires Counts(cover, results)
    ensures Describes(cover, results)
  {
    hide ExpandAll, AllSeen, Proper;
    forall o: Seen
      ensures o in ExpandAll(cover) <==> o in AllSeen(results)
    {
      assert o in ExpandAll(cover) <==> o in multiset(ExpandAll(cover));
      assert o in AllSeen(results) <==> o in multiset(AllSeen(results));
    }
  }

  /** Seamless results, and so results with distinct keys, are smooth: where repeats may be dropped the
      merge is harder put to it. */
  lemma {:induction false} SeamlessSmooth(results: seq<TestEntry>)
    requires Seamless(results)
    ensures Smooth(results)
  {
    MinimalExactly(results);
    MinimalCountingExactly(results);
    hide Counts, Describes, Seamless, Smooth, MergeAll, Sort;
    forall cover | Counts(cover, results)
      ensures |MergeAll(Sort(results))| <= |cover|
    {
      CountsDescribes(cover, results);
    }
  }
}
