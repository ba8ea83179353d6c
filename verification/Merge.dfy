/** Turning the results of a scan into port ranges: a stable sort by test, transport, direction
    and port, then one pass that lengthens the last range or opens a new one. */
module Merge {
  import opened Messages
  import opened ClientBatch

  // ----- the order of the sort -----

  /** Lexicographic order of strings by code point. */
  predicate StrLess(a: string, b: string) {
    b != [] && (a == [] || a[0] < b[0] || (a[0] == b[0] && StrLess(a[1..], b[1..])))
  }

  datatype Key = Key(protocol: string, transport: string, direction: string, port: u16)

  function KeyOf(e: TestEntry): Key {
    Key(e.protocol, e.transport, e.direction.AsStr(), e.port)
  }

  predicate KeyLess(a: Key, b: Key) {
    || StrLess(a.protocol, b.protocol)
    || (a.protocol == b.protocol
        && (|| StrLess(a.transport, b.transport)
            || (a.transport == b.transport
                && (|| StrLess(a.direction, b.direction)
                    || (a.direction == b.direction && a.port < b.port)))))
  }

  lemma {:induction false} StrIrreflexive(a: string)
    ensures !StrLess(a, a)
  {
    if a == [] {
    } else {
      StrIrreflexive(a[1..]);
    }
  }

  lemma {:induction false} StrTransitive(a: string, b: string, c: string)
    requires StrLess(a, b) && StrLess(b, c)
    ensures StrLess(a, c)
  {
    if a != [] && a[0] == b[0] == c[0] {
      StrTransitive(a[1..], b[1..], c[1..]);
    }
  }

  lemma {:induction false} StrTotal(a: string, b: string)
    ensures StrLess(a, b) || a == b || StrLess(b, a)
  {
    if a != [] && b != [] && a[0] == b[0] {
      StrTotal(a[1..], b[1..]);
      assert a == [a[0]] + a[1..] && b == [b[0]] + b[1..];
    }
  }

  lemma {:induction false} KeyIrreflexive(a: Key)
    ensures !KeyLess(a, a)
  {
    StrIrreflexive(a.protocol);
    StrIrreflexive(a.transport);
    StrIrreflexive(a.direction);
  }

  lemma {:induction false} KeyTransitive(a: Key, b: Key, c: Key)
    requires KeyLess(a, b) && KeyLess(b, c)
    ensures KeyLess(a, c)
  {
    if StrLess(a.protocol, b.protocol) && StrLess(b.protocol, c.protocol) {
      StrTransitive(a.protocol, b.protocol, c.protocol);
    }
    if StrLess(a.transport, b.transport) && StrLess(b.transport, c.transport) {
      StrTransitive(a.transport, b.transport, c.transport);
    }
    if StrLess(a.direction, b.direction) && StrLess(b.direction, c.direction) {
      StrTransitive(a.direction, b.direction, c.direction);
    }
  }

  lemma {:induction false} KeyTotal(a: Key, b: Key)
    ensures KeyLess(a, b) || a == b || KeyLess(b, a)
  {
    StrTotal(a.protocol, b.protocol);
    StrTotal(a.transport, b.transport);
    StrTotal(a.direction, b.direction);
  }

  /** `a` is not after `b`, `b` is before `c`. */
  lemma {:induction false} KeyBetween(a: Key, b: Key, c: Key)
    requires !KeyLess(b, a) && KeyLess(b, c)
    ensures KeyLess(a, c)
  {
    KeyTotal(a, b);
    if KeyLess(a, b) {
      KeyTransitive(a, b, c);
    }
  }

  // ----- the sort -----

  function Insert(e: TestEntry, s: seq<TestEntry>): seq<TestEntry> {
    if s == [] || !KeyLess(KeyOf(s[0]), KeyOf(e)) then [e] + s else [s[0]] + Insert(e, s[1..])
  }

  function Sort(s: seq<TestEntry>): seq<TestEntry> {
    if s == [] then [] else Insert(s[0], Sort(s[1..]))
  }

  ghost predicate Ordered(s: seq<TestEntry>) {
    forall i, j :: 0 <= i < j < |s| ==> !KeyLess(KeyOf(s[j]), KeyOf(s[i]))
  }

  /** The entries with a given key, in the order in which they stand. */
  function Select(s: seq<TestEntry>, k: Key): seq<TestEntry> {
    if s == [] then [] else (if KeyOf(s[0]) == k then [s[0]] else []) + Select(s[1..], k)
  }

  lemma {:induction false} InsertMultiset(e: TestEntry, s: seq<TestEntry>)
    ensures multiset(Insert(e, s)) == multiset{e} + multiset(s)
  {
    if s != [] && KeyLess(KeyOf(s[0]), KeyOf(e)) {
      InsertMultiset(e, s[1..]);
      assert s == [s[0]] + s[1..];
    }
  }

  lemma {:induction false} InsertOrdered(e: TestEntry, s: seq<TestEntry>)
    requires Ordered(s)
    ensures Ordered(Insert(e, s))
  {
    var r := Insert(e, s);
    if s == [] {
    } else if !KeyLess(KeyOf(s[0]), KeyOf(e)) {
      forall j | 0 <= j < |s|
        ensures !KeyLess(KeyOf(s[j]), KeyOf(e))
      {
        if KeyLess(KeyOf(s[j]), KeyOf(e)) {
          KeyBetween(KeyOf(s[0]), KeyOf(s[j]), KeyOf(e));
        }
      }
    } else {
      var rest := Insert(e, s[1..]);
      InsertOrdered(e, s[1..]);
      InsertMultiset(e, s[1..]);
      forall j | 0 <= j < |rest|
        ensures !KeyLess(KeyOf(rest[j]), KeyOf(s[0]))
      {
        assert rest[j] in multiset(rest);
        if rest[j] == e {
          if KeyLess(KeyOf(e), KeyOf(s[0])) {
            KeyTransitive(KeyOf(e), KeyOf(s[0]), KeyOf(e));
            KeyIrreflexive(KeyOf(e));
          }
        } else {
          assert rest[j] in s[1..];
        }
      }
    }
  }

  lemma {:induction false} InsertSelect(e: TestEntry, s: seq<TestEntry>, k: Key)
    ensures Select(Insert(e, s), k) == (if KeyOf(e) == k then [e] else []) + Select(s, k)
  {
    if s != [] && KeyLess(KeyOf(s[0]), KeyOf(e)) {
      KeyIrreflexive(KeyOf(e));
      InsertSelect(e, s[1..], k);
    } else {
      assert ([e] + s)[1..] == s;
    }
  }

  /** The sort permutes, orders, and keeps entries with equal keys in their original order. */
  lemma {:induction false} SortIsStable(s: seq<TestEntry>)
    ensures multiset(Sort(s)) == multiset(s) && Ordered(Sort(s))
    ensures forall k: Key :: Select(Sort(s), k) == Select(s, k)
  {
    if s == [] {
    } else {
      SortIsStable(s[1..]);
      InsertMultiset(s[0], Sort(s[1..]));
      InsertOrdered(s[0], Sort(s[1..]));
      assert s == [s[0]] + s[1..];
      forall k: Key
        ensures Select(Sort(s), k) == Select(s, k)
      {
        InsertSelect(s[0], Sort(s[1..]), k);
      }
    }
  }

  // ----- the merge -----

  datatype PortRange = Single(port: u16) | Range(start: u16, end: u16) {
    function First(): u16 {
      match this
      case Single(p) => p
      case Range(s, _) => s
    }

    function Last(): u16 {
      match this
      case Single(p) => p
      case Range(_, e) => e
    }
  }

  datatype MergedEntry = MergedEntry(
    protocol: string, transport: string, ports: PortRange, direction: Direction,
    status: string, reason: string, count: nat, serverError: Option<string>)

  function Status(r: ProtocolResult): string {
    match r
    case Pass(_, _) => "pass"
    case Fail(_, _, _) => "fail"
    case Error(_) => "error"
  }

  function Reason(r: ProtocolResult): string {
    if r.Pass? then "" else r.reason
  }

  function Fresh(e: TestEntry): MergedEntry {
    MergedEntry(e.protocol, e.transport, Single(e.port), e.direction, Status(e.result), Reason(e.result), 1, e.serverError)
  }

  predicate Extends(last: MergedEntry, e: TestEntry) {
    && last.protocol == e.protocol && last.transport == e.transport && last.direction == e.direction
    && last.status == Status(e.result) && last.reason == Reason(e.result) && last.serverError == e.serverError
    && last.ports.Last() != 0xFFFF && last.ports.Last() + 1 == e.port
  }

  function Extend(last: MergedEntry, e: TestEntry): MergedEntry {
    last.(ports := Range(last.ports.First(), e.port), count := last.count + 1)
  }

  function Absorb(merged: seq<MergedEntry>, e: TestEntry): seq<MergedEntry> {
    var n := |merged|;
    if n != 0 && Extends(merged[n - 1], e) then merged[..n - 1] + [Extend(merged[n - 1], e)]
    else merged + [Fresh(e)]
  }

  function MergeAll(s: seq<TestEntry>): seq<MergedEntry> {
    if s == [] then [] else Absorb(MergeAll(s[..|s| - 1]), s[|s| - 1])
  }

  lemma {:induction false} MergeNext(s: seq<TestEntry>, i: nat)
    requires i < |s|
    ensures MergeAll(s[..i + 1]) == Absorb(MergeAll(s[..i]), s[i])
  {
    assert s[..i + 1][..i] == s[..i];
  }

  // ----- nothing is lost, nothing is invented -----

  /** A result without its byte counts: what a merged entry says about each of its ports. */
  datatype Seen = Seen(
    protocol: string, transport: string, direction: Direction,
    status: string, reason: string, serverError: Option<string>, port: u16)

  function ToSeen(e: TestEntry): Seen {
    Seen(e.protocol, e.transport, e.direction, Status(e.result), Reason(e.result), e.serverError, e.port)
  }

  function AllSeen(s: seq<TestEntry>): seq<Seen> {
    seq(|s|, i requires 0 <= i < |s| => ToSeen(s[i]))
  }

  /** A well-formed entry: it counts its ports, and does not wrap past the last port. */
  predicate Proper(m: MergedEntry) {
    && m.ports.First() <= m.ports.Last()
    && m.count == m.ports.Last() - m.ports.First() + 1
    && (m.ports.Single? <==> m.count == 1)
  }

  function At(m: MergedEntry, port: u16): Seen {
    Seen(m.protocol, m.transport, m.direction, m.status, m.reason, m.serverError, port)
  }

  function Expand(m: MergedEntry): seq<Seen>
    requires Proper(m)
  {
    seq(m.count, j requires 0 <= j < m.count => At(m, m.ports.First() + j))
  }

  function ExpandAll(merged: seq<MergedEntry>): seq<Seen>
    requires forall m <- merged :: Proper(m)
  {
    if merged == [] then [] else ExpandAll(merged[..|merged| - 1]) + Expand(merged[|merged| - 1])
  }

  lemma {:induction false} ExpandAt(m: MergedEntry, j: nat)
    requires Proper(m) && j < m.count
    ensures Expand(m)[j] == At(m, m.ports.First() + j)
  {
  }

  lemma {:induction false} ExpandLonger(last: MergedEntry, e: TestEntry)
    requires Proper(last) && Extends(last, e)
    ensures Proper(Extend(last, e)) && Expand(Extend(last, e)) == Expand(last) + [ToSeen(e)]
  {
    var longer := Extend(last, e);
    forall j: nat | j < last.count
      ensures Expand(longer)[j] == Expand(last)[j]
    {
      ExpandAt(longer, j);
      ExpandAt(last, j);
    }
    ExpandAt(longer, last.count);
  }

  lemma {:induction false} ExpandFresh(e: TestEntry)
    ensures Proper(Fresh(e)) && Expand(Fresh(e)) == [ToSeen(e)]
  {
    ExpandAt(Fresh(e), 0);
  }

  /** Expanding the merged entries gives back the sorted results one by one, duplicates included. */
  lemma {:induction false} MergeExpands(s: seq<TestEntry>)
    ensures forall m <- MergeAll(s) :: Proper(m)
    ensures ExpandAll(MergeAll(s)) == AllSeen(s)
  {
    if s == [] {
    } else {
      var before, e := s[..|s| - 1], s[|s| - 1];
      var merged := MergeAll(before);
      var n := |merged|;
      MergeExpands(before);
      SeenAppend(before, [e]);
      assert s == before + [e];
      assert AllSeen([e]) == [ToSeen(e)];
      if n != 0 && Extends(merged[n - 1], e) {
        ExpandLonger(merged[n - 1], e);
        assert MergeAll(s)[..n - 1] == merged[..n - 1];
      } else {
        ExpandFresh(e);
        assert MergeAll(s)[..n] == merged;
      }
    }
  }

  lemma {:induction false} SeenAppend(a: seq<TestEntry>, b: seq<TestEntry>)
    ensures AllSeen(a + b) == AllSeen(a) + AllSeen(b)
  {
    forall i | 0 <= i < |a + b|
      ensures AllSeen(a + b)[i] == (AllSeen(a) + AllSeen(b))[i]
    {
      assert (a + b)[i] == if i < |a| then a[i] else b[i - |a|];
    }
  }

  /** Taking one element out of a sequence takes it out of its multiset. */
  lemma {:induction false} TakeOut<T>(s: seq<T>, i: nat)
    requires i < |s|
    ensures multiset(s) == multiset{s[i]} + multiset(s[..i] + s[i + 1..])
  {
    assert s == s[..i] + ([s[i]] + s[i + 1..]);
  }

  lemma {:induction false} FindOut<T>(a: seq<T>, b: seq<T>) returns (i: nat)
    requires a != [] && multiset(a) == multiset(b)
    ensures i < |b| && b[i] == a[0] && multiset(b[..i] + b[i + 1..]) == multiset(a[1..])
  {
    assert a[0] in multiset(b);
    i :| 0 <= i < |b| && b[i] == a[0];
    TakeOut(b, i);
    assert a == [a[0]] + a[1..];
    assert multiset(a) == multiset{a[0]} + multiset(a[1..]);
    assert multiset(a[1..]) == multiset(a) - multiset{a[0]};
    assert multiset(b[..i] + b[i + 1..]) == multiset(b) - multiset{a[0]};
  }

  lemma {:induction false} SeenTakeOut(s: seq<TestEntry>, i: nat)
    requires i < |s|
    ensures multiset(AllSeen(s)) == multiset{ToSeen(s[i])} + multiset(AllSeen(s[..i] + s[i + 1..]))
  {
    TakeOut(AllSeen(s), i);
    SeenAppend(s[..i], s[i + 1..]);
    assert AllSeen(s)[..i] == AllSeen(s[..i]) && AllSeen(s)[i + 1..] == AllSeen(s[i + 1..]);
    assert AllSeen(s)[i] == ToSeen(s[i]);
  }

  lemma {:induction false} SeenMultiset(a: seq<TestEntry>, b: seq<TestEntry>)
    requires multiset(a) == multiset(b)
    ensures multiset(AllSeen(a)) == multiset(AllSeen(b))
  {
    hide AllSeen, ToSeen;
    if a == [] {
      assert |multiset(b)| == |b| == 0;
      assert a == b;
    } else {
      var i := FindOut(a, b);
      SeenMultiset(a[1..], b[..i] + b[i + 1..]);
      SeenTakeOut(b, i);
      SeenTakeOut(a, 0);
      assert a[..0] + a[1..] == a[1..];
    }
  }

  /** Conservation: the merged entries, expanded, are the results as a multiset. */
  lemma {:induction false} MergeConserves(results: seq<TestEntry>)
    ensures var merged := MergeAll(Sort(results));
            && (forall m <- merged :: Proper(m))
            && multiset(ExpandAll(merged)) == multiset(AllSeen(results))
  {
    MergeExpands(Sort(results));
    SortIsStable(results);
    SeenMultiset(Sort(results), results);
  }
}
