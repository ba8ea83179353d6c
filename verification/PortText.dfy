/** Port ranges as text: the parser of `--port-range` and the compact port lists of the output. */
module PortText {
  import opened Messages
  import opened Schedule

  // ----- decimal numbers -----

  predicate IsDigit(c: char) {
    '0' <= c <= '9'
  }

  function Digit(c: char): nat
    requires IsDigit(c)
  {
    c as int - '0' as int
  }

  predicate AllDigits(s: string) {
    forall i :: 0 <= i < |s| ==> IsDigit(s[i])
  }

  function Value(s: string): nat
    requires AllDigits(s)
  {
    if s == [] then 0 else 10 * Value(s[..|s| - 1]) + Digit(s[|s| - 1])
  }

  /** `parse_port`: a non-empty string of digits whose value is a port. */
  function ParsePort(s: string): Option<u16> {
    if s == [] || !AllDigits(s) || Value(s) > 0xFFFF then None else Some(Value(s))
  }

  function DigitChar(d: nat): char
    requires d < 10
  {
    "0123456789"[d]
  }

  function ToString(n: nat): (s: string)
    ensures s != [] && AllDigits(s)
  {
    if n < 10 then [DigitChar(n)] else ToString(n / 10) + [DigitChar(n % 10)]
  }

  lemma {:induction false} ValueOfToString(n: nat)
    ensures Value(ToString(n)) == n
  {
    if n >= 10 {
      ValueOfToString(n / 10);
      assert ToString(n)[..|ToString(n)| - 1] == ToString(n / 10);
    } else {
      assert ToString(n)[..0] == [];
    }
  }

  // ----- the parser of --port-range -----

  /** The parts before and after the first `c`. */
  function SplitOnce(s: string, c: char): (r: Option<(string, string)>)
    ensures r.None? <==> c !in s
    ensures r.Some? ==> s == r.value.0 + [c] + r.value.1 && c !in r.value.0
  {
    if s == [] then None
    else if s[0] == c then Some(([], s[1..]))
    else
      var rest := SplitOnce(s[1..], c);
      if rest.None? then None else Some(([s[0]] + rest.value.0, rest.value.1))
  }

  datatype ParseError = MissingSlash | UnknownTransportName | BadPort | Reversed

  function ParseSpec(s: string): Result<PortSpec, ParseError> {
    var parts := SplitOnce(s, '/');
    if parts.None? then Failure(MissingSlash)
    else
      var (transport, range) := parts.value;
      if transport != "tcp" && transport != "udp" && transport != "icmp" then Failure(UnknownTransportName)
      else if transport == "icmp" && (range == "any" || range == "icmp") then Success(PortSpec(transport, 0, 0))
      else
        var bounds := SplitOnce(range, '-');
        var start := ParsePort(if bounds.Some? then bounds.value.0 else range);
        var end := ParsePort(if bounds.Some? then bounds.value.1 else range);
        if start.None? || end.None? then Failure(BadPort)
        else if start.value > end.value then Failure(Reversed)
        else Success(PortSpec(transport, start.value, end.value))
  }

  function ParsePortRanges(specs: seq<string>): Result<seq<PortSpec>, ParseError> {
    if specs == [] then Success([])
    else
      var first := ParseSpec(specs[0]);
      if first.Failure? then Failure(first.error)
      else
        var rest := ParsePortRanges(specs[1..]);
        if rest.Failure? then rest else Success([first.value] + rest.value)
  }

  /** What the command line accepts never fails the client's own check, and names a known transport. */
  lemma {:induction false} ParsedIsValid(specs: seq<string>)
    ensures var r := ParsePortRanges(specs);
            r.Success? ==>
              && |r.value| == |specs| && ValidRanges(r.value)
              && forall spec <- r.value :: ParseTransport(spec.transport).Some?
  {
    if specs == [] {
    } else {
      ParsedIsValid(specs[1..]);
    }
  }

  predicate TransportName(s: string) {
    s == "tcp" || s == "udp" || s == "icmp"
  }

  /** Digits whose value is that port. */
  predicate Written(s: string, port: int) {
    s != [] && AllDigits(s) && Value(s) == port && port <= 0xFFFF
  }

  /** `transport/port`, `transport/start-end`, `icmp/any` or `icmp/icmp`. */
  ghost predicate Denotes(s: string, spec: PortSpec) {
    TransportName(spec.transport) && exists range ::
      && s == spec.transport + "/" + range
      && (|| (spec.transport == "icmp" && (range == "any" || range == "icmp") && spec.start == spec.end == 0)
          || (spec.start == spec.end && Written(range, spec.start))
          || exists a, b :: range == a + "-" + b && Written(a, spec.start) && Written(b, spec.end) && spec.start <= spec.end)
  }

  lemma {:induction false} SplitFirst(a: string, c: char, b: string, a': string, b': string)
    requires a + [c] + b == a' + [c] + b' && c !in a && c !in a'
    ensures a == a' && b == b'
  {
    SplitAt(a, c, b);
    SplitAt(a', c, b');
  }

  lemma {:induction false} NameHasNoSlash(transport: string)
    requires TransportName(transport)
    ensures '/' !in transport
  {
  }

  lemma {:induction false} DenotesRange(transport: string, range: string, spec: PortSpec)
    requires '/' !in transport
    ensures Denotes(transport + "/" + range, spec) <==>
            && TransportName(transport) && spec.transport == transport
            && (|| (transport == "icmp" && (range == "any" || range == "icmp") && spec.start == spec.end == 0)
                || (spec.start == spec.end && Written(range, spec.start))
                || exists a, b :: range == a + "-" + b && Written(a, spec.start) && Written(b, spec.end) && spec.start <= spec.end)
  {
    hide Written;
    var s := transport + "/" + range;
    if Denotes(s, spec) {
      var range' :| s == spec.transport + "/" + range'
        && (|| (spec.transport == "icmp" && (range' == "any" || range' == "icmp") && spec.start == spec.end == 0)
            || (spec.start == spec.end && Written(range', spec.start))
            || exists a, b :: range' == a + "-" + b && Written(a, spec.start) && Written(b, spec.end) && spec.start <= spec.end);
      NameHasNoSlash(spec.transport);
      SplitFirst(transport, '/', range, spec.transport, range');
    }
  }

  /** Which ports a range gives, in either form. */
  lemma {:induction false} BoundsExactly(range: string, start: int, end: int)
    ensures var bounds := SplitOnce(range, '-');
            && ParsePort(if bounds.Some? then bounds.value.0 else range) == Some(start)
            && ParsePort(if bounds.Some? then bounds.value.1 else range) == Some(end)
            <==> (start == end && Written(range, start))
                 || exists a, b :: range == a + "-" + b && Written(a, start) && Written(b, end)
  {
    var bounds := SplitOnce(range, '-');
    forall s: string, port: int
      ensures ParsePort(s) == Some(port) <==> Written(s, port)
      ensures Written(s, port) ==> '-' !in s
    {
      if Written(s, port) {
        DigitsOnly(s, '-');
      }
    }
    hide ParsePort, Written;
    if bounds.Some? {
      assert range == bounds.value.0 + "-" + bounds.value.1;
    }
    if a, b :| range == a + "-" + b && Written(a, start) && Written(b, end) {
      SplitAt(a, '-', b);
    }
  }

  lemma {:induction false} RangeExactly(transport: string, range: string, spec: PortSpec)
    requires TransportName(transport) && '/' !in transport
    requires !(transport == "icmp" && (range == "any" || range == "icmp"))
    ensures ParseSpec(transport + "/" + range) == Success(spec) <==>
            && spec.transport == transport && spec.start <= spec.end
            && ((spec.start == spec.end && Written(range, spec.start))
                || exists a, b :: range == a + "-" + b && Written(a, spec.start) && Written(b, spec.end))
  {
    SplitAt(transport, '/', range);
    BoundsExactly(range, spec.start, spec.end);
    hide ParsePort, Written;
    var bounds := SplitOnce(range, '-');
    hide SplitOnce;
    var start := ParsePort(if bounds.Some? then bounds.value.0 else range);
    var end := ParsePort(if bounds.Some? then bounds.value.1 else range);
    assert ParseSpec(transport + "/" + range) ==
           if start.None? || end.None? then Failure(BadPort)
           else if start.value > end.value then Failure(Reversed)
           else Success(PortSpec(transport, start.value, end.value));
  }

  lemma {:induction false} AnyHasNoDigits(s: string, port: int)
    requires s == "any" || s == "icmp"
    ensures !Written(s, port) && '-' !in s
  {
    assert !IsDigit(s[0]);
  }

  /** The parser accepts exactly the texts that denote a range, and gives that range. */
  lemma {:induction false} ParseSpecExactly(s: string, spec: PortSpec)
    ensures ParseSpec(s) == Success(spec) <==> Denotes(s, spec)
    ensures ParseSpec(s) == Failure(MissingSlash) <==> '/' !in s
    ensures ParseSpec(s) == Failure(UnknownTransportName) <==>
            exists a, b :: s == a + "/" + b && '/' !in a && !TransportName(a)
  {
    var parts := SplitOnce(s, '/');
    if parts.None? {
      Slashless(s, spec);
    } else {
      var (transport, range) := parts.value;
      assert s == transport + "/" + range;
      DenotesRange(transport, range, spec);
      if a, b :| s == a + "/" + b && '/' !in a && !TransportName(a) {
        SplitFirst(a, '/', b, transport, range);
      }
      if TransportName(transport) {
        if transport == "icmp" && (range == "any" || range == "icmp") {
          AnyHasNoDigits(range, spec.start);
        } else {
          hide ParseSpec, SplitOnce, Denotes, Written;
          RangeExactly(transport, range, spec);
        }
      }
    }
  }

  lemma {:induction false} Slashless(s: string, spec: PortSpec)
    requires '/' !in s
    ensures !Denotes(s, spec) && forall a, b :: s != a + "/" + b
  {
    forall a, b
      ensures s != a + "/" + b
    {
      assert (a + "/" + b)[|a|] == '/';
      assert '/' in a + "/" + b;
    }
  }

  ghost predicate DenotesAny(s: string) {
    exists spec :: Denotes(s, spec)
  }

  lemma {:induction false} ParsesAny(s: string)
    ensures ParseSpec(s).Success? <==> DenotesAny(s)
    ensures ParseSpec(s).Success? ==> Denotes(s, ParseSpec(s).value)
  {
    forall spec
      ensures ParseSpec(s) == Success(spec) <==> Denotes(s, spec)
    {
      ParseSpecExactly(s, spec);
    }
  }

  /** The k-th is the first that denotes no range, for that reason. */
  ghost predicate FirstWrong(specs: seq<string>, error: ParseError, k: nat) {
    && k < |specs| && ParseSpec(specs[k]) == Failure(error) && !DenotesAny(specs[k])
    && forall j :: 0 <= j < k ==> DenotesAny(specs[j])
  }

  /** Each specification gives its own range, in order; the first that denotes none decides the error. */
  lemma {:induction false} ParseEach(specs: seq<string>)
    ensures var r := ParsePortRanges(specs);
            if r.Success? then |r.value| == |specs| && forall i :: 0 <= i < |specs| ==> Denotes(specs[i], r.value[i])
            else exists k: nat :: FirstWrong(specs, r.error, k)
  {
    hide ParseSpec, Denotes, DenotesAny;
    if specs == [] {
    } else {
      ParsesAny(specs[0]);
      ParseEach(specs[1..]);
      var first, r := ParseSpec(specs[0]), ParsePortRanges(specs);
      if first.Failure? {
        assert FirstWrong(specs, r.error, 0);
      } else if r.Failure? {
        var k: nat :| FirstWrong(specs[1..], r.error, k);
        assert forall j :: 0 < j < k + 1 ==> specs[j] == specs[1..][j - 1];
        assert FirstWrong(specs, r.error, k + 1);
      }
    }
  }

  // ----- compact port lists -----

  datatype Run = Run(start: u16, end: u16)

  function RunText(r: Run): string {
    if r.start == r.end then ToString(r.start) else ToString(r.start) + "-" + ToString(r.end)
  }

  function JoinBy(separator: string, parts: seq<string>): string {
    if parts == [] then ""
    else if |parts| == 1 then parts[0]
    else parts[0] + separator + JoinBy(separator, parts[1..])
  }

  function Join(parts: seq<string>): string {
    JoinBy(",", parts)
  }

  /** `end + 1` on a `u16`. */
  function NextPort(p: u16): u16 {
    if p == 0xFFFF then 0 else p + 1
  }

  /** The length of the run of consecutive ports a list starts with. */
  function RunLength(ports: seq<u16>): (n: nat)
    requires ports != []
    ensures 1 <= n <= |ports|
  {
    if |ports| > 1 && ports[1] == NextPort(ports[0]) then 1 + RunLength(ports[1..]) else 1
  }

  /** The maximal runs of a list, in order. */
  function Runs(ports: seq<u16>): seq<Run> {
    if ports == [] then []
    else
      var n := RunLength(ports);
      [Run(ports[0], ports[n - 1])] + Runs(ports[n..])
  }

  function Texts(runs: seq<Run>): seq<string> {
    seq(|runs|, i requires 0 <= i < |runs| => RunText(runs[i]))
  }

  /** The inner loop: from `first` to the last port of the run that starts there. `end + 1` wraps
      as it does in a build without overflow checks. */
  method FindRunEnd(ports: seq<u16>, first: nat) returns (i: nat)
    requires first < |ports|
    ensures i + 1 == first + RunLength(ports[first..]) <= |ports|
  {
    i := first;
    var end := ports[i];
    while i + 1 < |ports| && ports[i + 1] == NextPort(end)
      invariant first <= i < |ports| && end == ports[i]
      invariant RunLength(ports[first..]) == i - first + RunLength(ports[i..])
    {
      assert ports[i..][1..] == ports[i + 1..];
      end := ports[i + 1];
      i := i + 1;
    }
  }

  lemma {:induction false} RunsNext(ports: seq<u16>, first: nat)
    requires first < |ports|
    ensures var i := first + RunLength(ports[first..]) - 1;
            Runs(ports[first..]) == [Run(ports[first], ports[i])] + Runs(ports[i + 1..])
  {
    var n := RunLength(ports[first..]);
    assert ports[first..][n..] == ports[first + n..];
  }

  lemma {:induction false} TextsNext(r: Run, runs: seq<Run>)
    ensures Texts([r] + runs) == [RunText(r)] + Texts(runs)
  {
  }

  /** One round of the outer loop: the text of the run that starts at `first`. */
  method FormatRun(ports: seq<u16>, first: nat) returns (part: string, next: nat)
    requires first < |ports|
    ensures first < next <= |ports| && Texts(Runs(ports[first..])) == [part] + Texts(Runs(ports[next..]))
  {
    hide Runs, Texts, RunLength, ToString;
    RunsNext(ports, first);
    var i := FindRunEnd(ports, first);
    var start, end := ports[first], ports[i];
    TextsNext(Run(start, end), Runs(ports[i + 1..]));
    if start == end {
      part := ToString(start);
    } else {
      part := ToString(start) + "-" + ToString(end);
    }
    next := i + 1;
  }

  lemma {:induction false} NoRuns()
    ensures Texts(Runs([])) == [] && Join([]) == ""
  {
  }

  /** One part per run, joined by commas. */
  method FormatPortRanges(ports: seq<u16>) returns (text: string)
    ensures text == Join(Texts(Runs(ports)))
  {
    hide *;
    NoRuns();
    if ports == [] {
      return "";
    }
    var parts: seq<string> := [];
    var i: nat := 0;
    assert ports[0..] == ports;
    while i < |ports|
      invariant i <= |ports| && Texts(Runs(ports)) == parts + Texts(Runs(ports[i..]))
    {
      var part, next := FormatRun(ports, i);
      parts := parts + [part];
      i := next;
    }
    assert ports[i..] == [] && parts + [] == parts;
    text := Join(parts);
  }

  // ----- the printed ranges are the list -----

  function ExpandRun(r: Run): seq<u16> {
    if r.start > r.end then [] else seq(r.end - r.start + 1, j requires 0 <= j <= r.end - r.start => r.start + j)
  }

  function ExpandRuns(runs: seq<Run>): seq<u16> {
    if runs == [] then [] else ExpandRun(runs[0]) + ExpandRuns(runs[1..])
  }

  /** The list nowhere steps from the last port to port 0. */
  predicate NoWrap(ports: seq<u16>) {
    forall i :: 0 <= i < |ports| - 1 ==> !(ports[i] == 0xFFFF && ports[i + 1] == 0)
  }

  /** The ports of a run, counted without wrap-around. */
  lemma {:induction false} RunCounts(ports: seq<u16>, j: nat)
    requires ports != [] && j < RunLength(ports)
    ensures (ports[0] + j) % 0x1_0000 == ports[j]
    ensures ports[0] + j <= 0xFFFF ==> ports[j] == ports[0] + j
    ensures 0 < j ==> ports[j] == NextPort(ports[j - 1])
  {
    if j == 0 {
    } else {
      RunCounts(ports[1..], j - 1);
      assert ports[1..][j - 1] == ports[j];
      assert j > 1 ==> ports[1..][j - 2] == ports[j - 1];
      if ports[0] == 0xFFFF {
        assert (0xFFFF + j) % 0x1_0000 == (j - 1) % 0x1_0000;
      }
    }
  }

  /** A run that fits below the last port expands to itself; one that wraps expands to fewer ports. */
  lemma {:induction false} RunExpands(ports: seq<u16>)
    requires ports != []
    ensures var n := RunLength(ports);
            var expanded := ExpandRun(Run(ports[0], ports[n - 1]));
            && (ports[0] + n - 1 <= 0xFFFF ==> expanded == ports[..n])
            && (ports[0] + n - 1 > 0xFFFF ==> |expanded| < n)
  {
    var n := RunLength(ports);
    RunCounts(ports, n - 1);
    if ports[0] + n - 1 <= 0xFFFF {
      forall j: nat | j < n
        ensures ports[j] == ports[0] + j
      {
        RunCounts(ports, j);
      }
    } else {
      assert ports[n - 1] <= ports[0] + (n - 1) - 0x1_0000;
    }
  }

  lemma {:induction false} RunWraps(ports: seq<u16>)
    requires ports != []
    ensures ports[0] + RunLength(ports) - 1 <= 0xFFFF <==> NoWrap(ports[..RunLength(ports)])
  {
    var n := RunLength(ports);
    if ports[0] + n - 1 <= 0xFFFF {
      forall i: nat | i < n - 1
        ensures ports[i] != 0xFFFF
      {
        RunCounts(ports, i);
      }
    } else {
      var k := 0xFFFF - ports[0];
      RunCounts(ports, k);
      RunCounts(ports, k + 1);
      assert ports[..n][k] == 0xFFFF && ports[..n][k + 1] == 0;
    }
  }

  lemma {:induction false} RunStops(ports: seq<u16>)
    requires ports != []
    ensures var n := RunLength(ports); n < |ports| ==> ports[n] != NextPort(ports[n - 1])
  {
    if |ports| > 1 && ports[1] == NextPort(ports[0]) {
      RunStops(ports[1..]);
    }
  }

  lemma {:induction false} NoWrapSplits(ports: seq<u16>)
    requires ports != []
    ensures var n := RunLength(ports); NoWrap(ports) <==> NoWrap(ports[..n]) && NoWrap(ports[n..])
  {
    var n := RunLength(ports);
    RunStops(ports);
    var a, b := ports[..n], ports[n..];
    if NoWrap(a) && NoWrap(b) {
      forall i | 0 <= i < |ports| - 1
        ensures !(ports[i] == 0xFFFF && ports[i + 1] == 0)
      {
        if i < n - 1 {
          assert a[i] == ports[i] && a[i + 1] == ports[i + 1];
        } else if i >= n {
          assert b[i - n] == ports[i] && b[i - n + 1] == ports[i + 1];
        }
      }
    }
    if NoWrap(ports) {
      forall i | 0 <= i < |b| - 1
        ensures !(b[i] == 0xFFFF && b[i + 1] == 0)
      {
        assert b[i] == ports[n + i] && b[i + 1] == ports[n + i + 1];
      }
    }
  }

  /** Expanding the runs gives back the list exactly when the list nowhere steps from port 65535
      to port 0; otherwise ports are lost. */
  lemma {:induction false} RunsExact(ports: seq<u16>)
    ensures ExpandRuns(Runs(ports)) == ports <==> NoWrap(ports)
    ensures |ExpandRuns(Runs(ports))| <= |ports|
    ensures |ExpandRuns(Runs(ports))| == |ports| ==> NoWrap(ports)
  {
    hide RunLength, ExpandRun, NoWrap;
    if ports == [] {
      EmptyExact();
    } else {
      var n := RunLength(ports);
      RunExpands(ports);
      RunWraps(ports);
      NoWrapSplits(ports);
      RunsExact(ports[n..]);
      ExpandNext(ports);
      assert ports == ports[..n] + ports[n..];
    }
  }

  lemma {:induction false} EmptyExact()
    ensures ExpandRuns(Runs([])) == [] && NoWrap([])
  {
  }

  lemma {:induction false} ExpandNext(ports: seq<u16>)
    requires ports != []
    ensures var n := RunLength(ports);
            ExpandRuns(Runs(ports)) == ExpandRun(Run(ports[0], ports[n - 1])) + ExpandRuns(Runs(ports[n..]))
  {
    hide RunLength, ExpandRun;
    var n := RunLength(ports);
    var rest := Runs(ports[n..]);
    assert ([Run(ports[0], ports[n - 1])] + rest)[1..] == rest;
  }

  /** No two neighbouring runs could have been one. */
  lemma {:induction false} RunsMaximal(ports: seq<u16>, k: nat)
    requires k + 1 < |Runs(ports)|
    ensures Runs(ports)[k + 1].start != NextPort(Runs(ports)[k].end)
  {
    var n := RunLength(ports);
    if k == 0 {
      RunStops(ports);
    } else {
      RunsMaximal(ports[n..], k - 1);
    }
  }

  predicate Ascending(ports: seq<u16>) {
    forall i, j :: 0 <= i < j < |ports| ==> ports[i] < ports[j]
  }

  lemma {:induction false} AscendingNoWrap(ports: seq<u16>)
    requires Ascending(ports)
    ensures NoWrap(ports)
    ensures forall i :: 0 <= i < |ports| - 1 ==> ports[i] != 0xFFFF
  {
    forall i | 0 <= i < |ports| - 1
      ensures ports[i] != 0xFFFF
    {
      assert ports[i] < ports[i + 1];
    }
  }

  // ----- reading the text back -----

  lemma {:induction false} DigitsOnly(s: string, c: char)
    requires AllDigits(s) && !IsDigit(c)
    ensures c !in s
  {
  }

  lemma {:induction false} SplitAt(a: string, c: char, b: string)
    requires c !in a
    ensures SplitOnce(a + [c] + b, c) == Some((a, b))
  {
    var s := a + [c] + b;
    if a != [] {
      SplitAt(a[1..], c, b);
      assert s[1..] == a[1..] + [c] + b;
      assert a == [a[0]] + a[1..];
    } else {
      assert s[1..] == b;
    }
  }

  lemma {:induction false} NoSplit(a: string, c: char)
    requires c !in a
    ensures SplitOnce(a, c) == None
  {
  }

  lemma {:induction false} PortReadsBack(p: u16)
    ensures ParsePort(ToString(p)) == Some(p)
    ensures '-' !in ToString(p) && ',' !in ToString(p) && IsDigit(ToString(p)[0])
  {
    ValueOfToString(p);
    DigitsOnly(ToString(p), '-');
    DigitsOnly(ToString(p), ',');
  }

  lemma {:induction false} RangeReadsBack(r: Run)
    ensures var bounds := SplitOnce(RunText(r), '-');
            && ParsePort(if bounds.Some? then bounds.value.0 else RunText(r)) == Some(r.start)
            && ParsePort(if bounds.Some? then bounds.value.1 else RunText(r)) == Some(r.end)
    ensures RunText(r) != "any" && RunText(r) != "icmp"
  {
    PortReadsBack(r.start);
    PortReadsBack(r.end);
    hide ToString, ParsePort;
    assert IsDigit(RunText(r)[0]);
    if r.start == r.end {
      NoSplit(RunText(r), '-');
    } else {
      SplitAt(ToString(r.start), '-', ToString(r.end));
    }
  }

  /** No number is printed with a leading zero. */
  lemma {:induction false} NoLeadingZero(n: nat)
    ensures ToString(n)[0] == '0' <==> n == 0
    ensures |ToString(n)| == 1 <==> n < 10
  {
    if n >= 10 {
      NoLeadingZero(n / 10);
    }
  }

  /** A range of one port is printed as that port alone, any other with both ends; so its text is the only
      one without leading zeros that is read as the range and has a dash exactly if it has two ends. */
  lemma {:induction false} RunTextForm(r: Run)
    ensures '-' in RunText(r) <==> r.start != r.end
    ensures RunText(r)[0] == '0' <==> r.start == 0
  {
    PortReadsBack(r.start);
    NoLeadingZero(r.start);
    hide ToString, ParsePort;
    if r.start != r.end {
      assert RunText(r)[|ToString(r.start)|] == '-';
    }
  }

  /** A printed range, put behind a transport name, is a port specification that the command line
      reads back as exactly that range. */
  lemma {:induction false} RunReadsBack(transport: string, r: Run)
    requires transport == "tcp" || transport == "udp" || transport == "icmp"
    requires r.start <= r.end
    ensures ParseSpec(transport + "/" + RunText(r)) == Success(PortSpec(transport, r.start, r.end))
  {
    hide RunText, ParsePort, SplitOnce;
    SplitAt(transport, '/', RunText(r));
    RangeReadsBack(r);
  }

  /** The parts of a list separated by commas. */
  function SplitAll(s: string): seq<string>
    decreases |s|
  {
    var parts := SplitOnce(s, ',');
    if parts.None? then [s] else [parts.value.0] + SplitAll(parts.value.1)
  }

  lemma {:induction false} JoinSplits(parts: seq<string>)
    requires parts != [] && forall p <- parts :: ',' !in p
    ensures SplitAll(Join(parts)) == parts
  {
    if |parts| == 1 {
      NoSplit(parts[0], ',');
    } else {
      SplitAt(parts[0], ',', Join(parts[1..]));
      JoinSplits(parts[1..]);
      assert parts == [parts[0]] + parts[1..];
    }
  }

  /** The ranges a printed list denotes, each part read as the command line reads it. */
  function ReadParts(parts: seq<string>): seq<Result<PortSpec, ParseError>> {
    seq(|parts|, i requires 0 <= i < |parts| => ParseSpec("tcp/" + parts[i]))
  }

  lemma {:induction false} RunsOrdered(ports: seq<u16>, k: nat)
    requires NoWrap(ports) && k < |Runs(ports)|
    ensures Runs(ports)[k].start <= Runs(ports)[k].end
  {
    var n := RunLength(ports);
    RunWraps(ports);
    NoWrapSplits(ports);
    RunCounts(ports, n - 1);
    if k == 0 {
    } else {
      RunsOrdered(ports[n..], k - 1);
    }
  }

  lemma {:induction false} RunTextPlain(r: Run)
    ensures ',' !in RunText(r)
  {
    PortReadsBack(r.start);
    PortReadsBack(r.end);
  }

  /** Round trip of a printed port list: split at commas and read range by range, the text of a
      strictly ascending list gives ranges that expand to the list. */
  lemma {:induction false} PrintedListReadsBack(ports: seq<u16>)
    requires Ascending(ports) && ports != []
    ensures var runs := Runs(ports);
            var read := ReadParts(SplitAll(Join(Texts(runs))));
            && ExpandRuns(runs) == ports && |read| == |runs|
            && forall k :: 0 <= k < |runs| ==> read[k] == Success(PortSpec("tcp", runs[k].start, runs[k].end))
  {
    var runs := Runs(ports);
    AscendingNoWrap(ports);
    RunsExact(ports);
    RunsNonEmpty(ports);
    forall k: nat | k < |runs|
      ensures runs[k].start <= runs[k].end
    {
      RunsOrdered(ports, k);
    }
    hide Runs, ExpandRuns, Ascending, NoWrap;
    TextsReadBack(runs);
  }

  lemma {:induction false} RunsNonEmpty(ports: seq<u16>)
    requires ports != []
    ensures Runs(ports) != []
  {
  }

  lemma {:induction false} TextsReadBack(runs: seq<Run>)
    requires runs != [] && forall k :: 0 <= k < |runs| ==> runs[k].start <= runs[k].end
    ensures var read := ReadParts(SplitAll(Join(Texts(runs))));
            && |read| == |runs|
            && forall k :: 0 <= k < |runs| ==> read[k] == Success(PortSpec("tcp", runs[k].start, runs[k].end))
  {
    hide Join, SplitAll, ParseSpec, RunText;
    var parts := Texts(runs);
    forall p | p in parts
      ensures ',' !in p
    {
      var k :| 0 <= k < |runs| && parts[k] == p;
      RunTextPlain(runs[k]);
    }
    JoinSplits(parts);
    forall k: nat | k < |runs|
      ensures ReadParts(parts)[k] == Success(PortSpec("tcp", runs[k].start, runs[k].end))
    {
      RunReadsBack("tcp", runs[k]);
      assert "tcp/" + RunText(runs[k]) == "tcp" + "/" + RunText(runs[k]);
    }
  }

  // ----- the lists a batch prints -----

  /** The failures of a batch with a given reason, in batch order. */
  function FailedPorts(batch: seq<BatchEntry>, results: seq<ProtocolResult>, reason: string): seq<u16>
    requires |batch| == |results|
  {
    if batch == [] then []
    else
      var n := |batch| - 1;
      FailedPorts(batch[..n], results[..n], reason)
      + (if !results[n].Pass? && results[n].reason == reason then [batch[n].port] else [])
  }

  /** The state of the live display after some results: per reason the failed ports, in order. */
  ghost predicate Tracks(lists: map<string, seq<u16>>, batch: seq<BatchEntry>, results: seq<ProtocolResult>)
    requires |batch| == |results|
  {
    forall reason: string ::
      && ListOf(lists, reason) == FailedPorts(batch, results, reason)
      && (reason in lists ==> lists[reason] != [])
  }

  /** One part per reason: what all entries of the batch share, the failed ports, the reason. */
  ghost predicate ShowsEach(e: BatchEntry, lists: map<string, seq<u16>>, order: seq<string>, parts: seq<string>) {
    && |parts| == |order|
    && forall i :: 0 <= i < |order| ==>
         && order[i] in lists
         && parts[i] == e.testName + " " + e.transportStr + " " + Join(Texts(Runs(lists[order[i]]))) + " "
                        + (if e.direction == ClientToServer then "->" else "<-") + " " + order[i]
  }

  /** The line shows every reason once, in some order: the order of a hash map is not known. */
  ghost predicate Shows(line: string, e: BatchEntry, lists: map<string, seq<u16>>) {
    exists order: seq<string>, parts: seq<string> ::
      && (forall reason :: reason in order <==> reason in lists)
      && (forall i, j :: 0 <= i < j < |order| ==> order[i] != order[j])
      && ShowsEach(e, lists, order, parts) && line == JoinBy("  ", parts)
  }

  method ShowFailures(e: BatchEntry, lists: map<string, seq<u16>>) returns (line: string)
    ensures Shows(line, e, lists)
  {
    hide Runs, Texts, Join, JoinBy;
    var parts: seq<string> := [];
    ghost var order: seq<string> := [];
    var left := lists.Keys;
    while left != {}
      invariant left <= lists.Keys
      invariant forall reason :: reason in order <==> reason in lists && reason !in left
      invariant forall i, j :: 0 <= i < j < |order| ==> order[i] != order[j]
      invariant ShowsEach(e, lists, order, parts)
      decreases |left|
    {
      var reason :| reason in left;
      var ports := FormatPortRanges(lists[reason]);
      parts := parts + [e.testName + " " + e.transportStr + " " + ports + " " + e.direction.AsStr() + " " + reason];
      order := order + [reason];
      left := left - {reason};
    }
    line := JoinBy("  ", parts);
  }

  /** The line shows the failures among these results. */
  ghost predicate ShowsFailures(line: string, batch: seq<BatchEntry>, results: seq<ProtocolResult>)
    requires |batch| == |results| > 0
  {
    exists lists: map<string, seq<u16>> :: Tracks(lists, batch, results) && Shows(line, batch[0], lists)
  }

  /** The positions of the results that are no passes. */
  function FailedAt(results: seq<ProtocolResult>): (at: seq<nat>)
    ensures forall k :: 0 <= k < |at| ==> at[k] < |results| && !results[at[k]].Pass?
    ensures forall k, l :: 0 <= k < l < |at| ==> at[k] < at[l]
    ensures forall i :: 0 <= i < |results| && !results[i].Pass? ==> i in at
  {
    if results == [] then []
    else
      var n := |results| - 1;
      FailedAt(results[..n]) + (if results[n].Pass? then [] else [n])
  }

  lemma {:induction false} FailedAtNext(results: seq<ProtocolResult>, i: nat)
    requires i < |results|
    ensures FailedAt(results[..i + 1]) == FailedAt(results[..i]) + (if results[i].Pass? then [] else [i])
  {
    assert results[..i + 1][..i] == results[..i];
  }

  lemma {:induction false} TracksNext(lists: map<string, seq<u16>>, batch: seq<BatchEntry>, results: seq<ProtocolResult>, i: nat)
    requires |batch| == |results| && i < |batch| && Tracks(lists, batch[..i], results[..i])
    ensures results[i].Pass? ==> Tracks(lists, batch[..i + 1], results[..i + 1])
    ensures !results[i].Pass? ==>
      var reason := results[i].reason;
      Tracks(lists[reason := ListOf(lists, reason) + [batch[i].port]], batch[..i + 1], results[..i + 1])
  {
    FailedNext(batch, results, i);
    hide FailedPorts;
  }

  /** Records the i-th result, which is no pass, and shows all failures so far. */
  method RecordFailure(batch: seq<BatchEntry>, results: seq<ProtocolResult>, i: nat, lists0: map<string, seq<u16>>)
    returns (lists: map<string, seq<u16>>, line: string)
    requires |batch| == |results| && i < |batch| && !results[i].Pass? && Concurrent(batch)
    requires Tracks(lists0, batch[..i], results[..i])
    ensures Tracks(lists, batch[..i + 1], results[..i + 1])
    ensures ShowsFailures(line, batch[..i + 1], results[..i + 1])
  {
    hide FailedPorts, Shows, Concurrent, Tracks;
    TracksNext(lists0, batch, results, i);
    var reason := results[i].reason;
    lists := lists0[reason := ListOf(lists0, reason) + [batch[i].port]];
    line := ShowFailures(batch[i], lists);
    SharedShows(line, batch, i, lists);
  }

  /** The live display: after each result that is no pass, one line with all failures so far. All
      entries of a batch share test, transport and direction, so the reason alone is the key. */
  method LiveFailures(batch: seq<BatchEntry>, results: seq<ProtocolResult>)
    returns (lists: map<string, seq<u16>>, printed: seq<string>)
    requires |batch| == |results| && Concurrent(batch)
    ensures Tracks(lists, batch, results)
    ensures forall reason: string :: Ascending(ListOf(lists, reason))
    ensures |printed| == |FailedAt(results)|
    ensures forall k :: 0 <= k < |printed| ==>
      var n := FailedAt(results)[k] + 1; ShowsFailures(printed[k], batch[..n], results[..n])
  {
    hide *;
    lists, printed := map[], [];
    NothingFailed();
    assert batch[..0] == [] && results[..0] == [];
    for i := 0 to |batch|
      invariant Tracks(lists, batch[..i], results[..i])
      invariant |printed| == |FailedAt(results[..i])|
      invariant forall k :: 0 <= k < |printed| ==>
        var n := FailedAt(results[..i])[k] + 1; n <= i && ShowsFailures(printed[k], batch[..n], results[..n])
    {
      FailedAtNext(results, i);
      if results[i].Pass? {
        TracksNext(lists, batch, results, i);
      } else {
        var line: string;
        lists, line := RecordFailure(batch, results, i, lists);
        printed := printed + [line];
      }
    }
    assert batch[..|batch|] == batch && results[..|batch|] == results;
    TracksAscend(lists, batch, results);
  }

  lemma {:induction false} TracksAscend(lists: map<string, seq<u16>>, batch: seq<BatchEntry>, results: seq<ProtocolResult>)
    requires |batch| == |results| && Concurrent(batch) && Tracks(lists, batch, results)
    ensures forall reason: string :: Ascending(ListOf(lists, reason))
  {
    hide FailedPorts, Ascending, Concurrent;
    assert batch[..|batch|] == batch && results[..|batch|] == results;
    forall reason: string
      ensures Ascending(ListOf(lists, reason))
    {
      FailedAscend(batch, results, |batch|, reason);
    }
  }

  lemma {:induction false} NothingFailed()
    ensures Tracks(map[], [], []) && FailedAt([]) == []
  {
  }

  lemma {:induction false} SharedShows(line: string, batch: seq<BatchEntry>, i: nat, lists: map<string, seq<u16>>)
    requires Concurrent(batch) && i < |batch| && Shows(line, batch[i], lists)
    ensures Shows(line, batch[0], lists)
  {
    forall order: seq<string>, parts: seq<string> | ShowsEach(batch[i], lists, order, parts)
      ensures ShowsEach(batch[0], lists, order, parts)
    {
      if i > 0 {
        assert batch[0].testName == batch[i].testName;
      }
    }
  }

  function ListOf(lists: map<string, seq<u16>>, reason: string): seq<u16> {
    if reason in lists then lists[reason] else []
  }

  lemma {:induction false} FailedNext(batch: seq<BatchEntry>, results: seq<ProtocolResult>, i: nat)
    requires |batch| == |results| && i < |batch|
    ensures forall reason: string ::
      FailedPorts(batch[..i + 1], results[..i + 1], reason) ==
      FailedPorts(batch[..i], results[..i], reason)
      + (if !results[i].Pass? && results[i].reason == reason then [batch[i].port] else [])
  {
    assert batch[..i + 1][..i] == batch[..i] && results[..i + 1][..i] == results[..i];
  }

  /** The k-th test failed on that port for that reason. */
  predicate FailsOn(batch: seq<BatchEntry>, results: seq<ProtocolResult>, reason: string, p: u16, k: nat) {
    k < |batch| && k < |results| && !results[k].Pass? && results[k].reason == reason && batch[k].port == p
  }

  lemma {:induction false} FailedMembers(batch: seq<BatchEntry>, results: seq<ProtocolResult>, n: nat, reason: string, p: u16)
    requires |batch| == |results| && n <= |batch|
    ensures p in FailedPorts(batch[..n], results[..n], reason) <==> exists k: nat :: k < n && FailsOn(batch, results, reason, p, k)
  {
    if n > 0 {
      FailedMembers(batch, results, n - 1, reason, p);
      FailedNext(batch, results, n - 1);
      hide FailedPorts;
      if p in FailedPorts(batch[..n], results[..n], reason) && p !in FailedPorts(batch[..n - 1], results[..n - 1], reason) {
        assert FailsOn(batch, results, reason, p, n - 1);
      }
    }
  }

  /** Every list a batch prints holds exactly the ports that failed for that reason, and is strictly ascending, so
      `end + 1` never overflows and the text reads back as the list. */
  lemma {:induction false} FailedAscend(batch: seq<BatchEntry>, results: seq<ProtocolResult>, n: nat, reason: string)
    requires |batch| == |results| && Concurrent(batch) && n <= |batch|
    ensures Ascending(FailedPorts(batch[..n], results[..n], reason))
    ensures forall p :: p in FailedPorts(batch[..n], results[..n], reason) <==>
                        exists k: nat :: k < n && FailsOn(batch, results, reason, p, k)
  {
    forall p: u16
      ensures p in FailedPorts(batch[..n], results[..n], reason) <==> exists k: nat :: k < n && FailsOn(batch, results, reason, p, k)
    {
      FailedMembers(batch, results, n, reason, p);
    }
    if n > 0 {
      FailedAscend(batch, results, n - 1, reason);
      FailedNext(batch, results, n - 1);
      hide FailedPorts;
      var before := FailedPorts(batch[..n - 1], results[..n - 1], reason);
      forall i | 0 <= i < |before|
        ensures before[i] < batch[n - 1].port
      {
        assert before[i] in before;
        var k: nat :| k < n - 1 && FailsOn(batch, results, reason, before[i], k);
      }
    }
  }
}
