/** Port expressions: how they are read, which ports they stand for, and that reading inverts writing. */
module PortTexts {
  import opened Basics

  const MAX_PORT: nat := 65535

  datatype Ports = AnyPort | Single(port: nat) | Range(start: nat, end: nat) | Multiple(ports: seq<nat>)

  // ----- numbers -----

  predicate IsDigit(c: char) { '0' <= c <= '9' }

  function DigitOf(c: char): nat
    requires IsDigit(c)
  {
    c as nat - '0' as nat
  }

  predicate AllDigits(s: string) { forall i :: 0 <= i < |s| ==> IsDigit(s[i]) }

  function Value(s: string): nat
    requires AllDigits(s)
  {
    if s == "" then 0 else 10 * Value(s[..|s| - 1]) + DigitOf(s[|s| - 1])
  }

  /** An unsigned 16-bit number: digits, a plus sign allowed before them, and not too large. */
  function Numeral(s: string): Option<nat>
  {
    var digits := if |s| > 1 && s[0] == '+' then s[1..] else s;
    if digits == "" || !AllDigits(digits) || Value(digits) > MAX_PORT then None else Some(Value(digits))
  }

  // ----- texts -----

  /** The parts between separators; there is always at least one. */
  function Split(s: string, separator: char): (parts: seq<string>)
    ensures |parts| >= 1
  {
    if s == "" then [""]
    else
      var rest := Split(s[1..], separator);
      if s[0] == separator then [""] + rest else [[s[0]] + rest[0]] + rest[1..]
  }

  predicate IsSpace(c: char) { c == ' ' || '\t' <= c <= '\r' }

  function Trimmed(s: string): string
    decreases |s|
  {
    if s != "" && IsSpace(s[0]) then Trimmed(s[1..])
    else if s != "" && IsSpace(s[|s| - 1]) then Trimmed(s[..|s| - 1])
    else s
  }

  /** All parts are numbers, or none is taken. */
  function Numerals(parts: seq<string>): Option<seq<nat>>
  {
    if parts == [] then Some([])
    else
      var first, rest := Numeral(Trimmed(parts[0])), Numerals(parts[1..]);
      if first.Some? && rest.Some? then Some([first.value] + rest.value) else None
  }

  /** A hyphen makes a range of two numbers, a comma a list; anything else is one number. */
  function ParsePorts(s: string): Option<Ports>
  {
    if s == "*" then Some(AnyPort)
    else if '-' in s then
      var parts := Split(s, '-');
      if |parts| != 2 || Numeral(parts[0]).None? || Numeral(parts[1]).None? then None
      else Some(Range(Numeral(parts[0]).value, Numeral(parts[1]).value))
    else if ',' in s then
      var ports := Numerals(Split(s, ','));
      if ports.Some? then Some(Multiple(ports.value)) else None
    else
      var port := Numeral(s);
      if port.Some? then Some(Single(port.value)) else None
  }

  // ----- matching and meaning -----

  predicate PortsMatch(p: Ports, port: nat)
  {
    match p
    case AnyPort => true
    case Single(n) => n == port
    case Range(start, end) => start <= port <= end
    case Multiple(ports) => port in ports
  }

  /** Port after port, from the first to the last. */
  function Consecutive(start: nat, end: nat): set<nat>
    decreases end + 1 - start
  {
    if start > end then {} else {start} + Consecutive(start + 1, end)
  }

  function Listed(ports: seq<nat>): set<nat>
  {
    if ports == [] then {} else {ports[0]} + Listed(ports[1..])
  }

  /** The ports an expression stands for: all, one, those from the first to the last, or the listed ones. */
  predicate StandsFor(p: Ports, port: nat)
  {
    match p
    case AnyPort => true
    case Single(n) => port in {n}
    case Range(start, end) => port in Consecutive(start, end)
    case Multiple(ports) => port in Listed(ports)
  }

  lemma {:induction false} ConsecutiveHolds(start: nat, end: nat, port: nat)
    ensures port in Consecutive(start, end) <==> start <= port <= end
    decreases end + 1 - start
  {
    if start <= end { ConsecutiveHolds(start + 1, end, port); }
  }

  lemma {:induction false} ListedHolds(ports: seq<nat>, port: nat)
    ensures port in Listed(ports) <==> port in ports
    decreases |ports|
  {
    if ports != [] {
      ListedHolds(ports[1..], port);
      assert ports == [ports[0]] + ports[1..];
    }
  }

  /** The matcher accepts exactly the ports that the expression stands for. */
  lemma MatchingIsMembership(p: Ports, port: nat)
    ensures PortsMatch(p, port) <==> StandsFor(p, port)
  {
    match p
    case AnyPort =>
    case Single(n) =>
    case Range(start, end) => ConsecutiveHolds(start, end, port);
    case Multiple(ports) => ListedHolds(ports, port);
  }

  /** A range written backwards is read without complaint and stands for no port at all. */
  lemma BackwardRangesAreEmpty(start: nat, end: nat)
    requires end < start <= MAX_PORT
    ensures ParsePorts(Shown(Range(start, end))) == Some(Range(start, end))
    ensures forall port :: !PortsMatch(Range(start, end), port)
  {
    ReadsWhatIsShown(Range(start, end));
  }

  // ----- reading inverts writing -----

  function Digit(d: nat): char
    requires d < 10
  {
    '0' + d as char
  }

  function Decimal(n: nat): string
  {
    if n < 10 then [Digit(n)] else Decimal(n / 10) + [Digit(n % 10)]
  }

  function ShownList(ports: seq<nat>): string
    requires ports != []
  {
    if |ports| == 1 then Decimal(ports[0]) else Decimal(ports[0]) + "," + ShownList(ports[1..])
  }

  function Shown(p: Ports): string
    requires p.Multiple? ==> p.ports != []
  {
    match p
    case AnyPort => "*"
    case Single(n) => Decimal(n)
    case Range(start, end) => Decimal(start) + "-" + Decimal(end)
    case Multiple(ports) => ShownList(ports)
  }

  predicate ArePorts(p: Ports)
  {
    match p
    case AnyPort => true
    case Single(n) => n <= MAX_PORT
    case Range(start, end) => start <= MAX_PORT && end <= MAX_PORT
    case Multiple(ports) => |ports| >= 2 && forall i :: 0 <= i < |ports| ==> ports[i] <= MAX_PORT
  }

  lemma {:induction false} DecimalReads(n: nat)
    ensures Decimal(n) != "" && AllDigits(Decimal(n)) && Value(Decimal(n)) == n
    decreases n
  {
    if n < 10 {
      assert Decimal(n)[..0] == "" && IsDigit(Decimal(n)[0]);
    } else {
      DecimalReads(n / 10);
      var s := Decimal(n);
      assert s[..|s| - 1] == Decimal(n / 10) && IsDigit(s[|s| - 1]);
    }
  }

  lemma DecimalIsANumeral(n: nat)
    requires n <= MAX_PORT
    ensures Numeral(Decimal(n)) == Some(n) && Trimmed(Decimal(n)) == Decimal(n)
    ensures forall c :: c in Decimal(n) ==> IsDigit(c)
  {
    DecimalReads(n);
    var s := Decimal(n);
    assert IsDigit(s[0]) && IsDigit(s[|s| - 1]);
  }

  lemma {:induction false} SplitWhole(s: string, separator: char)
    requires separator !in s
    ensures Split(s, separator) == [s]
    decreases |s|
  {
    if s != "" {
      SplitWhole(s[1..], separator);
      assert [s[0]] + s[1..] == s;
    }
  }

  lemma {:induction false} SplitFirst(a: string, separator: char, b: string)
    requires separator !in a
    ensures Split(a + [separator] + b, separator) == [a] + Split(b, separator)
    decreases |a|
  {
    var s := a + [separator] + b;
    if a == "" {
      assert s[0] == separator && s[1..] == b;
    } else {
      assert s[0] == a[0] && s[1..] == a[1..] + [separator] + b;
      SplitFirst(a[1..], separator, b);
      assert [a[0]] + a[1..] == a;
    }
  }

  lemma OneMorePart(part: string, rest: seq<string>, ports: seq<nat>)
    requires Numeral(Trimmed(part)).Some? && Numerals(rest) == Some(ports)
    ensures Numerals([part] + rest) == Some([Numeral(Trimmed(part)).value] + ports)
  {
    hide Numeral, Trimmed;
    assert ([part] + rest)[1..] == rest;
  }

  lemma {:induction false} ShownChars(ports: seq<nat>)
    requires ports != [] && forall i :: 0 <= i < |ports| ==> ports[i] <= MAX_PORT
    ensures '-' !in ShownList(ports)
    decreases |ports|
  {
    DecimalIsANumeral(ports[0]);
    if |ports| > 1 { ShownChars(ports[1..]); }
  }

  lemma {:induction false} ListReads(ports: seq<nat>)
    requires ports != [] && forall i :: 0 <= i < |ports| ==> ports[i] <= MAX_PORT
    ensures Numerals(Split(ShownList(ports), ',')) == Some(ports)
    decreases |ports|
  {
    var first := Decimal(ports[0]);
    DecimalIsANumeral(ports[0]);
    hide Decimal, Numeral, Trimmed, Split;
    if |ports| == 1 {
      SplitWhole(first, ',');
      OneMorePart(first, [], []);
      assert [first] + [] == [first] && ports == [ports[0]] + [];
    } else {
      var rest := ShownList(ports[1..]);
      ListReads(ports[1..]);
      SplitFirst(first, ',', rest);
      assert first + "," + rest == first + [','] + rest;
      OneMorePart(first, Split(rest, ','), ports[1..]);
      assert ports == [ports[0]] + ports[1..];
    }
  }

  /** Every expression of 16-bit ports, written out, is read back as itself. */
  lemma ReadsWhatIsShown(p: Ports)
    requires ArePorts(p)
    ensures ParsePorts(Shown(p)) == Some(p)
  {
    match p
    case AnyPort =>
    case Single(n) => DecimalIsANumeral(n);
    case Range(start, end) => RangeReads(start, end);
    case Multiple(ports) =>
      ListReads(ports);
      ShownChars(ports);
      ShownHasAComma(ports);
  }

  lemma RangeReads(start: nat, end: nat)
    requires start <= MAX_PORT && end <= MAX_PORT
    ensures ParsePorts(Shown(Range(start, end))) == Some(Range(start, end))
  {
    var a, b := Decimal(start), Decimal(end);
    var s := a + "-" + b;
    DecimalIsANumeral(start);
    DecimalIsANumeral(end);
    hide Decimal, Numeral, Split;
    SplitFirst(a, '-', b);
    SplitWhole(b, '-');
    assert s == a + ['-'] + b && s[|a|] == '-' && s != "*";
  }

  lemma ShownHasAComma(ports: seq<nat>)
    requires |ports| >= 2
    ensures ',' in ShownList(ports) && ShownList(ports) != "*"
  {
    var first := Decimal(ports[0]);
    assert ShownList(ports)[|first|] == ',';
    assert |ShownList(ports)| >= 2 by { DecimalReads(ports[0]); }
  }
}
