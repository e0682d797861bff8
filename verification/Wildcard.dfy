/** Wildcard host patterns, the regular expressions they are compiled to, and when the two mean the same. */
module Wildcard {
  import opened Basics

  // ----- text -----

  function LowerChar(c: char): char
  {
    if 'A' <= c <= 'Z' then (c as int + 32) as char else c
  }

  /** ASCII lower case. */
  function Lower(s: string): string
  {
    seq(|s|, i requires 0 <= i < |s| => LowerChar(s[i]))
  }

  /** The parts between dots; there is always at least one. */
  function Labels(s: string): (labels: seq<string>)
    ensures |labels| >= 1
  {
    if s == "" then [""]
    else
      var rest := Labels(s[1..]);
      if s[0] == '.' then [""] + rest else [[s[0]] + rest[0]] + rest[1..]
  }

  predicate NoDot(s: string) { '.' !in s }

  lemma {:induction false} LabelsOfDotless(s: string)
    requires NoDot(s)
    ensures Labels(s) == [s]
    decreases |s|
  {
    if s != "" {
      LabelsOfDotless(s[1..]);
      assert [s[0]] + s[1..] == s;
    }
  }

  /** A dot separates the labels before it from those after it. */
  lemma {:induction false} LabelsSplit(a: string, b: string)
    ensures Labels(a + "." + b) == Labels(a) + Labels(b)
    decreases |a|
  {
    var s := a + "." + b;
    if a == "" {
      assert s[0] == '.' && s[1..] == b;
    } else {
      assert s[0] == a[0] && s[1..] == a[1..] + "." + b;
      LabelsSplit(a[1..], b);
    }
  }

  lemma {:induction false} LabelsHaveNoDots(s: string)
    ensures forall i :: 0 <= i < |Labels(s)| ==> NoDot(Labels(s)[i])
    decreases |s|
  {
    if s != "" { LabelsHaveNoDots(s[1..]); }
  }

  function Join(labels: seq<string>): string
    requires labels != []
  {
    if |labels| == 1 then labels[0]
    else Join(labels[..|labels| - 1]) + "." + labels[|labels| - 1]
  }

  /** Joining dotless labels and splitting them again gives them back. */
  lemma {:induction false} LabelsOfJoin(labels: seq<string>)
    requires labels != [] && forall i :: 0 <= i < |labels| ==> NoDot(labels[i])
    ensures Labels(Join(labels)) == labels
    decreases |labels|
  {
    var last := labels[|labels| - 1];
    LabelsOfDotless(last);
    if |labels| > 1 {
      var init := labels[..|labels| - 1];
      LabelsOfJoin(init);
      LabelsSplit(Join(init), last);
    } else {
      assert labels == [last];
    }
  }

  lemma {:induction false} JoinOfLabels(s: string)
    ensures Join(Labels(s)) == s
    decreases |s|
  {
    if s != "" {
      var rest := Labels(s[1..]);
      JoinOfLabels(s[1..]);
      if s[0] == '.' {
        JoinPrepend("", rest);
      } else {
        JoinExtend(s[0], rest);
      }
    }
  }

  lemma {:induction false} JoinPrepend(first: string, rest: seq<string>)
    requires rest != []
    ensures Join([first] + rest) == first + "." + Join(rest)
    decreases |rest|
  {
    var all := [first] + rest;
    if |rest| == 1 {
      assert all[..1] == [first];
    } else {
      var init := rest[..|rest| - 1];
      JoinPrepend(first, init);
      assert all[..|all| - 1] == [first] + init;
    }
  }

  lemma {:induction false} JoinExtend(c: char, rest: seq<string>)
    requires rest != []
    ensures Join([[c] + rest[0]] + rest[1..]) == [c] + Join(rest)
    decreases |rest|
  {
    var all := [[c] + rest[0]] + rest[1..];
    if |rest| > 1 {
      var init := rest[..|rest| - 1];
      JoinExtend(c, init);
      assert all[..|all| - 1] == [[c] + init[0]] + init[1..];
    }
  }

  // ----- the compiler -----

  const SPECIAL: string := "[]{}()|^$+?.\\"
  const ANY_LABEL: string := "[^.]+"

  function Escaped(c: char): string { if c in SPECIAL then ['\\', c] else [c] }

  function EscapedAll(s: string): string
  {
    if s == "" then "" else EscapedAll(s[..|s| - 1]) + Escaped(s[|s| - 1])
  }

  function Part(part: string): string { if part == "*" then ANY_LABEL else EscapedAll(part) }

  predicate EndsWithCaret(s: string) { s != "" && s[|s| - 1] == '^' }

  /** One more label: a separator is written unless the text so far ends in a caret. */
  function WithPart(before: string, part: string): string
  {
    before + (if EndsWithCaret(before) then "" else "\\.") + Part(part)
  }

  /** The expression after these labels. */
  function Prefix(labels: seq<string>): string
  {
    if labels == [] then "^" else WithPart(Prefix(labels[..|labels| - 1]), labels[|labels| - 1])
  }

  function Regex(pattern: string): string { Prefix(Labels(pattern)) + "$" }

  /** The characters of one label, escaped where a regular expression would read them specially. */
  method EscapeLabel(part: string) returns (text: string)
    ensures text == EscapedAll(part)
  {
    text := "";
    for j := 0 to |part|
      invariant text == EscapedAll(part[..j])
    {
      assert part[..j + 1][..j] == part[..j];
      if part[j] in SPECIAL {
        text := text + "\\";
      }
      text := text + [part[j]];
    }
    assert part[..|part|] == part;
  }

  method AppendPart(before: string, part: string) returns (regex: string)
    ensures regex == WithPart(before, part)
  {
    regex := before;
    if !EndsWithCaret(regex) {
      regex := regex + "\\.";
    }
    if part == "*" {
      regex := regex + "[^.]+";
    } else {
      var text := EscapeLabel(part);
      regex := regex + text;
    }
  }

  method WildcardToRegex(pattern: string) returns (regex: string)
    ensures regex == Regex(pattern)
  {
    hide Labels, WithPart;
    regex := "^";
    var parts := Labels(pattern);
    for i := 0 to |parts|
      invariant regex == Prefix(parts[..i])
    {
      assert parts[..i + 1][..i] == parts[..i];
      regex := AppendPart(regex, parts[i]);
    }
    assert parts[..|parts|] == parts;
    regex := regex + "$";
  }

  // ----- the fragment of regular expressions it produces -----

  /** A literal character, one or more characters other than a dot, or any number of what comes before. */
  datatype Atom = Lit(c: char) | DotFree | Star

  function Append(x: Option<seq<Atom>>, y: Option<seq<Atom>>): Option<seq<Atom>>
  {
    if x.Some? && y.Some? then Some(x.value + y.value) else None
  }

  /** Characters that mean something of their own in a regular expression, besides the star. */
  const META: string := "\\^$.|?+()[]{}"

  /** What an unescaped character stands for. */
  function AtomOf(c: char): Atom { if c == '*' then Star else Lit(c) }

  /** Reads an expression body; anything but literals, escapes, the label class and stars is refused. */
  function Scan(s: string): Option<seq<Atom>>
    decreases |s|
  {
    if s == "" then Some([])
    else if s[0] == '\\' then
      if |s| >= 2 then Append(Some([Lit(s[1])]), Scan(s[2..])) else None
    else if ANY_LABEL <= s then Append(Some([DotFree]), Scan(s[5..]))
    else if s[0] in META then None
    else Append(Some([AtomOf(s[0])]), Scan(s[1..]))
  }

  /** A run that a repetition of this atom can cover. */
  predicate Repeats(a: Atom, run: string)
  {
    match a
    case Lit(c) => forall i :: 0 <= i < |run| ==> run[i] == c
    case DotFree => NoDot(run)
    case Star => run == ""
  }

  predicate StarAt(atoms: seq<Atom>, i: nat) { i < |atoms| && atoms[i].Star? }

  /** The whole text; repeating a repetition adds nothing. */
  ghost predicate Matches(atoms: seq<Atom>, text: string)
    decreases |atoms|
  {
    if atoms == [] then text == ""
    else if StarAt(atoms, 1) && StarAt(atoms, 2) then Matches([atoms[0]] + atoms[2..], text)
    else if StarAt(atoms, 1) then
      exists n :: 0 <= n <= |text| && Repeats(atoms[0], text[..n]) && Matches(atoms[2..], text[n..])
    else match atoms[0]
      case Lit(c) => text != "" && text[0] == c && Matches(atoms[1..], text[1..])
      case DotFree => exists n :: 0 < n <= |text| && NoDot(text[..n]) && Matches(atoms[1..], text[n..])
      case Star => false
  }

  function WithoutLeadingStars(atoms: seq<Atom>): seq<Atom>
  {
    if StarAt(atoms, 0) then WithoutLeadingStars(atoms[1..]) else atoms
  }

  /** What follows the start anchor; a star there repeats the anchor, which then need not hold at all. */
  ghost predicate Searches(atoms: seq<Atom>, text: string)
  {
    if StarAt(atoms, 0) then exists k :: 0 <= k <= |text| && Matches(WithoutLeadingStars(atoms), text[k..])
    else Matches(atoms, text)
  }

  /** An expression that is anchored at both ends. */
  ghost predicate RegexMatches(regex: string, text: string)
  {
    && |regex| >= 2 && regex[0] == '^' && regex[|regex| - 1] == '$'
    && var atoms := Scan(regex[1..|regex| - 1]);
       atoms.Some? && Searches(atoms.value, text)
  }

  /** What the engine does with a compiled pattern: match the lower-cased host name. */
  ghost predicate CodeMatches(pattern: string, host: string) { RegexMatches(Regex(pattern), Lower(host)) }

  // ----- what a wildcard pattern is meant to match -----

  /** Ignoring case, and each star standing for one or more characters. */
  predicate LabelMatches(p: string, part: string)
    decreases |p|
  {
    if p == "" then part == ""
    else if p[0] == '*' then exists n :: 0 < n <= |part| && LabelMatches(p[1..], part[n..])
    else part != "" && part[0] == LowerChar(p[0]) && LabelMatches(p[1..], part[1..])
  }

  predicate LabelsMatch(ps: seq<string>, labels: seq<string>)
  {
    |ps| == |labels| && forall i :: 0 <= i < |ps| ==> LabelMatches(ps[i], labels[i])
  }

  /** Label by label; so a star alone stands for one non-empty label. */
  predicate Means(pattern: string, host: string) { LabelsMatch(Labels(pattern), Labels(Lower(host))) }

  // ----- scanning the generated text -----

  lemma {:induction false} ScanConcat(a: string, b: string)
    requires Scan(a).Some?
    ensures Scan(a + b) == Append(Scan(a), Scan(b))
    decreases |a|
  {
    var s := a + b;
    if a == "" {
      assert s == b;
      if Scan(b).Some? { assert [] + Scan(b).value == Scan(b).value; }
    } else if a[0] == '\\' {
      assert s[2..] == a[2..] + b;
      ScanConcat(a[2..], b);
      AppendAssoc([Lit(a[1])], Scan(a[2..]), Scan(b));
    } else if ANY_LABEL <= a {
      assert s[5..] == a[5..] + b && ANY_LABEL <= s;
      ScanConcat(a[5..], b);
      AppendAssoc([DotFree], Scan(a[5..]), Scan(b));
    } else {
      assert s[1..] == a[1..] + b;
      assert s[0] == a[0] != '[';
      ScanConcat(a[1..], b);
      AppendAssoc([AtomOf(a[0])], Scan(a[1..]), Scan(b));
    }
  }

  lemma AppendAssoc(x: seq<Atom>, y: Option<seq<Atom>>, z: Option<seq<Atom>>)
    ensures Append(Some(x), Append(y, z)) == Append(Append(Some(x), y), z)
  {
    if y.Some? && z.Some? { assert x + (y.value + z.value) == (x + y.value) + z.value; }
  }

  function AtomsOf(s: string): seq<Atom> { seq(|s|, i requires 0 <= i < |s| => AtomOf(s[i])) }

  lemma ScanEscaped(c: char)
    ensures Scan(Escaped(c)) == Some([AtomOf(c)])
  {
    var s := Escaped(c);
    if c in SPECIAL {
      assert s[2..] == "" && Scan(s) == Append(Some([Lit(c)]), Scan(""));
      assert [Lit(c)] + [] == [Lit(c)];
    } else {
      assert s[1..] == "" && !(ANY_LABEL <= s);
      assert Scan(s) == Append(Some([AtomOf(c)]), Scan(""));
      assert [AtomOf(c)] + [] == [AtomOf(c)];
    }
  }

  lemma {:induction false} ScanLabel(s: string)
    ensures Scan(EscapedAll(s)) == Some(AtomsOf(s))
    decreases |s|
  {
    if s == "" {
      assert AtomsOf(s) == [];
    } else {
      var init, last := s[..|s| - 1], s[|s| - 1];
      ScanLabel(init);
      ScanEscaped(last);
      ScanConcat(EscapedAll(init), Escaped(last));
      assert AtomsOf(s) == AtomsOf(init) + [AtomOf(last)];
    }
  }

  predicate StarIsWhole(part: string) { part == "*" || '*' !in part }

  function PartAtoms(part: string): seq<Atom> { if part == "*" then [DotFree] else AtomsOf(part) }

  lemma ScanPart(part: string)
    ensures Scan(Part(part)) == Some(PartAtoms(part))
  {
    if part == "*" {
      assert ANY_LABEL[5..] == "";
      assert Scan(ANY_LABEL) == Append(Some([DotFree]), Scan(""));
      assert [DotFree] + [] == [DotFree];
    } else {
      ScanLabel(part);
    }
  }

  /** The atoms of the expression, with exactly the separators that were written. */
  function Atoms(labels: seq<string>): seq<Atom>
  {
    if labels == [] then []
    else
      var init := labels[..|labels| - 1];
      Atoms(init) + (if EndsWithCaret(Prefix(init)) then [] else [Lit('.')]) + PartAtoms(labels[|labels| - 1])
  }

  lemma {:induction false} PrefixStartsWithCaret(labels: seq<string>)
    ensures Prefix(labels) != "" && Prefix(labels)[0] == '^'
    decreases |labels|
  {
    if labels != [] { PrefixStartsWithCaret(labels[..|labels| - 1]); }
  }

  lemma {:induction false} ScanPrefix(labels: seq<string>)
    ensures Prefix(labels) != "" && Scan(Prefix(labels)[1..]) == Some(Atoms(labels))
    decreases |labels|
  {
    hide Scan, Part, PartAtoms;
    PrefixStartsWithCaret(labels);
    if labels == [] {
      ScanNothing();
    } else {
      var init, last := labels[..|labels| - 1], labels[|labels| - 1];
      ScanPrefix(init);
      ScanPart(last);
      var body := Prefix(init)[1..];
      if EndsWithCaret(Prefix(init)) {
        assert Prefix(labels)[1..] == body + Part(last);
        ScanConcat(body, Part(last));
        assert Atoms(init) + [] + PartAtoms(last) == Atoms(init) + PartAtoms(last);
      } else {
        ScanSeparator();
        assert Prefix(labels)[1..] == body + "\\." + Part(last);
        ScanConcat(body, "\\.");
        ScanConcat(body + "\\.", Part(last));
      }
    }
  }

  lemma ScanNothing()
    ensures Prefix([])[1..] == "" && Scan("") == Some([]) && Atoms([]) == []
  {}

  lemma ScanSeparator()
    ensures Scan("\\.") == Some([Lit('.')])
  {
    assert "\\."[2..] == "";
    assert Scan("\\.") == Append(Some([Lit('.')]), Scan(""));
    assert [Lit('.')] + [] == [Lit('.')];
  }

  /** The compiled expression means its atoms. */
  lemma CodeMeansAtoms(pattern: string, text: string)
    ensures RegexMatches(Regex(pattern), text) <==> Searches(Atoms(Labels(pattern)), text)
  {
    var labels := Labels(pattern);
    ScanPrefix(labels);
    PrefixStartsWithCaret(labels);
    var regex := Regex(pattern);
    assert regex[1..|regex| - 1] == Prefix(labels)[1..];
  }

  // ----- matching -----

  ghost predicate TakesFirst(a: Atom, rest: seq<Atom>, text: string, n: nat)
  {
    && n <= |text| && (if a.Lit? then n == 1 && text[0] == a.c else a.DotFree? && n > 0 && NoDot(text[..n]))
    && Matches(rest, text[n..])
  }

  /** Without stars an expression matches if its first atom takes a first piece and the rest matches the rest. */
  lemma FirstAtom(atoms: seq<Atom>, text: string)
    requires atoms != [] && Star !in atoms
    ensures Matches(atoms, text) <==> exists n: nat :: TakesFirst(atoms[0], atoms[1..], text, n)
  {
    assert !StarAt(atoms, 0) && !StarAt(atoms, 1);
    if Matches(atoms, text) {
      if atoms[0].Lit? {
        assert TakesFirst(atoms[0], atoms[1..], text, 1);
      } else {
        var n :| 0 < n <= |text| && NoDot(text[..n]) && Matches(atoms[1..], text[n..]);
        assert TakesFirst(atoms[0], atoms[1..], text, n);
      }
    }
  }

  lemma {:induction false} SplitPoint(x: seq<Atom>, y: seq<Atom>, text: string) returns (k: nat)
    requires Matches(x + y, text) && Star !in x + y
    ensures k <= |text| && Matches(x, text[..k]) && Matches(y, text[k..])
    decreases |x|
  {
    if x == [] {
      k := 0;
      assert x + y == y && text[0..] == text && text[..0] == "";
    } else {
      hide Matches;
      var tail := x[1..];
      assert (x + y)[1..] == tail + y && (x + y)[0] == x[0];
      FirstAtom(x + y, text);
      var n: nat :| TakesFirst(x[0], tail + y, text, n);
      var j := SplitPoint(tail, y, text[n..]);
      k := n + j;
      assert text[..k][n..] == text[n..][..j] && text[k..] == text[n..][j..] && text[..k][..n] == text[..n];
      assert TakesFirst(x[0], tail, text[..k], n);
      FirstAtom(x, text[..k]);
    }
  }

  lemma {:induction false} Rejoin(x: seq<Atom>, y: seq<Atom>, text: string, k: nat)
    requires k <= |text| && Matches(x, text[..k]) && Matches(y, text[k..]) && Star !in x + y
    ensures Matches(x + y, text)
    decreases |x|
  {
    if x == [] {
      assert x + y == y && text[k..] == text;
    } else {
      hide Matches;
      var tail := x[1..];
      assert (x + y)[1..] == tail + y && (x + y)[0] == x[0];
      FirstAtom(x, text[..k]);
      var n: nat :| TakesFirst(x[0], tail, text[..k], n);
      assert text[..k][n..] == text[n..][..k - n] && text[k..] == text[n..][k - n..];
      assert text[..k][..n] == text[..n];
      Rejoin(tail, y, text[n..], k - n);
      assert TakesFirst(x[0], tail + y, text, n);
      FirstAtom(x + y, text);
    }
  }

  lemma {:induction false} MatchesLits(s: string, text: string)
    requires '*' !in s
    ensures Matches(AtomsOf(s), text) <==> text == s
    decreases |s|
  {
    if s != "" {
      assert AtomsOf(s)[1..] == AtomsOf(s[1..]) && AtomsOf(s)[0] == Lit(s[0]);
      assert Star !in AtomsOf(s);
      if text != "" {
        MatchesLits(s[1..], text[1..]);
        assert text == [text[0]] + text[1..] && s == [s[0]] + s[1..];
      }
    }
  }

  predicate RawLabelMatches(p: string, part: string) { if p == "*" then part != "" else p == part }

  /** One part matches exactly the dotless texts that its label matches. */
  lemma MatchesPart(p: string, text: string)
    requires NoDot(p) && StarIsWhole(p)
    ensures Matches(PartAtoms(p), text) <==> NoDot(text) && RawLabelMatches(p, text)
  {
    if p == "*" {
      assert [DotFree][1..] == [];
      if text != "" && NoDot(text) {
        assert text[..|text|] == text && text[|text|..] == "";
      }
    } else {
      MatchesLits(p, text);
    }
  }

  predicate RawLabelsMatch(ps: seq<string>, labels: seq<string>)
  {
    |ps| == |labels| && forall i :: 0 <= i < |ps| ==> RawLabelMatches(ps[i], labels[i])
  }

  /** No separator is swallowed: the text before each later label does not end in a caret. */
  ghost predicate SeparatorsKept(labels: seq<string>)
  {
    forall k :: 1 <= k < |labels| ==> !EndsWithCaret(Prefix(labels[..k]))
  }

  predicate AllWhole(ps: seq<string>) { forall i :: 0 <= i < |ps| ==> NoDot(ps[i]) && StarIsWhole(ps[i]) }

  lemma {:induction false} NoStarAtoms(ps: seq<string>)
    requires forall i :: 0 <= i < |ps| ==> StarIsWhole(ps[i])
    ensures Star !in Atoms(ps)
    decreases |ps|
  {
    if ps != [] {
      NoStarAtoms(ps[..|ps| - 1]);
      assert Star !in PartAtoms(ps[|ps| - 1]);
    }
  }

  /** With every separator in place the atoms match label by label. */
  lemma {:induction false} AtomsMatchLabels(ps: seq<string>, text: string)
    requires ps != [] && SeparatorsKept(ps) && AllWhole(ps)
    ensures Matches(Atoms(ps), text) <==> RawLabelsMatch(ps, Labels(text))
    decreases |ps|
  {
    hide Matches, Labels, PartAtoms, Prefix;
    var init, last := ps[..|ps| - 1], ps[|ps| - 1];
    if init == [] {
      OneLabel(ps, text);
    } else {
      assert ps[..|init|] == init;
      forall k | 1 <= k < |init| ensures !EndsWithCaret(Prefix(init[..k])) {
        assert init[..k] == ps[..k];
      }
      assert Atoms(ps) == Atoms(init) + ([Lit('.')] + PartAtoms(last));
      if Matches(Atoms(ps), text) { AtomsThenLabels(ps, text); }
      if RawLabelsMatch(ps, Labels(text)) { LabelsThenAtoms(ps, text); }
    }
  }

  lemma OneLabel(ps: seq<string>, text: string)
    requires |ps| == 1 && AllWhole(ps)
    ensures Matches(Atoms(ps), text) <==> RawLabelsMatch(ps, Labels(text))
  {
    hide Matches, Labels, PartAtoms;
    FirstAtoms(ps);
    MatchesPart(ps[0], text);
    LabelsHaveNoDots(text);
    if NoDot(text) { LabelsOfDotless(text); }
    if |Labels(text)| == 1 { JoinOfLabels(text); }
  }

  lemma FirstAtoms(ps: seq<string>)
    requires |ps| == 1
    ensures Atoms(ps) == PartAtoms(ps[0])
  {
    assert ps[..0] == [];
    assert EndsWithCaret("^");
  }

  lemma MatchesDot(rest: seq<Atom>, text: string)
    requires Star !in rest
    ensures Matches([Lit('.')] + rest, text) <==> text != "" && text[0] == '.' && Matches(rest, text[1..])
  {
    assert ([Lit('.')] + rest)[1..] == rest;
  }

  lemma LastAtoms(ps: seq<string>)
    requires ps != [] && Star !in Atoms(ps)
    ensures Star !in PartAtoms(ps[|ps| - 1])
  {}

  lemma {:induction false} AtomsThenLabels(ps: seq<string>, text: string)
    requires |ps| > 1 && SeparatorsKept(ps) && AllWhole(ps)
    requires SeparatorsKept(ps[..|ps| - 1])
    requires Atoms(ps) == Atoms(ps[..|ps| - 1]) + ([Lit('.')] + PartAtoms(ps[|ps| - 1])) && Matches(Atoms(ps), text)
    ensures RawLabelsMatch(ps, Labels(text))
    decreases |ps|, 0
  {
    hide Matches, Labels, Atoms, PartAtoms, Prefix;
    var init, last := ps[..|ps| - 1], ps[|ps| - 1];
    NoStarAtoms(ps);
    LastAtoms(ps);
    var k := SplitPoint(Atoms(init), [Lit('.')] + PartAtoms(last), text);
    var tail := text[k..];
    MatchesDot(PartAtoms(last), tail);
    MatchesPart(last, tail[1..]);
    AtomsMatchLabels(init, text[..k]);
    assert text == text[..k] + "." + tail[1..];
    LabelsSplit(text[..k], tail[1..]);
    LabelsOfDotless(tail[1..]);
  }

  lemma {:induction false} LabelsThenAtoms(ps: seq<string>, text: string)
    requires |ps| > 1 && SeparatorsKept(ps) && AllWhole(ps)
    requires SeparatorsKept(ps[..|ps| - 1])
    requires Atoms(ps) == Atoms(ps[..|ps| - 1]) + ([Lit('.')] + PartAtoms(ps[|ps| - 1]))
    requires RawLabelsMatch(ps, Labels(text))
    ensures Matches(Atoms(ps), text)
    decreases |ps|, 0
  {
    hide Matches, Labels, Atoms, PartAtoms, Prefix;
    var init, last := ps[..|ps| - 1], ps[|ps| - 1];
    var ls := Labels(text);
    LabelsHaveNoDots(text);
    JoinOfLabels(text);
    var head, end := Join(ls[..|ls| - 1]), ls[|ls| - 1];
    assert text == head + "." + end;
    LabelsOfJoin(ls[..|ls| - 1]);
    AtomsMatchLabels(init, head);
    MatchesPart(last, end);
    var k := |head|;
    assert text[..k] == head && text[k..] == "." + end && ("." + end)[1..] == end;
    NoStarAtoms(ps);
    LastAtoms(ps);
    MatchesDot(PartAtoms(last), "." + end);
    Rejoin(Atoms(init), [Lit('.')] + PartAtoms(last), text, k);
  }

  // ----- exactly when the code means what the pattern says -----

  /** A star stands for a whole label. */
  predicate StarsAreWhole(pattern: string)
  {
    forall i :: 0 <= i < |Labels(pattern)| ==> StarIsWhole(Labels(pattern)[i])
  }

  /** What can be read off the labels: no leading empty label, no caret at the end of a label that a dot follows. */
  predicate SafeSeparators(labels: seq<string>)
  {
    |labels| > 1 ==> labels[0] != "" && forall i :: 0 <= i < |labels| - 1 ==> !EndsWithCaret(labels[i])
  }

  predicate Faithful(pattern: string)
  {
    StarsAreWhole(pattern) && Lower(pattern) == pattern && SafeSeparators(Labels(pattern))
  }

  lemma EscapedEnd(s: string)
    requires s != ""
    ensures EscapedAll(s) != "" && EscapedAll(s)[|EscapedAll(s)| - 1] == s[|s| - 1]
  {}

  /** Only the last non-empty label decides whether the text ends in a caret. */
  lemma PrefixEnd(labels: seq<string>)
    requires labels != []
    ensures var init, last := labels[..|labels| - 1], labels[|labels| - 1];
      EndsWithCaret(Prefix(labels)) <==> if last == "" then EndsWithCaret(Prefix(init)) else EndsWithCaret(last)
  {
    var init, last := labels[..|labels| - 1], labels[|labels| - 1];
    var before := Prefix(init);
    PrefixStartsWithCaret(init);
    var sep := if EndsWithCaret(before) then "" else "\\.";
    assert Prefix(labels) == before + sep + Part(last);
    if last == "" {
      assert Part(last) == "";
    } else if last != "*" {
      EscapedEnd(last);
    }
  }

  lemma {:induction false} SafeMeansNoCaret(labels: seq<string>, k: nat)
    requires SafeSeparators(labels) && 1 <= k < |labels|
    ensures !EndsWithCaret(Prefix(labels[..k]))
    decreases k
  {
    PrefixEnd(labels[..k]);
    assert labels[..k][..k - 1] == labels[..k - 1];
    if k > 1 { SafeMeansNoCaret(labels, k - 1); }
  }

  /** A caret that a safe pattern rules out swallows a separator. */
  lemma UnsafeLosesASeparator(labels: seq<string>) returns (k: nat)
    requires !SafeSeparators(labels)
    ensures 1 <= k < |labels| && EndsWithCaret(Prefix(labels[..k]))
  {
    if labels[0] == "" {
      k := 1;
      PrefixEnd(labels[..1]);
      assert labels[..1][..0] == [];
      assert EndsWithCaret("^");
    } else {
      var i :| 0 <= i < |labels| - 1 && EndsWithCaret(labels[i]);
      k := i + 1;
      PrefixEnd(labels[..k]);
    }
  }

  lemma {:induction false} LabelCharsComeFromThePattern(s: string)
    ensures forall i, c :: 0 <= i < |Labels(s)| && c in Labels(s)[i] ==> c in s
    decreases |s|
  {
    if s != "" {
      var rest := Labels(s[1..]);
      LabelCharsComeFromThePattern(s[1..]);
      forall i, c | 0 <= i < |Labels(s)| && c in Labels(s)[i] ensures c in s {
        if s[0] == '.' {
          if i > 0 { assert c in rest[i - 1] && c in s[1..]; }
        } else if !(i == 0 && c == s[0]) {
          assert c in rest[i] && c in s[1..];
        }
      }
    }
  }

  /** Every character but the dots ends up in a label. */
  lemma {:induction false} PatternCharsGoToLabels(s: string, c: char)
    requires c in s && c != '.'
    ensures exists i :: 0 <= i < |Labels(s)| && c in Labels(s)[i]
    decreases |s|
  {
    var rest := Labels(s[1..]);
    if s[0] == c {
      assert c in Labels(s)[0];
    } else {
      assert c in s[1..];
      PatternCharsGoToLabels(s[1..], c);
      var i :| 0 <= i < |rest| && c in rest[i];
      if s[0] == '.' {
        assert Labels(s)[i + 1] == rest[i];
      } else if i == 0 {
        assert c in Labels(s)[0];
      } else {
        assert Labels(s)[i] == rest[i];
      }
    }
  }

  lemma LowerFixesChars(s: string)
    ensures Lower(s) == s <==> forall c :: c in s ==> LowerChar(c) == c
  {
    if Lower(s) == s {
      forall c | c in s ensures LowerChar(c) == c {
        var i :| 0 <= i < |s| && s[i] == c;
        assert Lower(s)[i] == LowerChar(c);
      }
    }
  }

  lemma LowerIsIdempotent(s: string)
    ensures Lower(Lower(s)) == Lower(s)
  {}

  lemma LabelsOfALowerPattern(pattern: string)
    requires Lower(pattern) == pattern
    ensures forall i :: 0 <= i < |Labels(pattern)| ==> Lower(Labels(pattern)[i]) == Labels(pattern)[i]
  {
    LowerFixesChars(pattern);
    LabelCharsComeFromThePattern(pattern);
    forall i | 0 <= i < |Labels(pattern)| ensures Lower(Labels(pattern)[i]) == Labels(pattern)[i] {
      LowerFixesChars(Labels(pattern)[i]);
    }
  }

  /** Without stars a label means itself, ignoring case; a star alone means anything but nothing. */
  lemma {:induction false} PlainLabelMatches(p: string, part: string)
    requires StarIsWhole(p)
    ensures LabelMatches(p, part) <==> if p == "*" then part != "" else Lower(p) == part
    decreases |p|
  {
    if p == "*" {
      assert p[1..] == "";
      if part != "" { assert LabelMatches("", part[|part|..]); }
    } else if p != "" && part != "" {
      PlainLabelMatches(p[1..], part[1..]);
      assert p[0] != '*' && '*' !in p[1..];
      assert Lower(p) == [LowerChar(p[0])] + Lower(p[1..]) && part == [part[0]] + part[1..];
    }
  }

  /** A faithful pattern is compiled to an expression that means exactly what the pattern says. */
  lemma FaithfulPatternsMeanWhatTheySay(pattern: string, host: string)
    requires Faithful(pattern)
    ensures CodeMatches(pattern, host) <==> Means(pattern, host)
  {
    hide Regex, RegexMatches, Labels, Matches, Atoms, Prefix, LabelMatches;
    var ps, text := Labels(pattern), Lower(host);
    CodeMeansAtoms(pattern, text);
    LabelsHaveNoDots(pattern);
    NoStarAtoms(ps);
    forall k | 1 <= k < |ps| ensures !EndsWithCaret(Prefix(ps[..k])) {
      SafeMeansNoCaret(ps, k);
    }
    AtomsMatchLabels(ps, text);
    LabelsOfALowerPattern(pattern);
    forall i | 0 <= i < |ps| && i < |Labels(text)|
      ensures LabelMatches(ps[i], Labels(text)[i]) <==> RawLabelMatches(ps[i], Labels(text)[i])
    {
      PlainLabelMatches(ps[i], Labels(text)[i]);
    }
  }

  // ----- and that it does not, otherwise -----

  function Dots(text: string): nat
  {
    if text == "" then 0 else (if text[0] == '.' then 1 else 0) + Dots(text[1..])
  }

  function DotAtoms(atoms: seq<Atom>): nat
  {
    if atoms == [] then 0 else (if atoms[0] == Lit('.') then 1 else 0) + DotAtoms(atoms[1..])
  }

  lemma {:induction false} DotsConcat(a: string, b: string)
    ensures Dots(a + b) == Dots(a) + Dots(b)
    decreases |a|
  {
    if a == "" {
      assert a + b == b;
    } else {
      assert (a + b)[1..] == a[1..] + b;
      DotsConcat(a[1..], b);
    }
  }

  lemma {:induction false} DotAtomsConcat(a: seq<Atom>, b: seq<Atom>)
    ensures DotAtoms(a + b) == DotAtoms(a) + DotAtoms(b)
    decreases |a|
  {
    if a == [] {
      assert a + b == b;
    } else {
      assert (a + b)[1..] == a[1..] + b;
      DotAtomsConcat(a[1..], b);
    }
  }

  lemma {:induction false} DotlessHasNoDots(s: string)
    requires NoDot(s)
    ensures Dots(s) == 0
    decreases |s|
  {
    if s != "" { DotlessHasNoDots(s[1..]); }
  }

  lemma {:induction false} NoDotAtoms(atoms: seq<Atom>)
    requires Lit('.') !in atoms
    ensures DotAtoms(atoms) == 0
    decreases |atoms|
  {
    if atoms != [] { NoDotAtoms(atoms[1..]); }
  }

  /** A match has exactly the dots that the expression spells out, and all its literal characters. */
  lemma {:induction false} MatchHasTheDots(atoms: seq<Atom>, text: string)
    requires Matches(atoms, text) && Star !in atoms
    ensures Dots(text) == DotAtoms(atoms)
    ensures forall c :: Lit(c) in atoms ==> c in text
    decreases |atoms|
  {
    if atoms != [] {
      var n := 1;
      if atoms[0].DotFree? {
        n :| 0 < n <= |text| && NoDot(text[..n]) && Matches(atoms[1..], text[n..]);
        DotlessHasNoDots(text[..n]);
        assert text == text[..n] + text[n..];
        DotsConcat(text[..n], text[n..]);
      }
      MatchHasTheDots(atoms[1..], text[n..]);
      forall c | Lit(c) in atoms ensures c in text {
        if Lit(c) in atoms[1..] { assert c in text[n..]; }
      }
    }
  }

  lemma OneDotAtom()
    ensures DotAtoms([]) == 0 && DotAtoms([Lit('.')]) == 1
  {
    assert [Lit('.')][1..] == [];
  }

  lemma PartAtomsAreDotless(p: string)
    requires NoDot(p)
    ensures DotAtoms(PartAtoms(p)) == 0
  {
    assert Lit('.') !in PartAtoms(p);
    NoDotAtoms(PartAtoms(p));
  }

  /** At most one separator per dot of the pattern, and fewer once one is swallowed. */
  lemma {:induction false} SeparatorsWritten(labels: seq<string>, k: nat)
    requires labels != [] && forall i :: 0 <= i < |labels| ==> NoDot(labels[i])
    ensures DotAtoms(Atoms(labels)) <= |labels| - 1
    ensures 1 <= k < |labels| && EndsWithCaret(Prefix(labels[..k])) ==> DotAtoms(Atoms(labels)) < |labels| - 1
    decreases |labels|
  {
    hide Prefix, PartAtoms, DotAtoms;
    var init, last := labels[..|labels| - 1], labels[|labels| - 1];
    PartAtomsAreDotless(last);
    if init == [] {
      FirstAtoms(labels);
    } else {
      SeparatorsWritten(init, k);
      var sep := if EndsWithCaret(Prefix(init)) then [] else [Lit('.')];
      OneDotAtom();
      DotAtomsConcat(Atoms(init) + sep, PartAtoms(last));
      DotAtomsConcat(Atoms(init), sep);
      if 1 <= k < |init| { assert init[..k] == labels[..k]; }
      if k == |init| { assert labels[..k] == init; }
    }
  }

  lemma {:induction false} DotsOfJoin(labels: seq<string>)
    requires labels != [] && forall i :: 0 <= i < |labels| ==> NoDot(labels[i])
    ensures Dots(Join(labels)) == |labels| - 1
    decreases |labels|
  {
    var last := labels[|labels| - 1];
    DotlessHasNoDots(last);
    if |labels| > 1 {
      var init := labels[..|labels| - 1];
      DotsOfJoin(init);
      assert Dots(".") == 1;
      DotsConcat(Join(init), ".");
      DotsConcat(Join(init) + ".", last);
    }
  }

  /** An x for each star, and lower case. */
  function Filled(p: string): string
  {
    seq(|p|, i requires 0 <= i < |p| => if p[i] == '*' then 'x' else LowerChar(p[i]))
  }

  /** A host name that the pattern is meant to match. */
  function Example(ps: seq<string>): seq<string>
  {
    seq(|ps|, i requires 0 <= i < |ps| => Filled(ps[i]))
  }

  lemma {:induction false} FilledMatches(p: string)
    ensures LabelMatches(p, Filled(p))
    decreases |p|
  {
    if p != "" {
      FilledMatches(p[1..]);
      assert Filled(p)[1..] == Filled(p[1..]);
    }
  }

  lemma FilledIsPlain(p: string)
    requires NoDot(p)
    ensures NoDot(Filled(p)) && Lower(Filled(p)) == Filled(p)
  {
    forall i | 0 <= i < |p| ensures Filled(p)[i] != '.' { assert p[i] != '.'; }
  }

  lemma {:induction false} JoinIsLower(labels: seq<string>)
    requires labels != [] && forall i :: 0 <= i < |labels| ==> Lower(labels[i]) == labels[i]
    ensures Lower(Join(labels)) == Join(labels)
    decreases |labels|
  {
    if |labels| > 1 {
      var init, last := labels[..|labels| - 1], labels[|labels| - 1];
      JoinIsLower(init);
      var head := Join(init) + ".";
      assert Join(labels) == head + last;
      assert Lower(head + last) == Lower(head) + Lower(last);
      assert Lower(head) == Lower(Join(init)) + Lower(".");
    }
  }

  lemma ExampleIsMeant(pattern: string)
    ensures var host := Join(Example(Labels(pattern)));
      && Lower(host) == host && Means(pattern, host) && Dots(host) == |Labels(pattern)| - 1
  {
    var ps := Labels(pattern);
    var ls := Example(ps);
    LabelsHaveNoDots(pattern);
    forall i | 0 <= i < |ls| ensures NoDot(ls[i]) && Lower(ls[i]) == ls[i] {
      FilledIsPlain(ps[i]);
    }
    forall i | 0 <= i < |ls| ensures LabelMatches(ps[i], ls[i]) { FilledMatches(ps[i]); }
    LabelsOfJoin(ls);
    JoinIsLower(ls);
    DotsOfJoin(ls);
  }

  lemma {:induction false} LabelLiteralsAreAtoms(labels: seq<string>, i: nat, c: char)
    requires i < |labels| && labels[i] != "*" && c in labels[i] && c != '*'
    ensures Lit(c) in Atoms(labels)
    decreases |labels|
  {
    var init, last := labels[..|labels| - 1], labels[|labels| - 1];
    if i == |labels| - 1 {
      var j :| 0 <= j < |last| && last[j] == c;
      assert AtomsOf(last)[j] == Lit(c);
      assert Lit(c) in PartAtoms(last);
    } else {
      assert init[i] == labels[i];
      LabelLiteralsAreAtoms(init, i, c);
    }
  }

  /** If the stars are whole there is then a host name the pattern is meant to match and the code does not. */
  lemma UnfaithfulPatternsMissAHost(pattern: string)
    requires StarsAreWhole(pattern) && !Faithful(pattern)
    ensures var host := Join(Example(Labels(pattern)));
      Means(pattern, host) && !CodeMatches(pattern, host)
  {
    hide Regex, RegexMatches, Labels, Matches, Atoms, Prefix, Join, Dots, DotAtoms;
    var ps := Labels(pattern);
    var host := Join(Example(ps));
    ExampleIsMeant(pattern);
    CodeMeansAtoms(pattern, host);
    LabelsHaveNoDots(pattern);
    NoStarAtoms(ps);
    if Matches(Atoms(ps), host) {
      MatchHasTheDots(Atoms(ps), host);
      if Lower(pattern) != pattern {
        UpperCaseIsNeverMatched(pattern, host);
      } else {
        var k := UnsafeLosesASeparator(ps);
        SeparatorsWritten(ps, k);
      }
    }
  }

  lemma UpperCaseIsNeverMatched(pattern: string, text: string)
    requires StarsAreWhole(pattern) && Lower(pattern) != pattern && Lower(text) == text
    ensures !Matches(Atoms(Labels(pattern)), text)
  {
    hide Labels, Atoms, Matches, Lower;
    LowerFixesChars(pattern);
    LowerFixesChars(text);
    var c :| c in pattern && LowerChar(c) != c;
    PatternCharsGoToLabels(pattern, c);
    var i :| 0 <= i < |Labels(pattern)| && c in Labels(pattern)[i];
    LabelLiteralsAreAtoms(Labels(pattern), i, c);
    NoStarAtoms(Labels(pattern));
    if Matches(Atoms(Labels(pattern)), text) {
      MatchHasTheDots(Atoms(Labels(pattern)), text);
    }
  }

  // ----- stars inside a label -----

  /** The shortest text an expression matches: repetitions left out, an x for each run. */
  function Shortest(atoms: seq<Atom>): string
    decreases |atoms|
  {
    if atoms == [] then ""
    else if StarAt(atoms, 1) && StarAt(atoms, 2) then Shortest([atoms[0]] + atoms[2..])
    else if StarAt(atoms, 1) then Shortest(atoms[2..])
    else match atoms[0]
      case Lit(c) => [c] + Shortest(atoms[1..])
      case DotFree => "x" + Shortest(atoms[1..])
      case Star => Shortest(atoms[1..])
  }

  lemma {:induction false} ShortestMatches(atoms: seq<Atom>)
    requires !StarAt(atoms, 0)
    ensures Matches(atoms, Shortest(atoms))
    decreases |atoms|
  {
    var text := Shortest(atoms);
    if atoms == [] {
    } else if StarAt(atoms, 1) && StarAt(atoms, 2) {
      ShortestMatches([atoms[0]] + atoms[2..]);
    } else if StarAt(atoms, 1) {
      ShortestMatches(atoms[2..]);
      assert text[..0] == "" && text[0..] == text;
      assert Repeats(atoms[0], text[..0]);
    } else {
      ShortestMatches(atoms[1..]);
      assert text[1..] == Shortest(atoms[1..]);
      if atoms[0].DotFree? { assert text[..1] == "x" && NoDot(text[..1]); }
    }
  }

  lemma {:induction false} ShortestIsShort(atoms: seq<Atom>)
    ensures |Shortest(atoms)| <= |atoms|
    ensures Star in atoms ==> |Shortest(atoms)| < |atoms|
    decreases |atoms|
  {
    if atoms == [] {
    } else if StarAt(atoms, 1) && StarAt(atoms, 2) {
      ShortestIsShort([atoms[0]] + atoms[2..]);
    } else if StarAt(atoms, 1) {
      ShortestIsShort(atoms[2..]);
    } else {
      ShortestIsShort(atoms[1..]);
      assert atoms == [atoms[0]] + atoms[1..];
    }
  }

  /** Whatever is matched has every character of the shortest match, except for the run's x. */
  lemma {:induction false} MatchesHaveTheShortest(atoms: seq<Atom>, text: string, c: char)
    requires Matches(atoms, text) && c in Shortest(atoms) && c != 'x'
    ensures c in text
    decreases |atoms|
  {
    if atoms == [] {
    } else if StarAt(atoms, 1) && StarAt(atoms, 2) {
      MatchesHaveTheShortest([atoms[0]] + atoms[2..], text, c);
    } else if StarAt(atoms, 1) {
      var n :| 0 <= n <= |text| && Repeats(atoms[0], text[..n]) && Matches(atoms[2..], text[n..]);
      MatchesHaveTheShortest(atoms[2..], text[n..], c);
    } else {
      var n := 1;
      if atoms[0].DotFree? {
        n :| 0 < n <= |text| && NoDot(text[..n]) && Matches(atoms[1..], text[n..]);
      }
      if c in Shortest(atoms[1..]) { MatchesHaveTheShortest(atoms[1..], text[n..], c); }
    }
  }

  lemma {:induction false} LeadingStarsDoNotShow(atoms: seq<Atom>)
    ensures Shortest(WithoutLeadingStars(atoms)) == Shortest(atoms) && !StarAt(WithoutLeadingStars(atoms), 0)
    decreases |atoms|
  {
    if StarAt(atoms, 0) {
      LeadingStarsDoNotShow(atoms[1..]);
      LeadingStar(atoms);
    }
  }

  lemma {:induction false} LeadingStar(atoms: seq<Atom>)
    requires StarAt(atoms, 0)
    ensures Shortest(atoms) == Shortest(atoms[1..])
    decreases |atoms|
  {
    var tail := atoms[1..];
    if StarAt(atoms, 1) && StarAt(atoms, 2) {
      assert [atoms[0]] + atoms[2..] == tail;
    } else if StarAt(atoms, 1) {
      assert tail[1..] == atoms[2..];
      if |tail| >= 2 { assert !StarAt(tail, 1); }
    }
  }

  lemma ShortestIsFound(atoms: seq<Atom>)
    ensures Searches(atoms, Shortest(atoms))
  {
    LeadingStarsDoNotShow(atoms);
    ShortestMatches(WithoutLeadingStars(atoms));
    assert Shortest(atoms)[0..] == Shortest(atoms);
  }

  lemma FoundHasTheShortest(atoms: seq<Atom>, text: string, c: char)
    requires Searches(atoms, text) && c in Shortest(atoms) && c != 'x'
    ensures c in text
  {
    LeadingStarsDoNotShow(atoms);
    if StarAt(atoms, 0) {
      var k :| 0 <= k <= |text| && Matches(WithoutLeadingStars(atoms), text[k..]);
      MatchesHaveTheShortest(WithoutLeadingStars(atoms), text[k..], c);
    } else {
      MatchesHaveTheShortest(atoms, text, c);
    }
  }

  /** The expression has no more atoms than the pattern has characters. */
  lemma {:induction false} NoMoreAtoms(labels: seq<string>)
    requires labels != []
    ensures |Atoms(labels)| <= |Join(labels)|
    decreases |labels|
  {
    var init, last := labels[..|labels| - 1], labels[|labels| - 1];
    assert |PartAtoms(last)| == |last|;
    if init == [] { FirstAtoms(labels); } else { NoMoreAtoms(init); }
  }

  lemma {:induction false} PartialStarShows(labels: seq<string>, i: nat)
    requires i < |labels| && !StarIsWhole(labels[i])
    ensures Star in Atoms(labels)
    decreases |labels|
  {
    var init, last := labels[..|labels| - 1], labels[|labels| - 1];
    if i == |labels| - 1 {
      var j :| 0 <= j < |last| && last[j] == '*';
      assert PartAtoms(last)[j] == Star;
    } else {
      assert init[i] == labels[i];
      PartialStarShows(init, i);
    }
  }

  lemma {:induction false} MeantLabelsAreLong(p: string, part: string)
    requires LabelMatches(p, part)
    ensures |part| >= |p|
    decreases |p|
  {
    if p != "" {
      var n := 1;
      if p[0] == '*' { n :| 0 < n <= |part| && LabelMatches(p[1..], part[n..]); }
      MeantLabelsAreLong(p[1..], part[n..]);
    }
  }

  lemma {:induction false} MeantHostsAreLong(ps: seq<string>, labels: seq<string>)
    requires ps != [] && LabelsMatch(ps, labels)
    ensures |Join(labels)| >= |Join(ps)|
    decreases |ps|
  {
    hide LabelMatches;
    MeantLabelsAreLong(ps[|ps| - 1], labels[|ps| - 1]);
    if |ps| > 1 { MeantHostsAreLong(ps[..|ps| - 1], labels[..|ps| - 1]); }
  }

  /**
   * A star that shares its label with other characters repeats the character before it instead: the
   * code matches a host name that is too short to be meant, or no host name at all.
   */
  lemma PartialStarsAreMisread(pattern: string) returns (host: string)
    requires !StarsAreWhole(pattern)
    ensures CodeMatches(pattern, host) != Means(pattern, host)
  {
    hide Regex, RegexMatches, Labels, Atoms, Searches, Shortest, Lower, LabelMatches, Join;
    var ps := Labels(pattern);
    var i :| 0 <= i < |ps| && !StarIsWhole(ps[i]);
    var text := Shortest(Atoms(ps));
    PartialStarShows(ps, i);
    ShortestIsShort(Atoms(ps));
    NoMoreAtoms(ps);
    JoinOfLabels(pattern);
    LowerFixesChars(text);
    if Lower(text) == text {
      host := text;
      ShortestIsFound(Atoms(ps));
      CodeMeansAtoms(pattern, text);
      JoinOfLabels(text);
      if Means(pattern, text) { MeantHostsAreLong(ps, Labels(text)); }
    } else {
      var c :| c in text && LowerChar(c) != c;
      host := Join(Example(ps));
      ExampleIsMeant(pattern);
      CodeMeansAtoms(pattern, host);
      LowerFixesChars(host);
      if Searches(Atoms(ps), host) { FoundHasTheShortest(Atoms(ps), host, c); }
    }
  }

  lemma BeforeOrAfter(text: string, n: nat, c: char)
    requires n <= |text| && c in text
    ensures c in text[..n] || c in text[n..]
  {
    var i :| 0 <= i < |text| && text[i] == c;
    if i < n { assert text[..n][i] == c; } else { assert text[n..][i - n] == c; }
  }

  lemma {:induction false} MatchedCharsAreSpelled(atoms: seq<Atom>, text: string, c: char)
    requires Matches(atoms, text) && DotFree !in atoms && c in text
    ensures Lit(c) in atoms
    decreases |atoms|
  {
    if atoms == [] {
    } else if StarAt(atoms, 1) && StarAt(atoms, 2) {
      MatchedCharsAreSpelled([atoms[0]] + atoms[2..], text, c);
    } else if StarAt(atoms, 1) {
      var n :| 0 <= n <= |text| && Repeats(atoms[0], text[..n]) && Matches(atoms[2..], text[n..]);
      BeforeOrAfter(text, n, c);
      if c in text[n..] { MatchedCharsAreSpelled(atoms[2..], text[n..], c); }
    } else {
      BeforeOrAfter(text, 1, c);
      if c in text[1..] { MatchedCharsAreSpelled(atoms[1..], text[1..], c); }
    }
  }

  lemma {:induction false} AtomsComeFromLabels(labels: seq<string>, c: char)
    requires forall i :: 0 <= i < |labels| ==> labels[i] != "*" && c !in labels[i]
    requires c != '.'
    ensures DotFree !in Atoms(labels) && Lit(c) !in Atoms(labels)
    decreases |labels|
  {
    if labels != [] {
      var last := labels[|labels| - 1];
      AtomsComeFromLabels(labels[..|labels| - 1], c);
      assert DotFree !in PartAtoms(last) && Lit(c) !in PartAtoms(last);
    }
  }

  lemma {:induction false} FirstAtomIsTheFirstLabel(labels: seq<string>)
    requires labels != [] && labels[0] != "" && labels[0][0] != '*'
    ensures !StarAt(Atoms(labels), 0) && Atoms(labels) != []
    decreases |labels|
  {
    if |labels| == 1 {
      FirstAtoms(labels);
      assert PartAtoms(labels[0])[0] == AtomOf(labels[0][0]);
    } else {
      FirstAtomIsTheFirstLabel(labels[..|labels| - 1]);
    }
  }

  /**
   * A pattern such as prod-*.company.com, without a whole-label star and not beginning with one,
   * matches no host name that has a character which the pattern does not spell out.
   */
  lemma PartialStarsCoverNothingNew(pattern: string, host: string, c: char)
    requires var ps := Labels(pattern);
      ps[0] != "" && ps[0][0] != '*' && forall i :: 0 <= i < |ps| ==> ps[i] != "*"
    requires c in Lower(host) && c !in pattern && c != '.'
    ensures !CodeMatches(pattern, host)
  {
    hide Regex, RegexMatches, Labels, Matches, Atoms;
    var ps := Labels(pattern);
    CodeMeansAtoms(pattern, Lower(host));
    LabelCharsComeFromThePattern(pattern);
    AtomsComeFromLabels(ps, c);
    FirstAtomIsTheFirstLabel(ps);
    if Matches(Atoms(ps), Lower(host)) { MatchedCharsAreSpelled(Atoms(ps), Lower(host), c); }
  }

  /**
   * The compiled expression agrees with the pattern's meaning on every host name if and only if every
   * star is a whole label, the pattern is lower case, has no leading empty label and no caret before
   * one of its dots.
   */
  lemma CodeIsRightExactlyOnFaithfulPatterns(pattern: string)
    ensures (forall host :: CodeMatches(pattern, host) <==> Means(pattern, host)) <==> Faithful(pattern)
  {
    hide CodeMatches, Means;
    if Faithful(pattern) {
      forall host ensures CodeMatches(pattern, host) <==> Means(pattern, host) {
        FaithfulPatternsMeanWhatTheySay(pattern, host);
      }
    } else if StarsAreWhole(pattern) {
      UnfaithfulPatternsMissAHost(pattern);
    } else {
      var host := PartialStarsAreMisread(pattern);
    }
  }

  /** A wildcard rule written with an upper-case letter, its stars whole labels, matches no host name at all. */
  lemma UpperCaseRulesAreDead(pattern: string, host: string)
    requires StarsAreWhole(pattern) && Lower(pattern) != pattern
    ensures !CodeMatches(pattern, host)
  {
    hide Regex, RegexMatches, Labels, Matches, Atoms;
    CodeMeansAtoms(pattern, Lower(host));
    NoStarAtoms(Labels(pattern));
    LowerIsIdempotent(host);
    UpperCaseIsNeverMatched(pattern, Lower(host));
  }
}
