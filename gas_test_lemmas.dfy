/**
 * Properties of the expectation parser: what the printer writes, the parser
 * reads back, and the section is rejected without a creation line or with an
 * entry before any kind header.
 */
module GasTestProperties {
  import opened Wrappers
  import opened GasTest

  function DigitChar(d: nat): (c: char)
    requires d < 10
    ensures IsDigit(c) && !IsSpace(c)
  {
    ('0' as int + d) as char
  }

  /** The decimal digits of `n`, as a cost is printed. */
  function NatToDecimal(n: nat): (s: string)
    ensures |s| >= 1 && AllDigits(s)
  {
    if n < 10 then [DigitChar(n)] else NatToDecimal(n / 10) + [DigitChar(n % 10)]
  }

  /** Reading the printed digits of `n` gives back `n`. */
  lemma {:induction false} DecimalRoundTrip(n: nat)
    ensures DecimalValue(NatToDecimal(n)) == n
  {
    if n >= 10 {
      var s := NatToDecimal(n);
      assert s[..|s| - 1] == NatToDecimal(n / 10);
      DecimalRoundTrip(n / 10);
    }
  }

  /** A non-empty string of decimal digits. */
  predicate Numeral(ds: string) {
    |ds| >= 1 && AllDigits(ds)
  }

  /** The digits `ds` at `i + 1`, after a space and before a non-digit or the
      end of the line, form a field whose value is that of `ds`. */
  lemma NumeralField(s: string, i: nat, ds: string)
    requires Numeral(ds)
    requires i + 1 + |ds| <= |s|
    requires s[i] == ' '
    requires s[i + 1..i + 1 + |ds|] == ds
    requires i + 1 + |ds| == |s| || !IsDigit(s[i + 1 + |ds|])
    ensures Field(s, i, i + 1, i + 1 + |ds|) && DigitsValue(s, i + 1, i + 1 + |ds|) == DecimalValue(ds)
  {
    var j := i + 1 + |ds|;
    forall k | i + 1 <= k < j
      ensures IsDigit(s[k])
    {
      assert s[k] == ds[k - i - 1];
    }
    DigitsValueDecimal(s, i + 1, j);
  }

  /** Those digits are read as their value. */
  lemma NumberAt(s: string, i: nat, ds: string)
    requires Numeral(ds)
    requires i + 1 + |ds| <= |s|
    requires s[i] == ' '
    requires s[i + 1..i + 1 + |ds|] == ds
    requires i + 1 + |ds| == |s| || !IsDigit(s[i + 1 + |ds|])
    ensures NumberAfter(s, i) == Success((DecimalValue(ds), i + 1 + |ds|))
  {
    NumeralField(s, i, ds);
    NumberAfterBlank(s, i, i + 1, i + 1 + |ds|);
  }

  /** " c" at `i` is read as the separator `c`. */
  lemma SeparatorAt(s: string, i: nat, c: char, e: GasError)
    requires i + 2 <= |s|
    requires s[i] == ' ' && s[i + 1] == c && !IsSpace(c)
    ensures SeparatorAfter(s, i, c, e) == Success(i + 2)
  {
    RunEndUnique(s, i, IsSpace, i + 1);
  }

  /** A creation line with the given numerals, as the printer lays it out. */
  function CreationText(d1: string, d2: string, d3: string): string {
    CreationPrefix + " " + d1 + " + " + d2 + " = " + d3
  }

  /** The creation line the printer writes. */
  function CreationLine(c: CreationCost): string {
    CreationText(NatToDecimal(c.executionCost), NatToDecimal(c.codeDepositCost), NatToDecimal(c.totalCost))
  }

  /** Where the pieces of a laid-out creation line stand: the numerals start
      at 13, `plus + 3` and `equals + 3`. */
  predicate CreationLayout(line: string, d1: string, d2: string, d3: string, plus: nat, equals: nat) {
    plus == |CreationPrefix| + 1 + |d1| && equals == plus + 3 + |d2| && |line| == equals + 3 + |d3| &&
    line[..|CreationPrefix|] == CreationPrefix &&
    line[|CreationPrefix|] == ' ' && line[|CreationPrefix| + 1..plus] == d1 &&
    line[plus] == ' ' && line[plus + 1] == '+' && line[plus + 2] == ' ' && line[plus + 3..equals] == d2 &&
    line[equals] == ' ' && line[equals + 1] == '=' && line[equals + 2] == ' ' && line[equals + 3..] == d3
  }

  lemma CreationTextLayout(d1: string, d2: string, d3: string)
    ensures var plus := |CreationPrefix| + 1 + |d1|;
      CreationLayout(CreationText(d1, d2, d3), d1, d2, d3, plus, plus + 3 + |d2|)
  {
  }

  lemma ExecutionField(line: string, d1: string, d2: string, d3: string, plus: nat, equals: nat)
    requires Numeral(d1) && CreationLayout(line, d1, d2, d3, plus, equals)
    ensures NumberAfter(line, |CreationPrefix|) == Success((DecimalValue(d1), plus))
    ensures SeparatorAfter(line, plus, '+', PlusExpected) == Success(plus + 2)
  {
    NumberAt(line, |CreationPrefix|, d1);
    SeparatorAt(line, plus, '+', PlusExpected);
  }

  lemma DepositField(line: string, d1: string, d2: string, d3: string, plus: nat, equals: nat)
    requires Numeral(d2) && CreationLayout(line, d1, d2, d3, plus, equals)
    ensures NumberAfter(line, plus + 2) == Success((DecimalValue(d2), equals))
    ensures SeparatorAfter(line, equals, '=', EqualsExpected) == Success(equals + 2)
  {
    NumberAt(line, plus + 2, d2);
    SeparatorAt(line, equals, '=', EqualsExpected);
  }

  lemma TotalField(line: string, d1: string, d2: string, d3: string, plus: nat, equals: nat)
    requires Numeral(d3) && CreationLayout(line, d1, d2, d3, plus, equals)
    ensures NumberAfter(line, equals + 2) == Success((DecimalValue(d3), |line|))
  {
    assert line[equals + 3..equals + 3 + |d3|] == d3;
    NumberAt(line, equals + 2, d3);
  }

  /** The creation line is read number, separator, number, separator, number. */
  lemma CreationFromFields(line: string, execution: nat, deposit: nat, total: nat, plus: nat, afterPlus: nat,
                            equals: nat, afterEquals: nat, end: nat)
    requires StartsWith(line, CreationPrefix)
    requires NumberAfter(line, |CreationPrefix|) == Success((execution, plus))
    requires plus <= |line| && SeparatorAfter(line, plus, '+', PlusExpected) == Success(afterPlus)
    requires afterPlus <= |line| && NumberAfter(line, afterPlus) == Success((deposit, equals))
    requires equals <= |line| && SeparatorAfter(line, equals, '=', EqualsExpected) == Success(afterEquals)
    requires afterEquals <= |line| && NumberAfter(line, afterEquals) == Success((total, end))
    ensures ParseCreation(line) == Success(CreationCost(execution, deposit, total))
  {
  }

  /** A line laid out as the printer does is read as the values of its numerals. */
  lemma CreationLayoutParses(line: string, d1: string, d2: string, d3: string, plus: nat, equals: nat)
    requires Numeral(d1) && Numeral(d2) && Numeral(d3)
    requires CreationLayout(line, d1, d2, d3, plus, equals)
    ensures StartsWith(line, CreationPrefix)
    ensures ParseCreation(line) == Success(CreationCost(DecimalValue(d1), DecimalValue(d2), DecimalValue(d3)))
  {
    ExecutionField(line, d1, d2, d3, plus, equals);
    DepositField(line, d1, d2, d3, plus, equals);
    TotalField(line, d1, d2, d3, plus, equals);
    CreationFromFields(line, DecimalValue(d1), DecimalValue(d2), DecimalValue(d3),
                       plus, plus + 2, equals, equals + 2, |line|);
  }

  /** A printed creation line parses back to the same three costs. */
  lemma CreationRoundTrip(c: CreationCost)
    ensures StartsWith(CreationLine(c), CreationPrefix)
    ensures ParseCreation(CreationLine(c)) == Success(c)
  {
    var d1, d2, d3 := NatToDecimal(c.executionCost), NatToDecimal(c.codeDepositCost), NatToDecimal(c.totalCost);
    DecimalRoundTrip(c.executionCost);
    DecimalRoundTrip(c.codeDepositCost);
    DecimalRoundTrip(c.totalCost);
    CreationTextLayout(d1, d2, d3);
    var plus := |CreationPrefix| + 1 + |d1|;
    CreationLayoutParses(CreationText(d1, d2, d3), d1, d2, d3, plus, plus + 3 + |d2|);
  }

  /** Only whitespace from `i` up to `j`. */
  predicate Blank(s: string, i: nat, j: nat) {
    i <= j <= |s| && forall k :: i <= k < j ==> IsSpace(s[k])
  }

  /** Digits from `i` up to `j`, at least one, and no digit right after them. */
  predicate DigitsAt(s: string, i: nat, j: nat) {
    i < j <= |s| && (forall k :: i <= k < j ==> IsDigit(s[k])) && (j == |s| || !IsDigit(s[j]))
  }

  /** A number follows the whitespace at `i` exactly when a digit ends that
      whitespace. */
  lemma NumberAfterSpec(line: string, i: nat)
    requires i <= |line|
    ensures var k := RunEnd(line, i, IsSpace);
      NumberAfter(line, i).Failure? <==> k == |line| || !IsDigit(line[k])
  {
  }

  /** The separator `c` is found exactly when it ends the whitespace at `i`,
      and reading resumes just after it. */
  lemma SeparatorAfterSpec(line: string, i: nat, c: char, e: GasError)
    requires i <= |line|
    ensures var k := RunEnd(line, i, IsSpace);
      (SeparatorAfter(line, i, c, e).Success? <==> k < |line| && line[k] == c) &&
      (SeparatorAfter(line, i, c, e).Success? ==> SeparatorAfter(line, i, c, e).value == k + 1)
  {
  }

  /** Optional whitespace from `i`, then the digits from `b` up to `e`. */
  predicate Field(line: string, i: nat, b: nat, e: nat) {
    Blank(line, i, b) && DigitsAt(line, b, e)
  }

  /** A field from `i`, optional whitespace, then the separator `c` at `sep`. */
  predicate FieldThen(line: string, i: nat, b: nat, e: nat, sep: nat, c: char) {
    Field(line, i, b, e) && Blank(line, e, sep) && sep < |line| && line[sep] == c
  }

  /** Optional whitespace, then digits, read as the digits' value. */
  lemma NumberAfterBlank(s: string, i: nat, b: nat, e: nat)
    requires Field(s, i, b, e)
    ensures NumberAfter(s, i) == Success((DigitsValue(s, b, e), e))
  {
    assert IsDigit(s[b]);
    RunEndUnique(s, i, IsSpace, b);
    RunEndUnique(s, b, IsDigit, e);
  }

  /** Optional whitespace, then the end of the line or a character that is
      neither a digit nor whitespace: no number. */
  lemma NumberMissing(s: string, i: nat, b: nat)
    requires Blank(s, i, b) && (b == |s| || (!IsDigit(s[b]) && !IsSpace(s[b])))
    ensures NumberAfter(s, i) == Failure(SourceLocationExpected)
  {
    RunEndUnique(s, i, IsSpace, b);
  }

  /** Optional whitespace, then the separator, read as that separator. */
  lemma SeparatorFound(s: string, i: nat, b: nat, c: char, e: GasError)
    requires Blank(s, i, b) && b < |s| && s[b] == c && !IsSpace(c)
    ensures SeparatorAfter(s, i, c, e) == Success(b + 1)
  {
    RunEndUnique(s, i, IsSpace, b);
  }

  /** Optional whitespace, then another character or the end of the line: the
      separator's error. */
  lemma SeparatorMissing(s: string, i: nat, b: nat, c: char, e: GasError)
    requires Blank(s, i, b) && (b == |s| || (s[b] != c && !IsSpace(s[b])))
    ensures SeparatorAfter(s, i, c, e) == Failure(e)
  {
    RunEndUnique(s, i, IsSpace, b);
  }

  /** A field and its separator are read as the digits' value, then the
      position after the separator. */
  lemma FieldRead(line: string, i: nat, b: nat, e: nat, sep: nat, c: char, err: GasError)
    requires FieldThen(line, i, b, e, sep, c) && !IsSpace(c)
    ensures NumberAfter(line, i) == Success((DigitsValue(line, b, e), e))
    ensures SeparatorAfter(line, e, c, err) == Success(sep + 1)
  {
    NumberAfterBlank(line, i, b, e);
    SeparatorFound(line, e, sep, c, err);
  }

  /** Once the costs before '=' are read, a total after optional whitespace
      completes the creation line. */
  lemma TotalCompletes(line: string, execution: nat, e1: nat, afterPlus: nat, deposit: nat, e2: nat,
                       afterEquals: nat, b3: nat, e3: nat)
    requires StartsWith(line, CreationPrefix)
    requires NumberAfter(line, |CreationPrefix|) == Success((execution, e1))
    requires e1 <= |line| && SeparatorAfter(line, e1, '+', PlusExpected) == Success(afterPlus)
    requires afterPlus <= |line| && NumberAfter(line, afterPlus) == Success((deposit, e2))
    requires e2 <= |line| && SeparatorAfter(line, e2, '=', EqualsExpected) == Success(afterEquals)
    requires Field(line, afterEquals, b3, e3)
    ensures ParseCreation(line) == Success(CreationCost(execution, deposit, DigitsValue(line, b3, e3)))
  {
    NumberAfterBlank(line, afterEquals, b3, e3);
    CreationFromFields(line, execution, deposit, DigitsValue(line, b3, e3), e1, afterPlus, e2, afterEquals, e3);
  }

  /** Once the execution cost and '+' are read, a deposit cost, '=' and a
      total, each after optional whitespace, complete the creation line. */
  lemma DepositCompletes(line: string, execution: nat, e1: nat, afterPlus: nat, b2: nat, e2: nat,
                         equals: nat, b3: nat, e3: nat)
    requires StartsWith(line, CreationPrefix)
    requires NumberAfter(line, |CreationPrefix|) == Success((execution, e1))
    requires e1 <= |line| && SeparatorAfter(line, e1, '+', PlusExpected) == Success(afterPlus)
    requires FieldThen(line, afterPlus, b2, e2, equals, '=')
    requires Field(line, equals + 1, b3, e3)
    ensures ParseCreation(line) ==
      Success(CreationCost(execution, DigitsValue(line, b2, e2), DigitsValue(line, b3, e3)))
  {
    FieldRead(line, afterPlus, b2, e2, equals, '=', EqualsExpected);
    TotalCompletes(line, execution, e1, afterPlus, DigitsValue(line, b2, e2), e2, equals + 1, b3, e3);
  }

  /** Whitespace around the numbers and separators of a creation line is
      optional, and what follows the total is ignored. */
  lemma CreationParses(line: string, b1: nat, e1: nat, plus: nat, b2: nat, e2: nat, equals: nat, b3: nat, e3: nat)
    requires StartsWith(line, CreationPrefix)
    requires FieldThen(line, |CreationPrefix|, b1, e1, plus, '+')
    requires FieldThen(line, plus + 1, b2, e2, equals, '=')
    requires Field(line, equals + 1, b3, e3)
    ensures ParseCreation(line) ==
      Success(CreationCost(DigitsValue(line, b1, e1), DigitsValue(line, b2, e2), DigitsValue(line, b3, e3)))
  {
    FieldRead(line, |CreationPrefix|, b1, e1, plus, '+', PlusExpected);
    DepositCompletes(line, DigitsValue(line, b1, e1), e1, plus + 1, b2, e2, equals, b3, e3);
  }

  /** A creation line without a number after the prefix fails. */
  lemma ExecutionMissingFails(line: string, b: nat)
    requires StartsWith(line, CreationPrefix)
    requires Blank(line, |CreationPrefix|, b) && (b == |line| || (!IsDigit(line[b]) && !IsSpace(line[b])))
    ensures ParseCreation(line) == Failure(SourceLocationExpected)
  {
    NumberMissing(line, |CreationPrefix|, b);
  }

  /** A creation line whose execution cost is followed, after optional
      whitespace, by anything but '+' fails with the '+' error. */
  lemma PlusMissingFails(line: string, b1: nat, e1: nat, k: nat)
    requires StartsWith(line, CreationPrefix)
    requires Field(line, |CreationPrefix|, b1, e1)
    requires Blank(line, e1, k) && (k == |line| || (line[k] != '+' && !IsSpace(line[k])))
    ensures ParseCreation(line) == Failure(PlusExpected)
  {
    NumberAfterBlank(line, |CreationPrefix|, b1, e1);
    SeparatorMissing(line, e1, k, '+', PlusExpected);
  }

  /** A creation line whose reads succeed up to the deposit cost and then
      find no '=' fails with the '=' error. */
  lemma EqualsFailsFromReads(line: string, execution: nat, e1: nat, afterPlus: nat, deposit: nat, e2: nat)
    requires StartsWith(line, CreationPrefix)
    requires NumberAfter(line, |CreationPrefix|) == Success((execution, e1))
    requires e1 <= |line| && SeparatorAfter(line, e1, '+', PlusExpected) == Success(afterPlus)
    requires afterPlus <= |line| && NumberAfter(line, afterPlus) == Success((deposit, e2))
    requires e2 <= |line| && SeparatorAfter(line, e2, '=', EqualsExpected) == Failure(EqualsExpected)
    ensures ParseCreation(line) == Failure(EqualsExpected)
  {
  }

  /** Once the execution cost and '+' are read, a deposit cost followed, after
      optional whitespace, by anything but '=' fails with the '=' error. */
  lemma EqualsMissingAfterPlus(line: string, execution: nat, e1: nat, afterPlus: nat, b2: nat, e2: nat, k: nat)
    requires StartsWith(line, CreationPrefix)
    requires NumberAfter(line, |CreationPrefix|) == Success((execution, e1))
    requires e1 <= |line| && SeparatorAfter(line, e1, '+', PlusExpected) == Success(afterPlus)
    requires Field(line, afterPlus, b2, e2)
    requires Blank(line, e2, k) && (k == |line| || (line[k] != '=' && !IsSpace(line[k])))
    ensures ParseCreation(line) == Failure(EqualsExpected)
  {
    NumberAfterBlank(line, afterPlus, b2, e2);
    SeparatorMissing(line, e2, k, '=', EqualsExpected);
    EqualsFailsFromReads(line, execution, e1, afterPlus, DigitsValue(line, b2, e2), e2);
  }

  /** A creation line whose code deposit cost is followed, after optional
      whitespace, by anything but '=' fails with the '=' error. */
  lemma EqualsMissingFails(line: string, b1: nat, e1: nat, plus: nat, b2: nat, e2: nat, k: nat)
    requires StartsWith(line, CreationPrefix)
    requires FieldThen(line, |CreationPrefix|, b1, e1, plus, '+')
    requires Field(line, plus + 1, b2, e2)
    requires Blank(line, e2, k) && (k == |line| || (line[k] != '=' && !IsSpace(line[k])))
    ensures ParseCreation(line) == Failure(EqualsExpected)
  {
    FieldRead(line, |CreationPrefix|, b1, e1, plus, '+', PlusExpected);
    EqualsMissingAfterPlus(line, DigitsValue(line, b1, e1), e1, plus + 1, b2, e2, k);
  }

  /** An entry line the printer writes: two spaces of indentation, the
      function name, ": ", the cost. */
  function EntryLine(entry: (string, string)): string {
    "//   " + entry.0 + ": " + entry.1
  }

  /** A name without ':' and a cost that does not start with whitespace can be
      read back. */
  predicate Printable(entry: (string, string)) {
    (forall k :: 0 <= k < |entry.0| ==> NotColon(entry.0[k])) &&
    |entry.1| >= 1 && !IsSpace(entry.1[0])
  }

  /** A printed entry line parses back to its name and cost. */
  lemma EntryRoundTrip(entry: (string, string))
    requires Printable(entry)
    ensures ParseEntry(EntryLine(entry)) == Success(entry)
  {
    var (name, cost) := entry;
    var line := EntryLine(entry);
    var colon := 5 + |name|;
    assert line[..3] == "// ";
    assert line[5..colon] == name;
    assert line[colon + 2..] == cost;
    RunEndUnique(line, 5, NotColon, colon);
    RunEndUnique(line, colon + 1, IsSpace, colon + 2);
  }

  /** An entry line parses to a name and a cost exactly when it has their shape. */
  lemma EntryShapeParses(line: string, name: string, cost: string)
    ensures ParseEntry(line) == Success((name, cost)) <==> EntryShape(line, name, cost)
  {
    if EntryShape(line, name, cost) {
      var colon := 5 + |name|;
      var costStart := |line| - |cost|;
      assert line[..3] == line[..5][..3];
      RunEndUnique(line, 5, NotColon, colon);
      RunEndUnique(line, colon + 1, IsSpace, costStart);
    }
  }

  /** An entry line must start with "// ". */
  lemma EntryWithoutCommentFails(line: string)
    requires !StartsWith(line, "// ")
    ensures ParseEntry(line) == Failure(CommentExpected)
  {
  }

  /** An entry line must be indented by two more spaces after "// ". */
  lemma EntryIndentFails(line: string)
    requires StartsWith(line, "// ") && !StartsWith(line, "//   ")
    ensures ParseEntry(line) == Failure(CharacterExpected(' '))
  {
    if |line| >= 5 {
      assert line[..5] == line[..3] + [line[3], line[4]];
    }
  }

  /** An entry line without ':' fails with the ':' error. */
  lemma EntryWithoutColonFails(line: string)
    requires StartsWith(line, "//   ")
    requires forall k :: 5 <= k < |line| ==> line[k] != ':'
    ensures ParseEntry(line) == Failure(CharacterExpected(':'))
  {
    assert line[..3] == line[..5][..3];
    RunEndUnique(line, 5, NotColon, |line|);
  }

  /** An entry line with nothing but whitespace after its first ':' fails
      with the gas cost error. */
  lemma EntryWithoutCostFails(line: string, colon: nat)
    requires StartsWith(line, "//   ")
    requires 5 <= colon < |line| && line[colon] == ':'
    requires forall k :: 5 <= k < colon ==> line[k] != ':'
    requires forall k :: colon < k < |line| ==> IsSpace(line[k])
    ensures ParseEntry(line) == Failure(GasCostExpected)
  {
    assert line[..3] == line[..5][..3];
    RunEndUnique(line, 5, NotColon, colon);
    RunEndUnique(line, colon + 1, IsSpace, |line|);
  }

  /** Printed entry lines are neither creation lines nor headers. */
  lemma EntryLineIsEntry(entry: (string, string))
    ensures !StartsWith(EntryLine(entry), CreationPrefix)
    ensures EntryLine(entry) != ExternalHeader && EntryLine(entry) != InternalHeader
  {
    var line := EntryLine(entry);
    assert line[3] == ' ';
    assert CreationPrefix[3] == 'c' && ExternalHeader[3] == 'e' && InternalHeader[3] == 'i';
  }

  /** The two headers are distinct, and neither is a creation line. */
  lemma HeadersAreHeaders()
    ensures !StartsWith(ExternalHeader, CreationPrefix) && !StartsWith(InternalHeader, CreationPrefix)
    ensures ExternalHeader != InternalHeader
  {
    assert CreationPrefix[3] == 'c' && ExternalHeader[3] == 'e' && InternalHeader[3] == 'i';
  }

  /** Folding over one line is one step. */
  lemma FoldSingle(line: string, st: ParserState, step: (ParserState, string) -> Result<ParserState, GasError>)
    ensures Fold([line], st, step) == step(st, line)
  {
    assert [line][..0] == [];
  }

  /** Folding over two pieces is folding over the first, then the second. */
  lemma {:induction false} FoldAppend(
    a: seq<string>, b: seq<string>, st: ParserState,
    step: (ParserState, string) -> Result<ParserState, GasError>)
    requires Fold(a, st, step).Success?
    ensures Fold(a + b, st, step) == Fold(b, Fold(a, st, step).value, step)
    decreases |b|
  {
    if b == [] {
      assert a + b == a;
    } else {
      var all := a + b;
      var init := b[..|b| - 1];
      assert all[..|all| - 1] == a + init;
      assert all[|all| - 1] == b[|b| - 1];
      FoldAppend(a, init, st, step);
    }
  }

  /** The names the entries of `es` give a cost to. */
  function Names(es: seq<(string, string)>): (r: set<string>)
    ensures forall i :: 0 <= i < |es| ==> es[i].0 in r
  {
    if es == [] then {} else Names(es[..|es| - 1]) + {es[|es| - 1].0}
  }

  /** `m` with the entries of `es` added in order: a later entry for a name
      replaces an earlier one. */
  function Updated(m: map<string, string>, es: seq<(string, string)>): (r: map<string, string>)
    ensures r.Keys == m.Keys + Names(es)
  {
    if es == [] then m
    else Updated(m, es[..|es| - 1])[es[|es| - 1].0 := es[|es| - 1].1]
  }

  /** The name of the last entry for a key decides its value. */
  lemma {:induction false} UpdatedLastWins(m: map<string, string>, es: seq<(string, string)>, i: nat)
    requires i < |es|
    requires forall j :: i < j < |es| ==> es[j].0 != es[i].0
    ensures Updated(m, es)[es[i].0] == es[i].1
    decreases |es|
  {
    if i < |es| - 1 {
      UpdatedLastWins(m, es[..|es| - 1], i);
    }
  }

  /** The costs after a list of entries of one kind. */
  function WithEntries(e: Expectations, kind: FunctionKind, es: seq<(string, string)>): Expectations {
    match kind
    case External => e.(externalFunctionCosts := Updated(e.externalFunctionCosts, es))
    case Internal => e.(internalFunctionCosts := Updated(e.internalFunctionCosts, es))
  }

  function EntryLines(es: seq<(string, string)>): (r: seq<string>)
    ensures |r| == |es|
    ensures forall i :: 0 <= i < |es| ==> r[i] == EntryLine(es[i])
  {
    if es == [] then [] else EntryLines(es[..|es| - 1]) + [EntryLine(es[|es| - 1])]
  }

  /** Printed entries under a header add exactly those entries to its map. */
  lemma {:induction false} EntriesParse(es: seq<(string, string)>, st: ParserState, kind: FunctionKind)
    requires st.currentKind == Some(kind)
    requires forall i :: 0 <= i < |es| ==> Printable(es[i])
    ensures ParseLines(EntryLines(es), st) ==
      Success(st.(expectations := WithEntries(st.expectations, kind, es)))
    decreases |es|
  {
    if es != [] {
      var init := es[..|es| - 1];
      var last := es[|es| - 1];
      var lines := EntryLines(es);
      assert lines[..|lines| - 1] == EntryLines(init);
      EntriesParse(init, st, kind);
      EntryLineIsEntry(last);
      EntryRoundTrip(last);
      var before := st.(expectations := WithEntries(st.expectations, kind, init));
      assert ParseLine(before, EntryLine(last)) ==
        Success(before.(expectations := Record(before.expectations, kind, last.0, last.1)));
    }
  }

  /** A kind section: its header, then its entries; left out when empty. */
  function Section(header: string, es: seq<(string, string)>): seq<string> {
    if es == [] then [] else [header] + EntryLines(es)
  }

  lemma SectionParses(header: string, kind: FunctionKind, es: seq<(string, string)>, st: ParserState)
    requires (kind == External && header == ExternalHeader) || (kind == Internal && header == InternalHeader)
    requires forall i :: 0 <= i < |es| ==> Printable(es[i])
    ensures ParseLines(Section(header, es), st).Success?
    ensures ParseLines(Section(header, es), st).value.expectations == WithEntries(st.expectations, kind, es)
    ensures ParseLines(Section(header, es), st).value.gotCreation == st.gotCreation
  {
    if es == [] {
      assert Updated(st.expectations.externalFunctionCosts, es) == st.expectations.externalFunctionCosts;
      assert Updated(st.expectations.internalFunctionCosts, es) == st.expectations.internalFunctionCosts;
    } else {
      HeadersAreHeaders();
      FoldSingle(header, st, ParseLine);
      FoldAppend([header], EntryLines(es), st, ParseLine);
      EntriesParse(es, st.(currentKind := Some(kind)), kind);
    }
  }

  /** The expectation section the printer writes. */
  function FormatExpectations(e: CreationCost, external: seq<(string, string)>, internal: seq<(string, string)>)
    : seq<string>
  {
    [CreationLine(e)] + Section(ExternalHeader, external) + Section(InternalHeader, internal)
  }

  /** A printed creation line sets the creation cost and the flag. */
  lemma CreationLineParses(c: CreationCost, st: ParserState)
    ensures ParseLines([CreationLine(c)], st) ==
      Success(st.(expectations := st.expectations.(creationCost := c), gotCreation := true))
  {
    CreationRoundTrip(c);
    FoldSingle(CreationLine(c), st, ParseLine);
  }

  /** What the printer writes, the parser reads back: the creation cost, and
      each map extended by the printed entries, the last one for a name
      winning. */
  lemma FormatParseRoundTrip(
    c: CreationCost, external: seq<(string, string)>, internal: seq<(string, string)>, initial: Expectations)
    requires forall i :: 0 <= i < |external| ==> Printable(external[i])
    requires forall i :: 0 <= i < |internal| ==> Printable(internal[i])
    ensures ParseExpectationsSpec(FormatExpectations(c, external, internal), initial) ==
      Success(Expectations(c, Updated(initial.externalFunctionCosts, external),
                              Updated(initial.internalFunctionCosts, internal)))
  {
    var start := ParserState(initial, false, None);
    var first := [CreationLine(c)];
    var externalLines := Section(ExternalHeader, external);
    var internalLines := Section(InternalHeader, internal);
    CreationLineParses(c, start);
    var afterCreation := ParseLines(first, start).value;
    FoldAppend(first, externalLines, start, ParseLine);
    SectionParses(ExternalHeader, External, external, afterCreation);
    var afterExternal := ParseLines(first + externalLines, start).value;
    FoldAppend(first + externalLines, internalLines, start, ParseLine);
    SectionParses(InternalHeader, Internal, internal, afterExternal);
  }

  /** Valid creation lines select no kind. */
  lemma {:induction false} CreationLinesKeepKind(lines: seq<string>, st: ParserState)
    requires forall i :: 0 <= i < |lines| ==> StartsWith(lines[i], CreationPrefix) && ParseCreation(lines[i]).Success?
    ensures ParseLines(lines, st).Success?
    ensures ParseLines(lines, st).value.currentKind == st.currentKind
    decreases |lines|
  {
    if lines != [] {
      CreationLinesKeepKind(lines[..|lines| - 1], st);
    }
  }

  /** An entry line before any header is rejected, whatever follows it. */
  lemma EntryBeforeHeaderFails(lines: seq<string>, i: nat, initial: Expectations)
    requires i < |lines|
    requires forall j :: 0 <= j < i ==> StartsWith(lines[j], CreationPrefix) && ParseCreation(lines[j]).Success?
    requires !StartsWith(lines[i], CreationPrefix) && lines[i] != ExternalHeader && lines[i] != InternalHeader
    ensures ParseExpectationsSpec(lines, initial) == Failure(NoFunctionKind)
  {
    var start := ParserState(initial, false, None);
    var prefix := lines[..i + 1];
    CreationLinesKeepKind(lines[..i], start);
    FoldStep(lines, i, start, ParseLine);
    assert ParseLines(prefix, start) == Failure(NoFunctionKind);
    FailureEndsRun(lines, i + 1, start, ParseLine);
  }

  /** The first line that fails decides the section's error, whatever follows it. */
  lemma LineErrorEndsSection(lines: seq<string>, i: nat, initial: Expectations)
    requires i < |lines|
    requires ParseLines(lines[..i], ParserState(initial, false, None)).Success?
    requires ParseLine(ParseLines(lines[..i], ParserState(initial, false, None)).value, lines[i]).Failure?
    ensures ParseExpectationsSpec(lines, initial) ==
      Failure(ParseLine(ParseLines(lines[..i], ParserState(initial, false, None)).value, lines[i]).error)
  {
    var start := ParserState(initial, false, None);
    FoldStep(lines, i, start, ParseLine);
    FailureEndsRun(lines, i + 1, start, ParseLine);
  }
}
