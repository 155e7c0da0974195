/**
 * The expectation section of a gas test file:
 *
 *   // creation: <execution> + <code deposit> = <total>
 *   // external:
 *   //   <function>: <cost>
 *   // internal:
 *   //   <function>: <cost>
 *
 * The line parsers are given as functions over the line and as the methods
 * that walk it with an index, as the source walks it with an iterator; the
 * class `GasTest` holds the costs that `ParseExpectations` fills in place.
 */
module GasTest {
  import opened Wrappers

  datatype CreationCost = CreationCost(executionCost: nat, codeDepositCost: nat, totalCost: nat)

  datatype FunctionKind = External | Internal

  /** The errors the parser raises, one per distinct throw site. */
  datatype GasError =
    | SourceLocationExpected    // no digit where a number is expected
    | PlusExpected              // no '+' after the execution cost
    | EqualsExpected            // no '=' after the code deposit cost
    | NoFunctionKind            // an entry before "external:" or "internal:"
    | CommentExpected           // an entry line that does not start with "// "
    | CharacterExpected(c: char)
    | GasCostExpected           // nothing after the ':' of an entry
    | NoCreationCosts           // no creation line at all

  /** The three costs, as the test object holds them. */
  datatype Expectations = Expectations(
    creationCost: CreationCost,
    externalFunctionCosts: map<string, string>,
    internalFunctionCosts: map<string, string>)

  const CreationPrefix := "// creation:"
  const ExternalHeader := "// external:"
  const InternalHeader := "// internal:"

  predicate StartsWith(s: string, prefix: string) {
    |prefix| <= |s| && s[..|prefix|] == prefix
  }

  predicate IsDigit(c: char) {
    '0' <= c <= '9'
  }

  /** The characters C's isspace accepts. */
  predicate IsSpace(c: char) {
    c == ' ' || c == '\t' || c == '\n' || c == '\r' || c == '\U{000B}' || c == '\U{000C}'
  }

  predicate NotColon(c: char) {
    c != ':'
  }

  predicate AllDigits(s: string) {
    forall k :: 0 <= k < |s| ==> IsDigit(s[k])
  }

  /** The end of the longest run of characters satisfying `P` that starts at `i`. */
  function RunEnd(s: string, i: nat, P: char -> bool): (j: nat)
    requires i <= |s|
    ensures i <= j <= |s|
    ensures forall k :: i <= k < j ==> P(s[k])
    ensures j == |s| || !P(s[j])
    decreases |s| - i
  {
    if i == |s| || !P(s[i]) then i else RunEnd(s, i + 1, P)
  }

  /** A run that ends where `P` first fails is the run `RunEnd` finds. */
  lemma {:induction false} RunEndUnique(s: string, i: nat, P: char -> bool, j: nat)
    requires i <= j <= |s|
    requires forall k :: i <= k < j ==> P(s[k])
    requires j == |s| || !P(s[j])
    ensures RunEnd(s, i, P) == j
    decreases j - i
  {
    if i < j {
      RunEndUnique(s, i + 1, P, j);
    }
  }

  /** The number a string of decimal digits denotes. */
  function DecimalValue(ds: string): nat
    requires AllDigits(ds)
  {
    if ds == [] then 0 else 10 * DecimalValue(ds[..|ds| - 1]) + (ds[|ds| - 1] as int - '0' as int)
  }

  /** The value of the digits from `i` up to `j`, most significant first. */
  function DigitsValue(s: string, i: nat, j: nat): nat
    requires i <= j <= |s|
    requires forall k :: i <= k < j ==> IsDigit(s[k])
    decreases j - i
  {
    if i == j then 0
    else
      assert IsDigit(s[j - 1]);
      10 * DigitsValue(s, i, j - 1) + (s[j - 1] as int - '0' as int)
  }

  /** The digits from `i` up to `j` are the decimal numeral `DigitsValue` reads. */
  lemma {:induction false} DigitsValueDecimal(s: string, i: nat, j: nat)
    requires i <= j <= |s|
    requires forall k :: i <= k < j ==> IsDigit(s[k])
    ensures AllDigits(s[i..j]) && DigitsValue(s, i, j) == DecimalValue(s[i..j])
    decreases j - i
  {
    assert forall k :: 0 <= k < j - i ==> s[i..j][k] == s[i + k];
    if i < j {
      DigitsValueDecimal(s, i, j - 1);
      assert s[i..j][..j - i - 1] == s[i..j - 1];
    }
  }

  /** The number whose digits start at `i`, with the position after them. */
  function UnsignedAt(s: string, i: nat): (r: Result<(nat, nat), GasError>)
    requires i <= |s|
    ensures r.Failure? <==> i == |s| || !IsDigit(s[i])
    ensures r.Failure? ==> r.error == SourceLocationExpected
    ensures r.Success? ==> i < r.value.1 <= |s|
  {
    if i == |s| || !IsDigit(s[i]) then Failure(SourceLocationExpected)
    else
      var j := RunEnd(s, i, IsDigit);
      Success((DigitsValue(s, i, j), j))
  }

  /** A number read at `i` is the value of the maximal run of digits there. */
  lemma UnsignedAtReads(s: string, i: nat)
    requires i <= |s| && UnsignedAt(s, i).Success?
    ensures var (value, j) := UnsignedAt(s, i).value;
      AllDigits(s[i..j]) && (j == |s| || !IsDigit(s[j])) && value == DecimalValue(s[i..j])
  {
    DigitsValueDecimal(s, i, RunEnd(s, i, IsDigit));
  }

  /** Reads the digits at `it`: fails unless there is at least one, and stops
      at the first non-digit or at the end. */
  method ParseUnsignedInteger(s: string, it: nat) returns (r: Result<(nat, nat), GasError>)
    requires it <= |s|
    ensures r == UnsignedAt(s, it)
  {
    if it == |s| || !IsDigit(s[it]) {
      return Failure(SourceLocationExpected);
    }
    var result := 0;
    var j := it;
    while j != |s| && IsDigit(s[j])
      invariant it <= j <= |s|
      invariant forall k :: it <= k < j ==> IsDigit(s[k])
      invariant result == DigitsValue(s, it, j)
      decreases |s| - j
    {
      result := result * 10;
      result := result + (s[j] as int - '0' as int);
      j := j + 1;
    }
    RunEndUnique(s, it, IsDigit, j);
    r := Success((result, j));
  }

  /** Advances past the whitespace at `it`. */
  method SkipWhitespace(s: string, it: nat) returns (j: nat)
    requires it <= |s|
    ensures j == RunEnd(s, it, IsSpace)
  {
    j := it;
    while j != |s| && IsSpace(s[j])
      invariant it <= j <= |s|
      invariant forall k :: it <= k < j ==> IsSpace(s[k])
      decreases |s| - j
    {
      j := j + 1;
    }
    RunEndUnique(s, it, IsSpace, j);
  }

  /** Consumes the character `c` at `it`, or fails. */
  function Expect(s: string, it: nat, c: char): (r: Result<nat, GasError>)
    requires it <= |s|
    ensures r.Success? <==> it < |s| && s[it] == c
    ensures r.Success? ==> r.value == it + 1 <= |s|
    ensures r.Failure? ==> r.error == CharacterExpected(c)
  {
    if it == |s| || s[it] != c then Failure(CharacterExpected(c)) else Success(it + 1)
  }

  /** The number after the whitespace at `i`. */
  function NumberAfter(line: string, i: nat): (r: Result<(nat, nat), GasError>)
    requires i <= |line|
    ensures r.Failure? ==> r.error == SourceLocationExpected
    ensures r.Success? ==> i < r.value.1 <= |line|
  {
    UnsignedAt(line, RunEnd(line, i, IsSpace))
  }

  /** The position after the separator `c` that follows the whitespace at `i`;
      `e` when the line ends first or another character comes. */
  function SeparatorAfter(line: string, i: nat, c: char, e: GasError): (r: Result<nat, GasError>)
    requires i <= |line|
    ensures r.Success? ==> i < r.value <= |line| && line[r.value - 1] == c
    ensures r.Failure? ==> r.error == e
  {
    var k := RunEnd(line, i, IsSpace);
    if k == |line| || line[k] != c then Failure(e) else Success(k + 1)
  }

  /** The three costs of a creation line. Whitespace may surround the numbers;
      a missing separator, including one cut off by the end of the line, fails;
      what follows the total is ignored. */
  function ParseCreation(line: string): (r: Result<CreationCost, GasError>)
    requires StartsWith(line, CreationPrefix)
    ensures r.Failure? ==> r.error == SourceLocationExpected || r.error == PlusExpected || r.error == EqualsExpected
  {
    var execution :- NumberAfter(line, |CreationPrefix|);
    var plus :- SeparatorAfter(line, execution.1, '+', PlusExpected);
    var deposit :- NumberAfter(line, plus);
    var equals :- SeparatorAfter(line, deposit.1, '=', EqualsExpected);
    var total :- NumberAfter(line, equals);
    Success(CreationCost(execution.0, deposit.0, total.0))
  }

  /** Skips whitespace, then reads a number. */
  method ReadNumber(line: string, i: nat) returns (r: Result<(nat, nat), GasError>)
    requires i <= |line|
    ensures r == NumberAfter(line, i)
  {
    var it := SkipWhitespace(line, i);
    r := ParseUnsignedInteger(line, it);
  }

  /** Skips whitespace, then consumes the separator `c`. */
  method ReadSeparator(line: string, i: nat, c: char, e: GasError) returns (r: Result<nat, GasError>)
    requires i <= |line|
    ensures r == SeparatorAfter(line, i, c, e)
  {
    var it := SkipWhitespace(line, i);
    if it == |line| || line[it] != c {
      return Failure(e);
    }
    r := Success(it + 1);
  }

  method ParseCreationLine(line: string) returns (r: Result<CreationCost, GasError>)
    requires StartsWith(line, CreationPrefix)
    ensures r == ParseCreation(line)
  {
    var execution := ReadNumber(line, |CreationPrefix|);
    if execution.Failure? {
      return Failure(execution.error);
    }
    var plus := ReadSeparator(line, execution.value.1, '+', PlusExpected);
    if plus.Failure? {
      return Failure(plus.error);
    }
    var deposit := ReadNumber(line, plus.value);
    if deposit.Failure? {
      return Failure(deposit.error);
    }
    var equals := ReadSeparator(line, deposit.value.1, '=', EqualsExpected);
    if equals.Failure? {
      return Failure(equals.error);
    }
    var total := ReadNumber(line, equals.value);
    if total.Failure? {
      return Failure(total.error);
    }
    r := Success(CreationCost(execution.value.0, deposit.value.0, total.value.0));
  }

  /** `line` reads "//", three spaces, `name`, ':', whitespace, then `cost`:
      no ':' in the name, and a cost that is not empty and does not start with
      whitespace. */
  predicate EntryShape(line: string, name: string, cost: string) {
    var colon := 5 + |name|;
    var costStart := |line| - |cost|;
    |cost| >= 1 && colon < costStart &&
    line[..5] == "//   " && line[5..colon] == name && line[colon] == ':' &&
    (forall k :: 5 <= k < colon ==> NotColon(line[k])) &&
    (forall k :: colon < k < costStart ==> IsSpace(line[k])) &&
    !IsSpace(line[costStart]) && line[costStart..] == cost
  }

  /** The function name and cost of an entry line "//   name: cost": the name
      is everything up to the first ':', the cost everything after the
      whitespace that follows it. */
  function ParseEntry(line: string): (r: Result<(string, string), GasError>)
    ensures r.Success? ==> EntryShape(line, r.value.0, r.value.1)
    ensures r.Failure? ==> r.error in {CommentExpected, CharacterExpected(' '), CharacterExpected(':'), GasCostExpected}
  {
    if !StartsWith(line, "// ") then Failure(CommentExpected)
    else
      var first :- Expect(line, 3, ' ');
      var functionBegin :- Expect(line, first, ' ');
      var colon := RunEnd(line, functionBegin, NotColon);
      var afterColon :- Expect(line, colon, ':');
      var cost := RunEnd(line, afterColon, IsSpace);
      if cost == |line| then Failure(GasCostExpected)
      else
        assert line[..5] == line[..3] + [line[3], line[4]];
        Success((line[functionBegin..colon], line[cost..]))
  }

  method ParseEntryLine(line: string) returns (r: Result<(string, string), GasError>)
    ensures r == ParseEntry(line)
  {
    if !StartsWith(line, "// ") {
      return Failure(CommentExpected);
    }
    var it := 3;
    var step := Expect(line, it, ' ');
    if step.Failure? {
      return Failure(step.error);
    }
    step := Expect(line, step.value, ' ');
    if step.Failure? {
      return Failure(step.error);
    }
    it := step.value;
    var functionBegin := it;
    while it != |line| && line[it] != ':'
      invariant functionBegin <= it <= |line|
      invariant forall k :: functionBegin <= k < it ==> NotColon(line[k])
      decreases |line| - it
    {
      it := it + 1;
    }
    RunEndUnique(line, functionBegin, NotColon, it);
    var name := line[functionBegin..it];
    step := Expect(line, it, ':');
    if step.Failure? {
      return Failure(step.error);
    }
    it := SkipWhitespace(line, step.value);
    if it == |line| {
      return Failure(GasCostExpected);
    }
    r := Success((name, line[it..]));
  }

  /** The state of the line loop: the costs read so far, whether a creation
      line was seen, and which map entries go into. */
  datatype ParserState = ParserState(
    expectations: Expectations,
    gotCreation: bool,
    currentKind: Option<FunctionKind>)

  /** An entry for `name` replaces the one of the current kind; nothing else changes. */
  function Record(e: Expectations, kind: FunctionKind, name: string, cost: string): (r: Expectations)
    ensures r.creationCost == e.creationCost
    ensures kind == External ==>
      r.internalFunctionCosts == e.internalFunctionCosts &&
      r.externalFunctionCosts.Keys == e.externalFunctionCosts.Keys + {name} &&
      r.externalFunctionCosts[name] == cost &&
      forall k :: k in e.externalFunctionCosts && k != name ==> r.externalFunctionCosts[k] == e.externalFunctionCosts[k]
    ensures kind == Internal ==>
      r.externalFunctionCosts == e.externalFunctionCosts &&
      r.internalFunctionCosts.Keys == e.internalFunctionCosts.Keys + {name} &&
      r.internalFunctionCosts[name] == cost &&
      forall k :: k in e.internalFunctionCosts && k != name ==> r.internalFunctionCosts[k] == e.internalFunctionCosts[k]
  {
    match kind
    case External => e.(externalFunctionCosts := e.externalFunctionCosts[name := cost])
    case Internal => e.(internalFunctionCosts := e.internalFunctionCosts[name := cost])
  }

  /** The kind a header line selects; any other line keeps `current`. */
  function HeaderKind(line: string, current: Option<FunctionKind>): Option<FunctionKind> {
    if line == ExternalHeader then Some(External)
    else if line == InternalHeader then Some(Internal)
    else current
  }

  /** One line of the loop: only a creation line sets the flag, only a header
      selects a kind, and an entry is accepted only once a kind is selected. */
  function ParseLine(st: ParserState, line: string): (r: Result<ParserState, GasError>)
    ensures r.Success? ==> r.value.gotCreation == (st.gotCreation || StartsWith(line, CreationPrefix))
    ensures r.Success? ==> r.value.currentKind == HeaderKind(line, st.currentKind)
    ensures r.Success? && !StartsWith(line, CreationPrefix) && line != ExternalHeader && line != InternalHeader ==>
      st.currentKind.Some?
    ensures r.Failure? ==> r.error != NoCreationCosts
  {
    if StartsWith(line, CreationPrefix) then
      var c :- ParseCreation(line);
      Success(st.(expectations := st.expectations.(creationCost := c), gotCreation := true))
    else if line == ExternalHeader then Success(st.(currentKind := Some(External)))
    else if line == InternalHeader then Success(st.(currentKind := Some(Internal)))
    else if st.currentKind.None? then Failure(NoFunctionKind)
    else
      var entry :- ParseEntry(line);
      Success(st.(expectations := Record(st.expectations, st.currentKind.value, entry.0, entry.1)))
  }

  /** Runs `step` over `lines` in order; the first failing line ends the run. */
  function Fold(lines: seq<string>, st: ParserState, step: (ParserState, string) -> Result<ParserState, GasError>)
    : Result<ParserState, GasError>
  {
    if lines == [] then Success(st)
    else
      var before :- Fold(lines[..|lines| - 1], st, step);
      step(before, lines[|lines| - 1])
  }

  /** The loop over the lines of the expectation section. */
  function ParseLines(lines: seq<string>, st: ParserState): Result<ParserState, GasError> {
    Fold(lines, st, ParseLine)
  }

  /** The whole expectation section, read into `initial`: it is accepted only
      if one of its lines is a creation line. */
  function ParseExpectationsSpec(lines: seq<string>, initial: Expectations): (r: Result<Expectations, GasError>)
    ensures r.Success? ==> exists i :: 0 <= i < |lines| && StartsWith(lines[i], CreationPrefix)
  {
    var start := ParserState(initial, false, None);
    var st :- ParseLines(lines, start);
    if !st.gotCreation then Failure(NoCreationCosts)
    else
      CreationLineWitness(lines, start);
      Success(st.expectations)
  }

  /** A run over lines none of which is a creation line leaves the flag as it was. */
  lemma {:induction false} FlagNeedsCreationLine(lines: seq<string>, st: ParserState)
    requires forall i :: 0 <= i < |lines| ==> !StartsWith(lines[i], CreationPrefix)
    requires ParseLines(lines, st).Success?
    ensures ParseLines(lines, st).value.gotCreation == st.gotCreation
    decreases |lines|
  {
    if lines != [] {
      FlagNeedsCreationLine(lines[..|lines| - 1], st);
    }
  }

  /** A run that sets the flag from unset has a creation line. */
  lemma CreationLineWitness(lines: seq<string>, st: ParserState)
    requires ParseLines(lines, st).Success? && ParseLines(lines, st).value.gotCreation && !st.gotCreation
    ensures exists i :: 0 <= i < |lines| && StartsWith(lines[i], CreationPrefix)
  {
    if forall i :: 0 <= i < |lines| ==> !StartsWith(lines[i], CreationPrefix) {
      FlagNeedsCreationLine(lines, st);
    }
  }

  /** Once a prefix of the lines fails, the whole run fails the same way. */
  lemma {:induction false} FailureIsFinal(
    lines: seq<string>, more: seq<string>, st: ParserState,
    step: (ParserState, string) -> Result<ParserState, GasError>)
    requires Fold(lines, st, step).Failure?
    ensures Fold(lines + more, st, step) == Fold(lines, st, step)
    decreases |more|
  {
    if more != [] {
      var all := lines + more;
      var init := more[..|more| - 1];
      assert all[..|all| - 1] == lines + init;
      FailureIsFinal(lines, init, st, step);
    } else {
      assert lines + more == lines;
    }
  }

  /** A run that fails on the first `i` lines fails on all of them. */
  lemma FailureEndsRun(lines: seq<string>, i: nat, st: ParserState,
                       step: (ParserState, string) -> Result<ParserState, GasError>)
    requires i <= |lines| && Fold(lines[..i], st, step).Failure?
    ensures Fold(lines, st, step) == Fold(lines[..i], st, step)
  {
    FailureIsFinal(lines[..i], lines[i..], st, step);
    assert lines[..i] + lines[i..] == lines;
  }

  /** The run over one more line is one more step. */
  lemma FoldStep(lines: seq<string>, i: nat, st: ParserState,
                 step: (ParserState, string) -> Result<ParserState, GasError>)
    requires i < |lines| && Fold(lines[..i], st, step).Success?
    ensures Fold(lines[..i + 1], st, step) == step(Fold(lines[..i], st, step).value, lines[i])
  {
    assert lines[..i + 1][..i] == lines[..i];
  }

  class GasTest {
    var creationCost: CreationCost
    var externalFunctionCosts: map<string, string>
    var internalFunctionCosts: map<string, string>

    function Current(): Expectations
      reads this
    {
      Expectations(creationCost, externalFunctionCosts, internalFunctionCosts)
    }

    constructor ()
      ensures Current() == Expectations(CreationCost(0, 0, 0), map[], map[])
    {
      creationCost := CreationCost(0, 0, 0);
      externalFunctionCosts := map[];
      internalFunctionCosts := map[];
    }

    /** Handles one line: a creation line sets the creation cost, a header
        selects the map that entries go into, an entry line adds to it. */
    method ParseLineInto(line: string, gotCreation: bool, currentKind: Option<FunctionKind>)
      returns (failure: Option<GasError>, gotCreation': bool, currentKind': Option<FunctionKind>)
      modifies this
      ensures var r := ParseLine(ParserState(old(Current()), gotCreation, currentKind), line);
        (failure.Some? <==> r.Failure?) &&
        (failure.Some? ==> failure.value == r.error) &&
        (failure.None? ==> r.value == ParserState(Current(), gotCreation', currentKind'))
    {
      failure, gotCreation', currentKind' := None, gotCreation, currentKind;
      if StartsWith(line, CreationPrefix) {
        var c := ParseCreationLine(line);
        if c.Failure? {
          return Some(c.error), gotCreation, currentKind;
        }
        creationCost := c.value;
        gotCreation' := true;
      } else if line == ExternalHeader {
        currentKind' := Some(External);
      } else if line == InternalHeader {
        currentKind' := Some(Internal);
      } else if currentKind.None? {
        failure := Some(NoFunctionKind);
      } else {
        var entry := ParseEntryLine(line);
        if entry.Failure? {
          return Some(entry.error), gotCreation, currentKind;
        }
        if currentKind.value == External {
          externalFunctionCosts := externalFunctionCosts[entry.value.0 := entry.value.1];
        } else {
          internalFunctionCosts := internalFunctionCosts[entry.value.0 := entry.value.1];
        }
      }
    }

    /** Reads the expectation lines into the costs. On success the costs are
        those the specification gives; on failure the error is. */
    method ParseExpectations(lines: seq<string>) returns (outcome: Outcome<GasError>)
      modifies this
      ensures outcome.Pass? <==> ParseExpectationsSpec(lines, old(Current())).Success?
      ensures outcome.Pass? ==> Current() == ParseExpectationsSpec(lines, old(Current())).value
      ensures outcome.Fail? ==> outcome.error == ParseExpectationsSpec(lines, old(Current())).error
    {
      var start := ParserState(Current(), false, None);
      var gotCreation := false;
      var currentKind: Option<FunctionKind> := None;
      var i := 0;
      while i < |lines|
        invariant 0 <= i <= |lines|
        invariant Fold(lines[..i], start, ParseLine) == Success(ParserState(Current(), gotCreation, currentKind))
      {
        FoldStep(lines, i, start, ParseLine);
        var failure;
        failure, gotCreation, currentKind := ParseLineInto(lines[i], gotCreation, currentKind);
        if failure.Some? {
          FailureEndsRun(lines, i + 1, start, ParseLine);
          return Fail(failure.value);
        }
        i := i + 1;
      }
      assert lines[..i] == lines;
      if !gotCreation {
        return Fail(NoCreationCosts);
      }
      outcome := Pass;
    }
  }
}
