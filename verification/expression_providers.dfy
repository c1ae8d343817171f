/**
 * The ordered-alternative providers of the parser, line-index generation
 * (parser/src/main/kotlin/astbuilder/ExpressionProviders.kt).
 *
 * Each provider holds a fixed, priority-ordered list of builders, all built
 * over the same token list and line index. It tries them in order and hands
 * back the first success whose node belongs to the category it serves; on
 * total failure it reports a message assembled from the builders' failures.
 */
module Providers {
  import opened Common
  import opened Ast

  const AssignablePriority: seq<BuilderKind> :=
    [CallBuilder, BinaryBuilder, NumberLiteralBuilder, StringLiteralBuilder, IdentifierBuilder]

  const ExpressionPriority: seq<BuilderKind> :=
    [AssignmentBuilder, CallBuilder, BinaryBuilder, NumberLiteralBuilder, StringLiteralBuilder, IdentifierBuilder]

  const StatementPriority: seq<BuilderKind> :=
    [VariableDeclarationBuilder, ExpressionStatementBuilder]

  /** Lines dropped from the assignable provider's collected messages. */
  const AssignableDenied: set<string> := {
    "No operator found in binary expression",
    "Not enough members for call expression",
    "Binary expression must have at least 3 tokens"
  }

  /** Lines dropped from the expression provider's collected messages. */
  const ExpressionDenied: set<string> := {
    "No operator found in binary expression",
    "Not enough tokens to build assignment expression",
    "Invalid assignment expression",
    "Not enough members for call expression",
    "Binary expression must have at least 3 tokens"
  }

  const NoAssignable := "No valid assignable expression found"
  const NoExpressionPrefix := "No valid expression found: \n"
  const InvalidStart := "Invalid start of variable declaration"

  /** Builders whose failures are expected noise and never reported. */
  predicate Silenced(k: BuilderKind) {
    k == StringLiteralBuilder || k == NumberLiteralBuilder || k == IdentifierBuilder
  }

  datatype Category = ExpressionCategory | StatementCategory

  /** A success whose node has the capability the provider serves. */
  predicate Accepted(r: BuilderResult, c: Category) {
    r.Success? && (if c == ExpressionCategory then IsExpression(r.node) else IsStatement(r.node))
  }

  /** The outcome of every builder of the list, each built over the same tokens and line. */
  function Attempts(kinds: seq<BuilderKind>, tokens: seq<Token>, lineIndex: int, build: LineBuilders): (rs: seq<BuilderResult>)
    ensures |rs| == |kinds|
  {
    seq(|kinds|, k requires 0 <= k < |kinds| => build(kinds[k], tokens, lineIndex))
  }

  /** The position of the first accepted result, in list order. */
  function FirstAccepted(rs: seq<BuilderResult>, c: Category): (r: Option<nat>)
    ensures r.Some? ==> r.value < |rs| && Accepted(rs[r.value], c)
    ensures r.Some? ==> forall j :: 0 <= j < r.value ==> !Accepted(rs[j], c)
    ensures r.None? ==> forall j :: 0 <= j < |rs| ==> !Accepted(rs[j], c)
  {
    if |rs| == 0 then None
    else if Accepted(rs[0], c) then Some(0)
    else
      match FirstAccepted(rs[1..], c)
      case Some(i) => Some(i + 1)
      case None => None
  }

  /** What one builder adds to `errorMessages`. */
  function Note(k: BuilderKind, r: BuilderResult): string {
    if r.Failure? && !Silenced(k) then r.message + "\n" else ""
  }

  /** What each builder of the list adds to `errorMessages`, in list order. */
  function Notes(kinds: seq<BuilderKind>, rs: seq<BuilderResult>): (ns: seq<string>)
    requires |kinds| == |rs|
    ensures |ns| == |kinds|
  {
    seq(|kinds|, j requires 0 <= j < |kinds| => Note(kinds[j], rs[j]))
  }

  /** The texts one after another. */
  function Concat(ss: seq<string>): string
    decreases |ss|
  {
    if |ss| == 0 then "" else Concat(ss[..|ss| - 1]) + ss[|ss| - 1]
  }

  /** `errorMessages` after the loop has visited every builder of the list. */
  function Noted(kinds: seq<BuilderKind>, rs: seq<BuilderResult>): string
    requires |kinds| == |rs|
  {
    Concat(Notes(kinds, rs))
  }

  /** Kotlin `filterNot { it in denied }`. */
  function Unlisted(ls: seq<string>, denied: set<string>): (r: seq<string>)
    ensures forall k :: 0 <= k < |r| ==> r[k] !in denied
    ensures forall l :: l in r <==> l in ls && l !in denied
    ensures |r| <= |ls|
  {
    if |ls| == 0 then []
    else if ls[0] in denied then Unlisted(ls[1..], denied)
    else [ls[0]] + Unlisted(ls[1..], denied)
  }

  /** The collected messages, line by line, without the denied lines, rejoined. */
  function Filtered(messages: string, denied: set<string>): string {
    Join(Unlisted(Lines(messages), denied), "\n")
  }

  function AssignableOutcome(tokens: seq<Token>, lineIndex: int, build: LineBuilders): BuilderResult {
    var rs := Attempts(AssignablePriority, tokens, lineIndex, build);
    match FirstAccepted(rs, ExpressionCategory)
    case Some(i) => rs[i]
    case None => Failure(NoAssignable)
  }

  function ExpressionOutcome(tokens: seq<Token>, lineIndex: int, build: LineBuilders): BuilderResult {
    var rs := Attempts(ExpressionPriority, tokens, lineIndex, build);
    match FirstAccepted(rs, ExpressionCategory)
    case Some(i) => rs[i]
    case None => Failure(NoExpressionPrefix + Filtered(Noted(ExpressionPriority, rs), ExpressionDenied))
  }

  /** The statement loop from builder `i` on, with `errors` collected so far. */
  function StatementLoop(rs: seq<BuilderResult>, i: nat, errors: string): BuilderResult
    requires i <= |rs|
    decreases |rs| - i
  {
    if i == |rs| then Failure(errors)
    else if Accepted(rs[i], StatementCategory) then rs[i]
    else if rs[i].Failure? && rs[i].message != InvalidStart then Failure(rs[i].message)
    else if rs[i].Failure? then StatementLoop(rs, i + 1, errors + rs[i].message)
    else StatementLoop(rs, i + 1, errors)
  }

  function MissingSemicolon(lineIndex: int, start: int): string {
    "Missing semicolon at (" + IntToString(lineIndex) + ", " + IntToString(start)
  }

  function StatementOutcome(tokens: seq<Token>, lineIndex: int, build: LineBuilders): BuilderResult {
    if |tokens| == 0 then Failure("Empty tokens")
    else if tokens[|tokens| - 1].kind != "SEMICOLON" then
      Failure(MissingSemicolon(lineIndex, tokens[|tokens| - 1].position.start))
    else StatementLoop(Attempts(StatementPriority, tokens, lineIndex, build), 0, "")
  }

  class AssignableExpressionProvider {
    const tokens: seq<Token>
    const lineIndex: int
    const build: LineBuilders
    const assignableExpressionBuilders: seq<BuilderKind> := AssignablePriority

    constructor (tokens: seq<Token>, lineIndex: int, build: LineBuilders)
      ensures this.tokens == tokens && this.lineIndex == lineIndex && this.build == build
    {
      this.tokens := tokens;
      this.lineIndex := lineIndex;
      this.build := build;
    }

    method GetAssignableExpressionResult() returns (r: BuilderResult)
      ensures r == AssignableOutcome(tokens, lineIndex, build)
      ensures r.Success? <==> exists i :: 0 <= i < |AssignablePriority| && Accepted(build(AssignablePriority[i], tokens, lineIndex), ExpressionCategory)
      ensures r.Success? ==> IsExpression(r.node) && exists i ::
        && 0 <= i < |AssignablePriority| && r == build(AssignablePriority[i], tokens, lineIndex)
        && forall j :: 0 <= j < i ==> !Accepted(build(AssignablePriority[j], tokens, lineIndex), ExpressionCategory)
      ensures r.Failure? ==> r.message == NoAssignable
    {
      var kinds := assignableExpressionBuilders;
      ghost var rs := Attempts(kinds, tokens, lineIndex, build);
      ghost var ns := Notes(kinds, rs);
      var errorMessages := "";
      for i := 0 to |kinds|
        invariant forall j :: 0 <= j < i ==> !Accepted(rs[j], ExpressionCategory)
        invariant errorMessages == Concat(ns[..i])
      {
        var result := build(kinds[i], tokens, lineIndex);
        if Accepted(result, ExpressionCategory) {
          FirstAcceptedAt(rs, i, ExpressionCategory);
          assert forall j :: 0 <= j < i ==> rs[j] == build(kinds[j], tokens, lineIndex);
          return result;
        }
        assert ns[..i + 1][..i] == ns[..i];
        if result.Failure? && !Silenced(kinds[i]) {
          errorMessages := errorMessages + result.message + "\n";
        }
      }
      // The filtered text is computed and then dropped, as in the source.
      errorMessages := Filtered(errorMessages, AssignableDenied);
      assert forall j :: 0 <= j < |kinds| ==> rs[j] == build(kinds[j], tokens, lineIndex);
      FirstAcceptedNone(rs, ExpressionCategory);
      return Failure(NoAssignable);
    }
  }

  class ExpressionProvider {
    const tokens: seq<Token>
    const lineIndex: int
    const build: LineBuilders
    const expressionBuilders: seq<BuilderKind> := ExpressionPriority

    constructor (tokens: seq<Token>, lineIndex: int, build: LineBuilders)
      ensures this.tokens == tokens && this.lineIndex == lineIndex && this.build == build
    {
      this.tokens := tokens;
      this.lineIndex := lineIndex;
      this.build := build;
    }

    method GetVerifiedExpressionResult() returns (r: BuilderResult)
      ensures r == ExpressionOutcome(tokens, lineIndex, build)
      ensures r.Success? <==> exists i :: 0 <= i < |ExpressionPriority| && Accepted(build(ExpressionPriority[i], tokens, lineIndex), ExpressionCategory)
      ensures r.Success? ==> IsExpression(r.node) && exists i ::
        && 0 <= i < |ExpressionPriority| && r == build(ExpressionPriority[i], tokens, lineIndex)
        && forall j :: 0 <= j < i ==> !Accepted(build(ExpressionPriority[j], tokens, lineIndex), ExpressionCategory)
    {
      var kinds := expressionBuilders;
      ghost var rs := Attempts(kinds, tokens, lineIndex, build);
      ghost var ns := Notes(kinds, rs);
      var errorMessages := "";
      for i := 0 to |kinds|
        invariant forall j :: 0 <= j < i ==> !Accepted(rs[j], ExpressionCategory)
        invariant errorMessages == Concat(ns[..i])
      {
        var result := build(kinds[i], tokens, lineIndex);
        if Accepted(result, ExpressionCategory) {
          FirstAcceptedAt(rs, i, ExpressionCategory);
          assert forall j :: 0 <= j < i ==> rs[j] == build(kinds[j], tokens, lineIndex);
          return result;
        }
        assert ns[..i + 1][..i] == ns[..i];
        if result.Failure? && !Silenced(kinds[i]) {
          errorMessages := errorMessages + result.message + "\n";
        }
      }
      assert ns[..|kinds|] == ns;
      assert forall j :: 0 <= j < |kinds| ==> rs[j] == build(kinds[j], tokens, lineIndex);
      errorMessages := Filtered(errorMessages, ExpressionDenied);
      FirstAcceptedNone(rs, ExpressionCategory);
      return Failure(NoExpressionPrefix + errorMessages);
    }
  }

  class StatementProvider {
    const tokens: seq<Token>
    const lineIndex: int
    const build: LineBuilders
    const statementBuilders: seq<BuilderKind> := StatementPriority

    constructor (tokens: seq<Token>, lineIndex: int, build: LineBuilders)
      ensures this.tokens == tokens && this.lineIndex == lineIndex && this.build == build
    {
      this.tokens := tokens;
      this.lineIndex := lineIndex;
      this.build := build;
    }

    method GetVerifiedStatementResult() returns (r: BuilderResult)
      ensures r == StatementOutcome(tokens, lineIndex, build)
      ensures r.Success? ==> IsStatement(r.node)
      ensures |tokens| == 0 ==> r == Failure("Empty tokens")
    {
      var errorMessages := "";
      if |tokens| == 0 {
        return Failure("Empty tokens");
      }
      if tokens[|tokens| - 1].kind != "SEMICOLON" {
        return Failure(MissingSemicolon(lineIndex, tokens[|tokens| - 1].position.start));
      }
      var kinds := statementBuilders;
      ghost var rs := Attempts(kinds, tokens, lineIndex, build);
      var i := 0;
      while i < |kinds|
        invariant 0 <= i <= |kinds|
        invariant StatementLoop(rs, 0, "") == StatementLoop(rs, i, errorMessages)
      {
        var result := build(kinds[i], tokens, lineIndex);
        if Accepted(result, StatementCategory) {
          return result;
        }
        if result.Failure? {
          if result.message != InvalidStart {
            errorMessages := result.message;
            break;
          }
          errorMessages := errorMessages + result.message;
        }
        i := i + 1;
      }
      return Failure(errorMessages);
    }
  }

  lemma {:induction false} FirstAcceptedAt(rs: seq<BuilderResult>, i: nat, c: Category)
    requires i < |rs| && Accepted(rs[i], c)
    requires forall j :: 0 <= j < i ==> !Accepted(rs[j], c)
    ensures FirstAccepted(rs, c) == Some(i)
  {
    if i > 0 {
      FirstAcceptedAt(rs[1..], i - 1, c);
    }
  }

  lemma {:induction false} FirstAcceptedNone(rs: seq<BuilderResult>, c: Category)
    requires forall j :: 0 <= j < |rs| ==> !Accepted(rs[j], c)
    ensures FirstAccepted(rs, c) == None
  {
    if |rs| > 0 {
      FirstAcceptedNone(rs[1..], c);
    }
  }

  /** Two outcome lists that accept at the same positions pick the same position. */
  lemma {:induction false} FirstAcceptedAgree(rs1: seq<BuilderResult>, rs2: seq<BuilderResult>, c: Category)
    requires |rs1| == |rs2|
    requires forall j :: 0 <= j < |rs1| ==> (Accepted(rs1[j], c) <==> Accepted(rs2[j], c))
    ensures FirstAccepted(rs1, c) == FirstAccepted(rs2, c)
  {
    if |rs1| > 0 {
      FirstAcceptedAgree(rs1[1..], rs2[1..], c);
    }
  }

  /** Builders that contribute the same notes leave the same collected messages. */
  lemma NotedAgree(kinds: seq<BuilderKind>, rs1: seq<BuilderResult>, rs2: seq<BuilderResult>)
    requires |kinds| == |rs1| == |rs2|
    requires forall j :: 0 <= j < |kinds| ==> Note(kinds[j], rs1[j]) == Note(kinds[j], rs2[j])
    ensures Noted(kinds, rs1) == Noted(kinds, rs2)
  {
    assert Notes(kinds, rs1) == Notes(kinds, rs2);
  }

  /**
   * Failures of the literal and identifier builders never reach the message:
   * whatever they say, as long as they fail, the outcome is the same.
   */
  lemma SilencedFailuresIgnored(tokens: seq<Token>, lineIndex: int, b1: LineBuilders, b2: LineBuilders)
    requires forall k :: !Silenced(k) ==> b1(k, tokens, lineIndex) == b2(k, tokens, lineIndex)
    requires forall k :: Silenced(k) ==> b1(k, tokens, lineIndex).Failure? && b2(k, tokens, lineIndex).Failure?
    ensures ExpressionOutcome(tokens, lineIndex, b1) == ExpressionOutcome(tokens, lineIndex, b2)
    ensures AssignableOutcome(tokens, lineIndex, b1) == AssignableOutcome(tokens, lineIndex, b2)
  {
    var e1 := Attempts(ExpressionPriority, tokens, lineIndex, b1);
    var e2 := Attempts(ExpressionPriority, tokens, lineIndex, b2);
    FirstAcceptedAgree(e1, e2, ExpressionCategory);
    NotedAgree(ExpressionPriority, e1, e2);
    var a1 := Attempts(AssignablePriority, tokens, lineIndex, b1);
    var a2 := Attempts(AssignablePriority, tokens, lineIndex, b2);
    FirstAcceptedAgree(a1, a2, ExpressionCategory);
  }

  /** After the prefix `"No valid expression found: \n"`, no line is a denied phrase. */
  lemma ExpressionFailureHasNoDeniedLine(tokens: seq<Token>, lineIndex: int, build: LineBuilders)
    requires ExpressionOutcome(tokens, lineIndex, build).Failure?
    ensures var m := ExpressionOutcome(tokens, lineIndex, build).message;
      && |m| >= |NoExpressionPrefix| && m[..|NoExpressionPrefix|] == NoExpressionPrefix
      && forall l :: l in Lines(m[|NoExpressionPrefix|..]) ==> l !in ExpressionDenied
  {
    var rs := Attempts(ExpressionPriority, tokens, lineIndex, build);
    var kept := Unlisted(Lines(Noted(ExpressionPriority, rs)), ExpressionDenied);
    var m := ExpressionOutcome(tokens, lineIndex, build).message;
    assert m == NoExpressionPrefix + Join(kept, "\n");
    assert m[|NoExpressionPrefix|..] == Join(kept, "\n");
    if |kept| == 0 {
      assert Lines("") == [""];
    } else {
      forall k | 0 <= k < |kept|
        ensures NoBreaks(kept[k])
      {
        assert kept[k] in Lines(Noted(ExpressionPriority, rs));
      }
      LinesJoin(kept);
    }
  }

  /** Collected messages split at any builder into what came before and after. */
  lemma {:induction false} ConcatSplit(ss: seq<string>, i: nat)
    requires i <= |ss|
    ensures Concat(ss) == Concat(ss[..i]) + Concat(ss[i..])
    decreases |ss|
  {
    if i == |ss| {
      assert ss[..i] == ss && ss[i..] == [];
    } else {
      var n := |ss| - 1;
      var init := ss[..n];
      ConcatSplit(init, i);
      assert init[..i] == ss[..i];
      var tail := ss[i..];
      assert tail[..|tail| - 1] == init[i..] && tail[|tail| - 1] == ss[n];
      var a, b, c := Concat(ss[..i]), Concat(init[i..]), ss[n];
      assert Concat(tail) == b + c;
      assert (a + b) + c == a + (b + c);
    }
  }

  /** A text made of notes is empty or ends with a line break. */
  lemma {:induction false} ConcatEndsWithBreak(ss: seq<string>)
    requires forall j :: 0 <= j < |ss| ==> ss[j] == "" || ss[j][|ss[j]| - 1] == '\n'
    ensures var c := Concat(ss); c == "" || c[|c| - 1] == '\n'
    decreases |ss|
  {
    if |ss| > 0 {
      ConcatEndsWithBreak(ss[..|ss| - 1]);
    }
  }

  /** A break-free line placed after a line break (or at the very start) is one of the lines. */
  lemma {:induction false} LineAfterBreak(before: string, m: string, after: string)
    requires before == "" || before[|before| - 1] == '\n'
    requires NoBreaks(m)
    ensures m in Lines(before + (m + "\n" + after))
  {
    LinesAppend(m, after);
    if before == "" {
      assert before + (m + "\n" + after) == m + "\n" + after;
    } else {
      LinesConcat(before, m + "\n" + after);
    }
  }

  /** A builder's one-line note is a line of the collected messages. */
  lemma {:induction false} NotedHasLine(kinds: seq<BuilderKind>, rs: seq<BuilderResult>, i: nat, m: string)
    requires |kinds| == |rs| && i < |kinds|
    requires Note(kinds[i], rs[i]) == m + "\n" && NoBreaks(m)
    ensures m in Lines(Noted(kinds, rs))
  {
    var ns := Notes(kinds, rs);
    ConcatAround(ns, i);
    ConcatEndsWithBreak(ns[..i]);
    LineAfterBreak(Concat(ns[..i]), m, Concat(ns[i + 1..]));
  }

  /** The concatenation around one of its pieces. */
  lemma {:induction false} ConcatAround(ss: seq<string>, i: nat)
    requires i < |ss|
    ensures Concat(ss) == Concat(ss[..i]) + (ss[i] + Concat(ss[i + 1..]))
  {
    var tail := ss[i..];
    ConcatSplit(ss, i);
    ConcatSplit(tail, 1);
    assert tail[..1] == [ss[i]] && tail[1..] == ss[i + 1..];
    assert Concat(tail[..1]) == Concat([]) + ss[i];
  }

  /** A line that is not denied is still a line after filtering. */
  lemma {:induction false} FilteredKeepsLine(messages: string, denied: set<string>, m: string)
    requires m in Lines(messages) && m !in denied
    ensures m in Lines(Filtered(messages, denied))
  {
    var kept := Unlisted(Lines(messages), denied);
    forall k | 0 <= k < |kept|
      ensures NoBreaks(kept[k])
    {
      assert kept[k] in Lines(messages);
    }
    LinesJoin(kept);
  }

  /**
   * A one-line failure of a reported builder survives into the expression
   * provider's message unless it is a denied phrase; "Mismatched
   * parenthesis" from the binary-expression builder is one such.
   */
  lemma ExpressionFailureKeepsMessage(tokens: seq<Token>, lineIndex: int, build: LineBuilders, i: nat, m: string)
    requires i < |ExpressionPriority| && !Silenced(ExpressionPriority[i])
    requires build(ExpressionPriority[i], tokens, lineIndex) == Failure(m)
    requires NoBreaks(m) && m !in ExpressionDenied
    requires forall j :: 0 <= j < |ExpressionPriority| ==> !Accepted(build(ExpressionPriority[j], tokens, lineIndex), ExpressionCategory)
    ensures ExpressionOutcome(tokens, lineIndex, build).Failure?
    ensures m in Lines(ExpressionOutcome(tokens, lineIndex, build).message[|NoExpressionPrefix|..])
  {
    var rs := Attempts(ExpressionPriority, tokens, lineIndex, build);
    FirstAcceptedNone(rs, ExpressionCategory);
    var all := Noted(ExpressionPriority, rs);
    NotedHasLine(ExpressionPriority, rs, i, m);
    FilteredKeepsLine(all, ExpressionDenied, m);
    var msg := ExpressionOutcome(tokens, lineIndex, build).message;
    assert msg == NoExpressionPrefix + Filtered(all, ExpressionDenied);
    assert msg[|NoExpressionPrefix|..] == Filtered(all, ExpressionDenied);
  }

  /**
   * A first builder failing with anything other than "Invalid start of
   * variable declaration" ends the loop: its message is the result, and the
   * expression-statement builder is never consulted.
   */
  lemma StatementStopsAtFirstRealFailure(tokens: seq<Token>, lineIndex: int, b1: LineBuilders, b2: LineBuilders, m: string)
    requires |tokens| > 0 && tokens[|tokens| - 1].kind == "SEMICOLON"
    requires b1(VariableDeclarationBuilder, tokens, lineIndex) == Failure(m)
    requires b2(VariableDeclarationBuilder, tokens, lineIndex) == Failure(m)
    requires m != InvalidStart
    ensures StatementOutcome(tokens, lineIndex, b1) == Failure(m)
    ensures StatementOutcome(tokens, lineIndex, b2) == Failure(m)
  {
    var rs1 := Attempts(StatementPriority, tokens, lineIndex, b1);
    var rs2 := Attempts(StatementPriority, tokens, lineIndex, b2);
    assert rs1[0] == Failure(m) && rs2[0] == Failure(m);
  }

  /** How the loop continues after its first builder did not settle it. */
  lemma StatementLoopAfterFirst(rs: seq<BuilderResult>)
    requires |rs| == 2
    requires !Accepted(rs[0], StatementCategory)
    requires !(rs[0].Failure? && rs[0].message != InvalidStart)
    ensures Accepted(rs[1], StatementCategory) ==> StatementLoop(rs, 0, "") == rs[1]
    ensures rs[1].Failure? && rs[1].message != InvalidStart ==> StatementLoop(rs, 0, "") == rs[1]
    ensures var first := if rs[0].Failure? then InvalidStart else "";
      && (rs[1] == Failure(InvalidStart) ==> StatementLoop(rs, 0, "") == Failure(first + InvalidStart))
      && (rs[1].Success? && !IsStatement(rs[1].node) ==> StatementLoop(rs, 0, "") == Failure(first))
  {
    var first := if rs[0].Failure? then InvalidStart else "";
    assert "" + InvalidStart == InvalidStart;
    assert StatementLoop(rs, 0, "") == StatementLoop(rs, 1, first);
    if rs[1] == Failure(InvalidStart) {
      assert StatementLoop(rs, 1, first) == StatementLoop(rs, 2, first + InvalidStart);
    } else if rs[1].Success? && !IsStatement(rs[1].node) {
      assert StatementLoop(rs, 1, first) == StatementLoop(rs, 2, first);
    }
  }

  /**
   * After an "Invalid start of variable declaration", the result is what the
   * expression-statement builder says: its success if it builds a statement,
   * its message if it fails with anything else.
   */
  lemma StatementAfterInvalidStart(tokens: seq<Token>, lineIndex: int, build: LineBuilders)
    requires |tokens| > 0 && tokens[|tokens| - 1].kind == "SEMICOLON"
    requires build(VariableDeclarationBuilder, tokens, lineIndex) == Failure(InvalidStart)
    ensures var e := build(ExpressionStatementBuilder, tokens, lineIndex);
      && (Accepted(e, StatementCategory) ==> StatementOutcome(tokens, lineIndex, build) == e)
      && (e.Failure? && e.message != InvalidStart ==> StatementOutcome(tokens, lineIndex, build) == e)
      && (e == Failure(InvalidStart) ==> StatementOutcome(tokens, lineIndex, build) == Failure(InvalidStart + InvalidStart))
      && (e.Success? && !IsStatement(e.node) ==> StatementOutcome(tokens, lineIndex, build) == Failure(InvalidStart))
  {
    var rs := Attempts(StatementPriority, tokens, lineIndex, build);
    assert rs[0] == Failure(InvalidStart);
    assert rs[1] == build(ExpressionStatementBuilder, tokens, lineIndex);
    StatementLoopAfterFirst(rs);
  }

  /**
   * Every statement-provider failure is one of: a pre-check message, the
   * first builder message that is not "Invalid start of variable
   * declaration", or that phrase once per builder that failed with it
   * (possibly none).
   */
  lemma StatementFailureShapes(tokens: seq<Token>, lineIndex: int, build: LineBuilders)
    requires StatementOutcome(tokens, lineIndex, build).Failure?
    ensures var m := StatementOutcome(tokens, lineIndex, build).message;
      || (|tokens| == 0 && m == "Empty tokens")
      || (|tokens| > 0 && tokens[|tokens| - 1].kind != "SEMICOLON" &&
          m == MissingSemicolon(lineIndex, tokens[|tokens| - 1].position.start))
      || (exists k :: k in StatementPriority && build(k, tokens, lineIndex) == Failure(m) && m != InvalidStart)
      || m == "" || m == InvalidStart || m == InvalidStart + InvalidStart
  {
    if |tokens| > 0 && tokens[|tokens| - 1].kind == "SEMICOLON" {
      var rs := Attempts(StatementPriority, tokens, lineIndex, build);
      assert rs[0] == build(VariableDeclarationBuilder, tokens, lineIndex);
      assert rs[1] == build(ExpressionStatementBuilder, tokens, lineIndex);
      if !(rs[0].Failure? && rs[0].message != InvalidStart) {
        StatementLoopAfterFirst(rs);
      }
    }
  }

  /** A successful statement-provider result is a statement some builder built. */
  lemma StatementSuccessIsStatement(tokens: seq<Token>, lineIndex: int, build: LineBuilders)
    requires StatementOutcome(tokens, lineIndex, build).Success?
    ensures IsStatement(StatementOutcome(tokens, lineIndex, build).node)
    ensures exists k :: k in StatementPriority && build(k, tokens, lineIndex) == StatementOutcome(tokens, lineIndex, build)
  {
    var rs := Attempts(StatementPriority, tokens, lineIndex, build);
    assert rs[0] == build(VariableDeclarationBuilder, tokens, lineIndex);
    assert rs[1] == build(ExpressionStatementBuilder, tokens, lineIndex);
    if !Accepted(rs[0], StatementCategory) {
      StatementLoopAfterFirst(rs);
    }
  }
}
