/**
 * The older ordered-alternative providers
 * (parser/src/main/kotlin/astbuilder/BuilderProviders.kt): builders take the
 * tokens only, the binary-expression builder is tried before the call
 * builder, failures of the expression providers carry a fixed message, and
 * the statement provider lists every failure, one per line.
 */
module LegacyProviders {
  import opened Common
  import opened Ast
  import Providers

  const AssignablePriority: seq<BuilderKind> :=
    [BinaryBuilder, CallBuilder, NumberLiteralBuilder, StringLiteralBuilder, IdentifierBuilder]

  const ExpressionPriority: seq<BuilderKind> :=
    [AssignmentBuilder, BinaryBuilder, CallBuilder, NumberLiteralBuilder, StringLiteralBuilder, IdentifierBuilder]

  const StatementPriority: seq<BuilderKind> :=
    [VariableDeclarationBuilder, ExpressionStatementBuilder]

  const NoAssignable := "No valid assignable expression found"
  const NoExpression := "No valid expression found"
  const NoStatementPrefix := "No valid statement found, errors: \n"

  /** The outcome of every builder of the list, each built over the same tokens. */
  function Attempts(kinds: seq<BuilderKind>, tokens: seq<Token>, build: Builders): (rs: seq<BuilderResult>)
    ensures |rs| == |kinds|
  {
    seq(|kinds|, k requires 0 <= k < |kinds| => build(kinds[k], tokens))
  }

  /** The first accepted result of the list, or the given failure. */
  function FirstOr(rs: seq<BuilderResult>, c: Providers.Category, failure: BuilderResult): BuilderResult {
    match Providers.FirstAccepted(rs, c)
    case Some(i) => rs[i]
    case None => failure
  }

  /** `errorMessages` after the statement loop has visited the given results. */
  function Collected(rs: seq<BuilderResult>): string
    decreases |rs|
  {
    if |rs| == 0 then ""
    else
      var last := rs[|rs| - 1];
      Collected(rs[..|rs| - 1]) + (if last.Failure? then last.message + "\n" else "")
  }

  /** The failure messages among the results, in order. */
  function FailureMessages(rs: seq<BuilderResult>): (ms: seq<string>)
    ensures |ms| <= |rs|
    decreases |rs|
  {
    if |rs| == 0 then []
    else
      var last := rs[|rs| - 1];
      FailureMessages(rs[..|rs| - 1]) + (if last.Failure? then [last.message] else [])
  }

  function AssignableOutcome(tokens: seq<Token>, build: Builders): BuilderResult {
    FirstOr(Attempts(AssignablePriority, tokens, build), Providers.ExpressionCategory, Failure(NoAssignable))
  }

  function ExpressionOutcome(tokens: seq<Token>, build: Builders): BuilderResult {
    FirstOr(Attempts(ExpressionPriority, tokens, build), Providers.ExpressionCategory, Failure(NoExpression))
  }

  function StatementOutcome(tokens: seq<Token>, build: Builders): BuilderResult {
    var rs := Attempts(StatementPriority, tokens, build);
    FirstOr(rs, Providers.StatementCategory, Failure(NoStatementPrefix + Collected(rs)))
  }

  class AssignableExpressionProvider {
    const tokens: seq<Token>
    const build: Builders
    const assignableExpressionBuilders: seq<BuilderKind> := AssignablePriority

    constructor (tokens: seq<Token>, build: Builders)
      ensures this.tokens == tokens && this.build == build
    {
      this.tokens := tokens;
      this.build := build;
    }

    method GetAssignableExpressionResult() returns (r: BuilderResult)
      ensures r == AssignableOutcome(tokens, build)
      ensures r.Success? <==> exists i :: 0 <= i < |AssignablePriority| && Providers.Accepted(build(AssignablePriority[i], tokens), Providers.ExpressionCategory)
      ensures r.Success? ==> IsExpression(r.node) && exists i ::
        && 0 <= i < |AssignablePriority| && r == build(AssignablePriority[i], tokens)
        && forall j :: 0 <= j < i ==> !Providers.Accepted(build(AssignablePriority[j], tokens), Providers.ExpressionCategory)
      ensures r.Failure? ==> r.message == NoAssignable
    {
      var kinds := assignableExpressionBuilders;
      ghost var rs := Attempts(kinds, tokens, build);
      for i := 0 to |kinds|
        invariant forall j :: 0 <= j < i ==> !Providers.Accepted(rs[j], Providers.ExpressionCategory)
      {
        var result := build(kinds[i], tokens);
        if Providers.Accepted(result, Providers.ExpressionCategory) {
          Providers.FirstAcceptedAt(rs, i, Providers.ExpressionCategory);
          assert forall j :: 0 <= j < i ==> rs[j] == build(kinds[j], tokens);
          return result;
        }
      }
      assert forall j :: 0 <= j < |kinds| ==> rs[j] == build(kinds[j], tokens);
      Providers.FirstAcceptedNone(rs, Providers.ExpressionCategory);
      return Failure(NoAssignable);
    }
  }

  class ExpressionProvider {
    const tokens: seq<Token>
    const build: Builders
    const expressionBuilders: seq<BuilderKind> := ExpressionPriority

    constructor (tokens: seq<Token>, build: Builders)
      ensures this.tokens == tokens && this.build == build
    {
      this.tokens := tokens;
      this.build := build;
    }

    method GetVerifiedExpressionResult() returns (r: BuilderResult)
      ensures r == ExpressionOutcome(tokens, build)
      ensures r.Success? <==> exists i :: 0 <= i < |ExpressionPriority| && Providers.Accepted(build(ExpressionPriority[i], tokens), Providers.ExpressionCategory)
      ensures r.Success? ==> IsExpression(r.node) && exists i ::
        && 0 <= i < |ExpressionPriority| && r == build(ExpressionPriority[i], tokens)
        && forall j :: 0 <= j < i ==> !Providers.Accepted(build(ExpressionPriority[j], tokens), Providers.ExpressionCategory)
      ensures r.Failure? ==> r.message == NoExpression
    {
      var kinds := expressionBuilders;
      ghost var rs := Attempts(kinds, tokens, build);
      for i := 0 to |kinds|
        invariant forall j :: 0 <= j < i ==> !Providers.Accepted(rs[j], Providers.ExpressionCategory)
      {
        var result := build(kinds[i], tokens);
        if Providers.Accepted(result, Providers.ExpressionCategory) {
          Providers.FirstAcceptedAt(rs, i, Providers.ExpressionCategory);
          assert forall j :: 0 <= j < i ==> rs[j] == build(kinds[j], tokens);
          return result;
        }
      }
      assert forall j :: 0 <= j < |kinds| ==> rs[j] == build(kinds[j], tokens);
      Providers.FirstAcceptedNone(rs, Providers.ExpressionCategory);
      return Failure(NoExpression);
    }
  }

  class StatementProvider {
    const tokens: seq<Token>
    const build: Builders
    const statementBuilders: seq<BuilderKind> := StatementPriority

    constructor (tokens: seq<Token>, build: Builders)
      ensures this.tokens == tokens && this.build == build
    {
      this.tokens := tokens;
      this.build := build;
    }

    method GetVerifiedStatementResult() returns (r: BuilderResult)
      ensures r == StatementOutcome(tokens, build)
      ensures r.Success? ==> IsStatement(r.node)
      ensures r.Failure? ==> |r.message| >= |NoStatementPrefix| && r.message[..|NoStatementPrefix|] == NoStatementPrefix
    {
      var kinds := statementBuilders;
      ghost var rs := Attempts(kinds, tokens, build);
      var errorMessages := "";
      for i := 0 to |kinds|
        invariant forall j :: 0 <= j < i ==> !Providers.Accepted(rs[j], Providers.StatementCategory)
        invariant errorMessages == Collected(rs[..i])
      {
        var result := build(kinds[i], tokens);
        if Providers.Accepted(result, Providers.StatementCategory) {
          Providers.FirstAcceptedAt(rs, i, Providers.StatementCategory);
          return result;
        }
        assert rs[..i + 1][..i] == rs[..i];
        if result.Failure? {
          errorMessages := errorMessages + result.message + "\n";
        }
      }
      assert rs[..|kinds|] == rs;
      Providers.FirstAcceptedNone(rs, Providers.StatementCategory);
      return Failure(NoStatementPrefix + errorMessages);
    }
  }

  /** The collected messages are empty or end with a line break. */
  lemma {:induction false} CollectedEndsWithBreak(rs: seq<BuilderResult>)
    ensures var c := Collected(rs); c == "" || c[|c| - 1] == '\n'
    decreases |rs|
  {
    if |rs| > 0 {
      CollectedEndsWithBreak(rs[..|rs| - 1]);
    }
  }

  /**
   * When every failure message is one line, the statement provider's
   * collected text holds exactly those messages, one per line, in builder
   * order, followed by a final empty line.
   */
  lemma {:induction false} CollectedLines(rs: seq<BuilderResult>)
    requires forall k :: 0 <= k < |rs| && rs[k].Failure? ==> NoBreaks(rs[k].message)
    ensures Lines(Collected(rs)) == FailureMessages(rs) + [""]
    decreases |rs|
  {
    if |rs| > 0 {
      var init := rs[..|rs| - 1];
      var last := rs[|rs| - 1];
      assert forall k :: 0 <= k < |init| ==> init[k] == rs[k];
      CollectedLines(init);
      if last.Failure? {
        var m := last.message;
        LinesAppend(m, "");
        assert Lines(m + "\n") == [m, ""] by {
          assert m + "\n" + "" == m + "\n";
        }
        var c := Collected(init);
        CollectedEndsWithBreak(init);
        if c == "" {
          assert Collected(rs) == m + "\n";
        } else {
          LinesConcat(c, m + "\n");
        }
      } else {
        assert Collected(rs) == Collected(init);
      }
    }
  }

  /** A statement-provider failure lists every builder's one-line failure, each on its own line. */
  lemma StatementFailureListsAll(tokens: seq<Token>, build: Builders)
    requires forall k :: k in StatementPriority ==> !Providers.Accepted(build(k, tokens), Providers.StatementCategory)
    requires forall k :: k in StatementPriority && build(k, tokens).Failure? ==> NoBreaks(build(k, tokens).message)
    ensures var r := StatementOutcome(tokens, build);
      && r.Failure?
      && r.message[..|NoStatementPrefix|] == NoStatementPrefix
      && Lines(r.message[|NoStatementPrefix|..]) == FailureMessages(Attempts(StatementPriority, tokens, build)) + [""]
  {
    var rs := Attempts(StatementPriority, tokens, build);
    assert rs[0] == build(StatementPriority[0], tokens) && rs[1] == build(StatementPriority[1], tokens);
    Providers.FirstAcceptedNone(rs, Providers.StatementCategory);
    CollectedLines(rs);
    var msg := NoStatementPrefix + Collected(rs);
    assert msg[|NoStatementPrefix|..] == Collected(rs);
  }

  /**
   * Two failing statement builders give the two messages on their own lines
   * after the fixed prefix; with "Empty tokens" twice this is the message
   * the parser tests expect for an empty line.
   */
  lemma {:induction false} TwoFailures(tokens: seq<Token>, build: Builders, m0: string, m1: string)
    requires build(VariableDeclarationBuilder, tokens) == Failure(m0)
    requires build(ExpressionStatementBuilder, tokens) == Failure(m1)
    ensures StatementOutcome(tokens, build) == Failure(NoStatementPrefix + m0 + "\n" + m1 + "\n")
  {
    var rs := Attempts(StatementPriority, tokens, build);
    assert rs == [Failure(m0), Failure(m1)];
    Providers.FirstAcceptedNone(rs, Providers.StatementCategory);
    var one := rs[..1];
    assert one == [Failure(m0)] && one[..0] == [];
    assert Collected(one) == "" + (m0 + "\n");
    assert rs[..|rs| - 1] == one;
    assert Collected(rs) == (m0 + "\n") + (m1 + "\n");
  }

  /**
   * Where both the binary-expression and the call builder produce an
   * expression (and the assignment builder does not), this generation picks
   * the binary expression and the line-index generation the call.
   */
  lemma BinaryBeforeCall(tokens: seq<Token>, lineIndex: int, build: Builders)
    requires !Providers.Accepted(build(AssignmentBuilder, tokens), Providers.ExpressionCategory)
    requires Providers.Accepted(build(BinaryBuilder, tokens), Providers.ExpressionCategory)
    requires Providers.Accepted(build(CallBuilder, tokens), Providers.ExpressionCategory)
    ensures ExpressionOutcome(tokens, build) == build(BinaryBuilder, tokens)
    ensures AssignableOutcome(tokens, build) == build(BinaryBuilder, tokens)
    ensures Providers.ExpressionOutcome(tokens, lineIndex, (k, t, i) => build(k, t)) == build(CallBuilder, tokens)
    ensures Providers.AssignableOutcome(tokens, lineIndex, (k, t, i) => build(k, t)) == build(CallBuilder, tokens)
  {
    var lb: LineBuilders := (k, t, i) => build(k, t);
    var e := Attempts(ExpressionPriority, tokens, build);
    assert e[0] == build(AssignmentBuilder, tokens) && e[1] == build(BinaryBuilder, tokens);
    Providers.FirstAcceptedAt(e, 1, Providers.ExpressionCategory);
    var a := Attempts(AssignablePriority, tokens, build);
    assert a[0] == build(BinaryBuilder, tokens);
    Providers.FirstAcceptedAt(a, 0, Providers.ExpressionCategory);
    var ne := Providers.Attempts(Providers.ExpressionPriority, tokens, lineIndex, lb);
    assert ne[0] == build(AssignmentBuilder, tokens) && ne[1] == build(CallBuilder, tokens);
    Providers.FirstAcceptedAt(ne, 1, Providers.ExpressionCategory);
    var na := Providers.Attempts(Providers.AssignablePriority, tokens, lineIndex, lb);
    assert na[0] == build(CallBuilder, tokens);
    Providers.FirstAcceptedAt(na, 0, Providers.ExpressionCategory);
  }
}
