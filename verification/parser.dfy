/**
 * The parser's entry point (parser/src/main/kotlin/Parser.kt): one line of
 * tokens in, the statement provider's result out, unless the line holds
 * more than one semicolon.
 */
module Parsing {
  import opened Common
  import opened Ast
  import Providers
  import LegacyProviders

  const OnlyOneLine := "Only one line of code is allowed at a time."

  /** A token counts as a semicolon by its text or by its kind. */
  predicate IsSemicolon(t: Token) {
    t.value == ";" || t.kind == "SEMICOLON"
  }

  /** Kotlin `tokens.count { it.value == ";" || it.type == "SEMICOLON" }`. */
  function SemicolonCount(tokens: seq<Token>): (n: nat)
    ensures n <= |tokens|
  {
    if |tokens| == 0 then 0
    else (if IsSemicolon(tokens[0]) then 1 else 0) + SemicolonCount(tokens[1..])
  }

  /**
   * `Parser.parse`: the thrown `IllegalStateException` is the `Err` case.
   * Otherwise the result is whatever the line-index statement provider says.
   */
  function Parse(tokens: seq<Token>, lineIndex: int, build: LineBuilders): (r: Result<BuilderResult>)
    ensures r.Err? <==> SemicolonCount(tokens) > 1
    ensures r.Err? ==> r.message == OnlyOneLine
    ensures r.Ok? ==> r.value == Providers.StatementOutcome(tokens, lineIndex, build)
  {
    if SemicolonCount(tokens) > 1 then Err(OnlyOneLine)
    else Ok(Providers.StatementOutcome(tokens, lineIndex, build))
  }

  /** The count exceeds one exactly when two distinct tokens are semicolons. */
  lemma {:induction false} SemicolonCountPair(tokens: seq<Token>)
    ensures SemicolonCount(tokens) > 1 <==>
      exists i, j :: 0 <= i < j < |tokens| && IsSemicolon(tokens[i]) && IsSemicolon(tokens[j])
  {
    if |tokens| > 0 {
      var rest := tokens[1..];
      SemicolonCountPair(rest);
      SemicolonCountSome(rest);
      if SemicolonCount(tokens) > 1 {
        if IsSemicolon(tokens[0]) {
          var j :| 0 <= j < |rest| && IsSemicolon(rest[j]);
          assert IsSemicolon(tokens[j + 1]);
        } else {
          var i, j :| 0 <= i < j < |rest| && IsSemicolon(rest[i]) && IsSemicolon(rest[j]);
          assert IsSemicolon(tokens[i + 1]) && IsSemicolon(tokens[j + 1]);
        }
      }
      if exists i, j :: 0 <= i < j < |tokens| && IsSemicolon(tokens[i]) && IsSemicolon(tokens[j]) {
        var i, j :| 0 <= i < j < |tokens| && IsSemicolon(tokens[i]) && IsSemicolon(tokens[j]);
        assert IsSemicolon(rest[j - 1]);
        if i > 0 {
          assert IsSemicolon(rest[i - 1]);
        }
      }
    }
  }

  /** The count is positive exactly when some token is a semicolon. */
  lemma {:induction false} SemicolonCountSome(tokens: seq<Token>)
    ensures SemicolonCount(tokens) > 0 <==> exists i :: 0 <= i < |tokens| && IsSemicolon(tokens[i])
  {
    if |tokens| > 0 {
      var rest := tokens[1..];
      SemicolonCountSome(rest);
      if exists i :: 0 <= i < |tokens| && IsSemicolon(tokens[i]) {
        var i :| 0 <= i < |tokens| && IsSemicolon(tokens[i]);
        if i > 0 {
          assert IsSemicolon(rest[i - 1]);
        }
      }
      if exists i :: 0 <= i < |rest| && IsSemicolon(rest[i]) {
        var i :| 0 <= i < |rest| && IsSemicolon(rest[i]);
        assert IsSemicolon(tokens[i + 1]);
      }
    }
  }

  /** Two semicolons anywhere in the line reject it, whatever the builders would say. */
  lemma TwoSemicolonsRejected(tokens: seq<Token>, lineIndex: int, build: LineBuilders, i: nat, j: nat)
    requires i < j < |tokens| && IsSemicolon(tokens[i]) && IsSemicolon(tokens[j])
    ensures Parse(tokens, lineIndex, build) == Err(OnlyOneLine)
  {
    SemicolonCountPair(tokens);
  }

  function Tok(kind: string, start: int, end: int, value: string): Token {
    Token(kind, Position(start, end), value)
  }

  /** `let a:number;` */
  const LetNumberTokens: seq<Token> := [
    Tok("LET", 0, 3, "let"), Tok("ID", 4, 5, "a"), Tok("COLON", 5, 6, ":"),
    Tok("TYPE", 7, 13, "number"), Tok("SEMICOLON", 13, 14, ";")
  ]

  /** The tree the parser tests expect for `let a:number;`. */
  const LetNumberTree: Node :=
    VariableDeclaration(
      "let",
      [VariableDeclarator(Identifier("a", 4, 5), TypeReference("number", 7, 13), NoInit, 4, 13)],
      0, 14)

  /**
   * `let a:number;` passes the semicolon guard, the declaration builder
   * answers first, and the tree the tests expect respects the span
   * discipline.
   */
  lemma LetNumberParses(lineIndex: int, build: LineBuilders)
    requires build(VariableDeclarationBuilder, LetNumberTokens, lineIndex) == Success(LetNumberTree)
    ensures Parse(LetNumberTokens, lineIndex, build) == Ok(Success(LetNumberTree))
    ensures WellSpanned(LetNumberTree)
  {
    assert SemicolonCount(LetNumberTokens) == 1 by {
      assert LetNumberTokens[1..][1..][1..][1..][1..] == [];
    }
    assert Providers.StatementOutcome(LetNumberTokens, lineIndex, build) == Success(LetNumberTree) by {
      var rs := Providers.Attempts(Providers.StatementPriority, LetNumberTokens, lineIndex, build);
      assert rs[0] == Success(LetNumberTree);
    }
  }

  /** `2 * 3 / 4` in `a = 1 + 2 * 3 / 4 - 5 % 6;` */
  const Quotient: Node :=
    BinaryExpression(
      BinaryExpression(NumberLiteral(2.0, 8, 9), NumberLiteral(3.0, 12, 13), "*", 8, 13),
      NumberLiteral(4.0, 16, 17), "/", 8, 17)

  /** `1 + 2 * 3 / 4` */
  const Sum: Node := BinaryExpression(NumberLiteral(1.0, 4, 5), Quotient, "+", 4, 17)

  /** `5 % 6` */
  const Remainder: Node := BinaryExpression(NumberLiteral(5.0, 19, 20), NumberLiteral(6.0, 23, 24), "%", 19, 24)

  /** `1 + 2 * 3 / 4 - 5 % 6` */
  const Difference: Node := BinaryExpression(Sum, Remainder, "-", 4, 24)

  /** `a = 1 + 2 * 3 / 4 - 5 % 6;` as the parser tests expect it. */
  const PrecedenceTree: Node :=
    ExpressionStatement(AssignmentExpression(Identifier("a", 0, 1), Difference, 0, 24), 0, 25)

  /** Binding strength: multiplicative operators bind tighter than additive ones. */
  function Strength(op: string): nat {
    if op == "*" || op == "/" || op == "%" then 2 else 1
  }

  /**
   * A binary tree read back with conventional precedence and left
   * associativity: a binary left operand binds at least as tightly as its
   * parent, a binary right operand strictly more tightly.
   */
  predicate LeftAssociative(n: Node)
    decreases n
  {
    match n
    case BinaryExpression(l, r, op, _, _) =>
      LeftAssociative(l) && LeftAssociative(r) &&
      (l.BinaryExpression? ==> Strength(l.operator) >= Strength(op)) &&
      (r.BinaryExpression? ==> Strength(r.operator) > Strength(op))
    case AssignmentExpression(_, r, _, _) => LeftAssociative(r)
    case ExpressionStatement(x, _, _) => LeftAssociative(x)
    case _ => true
  }

  /**
   * The expected tree for `a = 1 + 2 * 3 / 4 - 5 % 6;` respects the span
   * discipline and reads back with conventional precedence and left
   * associativity.
   */
  lemma PrecedenceTreeShape()
    ensures WellSpanned(PrecedenceTree) && LeftAssociative(PrecedenceTree)
  {
    AssignmentShape();
  }

  lemma AssignmentShape()
    ensures WellSpanned(PrecedenceTree.expression) && LeftAssociative(PrecedenceTree.expression)
  {
    DifferenceShape();
    var a := PrecedenceTree.expression;
    assert a == AssignmentExpression(Identifier("a", 0, 1), Difference, 0, 24);
    assert Difference.start == 4 && Difference.end == 24;
    assert WellSpanned(a.left);
  }

  lemma DifferenceShape()
    ensures WellSpanned(Difference) && LeftAssociative(Difference)
  {
    SumShape();
    RemainderShape();
  }

  lemma SumShape()
    ensures WellSpanned(Sum) && LeftAssociative(Sum)
  {
    QuotientShape();
    assert WellSpanned(Sum.left);
  }

  lemma RemainderShape()
    ensures WellSpanned(Remainder) && LeftAssociative(Remainder)
  {
    assert WellSpanned(Remainder.left) && WellSpanned(Remainder.right);
  }

  lemma QuotientShape()
    ensures WellSpanned(Quotient) && LeftAssociative(Quotient)
  {
    var product := Quotient.left;
    assert WellSpanned(product.left) && WellSpanned(product.right);
    assert WellSpanned(product) && LeftAssociative(product);
  }

  /** `a = 1 + 2 * 3 / 4 - 5 % 6;` */
  const PrecedenceTokens: seq<Token> := [
    Tok("ID", 0, 1, "a"), Tok("ASSIGN", 2, 3, "="), Tok("NUMBER", 4, 5, "1"),
    Tok("PLUS", 6, 7, "+"), Tok("NUMBER", 8, 9, "2"), Tok("MUL", 10, 11, "*"),
    Tok("NUMBER", 12, 13, "3"), Tok("DIV", 14, 15, "/"), Tok("NUMBER", 16, 17, "4"),
    Tok("MINUS", 17, 18, "-"), Tok("NUMBER", 19, 20, "5"), Tok("MODULE", 21, 22, "%"),
    Tok("NUMBER", 23, 24, "6"), Tok("SEMICOLON", 24, 25, ";")
  ]

  /** Only the last token of the precedence line is a semicolon. */
  lemma PrecedenceSemicolons()
    ensures SemicolonCount(PrecedenceTokens) == 1
  {
    var t := PrecedenceTokens;
    assert forall i :: 0 <= i < 13 ==> t[i].value != ";" && t[i].kind != "SEMICOLON";
    assert forall i :: 0 <= i < |t| - 1 ==> !IsSemicolon(t[i]);
    assert |t| == 14 && IsSemicolon(t[13]);
    SemicolonCountSome(t);
    SemicolonCountPair(t);
    assert !exists i, j :: 0 <= i < j < |t| && IsSemicolon(t[i]) && IsSemicolon(t[j]);
  }

  /**
   * `a = 1 + 2 * 3 / 4 - 5 % 6;` passes the semicolon guard; when the
   * declaration builder rejects its start and the expression-statement
   * builder yields the tree the tests expect, that tree is the parse
   * result, and it reads back with conventional precedence.
   */
  lemma PrecedenceParses(lineIndex: int, build: LineBuilders)
    requires build(VariableDeclarationBuilder, PrecedenceTokens, lineIndex) == Failure(Providers.InvalidStart)
    requires build(ExpressionStatementBuilder, PrecedenceTokens, lineIndex) == Success(PrecedenceTree)
    ensures Parse(PrecedenceTokens, lineIndex, build) == Ok(Success(PrecedenceTree))
    ensures WellSpanned(PrecedenceTree) && LeftAssociative(PrecedenceTree)
  {
    PrecedenceSemicolons();
    ExpressionStatementParses(PrecedenceTokens, lineIndex, build, PrecedenceTree);
    PrecedenceTreeShape();
  }

  /**
   * After "Invalid start of variable declaration", a line parses to the
   * statement the expression-statement builder builds; the parser tests'
   * assignment and precedence trees arrive this way.
   */
  lemma ExpressionStatementParses(tokens: seq<Token>, lineIndex: int, build: LineBuilders, n: Node)
    requires SemicolonCount(tokens) <= 1 && |tokens| > 0 && tokens[|tokens| - 1].kind == "SEMICOLON"
    requires build(VariableDeclarationBuilder, tokens, lineIndex) == Failure(Providers.InvalidStart)
    requires build(ExpressionStatementBuilder, tokens, lineIndex) == Success(n) && IsStatement(n)
    ensures Parse(tokens, lineIndex, build) == Ok(Success(n))
  {
    StatementFromSecondBuilder(tokens, lineIndex, build, n);
  }

  lemma StatementFromSecondBuilder(tokens: seq<Token>, lineIndex: int, build: LineBuilders, n: Node)
    requires |tokens| > 0 && tokens[|tokens| - 1].kind == "SEMICOLON"
    requires build(VariableDeclarationBuilder, tokens, lineIndex) == Failure(Providers.InvalidStart)
    requires build(ExpressionStatementBuilder, tokens, lineIndex) == Success(n) && IsStatement(n)
    ensures Providers.StatementOutcome(tokens, lineIndex, build) == Success(n)
  {
    Providers.StatementAfterInvalidStart(tokens, lineIndex, build);
  }

  /** `(1+2));` */
  const MismatchedTokens: seq<Token> := [
    Tok("OPAREN", 0, 1, "("), Tok("NUMBER", 1, 2, "1"), Tok("PLUS", 3, 4, "+"),
    Tok("NUMBER", 5, 6, "2"), Tok("CPAREN", 6, 7, ")"), Tok("CPAREN", 7, 8, ")"),
    Tok("SEMICOLON", 8, 9, ";")
  ]

  /**
   * `(1+2));`: when the declaration builder rejects the start, the
   * expression-statement builder reports the expression provider's failure
   * on the tokens before the semicolon, and the binary-expression builder
   * fails with "Mismatched parenthesis", that phrase is a line of the
   * parse's failure message.
   */
  lemma MismatchedParenthesisReported(lineIndex: int, build: LineBuilders)
    requires build(VariableDeclarationBuilder, MismatchedTokens, lineIndex) == Failure(Providers.InvalidStart)
    requires var expr := MismatchedTokens[..|MismatchedTokens| - 1];
      && build(ExpressionStatementBuilder, MismatchedTokens, lineIndex) == Providers.ExpressionOutcome(expr, lineIndex, build)
      && build(BinaryBuilder, expr, lineIndex) == Failure("Mismatched parenthesis")
      && forall j :: 0 <= j < |Providers.ExpressionPriority| ==>
           !Providers.Accepted(build(Providers.ExpressionPriority[j], expr, lineIndex), Providers.ExpressionCategory)
    ensures var r := Parse(MismatchedTokens, lineIndex, build);
      && r.Ok? && r.value.Failure? && |r.value.message| >= |Providers.NoExpressionPrefix|
      && "Mismatched parenthesis" in Lines(r.value.message[|Providers.NoExpressionPrefix|..])
  {
    MismatchedSemicolons();
    MismatchedPhrase();
    BinaryFailureReported(MismatchedTokens, lineIndex, build, "Mismatched parenthesis");
  }

  /**
   * When the declaration builder rejects the start, the expression-statement
   * builder reports the expression provider's failure on the tokens before
   * the semicolon, and the binary-expression builder fails with a one-line
   * message outside the denied phrases, that message is a line of the
   * parse's failure.
   */
  lemma BinaryFailureReported(tokens: seq<Token>, lineIndex: int, build: LineBuilders, m: string)
    requires SemicolonCount(tokens) <= 1 && |tokens| > 0 && tokens[|tokens| - 1].kind == "SEMICOLON"
    requires NoBreaks(m) && m !in Providers.ExpressionDenied
    requires build(VariableDeclarationBuilder, tokens, lineIndex) == Failure(Providers.InvalidStart)
    requires var expr := tokens[..|tokens| - 1];
      && build(ExpressionStatementBuilder, tokens, lineIndex) == Providers.ExpressionOutcome(expr, lineIndex, build)
      && build(BinaryBuilder, expr, lineIndex) == Failure(m)
      && forall j :: 0 <= j < |Providers.ExpressionPriority| ==>
           !Providers.Accepted(build(Providers.ExpressionPriority[j], expr, lineIndex), Providers.ExpressionCategory)
    ensures var r := Parse(tokens, lineIndex, build);
      && r.Ok? && r.value.Failure? && |r.value.message| >= |Providers.NoExpressionPrefix|
      && m in Lines(r.value.message[|Providers.NoExpressionPrefix|..])
  {
    var expr := tokens[..|tokens| - 1];
    var e := build(ExpressionStatementBuilder, tokens, lineIndex);
    assert Providers.ExpressionPriority[2] == BinaryBuilder;
    Providers.ExpressionFailureKeepsMessage(expr, lineIndex, build, 2, m);
    Providers.ExpressionFailureHasNoDeniedLine(expr, lineIndex, build);
    PrefixNotInvalidStart(e.message);
    Providers.StatementAfterInvalidStart(tokens, lineIndex, build);
  }

  /** "Mismatched parenthesis" is one line and not a denied phrase. */
  lemma MismatchedPhrase()
    ensures NoBreaks("Mismatched parenthesis")
    ensures "Mismatched parenthesis" !in Providers.ExpressionDenied
  {
    var m := "Mismatched parenthesis";
    assert forall k :: 0 <= k < |m| ==> !IsLineBreak(m[k]);
    assert m[0] == 'M';
  }

  /** `(1+2));` holds one semicolon. */
  lemma MismatchedSemicolons()
    ensures SemicolonCount(MismatchedTokens) == 1
  {
    assert MismatchedTokens[1..][1..][1..][1..][1..][1..][1..] == [];
  }

  /** A message opening like the expression provider's failure is not the declaration builder's complaint. */
  lemma PrefixNotInvalidStart(m: string)
    requires |m| >= |Providers.NoExpressionPrefix| && m[..|Providers.NoExpressionPrefix|] == Providers.NoExpressionPrefix
    ensures m != Providers.InvalidStart
  {
    assert m[0] == Providers.NoExpressionPrefix[0];
    assert Providers.InvalidStart[0] != Providers.NoExpressionPrefix[0];
  }

  /** `let a:number = 5` (no semicolon) */
  const NoSemicolonTokens: seq<Token> := [
    Tok("LET", 0, 3, "let"), Tok("ID", 4, 5, "a"), Tok("COLON", 5, 6, ":"),
    Tok("TYPE", 7, 13, "number"), Tok("ASSIGN", 14, 15, "="), Tok("NUMBER", 16, 17, "5")
  ]

  /**
   * A line without its semicolon: this parser answers from the statement
   * provider's pre-check, naming the line and the last token's start,
   * without consulting a builder.
   */
  lemma MissingSemicolonParse(lineIndex: int, build: LineBuilders)
    ensures Parse(NoSemicolonTokens, lineIndex, build) == Ok(Failure(Providers.MissingSemicolon(lineIndex, 16)))
  {
    NoSemicolonCount();
  }

  /** On the first line that message reads "Missing semicolon at (0, 16", without a closing parenthesis. */
  lemma MissingSemicolonText()
    ensures Providers.MissingSemicolon(0, 16) == "Missing semicolon at (0, 16"
  {
    assert IntToString(16) == "16" by {
      assert NatToString(1) == "1";
      assert NatToString(16) == NatToString(1) + [Digit(6)];
    }
    assert IntToString(0) == "0";
  }

  /**
   * The older provider, which the parser tests were written against, lists
   * the two builders' own complaints about the missing semicolon instead.
   */
  lemma MissingSemicolonLegacy(legacy: Builders)
    requires legacy(VariableDeclarationBuilder, NoSemicolonTokens) == Failure("Missing semicolon at variable declaration")
    requires legacy(ExpressionStatementBuilder, NoSemicolonTokens) == Failure("Missing semicolon at expression statement")
    ensures LegacyProviders.StatementOutcome(NoSemicolonTokens, legacy) ==
      Failure(LegacyProviders.NoStatementPrefix + "Missing semicolon at variable declaration" + "\n" +
              "Missing semicolon at expression statement" + "\n")
  {
    LegacyProviders.TwoFailures(NoSemicolonTokens, legacy,
      "Missing semicolon at variable declaration", "Missing semicolon at expression statement");
  }

  /** `let a:number = 5` holds no semicolon. */
  lemma NoSemicolonCount()
    ensures SemicolonCount(NoSemicolonTokens) == 0
  {
    assert NoSemicolonTokens[1..][1..][1..][1..][1..][1..] == [];
  }

  /**
   * An empty line: this parser reports "Empty tokens" once, from the
   * pre-check; the older provider, with both builders failing that way,
   * reports it once per builder as the parser tests expect.
   */
  lemma EmptyLineMessages(lineIndex: int, build: LineBuilders, legacy: Builders)
    requires legacy(VariableDeclarationBuilder, []) == Failure("Empty tokens")
    requires legacy(ExpressionStatementBuilder, []) == Failure("Empty tokens")
    ensures Parse([], lineIndex, build) == Ok(Failure("Empty tokens"))
    ensures LegacyProviders.StatementOutcome([], legacy) ==
      Failure(LegacyProviders.NoStatementPrefix + "Empty tokens" + "\n" + "Empty tokens" + "\n")
  {
    LegacyProviders.TwoFailures([], legacy, "Empty tokens", "Empty tokens");
  }
}
