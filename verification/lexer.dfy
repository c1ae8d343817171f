/**
 * The cursor-based tokenizer (`Lexer` in lexer/src/main/kotlin/Lexer.kt).
 *
 * A cursor walks one source line. At each position the rules of the token
 * table are tried in table order; the first one whose match begins exactly
 * at the cursor produces a token spanning the matched text, and the cursor
 * moves past it. Whitespace no rule matches is skipped; any other character
 * no rule matches stops the line with an "Unexpected character" error.
 */
module Lexing {
  import opened Common
  import opened Ast

  /**
   * One row of the token table. The regular expression itself is abstracted
   * to `matchAtStart`: given the remaining input, the length of the match
   * `find` reports when that match begins at offset 0, and None when there
   * is no match or it begins further on.
   */
  datatype Rule = Rule(token: string, matchAtStart: string -> Option<nat>)

  /**
   * What the table must satisfy for tokenizing `input` to be meaningful: a
   * match at any suffix of the input is a non-empty prefix of that suffix.
   * A zero-length match would leave the cursor where it is forever.
   */
  predicate RulesFit(rules: seq<Rule>, input: string) {
    forall i, p :: 0 <= i < |rules| && 0 <= p < |input| && rules[i].matchAtStart(input[p..]).Some? ==>
      0 < rules[i].matchAtStart(input[p..]).value <= |input| - p
  }

  /** The index of the first rule, in table order, that matches at offset 0. */
  function FirstMatch(rules: seq<Rule>, rest: string): (r: Option<nat>)
    ensures r.Some? ==> r.value < |rules| && rules[r.value].matchAtStart(rest).Some?
    ensures r.Some? ==> forall j :: 0 <= j < r.value ==> rules[j].matchAtStart(rest).None?
    ensures r.None? ==> forall j :: 0 <= j < |rules| ==> rules[j].matchAtStart(rest).None?
  {
    if |rules| == 0 then None
    else if rules[0].matchAtStart(rest).Some? then Some(0)
    else
      match FirstMatch(rules[1..], rest)
      case Some(i) => Some(i + 1)
      case None => None
  }

  /**
   * Kotlin `Char.isWhitespace()`: the ASCII controls \t \n \u000B \f \r,
   * the separators \u001C-\u001F, and the Unicode space, line and paragraph
   * separators (Zs, Zl, Zp).
   */
  predicate IsWhitespace(c: char) {
    var n := c as int;
    (0x09 <= n <= 0x0D) || (0x1C <= n <= 0x20) || n == 0xA0 || n == 0x1680 ||
    (0x2000 <= n <= 0x200A) || n == 0x2028 || n == 0x2029 || n == 0x202F ||
    n == 0x205F || n == 0x3000
  }

  /** The message of the `IllegalStateException` raised for an unmatched character. */
  function UnexpectedCharacter(position: int, c: char): string {
    "Unexpected character at position " + IntToString(position) + ": " + [c]
  }

  /** What one call of `getNextToken` does at cursor `pos`. */
  datatype Step = Emit(token: Token, next: nat) | Skip(next: nat) | Stop(message: string)

  function NextStep(input: string, rules: seq<Rule>, pos: nat): (s: Step)
    requires pos < |input| && RulesFit(rules, input)
    ensures s.Emit? ==>
      var t := s.token;
      && t.position.start == pos
      && pos < s.next <= |input|
      && t.position.end == s.next
      && t.value == input[pos..s.next]
      && FirstMatch(rules, input[pos..]).Some?
      && t.kind == rules[FirstMatch(rules, input[pos..]).value].token
      && |t.value| == rules[FirstMatch(rules, input[pos..]).value].matchAtStart(input[pos..]).value
    ensures s.Skip? <==> FirstMatch(rules, input[pos..]).None? && IsWhitespace(input[pos])
    ensures s.Skip? ==> s.next == pos + 1
    ensures s.Stop? <==> FirstMatch(rules, input[pos..]).None? && !IsWhitespace(input[pos])
    ensures s.Stop? ==> s.message == UnexpectedCharacter(pos, input[pos])
  {
    var rest := input[pos..];
    match FirstMatch(rules, rest)
    case Some(i) =>
      var len := rules[i].matchAtStart(rest).value;
      Emit(Token(rules[i].token, Position(pos, pos + len), rest[..len]), pos + len)
    case None =>
      if IsWhitespace(rest[0]) then Skip(pos + 1)
      else Stop(UnexpectedCharacter(pos, rest[0]))
  }

  /** `tokens` in front of the tokens of `r`, or `r`'s error. */
  function Prepend(tokens: seq<Token>, r: Result<seq<Token>>): Result<seq<Token>>
    ensures tokens == [] ==> Prepend(tokens, r) == r
  {
    match r
    case Ok(ts) =>
      assert tokens == [] ==> tokens + ts == ts;
      Ok(tokens + ts)
    case Err(m) => Err(m)
  }

  lemma PrependTwice(a: seq<Token>, b: seq<Token>, r: Result<seq<Token>>)
    ensures Prepend(a, Prepend(b, r)) == Prepend(a + b, r)
  {
    if r.Ok? {
      assert a + (b + r.value) == (a + b) + r.value;
    }
  }

  /** The whole of `tokenize`, started with the cursor at `pos`. */
  function Lex(input: string, rules: seq<Rule>, pos: nat): Result<seq<Token>>
    requires pos <= |input| && RulesFit(rules, input)
    decreases |input| - pos
  {
    if pos == |input| then Ok([])
    else
      match NextStep(input, rules, pos)
      case Emit(t, next) => Prepend([t], Lex(input, rules, next))
      case Skip(next) => Lex(input, rules, next)
      case Stop(m) => Err(m)
  }

  class Lexer {
    const input: string
    const rules: seq<Rule>
    var currentPosition: nat

    /** The cursor never passes the end of the line, and the table fits it. */
    predicate Valid()
      reads this
    {
      currentPosition <= |input| && RulesFit(rules, input)
    }

    constructor (input: string, rules: seq<Rule>)
      requires RulesFit(rules, input)
      ensures Valid()
      ensures this.input == input && this.rules == rules && currentPosition == 0
    {
      this.input := input;
      this.rules := rules;
      currentPosition := 0;
    }

    predicate HasNext()
      reads this
    {
      currentPosition < |input|
    }

    method Tokenize() returns (r: Result<seq<Token>>)
      requires Valid()
      modifies this
      ensures Valid()
      ensures r == Lex(input, rules, old(currentPosition))
      ensures r.Ok? ==> currentPosition == |input|
      ensures r.Err? ==> currentPosition < |input|
      ensures r.Err? ==> r.message == UnexpectedCharacter(currentPosition, input[currentPosition])
    {
      var tokens: seq<Token> := [];
      while HasNext()
        invariant Valid()
        invariant Lex(input, rules, old(currentPosition)) == Prepend(tokens, Lex(input, rules, currentPosition))
        decreases |input| - currentPosition
      {
        var next := GetNextToken();
        match next
        case Err(m) =>
          return Err(m);
        case Ok(Some(token)) =>
          PrependTwice(tokens, [token], Lex(input, rules, currentPosition));
          tokens := tokens + [token];
        case Ok(None) =>
      }
      assert tokens + [] == tokens;
      return Ok(tokens);
    }

    method GetNextToken() returns (r: Result<Option<Token>>)
      requires Valid() && HasNext()
      modifies this
      ensures Valid()
      ensures match NextStep(input, rules, old(currentPosition))
        case Emit(t, next) => r == Ok(Some(t)) && currentPosition == next
        case Skip(next) => r == Ok(None) && currentPosition == next
        case Stop(m) => r == Err(m) && currentPosition == old(currentPosition)
    {
      var remainingInput := input[currentPosition..];
      for i := 0 to |rules|
        invariant forall j :: 0 <= j < i ==> rules[j].matchAtStart(remainingInput).None?
      {
        var matchResult := rules[i].matchAtStart(remainingInput);
        if matchResult.Some? {
          var matchedValue := remainingInput[..matchResult.value];
          var token := CreateToken(matchedValue, rules[i]);
          currentPosition := currentPosition + |matchedValue|;
          return Ok(Some(token));
        }
      }
      if |remainingInput| > 0 && IsWhitespace(remainingInput[0]) {
        currentPosition := currentPosition + 1;
        return Ok(None);
      }
      return Err(UnexpectedCharacter(currentPosition, remainingInput[0]));
    }

    function CreateToken(matchedValue: string, rule: Rule): Token
      reads this
    {
      Token(rule.token, Position(currentPosition, currentPosition + |matchedValue|), matchedValue)
    }
  }

  /** A token exactly as the first matching rule at its start would emit it. */
  predicate EmittedAt(input: string, rules: seq<Rule>, t: Token)
    requires RulesFit(rules, input)
  {
    var p := t.position.start;
    && 0 <= p < t.position.end <= |input|
    && FirstMatch(rules, input[p..]).Some?
    && var i := FirstMatch(rules, input[p..]).value;
    && t.kind == rules[i].token
    && t.position.end - p == rules[i].matchAtStart(input[p..]).value
    && t.value == input[p..t.position.end]
  }

  /**
   * Every emitted token covers exactly the text of its span, comes from the
   * first rule matching there, lies after the starting cursor, and the
   * tokens follow one another without overlapping.
   */
  lemma {:induction false} LexTokensWellPlaced(input: string, rules: seq<Rule>, pos: nat)
    requires pos <= |input| && RulesFit(rules, input)
    requires Lex(input, rules, pos).Ok?
    ensures var ts := Lex(input, rules, pos).value;
      && (forall k :: 0 <= k < |ts| ==> pos <= ts[k].position.start && EmittedAt(input, rules, ts[k]))
      && (forall k :: 0 < k < |ts| ==> ts[k - 1].position.end <= ts[k].position.start)
    decreases |input| - pos
  {
    if pos < |input| {
      match NextStep(input, rules, pos)
      case Emit(t, next) =>
        LexTokensWellPlaced(input, rules, next);
      case Skip(next) =>
        LexTokensWellPlaced(input, rules, next);
      case Stop(m) =>
    }
  }

  /**
   * Nothing but whitespace is dropped: every position past the starting
   * cursor that no token covers holds a whitespace character that no rule
   * matches.
   */
  lemma {:induction false} LexSkipsOnlyWhitespace(input: string, rules: seq<Rule>, pos: nat, p: nat)
    requires pos <= p < |input| && RulesFit(rules, input)
    requires Lex(input, rules, pos).Ok?
    requires var ts := Lex(input, rules, pos).value;
      forall k :: 0 <= k < |ts| ==> !(ts[k].position.start <= p < ts[k].position.end)
    ensures IsWhitespace(input[p]) && FirstMatch(rules, input[p..]).None?
    decreases |input| - pos
  {
    match NextStep(input, rules, pos)
    case Emit(t, next) =>
      var ts := Lex(input, rules, next).value;
      assert Lex(input, rules, pos).value == [t] + ts;
      var all := Lex(input, rules, pos).value;
      assert all[0] == t;
      assert !(all[0].position.start <= p < all[0].position.end);
      forall k | 0 <= k < |ts|
        ensures !(ts[k].position.start <= p < ts[k].position.end)
      {
        assert Lex(input, rules, pos).value[k + 1] == ts[k];
      }
      LexSkipsOnlyWhitespace(input, rules, next, p);
    case Skip(next) =>
      if p > pos {
        LexSkipsOnlyWhitespace(input, rules, next, p);
      }
    case Stop(m) =>
  }

  /**
   * A failed line fails at a character no rule matches and that is not
   * whitespace, and the message names that position and character.
   */
  lemma {:induction false} LexErrorIsUnexpectedCharacter(input: string, rules: seq<Rule>, pos: nat)
    requires pos <= |input| && RulesFit(rules, input)
    requires Lex(input, rules, pos).Err?
    ensures exists p ::
      && pos <= p < |input|
      && !IsWhitespace(input[p])
      && FirstMatch(rules, input[p..]).None?
      && Lex(input, rules, pos).message == UnexpectedCharacter(p, input[p])
    decreases |input| - pos
  {
    match NextStep(input, rules, pos)
    case Emit(t, next) =>
      LexErrorIsUnexpectedCharacter(input, rules, next);
    case Skip(next) =>
      LexErrorIsUnexpectedCharacter(input, rules, next);
    case Stop(m) =>
  }

  /** Rules after the winning one are never consulted: replacing them changes nothing. */
  lemma {:induction false} LaterRulesIgnored(rules: seq<Rule>, others: seq<Rule>, rest: string)
    requires FirstMatch(rules, rest).Some?
    ensures var i := FirstMatch(rules, rest).value;
      FirstMatch(rules[..i + 1] + others, rest) == Some(i)
  {
    var i := FirstMatch(rules, rest).value;
    if i > 0 {
      assert rules[1..][..i] + others == (rules[..i + 1] + others)[1..];
      LaterRulesIgnored(rules[1..], others, rest);
    }
  }
}
