/**
 * The older variable-declaration builder: it checks the shape of a
 * `let`/`const` line, cuts the tokens between the keyword and the final
 * semicolon at the commas, has each piece built into a declarator, keeps
 * the declarators in a field and finally builds the declaration node.
 *
 * Two versions of `verify` are modelled: `Verify`, as the code reads, whose
 * start test holds for every token kind so that it never accepts a line,
 * and `VerifyIntended`, which tests the start with "and", builds from the
 * remaining tokens rather than the whole line, builds the piece after the
 * last comma too, and starts from an empty list.
 */
module LegacyDeclaration {
  import opened Common
  import Ast

  /**
   * `VariableDeclaratorBuilder(tokens).build()`: a declarator, or null. The
   * declarator builder is not part of this model.
   */
  type DeclaratorBuilder = seq<Ast.Token> -> Option<Ast.Node>

  /** Kotlin's messages for `first()` on an empty list and for an unassigned `lateinit`. */
  const EmptyList: string := "List is empty."
  const Uninitialized: string := "lateinit property variableDeclarators has not been initialized"

  predicate IsComma(t: Ast.Token) {
    t.kind == "COMMA"
  }

  /** `count { it.type == "COMMA" }` */
  function CommaCount(ts: seq<Ast.Token>): (n: nat)
    ensures n <= |ts|
    decreases |ts|
  {
    if |ts| == 0 then 0 else (if IsComma(ts[0]) then 1 else 0) + CommaCount(ts[1..])
  }

  /** `indexOfFirst { it.type == "COMMA" }`: the first comma's place, or -1. */
  function FirstComma(ts: seq<Ast.Token>): (i: int)
    ensures -1 <= i < |ts|
    ensures i == -1 <==> CommaCount(ts) == 0
    ensures i >= 0 ==> IsComma(ts[i]) && forall j :: 0 <= j < i ==> !IsComma(ts[j])
    decreases |ts|
  {
    if |ts| == 0 then -1
    else if IsComma(ts[0]) then 0
    else
      var i := FirstComma(ts[1..]);
      assert forall k :: 1 <= k < |ts| ==> ts[k] == ts[1..][k - 1];
      if i == -1 then -1 else i + 1
  }

  /** The start test as written: "not LET or not CONST". */
  predicate StartRejected(kind: string) {
    kind != "LET" || kind != "CONST"
  }

  /** The start test as intended: neither LET nor CONST. */
  predicate StartRejectedIntended(kind: string) {
    kind != "LET" && kind != "CONST"
  }

  /** No token kind is both "LET" and "CONST", so the written test rejects every start. */
  lemma EveryStartRejected(kind: string)
    ensures StartRejected(kind)
    ensures StartRejectedIntended(kind) <==> kind != "LET" && kind != "CONST"
  {
    assert "LET"[0] != "CONST"[0];
  }

  /** A line the intended checks accept: keyword first, semicolon last. */
  predicate WellShaped(tokens: seq<Ast.Token>) {
    && |tokens| >= 2
    && !StartRejectedIntended(tokens[0].kind)
    && tokens[|tokens| - 1].kind == "SEMICOLON"
  }

  /** The tokens strictly between the keyword and the semicolon. */
  function Body(tokens: seq<Ast.Token>): seq<Ast.Token>
    requires |tokens| >= 2
  {
    tokens[1..|tokens| - 1]
  }

  /** The pieces between commas, empty ones included: one per declarator. */
  function Segments(ts: seq<Ast.Token>): (segs: seq<seq<Ast.Token>>)
    ensures |segs| == CommaCount(ts) + 1
    decreases |ts|
  {
    if |ts| == 0 then [[]]
    else
      var rest := Segments(ts[1..]);
      if IsComma(ts[0]) then [[]] + rest
      else [[ts[0]] + rest[0]] + rest[1..]
  }

  /** A run without commas is one piece. */
  lemma {:induction false} SegmentsNoComma(ts: seq<Ast.Token>)
    requires CommaCount(ts) == 0
    ensures Segments(ts) == [ts]
    decreases |ts|
  {
    if |ts| > 0 {
      assert forall k :: 0 <= k < |ts[1..]| ==> ts[1..][k] == ts[k + 1];
      SegmentsNoComma(ts[1..]);
      assert [ts[0]] + ts[1..] == ts;
    }
  }

  /** The first piece is everything before the first comma. */
  lemma {:induction false} SegmentsAtComma(ts: seq<Ast.Token>)
    requires CommaCount(ts) > 0
    ensures var c := FirstComma(ts);
      Segments(ts) == [ts[..c]] + Segments(ts[c + 1..])
    decreases |ts|
  {
    if !IsComma(ts[0]) {
      var c := FirstComma(ts);
      SegmentsAtComma(ts[1..]);
      assert FirstComma(ts[1..]) == c - 1;
      assert ts[1..][c..] == ts[c + 1..];
      assert [ts[0]] + ts[1..][..c - 1] == ts[..c];
    }
  }

  /**
   * Pieces and commas put back together give the run back: a comma-free
   * piece, a comma and the rest cut into that piece followed by the rest's
   * pieces.
   */
  lemma {:induction false} SegmentsJoin(a: seq<Ast.Token>, comma: Ast.Token, b: seq<Ast.Token>)
    requires CommaCount(a) == 0 && IsComma(comma)
    ensures Segments(a + [comma] + b) == [a] + Segments(b)
  {
    var ts := a + [comma] + b;
    assert ts == a + ([comma] + b);
    FirstCommaAfter(a, [comma] + b);
    SegmentsAtComma(ts);
    assert ts[..|a|] == a && ts[|a| + 1..] == b;
  }

  /**
   * The declarators of the leading pieces that build, up to the first one
   * that does not.
   */
  function Built(segs: seq<seq<Ast.Token>>, declare: DeclaratorBuilder): (ds: seq<Ast.Node>)
    ensures |ds| <= |segs|
    ensures forall k :: 0 <= k < |ds| ==> declare(segs[k]) == Some(ds[k])
    ensures |ds| < |segs| ==> declare(segs[|ds|]).None?
    decreases |segs|
  {
    if |segs| == 0 || declare(segs[0]).None? then []
    else
      var rest := Built(segs[1..], declare);
      assert forall k :: 0 <= k < |rest| ==> segs[1..][k] == segs[k + 1];
      [declare(segs[0]).value] + rest
  }

  /** Every piece builds. */
  predicate AllBuild(segs: seq<seq<Ast.Token>>, declare: DeclaratorBuilder) {
    forall k :: 0 <= k < |segs| ==> declare(segs[k]).Some?
  }

  /** The line is accepted by the intended `verify`. */
  predicate Accepted(tokens: seq<Ast.Token>, declare: DeclaratorBuilder) {
    WellShaped(tokens) && AllBuild(Segments(Body(tokens)), declare)
  }

  /** `+=` on the declarator list, read as if it started empty. */
  function Prior(list: Option<seq<Ast.Node>>): seq<Ast.Node> {
    if list.Some? then list.value else []
  }

  /** The pieces before place `i` all build. */
  predicate BuildsBelow(segs: seq<seq<Ast.Token>>, i: nat, declare: DeclaratorBuilder) {
    forall k :: 0 <= k < i && k < |segs| ==> declare(segs[k]).Some?
  }

  /** Leading pieces that all build give one declarator each. */
  lemma {:induction false} BuiltPrefix(segs: seq<seq<Ast.Token>>, i: nat, declare: DeclaratorBuilder)
    requires i < |segs| && BuildsBelow(segs, i, declare) && declare(segs[i]).Some?
    ensures Built(segs[..i + 1], declare) == Built(segs[..i], declare) + [declare(segs[i]).value]
    decreases i
  {
    if i > 0 {
      assert forall k :: 0 <= k < |segs| - 1 ==> segs[1..][k] == segs[k + 1];
      BuiltPrefix(segs[1..], i - 1, declare);
      assert segs[1..][..i] == segs[..i + 1][1..];
      assert segs[1..][..i - 1] == segs[..i][1..];
      assert segs[..i][0] == segs[0];
    }
  }

  /** All pieces build exactly when the built list has one declarator per piece. */
  lemma BuiltAll(segs: seq<seq<Ast.Token>>, declare: DeclaratorBuilder)
    ensures AllBuild(segs, declare) <==> |Built(segs, declare)| == |segs|
  {
  }

  /**
   * As written, the loop hands the declarator builder the first tokens of
   * the WHOLE line, up to the place of the next comma in the remaining
   * tokens, once per comma, and never the piece after the last comma.
   */
  function AsWrittenPieces(tokens: seq<Ast.Token>, rest: seq<Ast.Token>, k: nat): seq<seq<Ast.Token>>
    requires CommaCount(rest) >= k && |rest| <= |tokens|
    decreases k
  {
    if k == 0 then []
    else
      var c := FirstComma(rest);
      CommaCountAfter(rest);
      [tokens[..c]] + AsWrittenPieces(tokens, rest[c + 1..], k - 1)
  }

  lemma {:induction false} CommaCountAfter(rest: seq<Ast.Token>)
    requires CommaCount(rest) > 0
    ensures CommaCount(rest[FirstComma(rest) + 1..]) == CommaCount(rest) - 1
  {
    SegmentsAtComma(rest);
  }

  /**
   * On a line `kw a , b semi` with comma-free declarator tokens `a` and `b`
   * (say `let a:number, b:number;`), the loop as written asks for a single
   * declarator, from the keyword and all of `a` but its last token
   * (`let a :`), where the intended pieces are `a` and `b`.
   */
  lemma AsWrittenPiecesDiffer(kw: Ast.Token, a: seq<Ast.Token>, comma: Ast.Token, b: seq<Ast.Token>, semi: Ast.Token)
    requires |a| > 0 && CommaCount(a) == 0 && IsComma(comma) && CommaCount(b) == 0
    ensures var tokens := [kw] + a + [comma] + b + [semi];
      && CommaCount(Body(tokens)) == 1
      && AsWrittenPieces(tokens, Body(tokens), 1) == [[kw] + a[..|a| - 1]]
      && Segments(Body(tokens)) == [a, b]
  {
    var tokens := [kw] + a + [comma] + b + [semi];
    var body := Body(tokens);
    assert body == a + [comma] + b;
    SegmentsJoin(a, comma, b);
    SegmentsNoComma(b);
    CommaSum(a, [comma] + b);
    CommaSum([comma], b);
    assert a + [comma] + b == a + ([comma] + b);
    FirstCommaAfter(a, [comma] + b);
    assert tokens[..|a|] == [kw] + a[..|a| - 1];
  }

  /** Behind a comma-free run, the first comma is found past it. */
  lemma {:induction false} FirstCommaAfter(a: seq<Ast.Token>, b: seq<Ast.Token>)
    requires CommaCount(a) == 0 && |b| > 0 && IsComma(b[0])
    ensures FirstComma(a + b) == |a|
    decreases |a|
  {
    if |a| > 0 {
      assert a[0] == (a + b)[0];
      assert (a + b)[1..] == a[1..] + b;
      assert forall k :: 0 <= k < |a[1..]| ==> a[1..][k] == a[k + 1];
      FirstCommaAfter(a[1..], b);
    }
  }

  lemma {:induction false} CommaSum(a: seq<Ast.Token>, b: seq<Ast.Token>)
    ensures CommaCount(a + b) == CommaCount(a) + CommaCount(b)
    decreases |a|
  {
    if |a| > 0 {
      CommaSum(a[1..], b);
      assert (a + b)[0] == a[0];
      assert (a + b)[1..] == a[1..] + b;
    } else {
      assert a + b == b;
    }
  }

  /** The keyword and the semicolon are not commas, so only the body's commas count. */
  lemma BodyCommas(tokens: seq<Ast.Token>)
    requires WellShaped(tokens)
    ensures CommaCount(tokens) == CommaCount(Body(tokens))
  {
    assert tokens == [tokens[0]] + Body(tokens) + [tokens[|tokens| - 1]];
    CommaSum([tokens[0]] + Body(tokens), [tokens[|tokens| - 1]]);
    CommaSum([tokens[0]], Body(tokens));
  }

  /**
   * The declaration node `build` makes: the keyword's kind, the collected
   * declarators, from the keyword's start to the semicolon's end.
   */
  function Declaration(tokens: seq<Ast.Token>, ds: seq<Ast.Node>): Ast.Node
    requires |tokens| > 0
  {
    Ast.VariableDeclaration(tokens[0].kind, ds, tokens[0].position.start, tokens[|tokens| - 1].position.end)
  }

  /**
   * A line the intended `verify` accepts declares with its keyword one
   * declarator per comma-separated piece, in order, spanning the whole line.
   */
  lemma AcceptedDeclaration(tokens: seq<Ast.Token>, declare: DeclaratorBuilder)
    requires Accepted(tokens, declare)
    ensures var segs := Segments(Body(tokens));
      var d := Declaration(tokens, Built(segs, declare));
      && (d.declKind == "LET" || d.declKind == "CONST")
      && |d.declarations| == CommaCount(tokens) + 1
      && (forall k :: 0 <= k < |segs| ==> declare(segs[k]) == Some(d.declarations[k]))
      && d.start == tokens[0].position.start && d.end == tokens[|tokens| - 1].position.end
  {
    BodyCommas(tokens);
  }

  class VariableDeclarationBuilder {
    const tokens: seq<Ast.Token>
    /** The `lateinit` list: `None` until it is first assigned. */
    var declarators: Option<seq<Ast.Node>>

    constructor(tokens: seq<Ast.Token>)
      ensures this.tokens == tokens && declarators == None
    {
      this.tokens := tokens;
      declarators := None;
    }

    /**
     * `verify` as written: an empty line is rejected, and then the start
     * test rejects every line, so nothing past it runs and the list is left
     * as it was.
     */
    method Verify(declare: DeclaratorBuilder) returns (ok: bool)
      modifies this
      ensures !ok
      ensures declarators == old(declarators)
    {
      if |tokens| == 0 {
        return false;
      }
      if StartRejected(tokens[0].kind) {
        return false;
      }
      assert false;
    }

    /**
     * `verify` as intended: the shape checks, then one declarator per piece
     * between commas, collected in the list, stopping at the first piece
     * that does not build.
     */
    method VerifyIntended(declare: DeclaratorBuilder) returns (ok: bool)
      modifies this
      ensures ok <==> Accepted(tokens, declare)
      ensures !WellShaped(tokens) ==> declarators == old(declarators)
      ensures WellShaped(tokens) ==>
        declarators == Some(Prior(old(declarators)) + Built(Segments(Body(tokens)), declare))
    {
      if |tokens| == 0 {
        return false;
      }
      if StartRejectedIntended(tokens[0].kind) {
        return false;
      }
      if tokens[|tokens| - 1].kind != "SEMICOLON" {
        return false;
      }
      if |tokens| == 1 {
        // A lone keyword is not also a semicolon.
        return false;
      }
      var body := Body(tokens);
      ghost var segs := Segments(body);
      ghost var prior := Prior(declarators);
      var commaCount := CommaCount(tokens);
      BodyCommas(tokens);
      assert Segments(Body(tokens)) == segs;
      // The list as if it had been initialised empty.
      declarators := Some(Prior(declarators));
      if commaCount == 0 {
        SegmentsNoComma(body);
        var d := declare(body);
        if d.None? {
          BuiltStops(segs, 0, declare);
          assert segs[..0] == [];
          assert Built(segs, declare) == [] && prior + [] == prior;
          return false;
        }
        OnePiece(segs, declare);
        declarators := Some(declarators.value + [d.value]);
        return true;
      }
      ok := CollectAtCommas(body, commaCount, declare);
    }

    /**
     * `verify` once the line has commas: the pieces before the commas, then
     * the piece after the last comma.
     */
    method CollectAtCommas(body: seq<Ast.Token>, commaCount: nat, declare: DeclaratorBuilder) returns (ok: bool)
      modifies this
      requires declarators.Some? && commaCount == CommaCount(body) && commaCount > 0
      ensures ok <==> AllBuild(Segments(body), declare)
      ensures declarators == Some(old(declarators).value + Built(Segments(body), declare))
    {
      ghost var segs := Segments(body);
      ghost var prior := declarators.value;
      var tokensAux;
      ok, tokensAux := CollectLeading(body, commaCount, declare);
      if !ok {
        return false;
      }
      ghost var built := Built(segs[..commaCount], declare);
      assert segs[commaCount] == tokensAux by {
        SegmentsNoComma(tokensAux);
      }
      var d := declare(tokensAux);
      if d.None? {
        BuiltStops(segs, commaCount, declare);
        return false;
      }
      assert Built(segs, declare) == built + [d.value] by {
        BuiltPrefix(segs, commaCount, declare);
        assert segs[..commaCount + 1] == segs;
      }
      declarators := Some(declarators.value + [d.value]);
      assert prior + built + [d.value] == prior + (built + [d.value]);
      return true;
    }

    /**
     * The counted loop of `verify`: once per comma, the tokens before the
     * next comma are built and dropped together with the comma. What is
     * left is the piece after the last comma.
     */
    method CollectLeading(body: seq<Ast.Token>, commaCount: nat, declare: DeclaratorBuilder)
      returns (ok: bool, tokensAux: seq<Ast.Token>)
      modifies this
      requires declarators.Some? && commaCount == CommaCount(body) && commaCount > 0
      ensures var segs := Segments(body);
        ok ==> && BuildsBelow(segs, commaCount, declare)
               && CommaCount(tokensAux) == 0 && Segments(tokensAux) == segs[commaCount..]
               && declarators == Some(old(declarators).value + Built(segs[..commaCount], declare))
      ensures var segs := Segments(body);
        !ok ==> && !AllBuild(segs, declare)
                && declarators == Some(old(declarators).value + Built(segs, declare))
    {
      ghost var segs := Segments(body);
      ghost var prior := declarators.value;
      tokensAux := body;
      ghost var built: seq<Ast.Node> := [];
      assert segs[..0] == [] && prior + [] == prior && segs[0..] == segs;
      for i := 0 to commaCount
        invariant CommaCount(tokensAux) == commaCount - i
        invariant Segments(tokensAux) == segs[i..]
        invariant BuildsBelow(segs, i, declare)
        invariant built == Built(segs[..i], declare)
        invariant declarators == Some(prior + built)
      {
        var commaIndex := FirstComma(tokensAux);
        PieceStep(segs, i, tokensAux);
        var d := declare(tokensAux[..commaIndex]);
        if d.None? {
          BuiltStops(segs, i, declare);
          return false, tokensAux;
        }
        BuiltPrefix(segs, i, declare);
        declarators := Some(declarators.value + [d.value]);
        assert prior + built + [d.value] == prior + (built + [d.value]);
        built := built + [d.value];
        tokensAux := tokensAux[commaIndex + 1..];
      }
      ok := true;
    }

    /**
     * `build`: the declaration node; an empty line fails at `first()` and
     * an unassigned list fails when it is read.
     */
    function Build(): (r: Result<Ast.Node>)
      reads this
      ensures r.Ok? <==> |tokens| > 0 && declarators.Some?
      ensures |tokens| == 0 ==> r == Err(EmptyList)
      ensures |tokens| > 0 && declarators.None? ==> r == Err(Uninitialized)
      ensures r.Ok? ==>
        && r.value.VariableDeclaration?
        && r.value.declarations == declarators.value
        && r.value.declKind == tokens[0].kind
        && r.value.start == tokens[0].position.start
        && r.value.end == tokens[|tokens| - 1].position.end
    {
      if |tokens| == 0 then Err(EmptyList)
      else if declarators.None? then Err(Uninitialized)
      else Ok(Declaration(tokens, declarators.value))
    }
  }

  /** A piece that does not build ends the list at the pieces before it. */
  lemma {:induction false} BuiltStops(segs: seq<seq<Ast.Token>>, i: nat, declare: DeclaratorBuilder)
    requires i < |segs| && BuildsBelow(segs, i, declare) && declare(segs[i]).None?
    ensures Built(segs, declare) == Built(segs[..i], declare)
    ensures !AllBuild(segs, declare)
    decreases i
  {
    if i > 0 {
      assert forall k :: 0 <= k < |segs| - 1 ==> segs[1..][k] == segs[k + 1];
      BuiltStops(segs[1..], i - 1, declare);
      assert segs[1..][..i - 1] == segs[..i][1..];
      assert segs[..i][0] == segs[0];
    }
  }

  /** A single piece gives a single declarator. */
  lemma OnePiece(segs: seq<seq<Ast.Token>>, declare: DeclaratorBuilder)
    requires |segs| == 1 && declare(segs[0]).Some?
    ensures Built(segs, declare) == [declare(segs[0]).value]
    ensures AllBuild(segs, declare)
  {
    assert segs[1..] == [];
  }

  /**
   * One turn of the comma loop: the next piece is what comes before the
   * remaining tokens' first comma, and the rest of the pieces are those of
   * what follows it.
   */
  lemma PieceStep(segs: seq<seq<Ast.Token>>, i: nat, aux: seq<Ast.Token>)
    requires CommaCount(aux) > 0 && i < |segs| && Segments(aux) == segs[i..]
    ensures var c := FirstComma(aux);
      && segs[i] == aux[..c]
      && Segments(aux[c + 1..]) == segs[i + 1..]
      && CommaCount(aux[c + 1..]) == CommaCount(aux) - 1
  {
    var c := FirstComma(aux);
    SegmentsAtComma(aux);
    CommaCountAfter(aux);
    var rest := Segments(aux[c + 1..]);
    assert segs[i..] == [aux[..c]] + rest;
    assert segs[i..][0] == segs[i];
    assert segs[i..][1..] == segs[i + 1..];
  }
}
