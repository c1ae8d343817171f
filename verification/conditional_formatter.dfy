/**
 * Pretty-printing of `if`/`else` blocks: the test, the consequent and the
 * optional alternate, each block's statements on their own lines behind a
 * configurable indentation, nested blocks indented once more per level.
 */
module ConditionalFormatting {
  import opened Common
  import opened Ast

  /** A configuration entry: a number, or a value of any other type. */
  datatype Setting = Number(value: int) | NotNumber

  type Config = map<string, Setting>

  const IndentationKey: string := "identationInsideConditionals"

  /**
   * The formatters of the other statement kinds, which are not part of this
   * model: call expressions and any other statement.
   */
  datatype Leaves = Leaves(call: (Node, Config) -> string, statement: (Node, Config) -> string)

  /** The number of indentation units: the configured number if it is at least 1, else 1. */
  function IndentationCount(config: Config): (count: int)
    ensures count >= 1
    ensures IndentationKey in config && config[IndentationKey].Number? && config[IndentationKey].value >= 1 ==>
      count == config[IndentationKey].value
    ensures !(IndentationKey in config && config[IndentationKey].Number? && config[IndentationKey].value >= 1) ==>
      count == 1
  {
    if IndentationKey in config && config[IndentationKey].Number? && config[IndentationKey].value >= 1
    then config[IndentationKey].value
    else 1
  }

  /** `s.repeat(n)` */
  function Repeat(s: string, n: nat): (r: string)
    ensures |r| == n * |s|
  {
    if n == 0 then "" else s + Repeat(s, n - 1)
  }

  /** `repeatIndentation`: four spaces per indentation unit. */
  function Indentation(config: Config): (ind: string)
    ensures |ind| == 4 * IndentationCount(config)
    ensures forall k :: 0 <= k < |ind| ==> ind[k] == ' '
  {
    AllSpaces(IndentationCount(config));
    Repeat("    ", IndentationCount(config))
  }

  lemma {:induction false} AllSpaces(n: nat)
    ensures forall k :: 0 <= k < |Repeat("    ", n)| ==> Repeat("    ", n)[k] == ' '
  {
    if n > 0 {
      AllSpaces(n - 1);
      var r := Repeat("    ", n);
      assert r == "    " + Repeat("    ", n - 1);
      forall k | 0 <= k < |r|
        ensures r[k] == ' '
      {
        if k >= 4 {
          assert r[k] == Repeat("    ", n - 1)[k - 4];
        }
      }
    }
  }

  /** The Kotlin types give every conditional an identifier as its test. */
  predicate Typed(n: Node)
    decreases n
  {
    n.ConditionalStatement? ==>
      && n.test.Identifier?
      && (forall k :: 0 <= k < |n.consequent| ==> Typed(n.consequent[k]))
      && (forall k :: 0 <= k < |n.alternate| ==> Typed(n.alternate[k]))
  }

  predicate AllTyped(stmts: seq<Node>) {
    forall k :: 0 <= k < |stmts| ==> Typed(stmts[k])
  }

  /** `prefix + it` for every line. */
  function Prefixed(lines: seq<string>, prefix: string): (r: seq<string>)
    ensures |r| == |lines|
    ensures forall k :: 0 <= k < |lines| ==> r[k] == prefix + lines[k]
  {
    seq(|lines|, k requires 0 <= k < |lines| => prefix + lines[k])
  }

  /** `split("\n").joinToString("\n") { prefix + it }`: every line of a text behind `prefix`. */
  function Indented(text: string, prefix: string): string {
    Join(Prefixed(Split(text, '\n'), prefix), "\n")
  }

  /** `contentFormatter` as a value: the entries of a block joined by line breaks. */
  function Content(stmts: seq<Node>, config: Config, leaves: Leaves): string
    requires AllTyped(stmts)
    decreases stmts, 1
  {
    if |stmts| == 0 then "" else Join(Entries(stmts, config, leaves), "\n")
  }

  function Entries(stmts: seq<Node>, config: Config, leaves: Leaves): (es: seq<string>)
    requires AllTyped(stmts)
    ensures |es| == |stmts|
    ensures forall k :: 0 <= k < |stmts| ==> es[k] == Entry(stmts[k], config, leaves)
    decreases stmts, 0
  {
    seq(|stmts|, k requires 0 <= k < |stmts| => Entry(stmts[k], config, leaves))
  }

  /** The text one statement of a block contributes. */
  function Entry(s: Node, config: Config, leaves: Leaves): string
    requires Typed(s)
    decreases s
  {
    var ind := Indentation(config);
    match s
    case ConditionalStatement(test, cons, alt, _, _) =>
      ind + "if(" + test.name + ") {\n" + Indented(Content(cons, config, leaves), ind) + "\n" +
      (if |alt| > 0 then ind + "} else {\n" + Indented(Content(alt, config, leaves), ind) + "\n" + ind + "}\n"
       else ind + "}")
    case ExpressionStatement(x, _, _) =>
      if x.CallExpression? then CallEntry(leaves.call(x, config), ind)
      else ind + leaves.statement(s, config)
    case _ => ind + leaves.statement(s, config)
  }

  /** A formatted call: every line behind the indentation, and ";" after the last. */
  function CallEntry(text: string, ind: string): string {
    Join(Prefixed(Split(text, '\n'), ind), "\n") + ";"
  }

  /**
   * `contentFormatter`: the entries are collected in a list, statement by
   * statement; a call's formatted lines are indented in place one by one.
   */
  method ContentFormatter(stmts: seq<Node>, config: Config, leaves: Leaves) returns (text: string)
    requires AllTyped(stmts)
    ensures text == Content(stmts, config, leaves)
    decreases stmts, 1
  {
    if |stmts| == 0 {
      return "";
    }
    var aux: seq<string> := [];
    for i := 0 to |stmts|
      invariant aux == Entries(stmts[..i], config, leaves)
    {
      var entry := FormatEntry(stmts[i], config, leaves);
      EntriesStep(stmts, i, config, leaves);
      aux := aux + [entry];
    }
    assert stmts[..|stmts|] == stmts;
    text := Join(aux, "\n");
  }

  /** One iteration of `contentFormatter`'s loop: the entry of one statement. */
  method FormatEntry(statement: Node, config: Config, leaves: Leaves) returns (entry: string)
    requires Typed(statement)
    ensures entry == Entry(statement, config, leaves)
    decreases statement
  {
    var ind := Indentation(config);
    match statement {
      case ConditionalStatement(test, cons, alt, _, _) =>
        var inner := ContentFormatter(cons, config, leaves);
        entry := ind + "if(" + test.name + ") {\n" + Indented(inner, ind) + "\n";
        if |alt| > 0 {
          var other := ContentFormatter(alt, config, leaves);
          entry := entry + (ind + "} else {\n" + Indented(other, ind) + "\n" + ind + "}\n");
        } else {
          entry := entry + (ind + "}");
        }
      case ExpressionStatement(x, _, _) =>
        if x.CallExpression? {
          entry := IndentCallLines(leaves.call(x, config), ind);
        } else {
          entry := ind + leaves.statement(statement, config);
        }
      case _ =>
        entry := ind + leaves.statement(statement, config);
    }
  }

  lemma EntriesStep(stmts: seq<Node>, i: nat, config: Config, leaves: Leaves)
    requires AllTyped(stmts) && i < |stmts|
    ensures Entries(stmts[..i + 1], config, leaves) ==
      Entries(stmts[..i], config, leaves) + [Entry(stmts[i], config, leaves)]
  {
    var next := Entries(stmts[..i + 1], config, leaves);
    assert forall k :: 0 <= k < i ==> next[k] == Entry(stmts[..i][k], config, leaves);
  }

  /**
   * The call branch of `contentFormatter`: the call's formatted text is cut
   * into a list of lines, each line is overwritten in place by itself behind
   * the indentation, and the lines are joined again with ";" at the end.
   */
  method IndentCallLines(text: string, ind: string) returns (entry: string)
    ensures entry == CallEntry(text, ind)
  {
    var lines := Split(text, '\n');
    var aux2 := new string[|lines|](k requires 0 <= k < |lines| => lines[k]);
    for index := 0 to aux2.Length
      invariant aux2[..index] == Prefixed(lines[..index], ind)
      invariant aux2[index..] == lines[index..]
    {
      aux2[index] := ind + aux2[index];
      assert aux2[..index + 1] == aux2[..index] + [ind + lines[index]];
    }
    assert lines[..aux2.Length] == lines;
    assert aux2[..] == aux2[..aux2.Length];
    entry := Join(aux2[..], "\n") + ";";
  }

  /**
   * `format`: a conditional statement as "if(test) {", its consequent
   * block, then either "} else {", the alternate block, a line break and
   * "}" with a final line break, or just "}". Any other node fails the
   * cast (`None`).
   */
  function Format(node: Node, config: Config, leaves: Leaves): (r: Option<string>)
    requires Typed(node)
    ensures !node.ConditionalStatement? <==> r.None?
    ensures node.ConditionalStatement? ==>
      var head := "if(" + node.test.name + ") {\n" + Content(node.consequent, config, leaves);
      && |r.value| >= |head|
      && r.value[..|head|] == head
      && (|node.alternate| == 0 ==> r.value == head + "}")
      && (|node.alternate| > 0 ==> r.value[|head|..] == "} else {\n" + Content(node.alternate, config, leaves) + "\n}\n")
  {
    match node
    case ConditionalStatement(test, cons, alt, _, _) =>
      var head := "if(" + test.name + ") {\n" + Content(cons, config, leaves);
      var tail :=
        if |alt| > 0 then "} else {\n" + Content(alt, config, leaves) + "\n" + "}\n"
        else "}";
      assert (head + tail)[..|head|] == head && (head + tail)[|head|..] == tail;
      Some(head + tail)
    case _ => None
  }

  /** An empty block formats to nothing. */
  lemma EmptyContent(config: Config, leaves: Leaves)
    ensures Content([], config, leaves) == ""
  {
  }

  /**
   * Block entries free of line breaks come back, split on "\n", one per
   * statement; so a block of plain statements whose formatted texts are
   * single lines gives exactly one indented line each.
   */
  lemma {:induction false} ContentLines(stmts: seq<Node>, config: Config, leaves: Leaves)
    requires |stmts| > 0 && AllTyped(stmts)
    requires forall k :: 0 <= k < |stmts| ==> !stmts[k].ConditionalStatement? && !IsCallStatement(stmts[k])
    requires forall k :: 0 <= k < |stmts| ==> '\n' !in leaves.statement(stmts[k], config)
    ensures Split(Content(stmts, config, leaves), '\n') ==
      Prefixed(seq(|stmts|, k requires 0 <= k < |stmts| => leaves.statement(stmts[k], config)), Indentation(config))
  {
    var ind := Indentation(config);
    var es := Entries(stmts, config, leaves);
    var texts := seq(|stmts|, k requires 0 <= k < |stmts| => leaves.statement(stmts[k], config));
    forall k | 0 <= k < |stmts|
      ensures es[k] == ind + texts[k] && '\n' !in es[k]
    {
      NoBreakInIndentation(config);
      assert es[k] == Entry(stmts[k], config, leaves);
    }
    assert es == Prefixed(texts, ind);
    SplitJoin(es, '\n');
  }

  predicate IsCallStatement(s: Node) {
    s.ExpressionStatement? && s.expression.CallExpression?
  }

  lemma NoBreakInIndentation(config: Config)
    ensures '\n' !in Indentation(config)
  {
  }

  /**
   * A formatted call statement: split on "\n", its lines are the call's
   * lines, each behind the indentation, with ";" after the last one only.
   */
  lemma CallLines(s: Node, config: Config, leaves: Leaves)
    requires IsCallStatement(s)
    ensures var lines := Split(leaves.call(s.expression, config), '\n');
      var ind := Indentation(config);
      var out := Split(Entry(s, config, leaves), '\n');
      && |out| == |lines|
      && (forall k :: 0 <= k < |lines| - 1 ==> out[k] == ind + lines[k])
      && out[|lines| - 1] == ind + lines[|lines| - 1] + ";"
  {
    var lines := Split(leaves.call(s.expression, config), '\n');
    var ind := Indentation(config);
    NoBreakInIndentation(config);
    var ps := Prefixed(lines, ind);
    var n := |ps|;
    var closed := ps[..n - 1] + [ps[n - 1] + ";"];
    JoinLast(ps, "\n", ";");
    forall k | 0 <= k < n
      ensures '\n' !in closed[k]
    {
      if k < n - 1 {
        assert closed[k] == ps[k];
      }
    }
    SplitJoin(closed, '\n');
  }

  /** Appending to a joined text appends to its last part. */
  lemma {:induction false} JoinLast(parts: seq<string>, sep: string, tail: string)
    requires |parts| >= 1
    ensures Join(parts, sep) + tail == Join(parts[..|parts| - 1] + [parts[|parts| - 1] + tail], sep)
    decreases |parts|
  {
    if |parts| > 1 {
      var rest := parts[1..];
      JoinLast(rest, sep, tail);
      var closedRest := rest[..|rest| - 1] + [rest[|rest| - 1] + tail];
      var closed := parts[..|parts| - 1] + [parts[|parts| - 1] + tail];
      assert closed == [parts[0]] + closedRest;
      assert closed[1..] == closedRest;
      assert Join(closed, sep) == parts[0] + sep + Join(closedRest, sep);
      assert Join(parts, sep) == parts[0] + sep + Join(rest, sep);
    }
  }

  /**
   * Nested indentation: split on "\n", a block indented once more has
   * exactly the block's lines, each behind one more indentation.
   */
  lemma IndentedLines(text: string, prefix: string)
    requires '\n' !in prefix
    ensures Split(Indented(text, prefix), '\n') == Prefixed(Split(text, '\n'), prefix)
  {
    var ps := Prefixed(Split(text, '\n'), prefix);
    SplitJoin(ps, '\n');
  }
}
