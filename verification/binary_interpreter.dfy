/**
 * Evaluation of binary-expression trees: operands are literals, nested
 * binary expressions or variables, and the operator decides by the operand
 * types whether to add, concatenate, subtract, multiply, divide or fail.
 */
module BinaryInterpreter {
  import opened Common
  import opened Ast
  import Parsing

  /** A runtime value: a decimal number, a string or a boolean. */
  datatype Value = Num(number: real) | Str(text: string) | Bool(flag: bool)

  /**
   * What evaluation relies on but that is not part of this model: the
   * identifier interpreter over the (read-only) variable map, decimal
   * division with its scale and rounding, and the decimal rendering of a
   * number.
   */
  datatype Host = Host(
    lookup: string -> Result<Value>,
    divide: (real, real) -> Result<real>,
    showNumber: real -> string)

  const NotBinary: string := "Node must be an BinaryExpression"
  /** The left and the right operand report an invalid kind differently. */
  const InvalidLeft: string := "Invalid expression"
  const InvalidRight: string := "Invalid expression "

  /** `toString()` of a runtime value. */
  function Show(host: Host, v: Value): string {
    match v
    case Num(x) => host.showNumber(x)
    case Str(s) => s
    case Bool(b) => if b then "true" else "false"
  }

  function InvalidOperands(host: Host, op: string, l: Value, r: Value): string {
    "Invalid operands for '" + op + "': " + Show(host, l) + ", " + Show(host, r)
  }

  function InvalidOperator(op: string): string {
    "Invalid operator: " + op
  }

  /** The node kinds an operand may be. */
  predicate IsOperand(n: Node) {
    n.NumberLiteral? || n.StringLiteral? || n.BinaryExpression? || n.Identifier?
  }

  /**
   * `interpret`: only a binary expression is accepted; its left operand is
   * evaluated first, then its right one, then the operation is applied.
   */
  function Interpret(host: Host, node: Node): (r: Result<Value>)
    ensures !node.BinaryExpression? ==> r == Err(NotBinary)
    ensures node.BinaryExpression? && Operand(host, node.left, InvalidLeft).Err? ==>
      r == Operand(host, node.left, InvalidLeft)
    ensures node.BinaryExpression? && Operand(host, node.left, InvalidLeft).Ok? ==>
      (Operand(host, node.right, InvalidRight).Err? ==> r == Operand(host, node.right, InvalidRight))
    decreases node, 0
  {
    if !node.BinaryExpression? then Err(NotBinary)
    else
      match Operand(host, node.left, InvalidLeft)
      case Err(m) => Err(m)
      case Ok(l) =>
        match Operand(host, node.right, InvalidRight)
        case Err(m) => Err(m)
        case Ok(r) => HandleOperation(host, l, r, node.operator)
  }

  /** The value of one operand; `invalid` is the message for any other kind. */
  function Operand(host: Host, operand: Node, invalid: string): (r: Result<Value>)
    ensures !IsOperand(operand) ==> r == Err(invalid)
    ensures operand.NumberLiteral? ==> r == Ok(Num(operand.number))
    ensures operand.StringLiteral? ==> r == Ok(Str(operand.text))
    decreases operand, 1
  {
    match operand
    case NumberLiteral(x, _, _) => Ok(Num(x))
    case StringLiteral(s, _, _) => Ok(Str(s))
    case BinaryExpression(_, _, _, _, _) => Interpret(host, operand)
    case Identifier(name, _, _) => host.lookup(name)
    case _ => Err(invalid)
  }

  /** Exact multiplication of two decimals (kept as a named term for the solver). */
  function Times(x: real, y: real): real
  {
    x * y
  }

  /**
   * `handleOperation`: `+` joins two strings, adds two numbers exactly and
   * joins the renderings of a number and a string in operand order; `-` and
   * `*` are exact on numbers; `/` is the host's division; anything else is
   * an error naming the operands or the operator.
   */
  function HandleOperation(host: Host, l: Value, r: Value, op: string): (res: Result<Value>)
    ensures op == "+" && l.Num? && r.Num? ==> res == Ok(Num(l.number + r.number))
    ensures op == "+" && (l.Str? || r.Str?) && !l.Bool? && !r.Bool? ==> res == Ok(Str(Show(host, l) + Show(host, r)))
    ensures op == "+" && (l.Bool? || r.Bool?) ==> res == Err(InvalidOperands(host, op, l, r))
    ensures op == "-" && l.Num? && r.Num? ==> res == Ok(Num(l.number - r.number))
    ensures op == "*" && l.Num? && r.Num? ==> res == Ok(Num(Times(l.number, r.number)))
    ensures (op == "-" || op == "*" || op == "/") && !(l.Num? && r.Num?) ==>
      res == Err(InvalidOperands(host, op, l, r))
    ensures op != "+" && op != "-" && op != "*" && op != "/" ==> res == Err(InvalidOperator(op))
  {
    if op == "+" then
      if l.Str? && r.Str? then Ok(Str(l.text + r.text))
      else if l.Num? && r.Num? then Ok(Num(l.number + r.number))
      else if (l.Num? && r.Str?) || (l.Str? && r.Num?) then Ok(Str(Show(host, l) + Show(host, r)))
      else Err(InvalidOperands(host, op, l, r))
    else if op == "-" || op == "*" || op == "/" then
      if l.Num? && r.Num? then
        if op == "-" then Ok(Num(l.number - r.number))
        else if op == "*" then Ok(Num(Times(l.number, r.number)))
        else
          match host.divide(l.number, r.number)
          case Ok(q) => Ok(Num(q))
          case Err(m) => Err(m)
      else Err(InvalidOperands(host, op, l, r))
    else Err(InvalidOperator(op))
  }

  /** A tree of number literals joined by `+`, `-` and `*`. */
  predicate Arithmetic(n: Node)
    decreases n
  {
    match n
    case NumberLiteral(_, _, _) => true
    case BinaryExpression(l, r, op, _, _) =>
      (op == "+" || op == "-" || op == "*") && Arithmetic(l) && Arithmetic(r)
    case _ => false
  }

  /** The textbook value of an arithmetic tree, independent of the interpreter. */
  function Denote(n: Node): real
    requires Arithmetic(n)
    decreases n
  {
    match n
    case NumberLiteral(x, _, _) => x
    case BinaryExpression(l, r, op, _, _) =>
      if op == "+" then Denote(l) + Denote(r)
      else if op == "-" then Denote(l) - Denote(r)
      else Times(Denote(l), Denote(r))
  }

  /**
   * An arithmetic tree evaluates exactly to its textbook value, whatever
   * the host: addition, subtraction and multiplication are exact.
   */
  lemma {:induction false} ArithmeticExact(host: Host, n: Node)
    requires Arithmetic(n) && n.BinaryExpression?
    ensures Interpret(host, n) == Ok(Num(Denote(n)))
    decreases n, 0
  {
    OperandExact(host, n.left, InvalidLeft);
    OperandExact(host, n.right, InvalidRight);
    var l, r, op := Denote(n.left), Denote(n.right), n.operator;
    assert Interpret(host, n) == HandleOperation(host, Num(l), Num(r), op);
    if op == "+" {
      assert Denote(n) == l + r;
    } else if op == "-" {
      assert Denote(n) == l - r;
    } else {
      assert Denote(n) == Times(l, r);
    }
  }

  lemma {:induction false} OperandExact(host: Host, n: Node, invalid: string)
    requires Arithmetic(n)
    ensures Operand(host, n, invalid) == Ok(Num(Denote(n)))
    decreases n, 1
  {
    if n.BinaryExpression? {
      ArithmeticExact(host, n);
    }
  }

  /** A tree of string literals joined by `+`. */
  predicate Concatenation(n: Node)
    decreases n
  {
    match n
    case StringLiteral(_, _, _) => true
    case BinaryExpression(l, r, op, _, _) => op == "+" && Concatenation(l) && Concatenation(r)
    case _ => false
  }

  /** The texts of a tree's string leaves, left to right. */
  function LeafText(n: Node): string
    requires Concatenation(n)
    decreases n
  {
    match n
    case StringLiteral(s, _, _) => s
    case BinaryExpression(l, r, _, _, _) => LeafText(l) + LeafText(r)
  }

  /** A concatenation tree evaluates to its leaves' texts in order, whatever its shape. */
  lemma {:induction false} ConcatenationInOrder(host: Host, n: Node)
    requires Concatenation(n) && n.BinaryExpression?
    ensures Interpret(host, n) == Ok(Str(LeafText(n)))
    decreases n, 0
  {
    OperandText(host, n.left, InvalidLeft);
    OperandText(host, n.right, InvalidRight);
  }

  lemma {:induction false} OperandText(host: Host, n: Node, invalid: string)
    requires Concatenation(n)
    ensures Operand(host, n, invalid) == Ok(Str(LeafText(n)))
    decreases n, 1
  {
    if n.BinaryExpression? {
      ConcatenationInOrder(host, n);
    }
  }

  /** `"a" + ("b" + "c")` and `("a" + "b") + "c"` give the same text. */
  lemma ConcatenationAssociates(host: Host, a: Node, b: Node, c: Node, op: string)
    requires Concatenation(a) && Concatenation(b) && Concatenation(c)
    ensures Interpret(host, BinaryExpression(a, BinaryExpression(b, c, "+", 0, 0), "+", 0, 0)) ==
      Interpret(host, BinaryExpression(BinaryExpression(a, b, "+", 0, 0), c, "+", 0, 0))
  {
    ConcatenationInOrder(host, BinaryExpression(a, BinaryExpression(b, c, "+", 0, 0), "+", 0, 0));
    ConcatenationInOrder(host, BinaryExpression(BinaryExpression(a, b, "+", 0, 0), c, "+", 0, 0));
    assert LeafText(a) + (LeafText(b) + LeafText(c)) == (LeafText(a) + LeafText(b)) + LeafText(c);
  }

  /**
   * A number and a string under `+` give the rendered number and the text,
   * in operand order: `1 + "a"` and `"a" + 1` differ.
   */
  lemma MixedPlusKeepsOrder(host: Host, x: real, s: string)
    ensures Interpret(host, BinaryExpression(NumberLiteral(x, 0, 1), StringLiteral(s, 4, 5), "+", 0, 5)) ==
      Ok(Str(host.showNumber(x) + s))
    ensures Interpret(host, BinaryExpression(StringLiteral(s, 0, 1), NumberLiteral(x, 4, 5), "+", 0, 5)) ==
      Ok(Str(s + host.showNumber(x)))
  {
  }

  /**
   * An operand of another kind is rejected, the left one before the right
   * one is looked at, and the two report slightly different messages.
   */
  lemma InvalidOperandReported(host: Host, n: Node)
    requires n.BinaryExpression?
    ensures !IsOperand(n.left) ==> Interpret(host, n) == Err(InvalidLeft)
    ensures Operand(host, n.left, InvalidLeft).Ok? && !IsOperand(n.right) ==> Interpret(host, n) == Err(InvalidRight)
  {
  }

  /** `5 % 6`: the remainder operator is not supported. */
  lemma RemainderRejected(host: Host, x: real, y: real)
    ensures Interpret(host, BinaryExpression(NumberLiteral(x, 19, 20), NumberLiteral(y, 23, 24), "%", 19, 24)) ==
      Err(InvalidOperator("%"))
  {
  }

  /**
   * A failure anywhere in a left operand ends the evaluation with that
   * failure before the right operand is looked at.
   */
  lemma {:induction false} LeftFailureWins(host: Host, l: Node, r: Node, op: string, m: string)
    requires Operand(host, l, InvalidLeft) == Err(m)
    ensures Interpret(host, BinaryExpression(l, r, op, 0, 0)) == Err(m)
  {
  }

  /**
   * The right-hand side `1 + 2 * 3 / 4 - 5 % 6` of the parser's precedence
   * example: its left part is computed (6 / 4 by the host's division), and
   * then `%` is rejected; a failing division is reported instead.
   */
  lemma PrecedenceExampleRejected(host: Host)
    ensures host.divide(6.0, 4.0).Ok? ==> Interpret(host, Parsing.Difference) == Err(InvalidOperator("%"))
    ensures host.divide(6.0, 4.0).Err? ==> Interpret(host, Parsing.Difference) == Err(host.divide(6.0, 4.0).message)
  {
    var quotient := Interpret(host, Parsing.Quotient);
    assert Interpret(host, Parsing.Quotient.left) == Ok(Num(6.0));
    assert quotient == HandleOperation(host, Num(6.0), Num(4.0), "/");
    var sum := Interpret(host, Parsing.Sum);
    if quotient.Ok? {
      assert sum == HandleOperation(host, Num(1.0), quotient.value, "+");
      assert Interpret(host, Parsing.Remainder) == Err(InvalidOperator("%"));
    } else {
      assert sum == quotient;
    }
  }
}
