/**
 * Tokens, syntax-tree nodes and builder results shared by the lexer, the
 * parser front end, the interpreter and the formatter.
 */
module Ast {

  /** A half-open offset range `[start, end)` into one source line. */
  datatype Position = Position(start: int, end: int)

  /** A classified lexeme: its kind tag, where it sits and the text it covers. */
  datatype Token = Token(kind: string, position: Position, value: string)

  /** The closed family of syntax-tree nodes; every node carries its span. */
  datatype Node =
    | Identifier(name: string, start: int, end: int)
    | NumberLiteral(number: real, start: int, end: int)
    | StringLiteral(text: string, start: int, end: int)
    | BooleanLiteral(flag: bool, start: int, end: int)
    | TypeReference(typeName: string, start: int, end: int)
    | BinaryExpression(left: Node, right: Node, operator: string, start: int, end: int)
    | AssignmentExpression(left: Node, right: Node, start: int, end: int)
    | CallExpression(callee: Node, arguments: seq<Node>, start: int, end: int)
    | VariableDeclarator(id: Node, typeRef: Node, init: InitOption, start: int, end: int)
    | VariableDeclaration(declKind: string, declarations: seq<Node>, start: int, end: int)
    | ExpressionStatement(expression: Node, start: int, end: int)
    | ConditionalStatement(test: Node, consequent: seq<Node>, alternate: seq<Node>, start: int, end: int)

  /** A declarator's optional initialiser (Kotlin `init: Expression?`). */
  datatype InitOption = NoInit | Init(expr: Node)

  /** The `Expression` capability: the node kinds that may stand as a value. */
  predicate IsExpression(n: Node) {
    n.Identifier? || n.NumberLiteral? || n.StringLiteral? || n.BooleanLiteral? ||
    n.BinaryExpression? || n.AssignmentExpression? || n.CallExpression?
  }

  /** The `Statement` capability: the node kinds a whole line may parse to. */
  predicate IsStatement(n: Node) {
    n.VariableDeclaration? || n.ExpressionStatement? || n.ConditionalStatement?
  }

  /** What a builder's `verifyAndBuild` returns. */
  datatype BuilderResult = Success(node: Node) | Failure(message: string)

  /** The builder classes the providers instantiate. */
  datatype BuilderKind =
    | AssignmentBuilder
    | CallBuilder
    | BinaryBuilder
    | NumberLiteralBuilder
    | StringLiteralBuilder
    | IdentifierBuilder
    | VariableDeclarationBuilder
    | ExpressionStatementBuilder

  /**
   * `verifyAndBuild()` of the builder of a given class constructed over a
   * token list and a line index. The builders themselves are not part of
   * this model, so their outcome is a parameter.
   */
  type LineBuilders = (BuilderKind, seq<Token>, int) -> BuilderResult

  /** The same, for the older builders that take no line index. */
  type Builders = (BuilderKind, seq<Token>) -> BuilderResult

  /**
   * The span discipline of composite nodes: a node runs from the start of
   * its first part to the end of its last part (an expression statement
   * also covers its semicolon, so only its start is tied to its part).
   */
  predicate WellSpanned(n: Node)
    decreases n
  {
    match n
    case Identifier(_, s, e) => s <= e
    case NumberLiteral(_, s, e) => s <= e
    case StringLiteral(_, s, e) => s <= e
    case BooleanLiteral(_, s, e) => s <= e
    case TypeReference(_, s, e) => s <= e
    case BinaryExpression(l, r, _, s, e) =>
      WellSpanned(l) && WellSpanned(r) && s == l.start && e == r.end && l.end <= r.start
    case AssignmentExpression(l, r, s, e) =>
      WellSpanned(l) && WellSpanned(r) && s == l.start && e == r.end && l.end <= r.start
    case CallExpression(c, args, s, e) =>
      WellSpanned(c) && s == c.start && c.end <= e &&
      (forall k :: 0 <= k < |args| ==> WellSpanned(args[k]) && c.end <= args[k].start && args[k].end <= e)
    case VariableDeclarator(id, t, init, s, e) =>
      WellSpanned(id) && WellSpanned(t) && s == id.start && id.end <= t.start &&
      (match init
       case NoInit => e == t.end
       case Init(x) => WellSpanned(x) && t.end <= x.start && e == x.end)
    case VariableDeclaration(_, ds, s, e) =>
      |ds| > 0 && s <= ds[0].start && ds[|ds| - 1].end <= e && s <= e &&
      (forall k :: 0 <= k < |ds| ==> WellSpanned(ds[k])) &&
      (forall k :: 0 < k < |ds| ==> ds[k - 1].end <= ds[k].start)
    case ExpressionStatement(x, s, e) =>
      WellSpanned(x) && s == x.start && x.end <= e
    case ConditionalStatement(_, _, _, s, e) => s <= e
  }
}
