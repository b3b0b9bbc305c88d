/** The syntax tree the parser builds (parser.h). A null child, which parseFactor returns
  * for a token that cannot start a factor, is the node Hole. */
module Ast {
  datatype Option<T> = None | Some(value: T)

  datatype Node =
    | Hole
    | Text(text: string)
    | Print(expr: Node)
    | DbQuery(query: string)
    | HttpRequestAssign(variable: string, url: string, data: string, header: string, requestType: string)
    | Variable(name: string)
    | Binary(left: Node, op: string, right: Node)
    | Str(value: string)
    | Num(value: string)
    | Assignment(name: string, expr: Node)

  predicate IsAddOp(op: string) { |op| == 1 && (op[0] == '+' || op[0] == '-' || op[0] == '.') }

  predicate IsMulOp(op: string) { |op| == 1 && (op[0] == '*' || op[0] == '/') }

  /** The trees parseExpression can return: leaves for numbers, variables, string literals
    * and null, inner nodes for the five operators. */
  predicate IsExpr(e: Node) {
    match e
    case Hole => true
    case Variable(_) => true
    case Str(_) => true
    case Num(_) => true
    case Binary(l, op, r) => (IsAddOp(op) || IsMulOp(op)) && IsExpr(l) && IsExpr(r)
    case _ => false
  }

  /** The nodes parse can put in its result: one per kind of statement. */
  predicate IsStatement(n: Node) {
    match n
    case Text(_) => true
    case Print(e) => IsExpr(e)
    case DbQuery(_) => true
    case HttpRequestAssign(_, _, _, _, _) => true
    case Assignment(_, e) => IsExpr(e)
    case _ => false
  }

  predicate AllStatements(ns: seq<Node>) {
    forall i | 0 <= i < |ns| :: IsStatement(ns[i])
  }
}
