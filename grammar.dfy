/** The meaning of the recursive-descent parser (parser.cpp) as functions on the token
  * vector and a position. Reading past the end of the vector, which the source does
  * without a bounds check, is modelled as reading an EOF token. */
module Grammar {
  import opened Tokens
  import opened Ast

  /** The token at index i, or EOF beyond the end. */
  function At(toks: seq<Token>, i: nat): Token {
    if i < |toks| then toks[i] else EndToken
  }

  predicate AddOpAt(toks: seq<Token>, i: nat) {
    i < |toks| && toks[i].kind == Operator && IsAddOp(toks[i].value)
  }

  predicate MulOpAt(toks: seq<Token>, i: nat) {
    i < |toks| && toks[i].kind == Operator && IsMulOp(toks[i].value)
  }

  /** A parsed expression and the position after it. */
  datatype Parsed = Parsed(node: Node, next: nat)

  /** parseExpression: a term, then any number of `+`, `-` or `.` and terms, grouped to
    * the left. */
  function Expr(toks: seq<Token>, pos: nat): (r: Parsed)
    requires pos <= |toks|
    ensures pos < r.next <= |toks| + 1 && IsExpr(r.node)
    decreases |toks| + 1 - pos, 2
  {
    var t := Term(toks, pos);
    ExprLoop(toks, t.next, t.node)
  }

  /** The loop of parseExpression, with the tree built so far. */
  function ExprLoop(toks: seq<Token>, pos: nat, left: Node): (r: Parsed)
    requires pos <= |toks| + 1 && IsExpr(left)
    ensures pos <= r.next <= |toks| + 1 && IsExpr(r.node)
    decreases |toks| + 1 - pos, 0
  {
    if AddOpAt(toks, pos) then
      var right := Term(toks, pos + 1);
      ExprLoop(toks, right.next, Binary(left, toks[pos].value, right.node))
    else
      Parsed(left, pos)
  }

  /** parseTerm: a factor, then any number of `*` or `/` and factors, grouped to the left. */
  function Term(toks: seq<Token>, pos: nat): (r: Parsed)
    requires pos <= |toks|
    ensures pos < r.next <= |toks| + 1 && IsExpr(r.node)
    decreases |toks| + 1 - pos, 1
  {
    var f := Factor(toks, pos);
    TermLoop(toks, f.next, f.node)
  }

  /** The loop of parseTerm, with the tree built so far. */
  function TermLoop(toks: seq<Token>, pos: nat, left: Node): (r: Parsed)
    requires pos <= |toks| + 1 && IsExpr(left)
    ensures pos <= r.next <= |toks| + 1 && IsExpr(r.node)
    decreases |toks| + 1 - pos, 0
  {
    if MulOpAt(toks, pos) then
      var right := Factor(toks, pos + 1);
      TermLoop(toks, right.next, Binary(left, toks[pos].value, right.node))
    else
      Parsed(left, pos)
  }

  /** parseFactor: a number, variable or string literal, or a parenthesised expression
    * whose closing parenthesis may be missing. Any other token is consumed and yields the
    * null node. */
  function Factor(toks: seq<Token>, pos: nat): (r: Parsed)
    requires pos <= |toks|
    ensures pos < r.next <= |toks| + 1 && IsExpr(r.node)
    decreases |toks| + 1 - pos, 0
  {
    var t := At(toks, pos);
    match t.kind
    case Number => Parsed(Num(t.value), pos + 1)
    case Variable => Parsed(Node.Variable(t.value), pos + 1)
    case Str => Parsed(Node.Str(t.value), pos + 1)
    case LParen =>
      var e := Expr(toks, pos + 1);
      if At(toks, e.next).kind == RParen then Parsed(e.node, e.next + 1) else Parsed(e.node, e.next)
    case _ => Parsed(Hole, pos + 1)
  }

  /** One statement, or none when it is malformed, and the position after it. */
  datatype Stmt = Stmt(node: Option<Node>, next: nat)

  /** The value of an optional argument of the request and the position after it. */
  datatype Field = Field(value: string, next: nat)

  /** An optional string literal argument: its lexeme, quotes included, or "". */
  function StrField(toks: seq<Token>, pos: nat): (f: Field)
    ensures f.next == pos || (f.next == pos + 1 && pos < |toks|)
  {
    if At(toks, pos).kind == TokenKind.Str then Field(At(toks, pos).value, pos + 1) else Field("", pos)
  }

  /** The optional variable argument: its name, `$` included, or "". */
  function VarField(toks: seq<Token>, pos: nat): (f: Field)
    ensures f.next == pos || (f.next == pos + 1 && pos < |toks|)
  {
    if At(toks, pos).kind == TokenKind.Variable then Field(At(toks, pos).value, pos + 1) else Field("", pos)
  }

  /** The optional data, header and type arguments, each introduced by a comma. */
  datatype Extras = Extras(data: string, header: string, requestType: string, next: nat)

  function OptionalFields(toks: seq<Token>, pos: nat): (x: Extras)
    ensures x.next == pos || pos < x.next <= |toks|
  {
    if At(toks, pos).kind != Comma then Extras("", "", "", pos) else
    var data := StrField(toks, pos + 1);
    if At(toks, data.next).kind != Comma then Extras(data.value, "", "", data.next) else
    var header := StrField(toks, data.next + 1);
    if At(toks, header.next).kind != Comma then Extras(data.value, header.value, "", header.next) else
    var requestType := StrField(toks, header.next + 1);
    Extras(data.value, header.value, requestType.value, requestType.next)
  }

  /** parseHttpRequest at an `http` token: `(`, an optional variable, a comma, an optional
    * URL, the optional arguments, `)` and `;`. A missing required token yields no node and
    * leaves the position where the token was expected. */
  function HttpRequest(toks: seq<Token>, pos: nat): (r: Stmt)
    requires pos < |toks|
    ensures pos < r.next <= |toks|
  {
    if At(toks, pos + 1).kind != LParen then Stmt(None, pos + 1) else
    var name := VarField(toks, pos + 2);
    if At(toks, name.next).kind != Comma then Stmt(None, name.next) else
    var url := StrField(toks, name.next + 1);
    HttpClose(toks, name.value, url.value, OptionalFields(toks, url.next))
  }

  /** The end of a request after its arguments: `)` and `;`, both required. */
  function HttpClose(toks: seq<Token>, name: string, url: string, x: Extras): (r: Stmt)
    ensures r.next == x.next || x.next < r.next <= |toks|
  {
    if At(toks, x.next).kind != RParen then Stmt(None, x.next)
    else if At(toks, x.next + 1).kind != Semicolon then Stmt(None, x.next + 1)
    else Stmt(Some(HttpRequestAssign(name, url, x.data, x.header, x.requestType)), x.next + 2)
  }

  /** One pass of the loop of parse, at a token that is not EOF. */
  function Statement(toks: seq<Token>, pos: nat): (r: Stmt)
    requires pos < |toks|
    ensures pos < r.next <= |toks| + 1
  {
    var t := toks[pos];
    match t.kind
    case Text => Stmt(Some(Node.Text(t.value)), pos + 1)
    case Echo =>
      var e := Expr(toks, pos + 1);
      if At(toks, e.next).kind == Semicolon then Stmt(Some(Print(e.node)), e.next + 1) else Stmt(None, e.next)
    case Db =>
      if At(toks, pos + 1).kind != TokenKind.Str then Stmt(None, pos + 1)
      else if At(toks, pos + 2).kind != Semicolon then Stmt(None, pos + 2)
      else Stmt(Some(DbQuery(At(toks, pos + 1).value)), pos + 3)
    case Http => HttpRequest(toks, pos)
    case Variable =>
      if At(toks, pos + 1).kind != Assign then Stmt(None, pos + 1) else
      var e := Expr(toks, pos + 2);
      if At(toks, e.next).kind == Semicolon then Stmt(Some(Assignment(t.value, e.node)), e.next + 1)
      else Stmt(None, e.next)
    case _ => Stmt(None, pos + 1)
  }

  /** The nodes parse collects and the position it stops at. */
  datatype Program = Program(nodes: seq<Node>, end: nat)

  /** parse from position pos: statements up to the end of the vector or the first EOF
    * token at a statement boundary; malformed statements are dropped. */
  function ParseFrom(toks: seq<Token>, pos: nat): (r: Program)
    ensures pos <= r.end
    ensures r.end >= |toks| || toks[r.end].kind == EOF
    decreases |toks| - pos
  {
    if pos >= |toks| || toks[pos].kind == EOF then Program([], pos)
    else
      var s := Statement(toks, pos);
      var rest := ParseFrom(toks, s.next);
      match s.node
      case Some(n) => Program([n] + rest.nodes, rest.end)
      case None => rest
  }

  /** The nodes of a fresh parser's parse. */
  function Parse(toks: seq<Token>): seq<Node> {
    ParseFrom(toks, 0).nodes
  }
}
