/** A token printer for syntax trees, inverse to the parser: printing a statement list
  * and parsing the tokens gives the list back. Parentheses are printed only where the
  * parser's precedence and left grouping need them. */
module Printer {
  import opened Tokens
  import opened Ast
  import opened Grammar

  /** The binding level of an expression: 0 for `+ - .`, 1 for `* /`, 2 for a leaf. */
  function Level(e: Node): nat {
    if e.Binary? && IsAddOp(e.op) then 0 else if e.Binary? && IsMulOp(e.op) then 1 else 2
  }

  /** The tokens of e where an expression of level at least L is expected: a factor for
    * 2, a term for 1, an expression for 0. Below that level e is parenthesised. */
  function PrintAt(e: Node, L: nat): seq<Token>
    decreases e, 1
  {
    if Level(e) < L then [Token(LParen, "(")] + PrintNode(e) + [Token(RParen, ")")] else PrintNode(e)
  }

  /** The tokens of e without surrounding parentheses. */
  function PrintNode(e: Node): seq<Token>
    decreases e, 0
  {
    match e
    case Binary(l, op, r) =>
      var M := if IsAddOp(op) then 0 else 1;
      PrintAt(l, M) + [Token(Operator, op)] + PrintAt(r, M + 1)
    case _ => [LeafToken(e)]
  }

  /** The token of a leaf. The null node, and any node that is not an expression, prints
    * as a comma: a token that parseFactor consumes and replaces by null. */
  function LeafToken(e: Node): Token {
    match e
    case Num(v) => Token(Number, v)
    case Variable(n) => Token(TokenKind.Variable, n)
    case Str(v) => Token(TokenKind.Str, v)
    case _ => Token(Comma, ",")
  }

  /** toks holds p at index pos. */
  predicate SpellsAt(toks: seq<Token>, pos: nat, p: seq<Token>) {
    pos + |p| <= |toks| && forall k | 0 <= k < |p| :: toks[pos + k] == p[k]
  }

  lemma SpellsSplit(toks: seq<Token>, pos: nat, a: seq<Token>, b: seq<Token>)
    requires SpellsAt(toks, pos, a + b)
    ensures SpellsAt(toks, pos, a) && SpellsAt(toks, pos + |a|, b)
  {
    forall k | 0 <= k < |a|
      ensures toks[pos + k] == a[k]
    {
      assert (a + b)[k] == a[k];
    }
    forall k | 0 <= k < |b|
      ensures toks[pos + |a| + k] == b[k]
    {
      assert toks[pos + (|a| + k)] == (a + b)[|a| + k];
    }
  }

  lemma SpellsSplit3(toks: seq<Token>, pos: nat, a: seq<Token>, b: seq<Token>, c: seq<Token>)
    requires SpellsAt(toks, pos, a + b + c)
    ensures SpellsAt(toks, pos, a) && SpellsAt(toks, pos + |a|, b) && SpellsAt(toks, pos + |a| + |b|, c)
  {
    SpellsSplit(toks, pos, a + b, c);
    SpellsSplit(toks, pos, a, b);
  }

  lemma SpellsToken(toks: seq<Token>, pos: nat, t: Token)
    requires SpellsAt(toks, pos, [t])
    ensures pos < |toks| && toks[pos] == t
  {
    assert toks[pos + 0] == [t][0];
  }

  /** The tokens of a binary node: the left operand, the operator token, the right operand. */
  lemma OpSplit(toks: seq<Token>, pos: nat, pl: seq<Token>, op: string, pr: seq<Token>)
    requires SpellsAt(toks, pos, pl + [Token(Operator, op)] + pr)
    ensures SpellsAt(toks, pos, pl) && SpellsAt(toks, pos + |pl| + 1, pr)
    ensures pos + |pl| < |toks| && toks[pos + |pl|] == Token(Operator, op)
  {
    SpellsSplit3(toks, pos, pl, [Token(Operator, op)], pr);
    SpellsToken(toks, pos + |pl|, Token(Operator, op));
  }

  /** The number of tokens PrintAt(e, L) has. */
  function Width(e: Node, L: nat): nat
    decreases e, 1
  {
    if Level(e) < L then NodeWidth(e) + 2 else NodeWidth(e)
  }

  /** The number of tokens of e printed without surrounding parentheses. */
  function NodeWidth(e: Node): nat
    decreases e, 0
  {
    match e
    case Binary(l, op, r) =>
      if IsAddOp(op) then Width(l, 0) + 1 + Width(r, 1) else Width(l, 1) + 1 + Width(r, 2)
    case _ => 1
  }

  /** toks holds token t at index i. */
  predicate TokenAt(toks: seq<Token>, i: nat, t: Token) {
    i < |toks| && toks[i] == t
  }

  /** toks[pos..end] holds the tokens of PrintAt(e, L), read token by token. */
  predicate Spells(toks: seq<Token>, pos: nat, e: Node, L: nat, end: nat)
    ensures Spells(toks, pos, e, L, end) ==> pos < end <= |toks|
    decreases e, 1
  {
    if Level(e) < L then
      pos + 2 <= end && TokenAt(toks, pos, Token(LParen, "(")) && NodeSpells(toks, pos + 1, e, end - 1)
      && TokenAt(toks, end - 1, Token(RParen, ")"))
    else
      NodeSpells(toks, pos, e, end)
  }

  /** toks[pos..end] holds the tokens of e printed without surrounding parentheses. */
  predicate NodeSpells(toks: seq<Token>, pos: nat, e: Node, end: nat)
    ensures NodeSpells(toks, pos, e, end) ==> pos < end <= |toks|
    decreases e, 0
  {
    match e
    case Binary(l, op, r) =>
      var M := if IsAddOp(op) then 0 else 1;
      var mid := pos + Width(l, M);
      Spells(toks, pos, l, M, mid) && TokenAt(toks, mid, Token(Operator, op)) && Spells(toks, mid + 1, r, M + 1, end)
    case _ => end == pos + 1 && TokenAt(toks, pos, LeafToken(e))
  }

  /** Where e binds at least as tightly as L demands, it is printed bare. */
  lemma SpellsBare(toks: seq<Token>, pos: nat, e: Node, L: nat, end: nat)
    requires L <= Level(e) && Spells(toks, pos, e, L, end)
    ensures NodeSpells(toks, pos, e, end)
  {
  }

  /** Where e binds more loosely than L demands, it is printed in parentheses. */
  lemma SpellsParenthesised(toks: seq<Token>, pos: nat, e: Node, L: nat, end: nat)
    requires Level(e) < L && Spells(toks, pos, e, L, end)
    ensures pos + 2 <= end && toks[pos].kind == LParen && toks[end - 1].kind == RParen
    ensures Spells(toks, pos + 1, e, 0, end - 1)
  {
  }

  /** A printed operator node: its left operand, the operator and its right operand. */
  lemma SpellsBinary(toks: seq<Token>, pos: nat, e: Node, M: nat, end: nat) returns (mid: nat)
    requires e.Binary? && M == (if IsAddOp(e.op) then 0 else 1) && NodeSpells(toks, pos, e, end)
    ensures Spells(toks, pos, e.left, M, mid) && TokenAt(toks, mid, Token(Operator, e.op))
    ensures Spells(toks, mid + 1, e.right, M + 1, end)
  {
    mid := pos + Width(e.left, M);
  }

  /** The loop of parseTerm stops where no `*` or `/` follows. */
  lemma TermLoopStop(toks: seq<Token>, pos: nat, left: Node)
    requires pos <= |toks| + 1 && IsExpr(left) && !MulOpAt(toks, pos)
    ensures TermLoop(toks, pos, left) == Parsed(left, pos)
  {
  }

  /** The loop of parseExpression stops where no `+`, `-` or `.` follows. */
  lemma ExprLoopStop(toks: seq<Token>, pos: nat, left: Node)
    requires pos <= |toks| + 1 && IsExpr(left) && !AddOpAt(toks, pos)
    ensures ExprLoop(toks, pos, left) == Parsed(left, pos)
  {
  }

  /** A term followed by `*` or `/` and a factor extends the term. */
  lemma TermJoin(toks: seq<Token>, pos: nat, l: Node, op: string, r: Node, mid: nat, end: nat)
    requires IsExpr(l) && IsExpr(r) && IsMulOp(op) && pos <= mid && TokenAt(toks, mid, Token(Operator, op))
    requires Term(toks, pos) == TermLoop(toks, mid, l)
    requires Factor(toks, mid + 1) == Parsed(r, end)
    ensures Term(toks, pos) == TermLoop(toks, end, Binary(l, op, r))
  {
  }

  /** An expression followed by `+`, `-` or `.` and a complete term extends the expression. */
  lemma ExprJoin(toks: seq<Token>, pos: nat, l: Node, op: string, r: Node, mid: nat, end: nat)
    requires IsExpr(l) && IsExpr(r) && IsAddOp(op) && pos <= mid && TokenAt(toks, mid, Token(Operator, op))
    requires Expr(toks, pos) == ExprLoop(toks, mid, l)
    requires end <= |toks| && !MulOpAt(toks, end)
    requires Term(toks, mid + 1) == TermLoop(toks, end, r)
    ensures Expr(toks, pos) == ExprLoop(toks, end, Binary(l, op, r))
  {
    TermLoopStop(toks, end, r);
  }

  /** A parenthesised expression is a factor; the closing parenthesis is consumed. */
  lemma ParenJoin(toks: seq<Token>, pos: nat, e: Node, inner: nat)
    requires IsExpr(e) && pos < inner < |toks|
    requires toks[pos].kind == LParen && toks[inner].kind == RParen
    requires Expr(toks, pos + 1) == ExprLoop(toks, inner, e)
    ensures Factor(toks, pos) == Parsed(e, inner + 1)
  {
    ExprLoopStop(toks, inner, e);
  }

  lemma TermOfFactor(toks: seq<Token>, pos: nat, e: Node, n: nat)
    requires pos <= |toks| && IsExpr(e) && Factor(toks, pos) == Parsed(e, n)
    ensures Term(toks, pos) == TermLoop(toks, n, e)
  {
  }

  lemma ExprOfTerm(toks: seq<Token>, pos: nat, e: Node, n: nat)
    requires pos <= |toks| && n <= |toks| + 1 && IsExpr(e) && !MulOpAt(toks, n)
    requires Term(toks, pos) == TermLoop(toks, n, e)
    ensures Expr(toks, pos) == ExprLoop(toks, n, e)
  {
    TermLoopStop(toks, n, e);
  }

  lemma LeafTrip(toks: seq<Token>, pos: nat, e: Node, end: nat)
    requires IsExpr(e) && Level(e) == 2 && NodeSpells(toks, pos, e, end)
    ensures Factor(toks, pos) == Parsed(e, end)
  {
  }

  /** The measure of the mutual induction below: the tree, then how far e is from being
    * printed bare at level L. */
  function Rank(e: Node, L: nat): nat
    requires L <= 2
  {
    if L <= Level(e) then Level(e) - L else Level(e) + 3 - L
  }

  lemma {:induction false} FactorTrip(toks: seq<Token>, pos: nat, e: Node, end: nat)
    requires IsExpr(e) && Spells(toks, pos, e, 2, end)
    ensures Factor(toks, pos) == Parsed(e, end)
    decreases e, Rank(e, 2), 1
  {
    if Level(e) < 2 {
      ParenTrip(toks, pos, e, end);
    } else {
      SpellsBare(toks, pos, e, 2, end);
      LeafTrip(toks, pos, e, end);
    }
  }

  lemma {:induction false} ParenTrip(toks: seq<Token>, pos: nat, e: Node, end: nat)
    requires IsExpr(e) && Level(e) < 2 && Spells(toks, pos, e, 2, end)
    ensures Factor(toks, pos) == Parsed(e, end)
    decreases e, Rank(e, 2), 0
  {
    SpellsParenthesised(toks, pos, e, 2, end);
    ExprTrip(toks, pos + 1, e, end - 1);
    ParenJoin(toks, pos, e, end - 1);
  }

  lemma {:induction false} TermTrip(toks: seq<Token>, pos: nat, e: Node, end: nat)
    requires IsExpr(e) && Spells(toks, pos, e, 1, end)
    ensures Term(toks, pos) == TermLoop(toks, end, e)
    decreases e, Rank(e, 1), 1
  {
    if Level(e) == 1 {
      SpellsBare(toks, pos, e, 1, end);
      var mid := SpellsBinary(toks, pos, e, 1, end);
      MulTrip(toks, pos, e.left, e.op, e.right, mid, end);
    } else {
      FactorTermTrip(toks, pos, e, end);
    }
  }

  lemma {:induction false} FactorTermTrip(toks: seq<Token>, pos: nat, e: Node, end: nat)
    requires IsExpr(e) && Level(e) != 1 && Spells(toks, pos, e, 1, end)
    ensures Term(toks, pos) == TermLoop(toks, end, e)
    decreases e, Rank(e, 1), 0
  {
    assert Spells(toks, pos, e, 2, end);
    FactorTrip(toks, pos, e, end);
    TermOfFactor(toks, pos, e, end);
  }

  lemma {:induction false} MulTrip(toks: seq<Token>, pos: nat, l: Node, op: string, r: Node, mid: nat, end: nat)
    requires IsExpr(l) && IsExpr(r) && IsMulOp(op)
    requires Spells(toks, pos, l, 1, mid) && TokenAt(toks, mid, Token(Operator, op)) && Spells(toks, mid + 1, r, 2, end)
    ensures Term(toks, pos) == TermLoop(toks, end, Binary(l, op, r))
    decreases Binary(l, op, r), 0, 0
  {
    TermTrip(toks, pos, l, mid);
    FactorTrip(toks, mid + 1, r, end);
    TermJoin(toks, pos, l, op, r, mid, end);
  }

  lemma {:induction false} ExprTrip(toks: seq<Token>, pos: nat, e: Node, end: nat)
    requires IsExpr(e) && Spells(toks, pos, e, 0, end) && !MulOpAt(toks, end)
    ensures Expr(toks, pos) == ExprLoop(toks, end, e)
    decreases e, Rank(e, 0), 1
  {
    if Level(e) == 0 {
      SpellsBare(toks, pos, e, 0, end);
      var mid := SpellsBinary(toks, pos, e, 0, end);
      AddTrip(toks, pos, e.left, e.op, e.right, mid, end);
    } else {
      TermExprTrip(toks, pos, e, end);
    }
  }

  lemma {:induction false} TermExprTrip(toks: seq<Token>, pos: nat, e: Node, end: nat)
    requires IsExpr(e) && Level(e) != 0 && Spells(toks, pos, e, 0, end) && !MulOpAt(toks, end)
    ensures Expr(toks, pos) == ExprLoop(toks, end, e)
    decreases e, Rank(e, 0), 0
  {
    assert Spells(toks, pos, e, 1, end);
    TermTrip(toks, pos, e, end);
    ExprOfTerm(toks, pos, e, end);
  }

  lemma {:induction false} AddTrip(toks: seq<Token>, pos: nat, l: Node, op: string, r: Node, mid: nat, end: nat)
    requires IsExpr(l) && IsExpr(r) && IsAddOp(op) && !MulOpAt(toks, end)
    requires Spells(toks, pos, l, 0, mid) && TokenAt(toks, mid, Token(Operator, op)) && Spells(toks, mid + 1, r, 1, end)
    ensures Expr(toks, pos) == ExprLoop(toks, end, Binary(l, op, r))
    decreases Binary(l, op, r), 0, 0
  {
    ExprTrip(toks, pos, l, mid);
    TermTrip(toks, mid + 1, r, end);
    ExprJoin(toks, pos, l, op, r, mid, end);
  }

  /** The length of a printed expression is its width. */
  lemma {:induction false} PrintWidth(e: Node, L: nat)
    ensures |PrintAt(e, L)| == Width(e, L)
    decreases e, 1
  {
    NodePrintWidth(e);
  }

  lemma {:induction false} NodePrintWidth(e: Node)
    ensures |PrintNode(e)| == NodeWidth(e)
    decreases e, 0
  {
    if e.Binary? {
      var M := if IsAddOp(e.op) then 0 else 1;
      PrintWidth(e.left, M);
      PrintWidth(e.right, M + 1);
    }
  }

  /** Tokens that hold a printed expression spell it token by token. */
  lemma {:induction false} PrintSpells(toks: seq<Token>, pos: nat, e: Node, L: nat, end: nat)
    requires SpellsAt(toks, pos, PrintAt(e, L)) && end == pos + |PrintAt(e, L)|
    ensures Spells(toks, pos, e, L, end)
    decreases e, 1, 1
  {
    if Level(e) < L {
      ParenPrintSpells(toks, pos, e, L, end);
    } else {
      NodePrintSpells(toks, pos, e, end);
    }
  }

  lemma {:induction false} ParenPrintSpells(toks: seq<Token>, pos: nat, e: Node, L: nat, end: nat)
    requires Level(e) < L && SpellsAt(toks, pos, PrintAt(e, L)) && end == pos + |PrintAt(e, L)|
    ensures Spells(toks, pos, e, L, end)
    decreases e, 1, 0
  {
    var inner := PrintNode(e);
    SpellsSplit3(toks, pos, [Token(LParen, "(")], inner, [Token(RParen, ")")]);
    SpellsToken(toks, pos, Token(LParen, "("));
    SpellsToken(toks, end - 1, Token(RParen, ")"));
    NodePrintSpells(toks, pos + 1, e, end - 1);
  }

  lemma {:induction false} NodePrintSpells(toks: seq<Token>, pos: nat, e: Node, end: nat)
    requires SpellsAt(toks, pos, PrintNode(e)) && end == pos + |PrintNode(e)|
    ensures NodeSpells(toks, pos, e, end)
    decreases e, 0, 1
  {
    if e.Binary? {
      BinaryPrintSpells(toks, pos, e.left, e.op, e.right, end);
    } else {
      SpellsToken(toks, pos, LeafToken(e));
    }
  }

  lemma {:induction false} BinaryPrintSpells(toks: seq<Token>, pos: nat, l: Node, op: string, r: Node, end: nat)
    requires SpellsAt(toks, pos, PrintNode(Binary(l, op, r))) && end == pos + |PrintNode(Binary(l, op, r))|
    ensures NodeSpells(toks, pos, Binary(l, op, r), end)
    decreases Binary(l, op, r), 0, 0
  {
    var M := if IsAddOp(op) then 0 else 1;
    var pl, pr := PrintAt(l, M), PrintAt(r, M + 1);
    OpSplit(toks, pos, pl, op, pr);
    PrintWidth(l, M);
    PrintSpells(toks, pos, l, M, pos + |pl|);
    PrintSpells(toks, pos + |pl| + 1, r, M + 1, end);
  }

  /** parseExpression reads a printed expression back, up to the first token after it
    * that is not an operator. */
  lemma ExprRoundTrip(toks: seq<Token>, pos: nat, e: Node)
    requires IsExpr(e) && SpellsAt(toks, pos, PrintAt(e, 0))
    requires !AddOpAt(toks, pos + |PrintAt(e, 0)|) && !MulOpAt(toks, pos + |PrintAt(e, 0)|)
    ensures Expr(toks, pos) == Parsed(e, pos + |PrintAt(e, 0)|)
  {
    var end := pos + |PrintAt(e, 0)|;
    PrintSpells(toks, pos, e, 0, end);
    ExprTrip(toks, pos, e, end);
    ExprLoopStop(toks, end, e);
  }

  /** An optional argument of a request: nothing for the empty string. */
  function OptToken(kind: TokenKind, value: string): seq<Token> {
    if value == "" then [] else [Token(kind, value)]
  }

  /** The data, header and type arguments, each after a comma. */
  function PrintFields(data: string, header: string, requestType: string): seq<Token> {
    [Token(Comma, ",")] + OptToken(TokenKind.Str, data) + [Token(Comma, ",")] + OptToken(TokenKind.Str, header)
    + [Token(Comma, ",")] + OptToken(TokenKind.Str, requestType)
  }

  /** The tokens of a statement, in the forms parse accepts. */
  function PrintStatement(n: Node): seq<Token> {
    match n
    case Print(e) => [Token(Echo, "echo")] + PrintAt(e, 0) + [Token(Semicolon, ";")]
    case DbQuery(q) => [Token(Db, "db"), Token(TokenKind.Str, q), Token(Semicolon, ";")]
    case HttpRequestAssign(v, url, data, header, requestType) =>
      [Token(Http, "http"), Token(LParen, "(")] + OptToken(TokenKind.Variable, v) + [Token(Comma, ",")]
      + OptToken(TokenKind.Str, url) + PrintFields(data, header, requestType) + [Token(RParen, ")"), Token(Semicolon, ";")]
    case Assignment(x, e) => [Token(TokenKind.Variable, x), Token(Assign, "=")] + PrintAt(e, 0) + [Token(Semicolon, ";")]
    case Text(s) => [Token(TokenKind.Text, s)]
    case _ => [Token(TokenKind.Text, "")]
  }

  /** An optional string argument is read back, provided no string token follows it. */
  lemma StrFieldTrip(toks: seq<Token>, pos: nat, value: string)
    requires SpellsAt(toks, pos, OptToken(TokenKind.Str, value))
    requires At(toks, pos + |OptToken(TokenKind.Str, value)|).kind != TokenKind.Str
    ensures StrField(toks, pos) == Field(value, pos + |OptToken(TokenKind.Str, value)|)
  {
    if value != "" {
      SpellsToken(toks, pos, Token(TokenKind.Str, value));
    }
  }

  /** The optional variable argument is read back, provided no variable token follows it. */
  lemma VarFieldTrip(toks: seq<Token>, pos: nat, value: string)
    requires SpellsAt(toks, pos, OptToken(TokenKind.Variable, value))
    requires At(toks, pos + |OptToken(TokenKind.Variable, value)|).kind != TokenKind.Variable
    ensures VarField(toks, pos) == Field(value, pos + |OptToken(TokenKind.Variable, value)|)
  {
    if value != "" {
      SpellsToken(toks, pos, Token(TokenKind.Variable, value));
    }
  }

  /** A comma and an optional string argument, followed by a comma or a closing
    * parenthesis. */
  lemma CommaFieldTrip(toks: seq<Token>, pos: nat, value: string, end: nat)
    requires SpellsAt(toks, pos, [Token(Comma, ",")] + OptToken(TokenKind.Str, value))
    requires end == pos + 1 + |OptToken(TokenKind.Str, value)| && end < |toks|
    requires toks[end].kind == Comma || toks[end].kind == RParen
    ensures At(toks, pos).kind == Comma && StrField(toks, pos + 1) == Field(value, end)
  {
    SpellsSplit(toks, pos, [Token(Comma, ",")], OptToken(TokenKind.Str, value));
    SpellsToken(toks, pos, Token(Comma, ","));
    StrFieldTrip(toks, pos + 1, value);
  }

  /** The data, header and type arguments are read back up to the closing parenthesis. */
  lemma FieldsTrip(toks: seq<Token>, pos: nat, data: string, header: string, requestType: string, end: nat)
    requires SpellsAt(toks, pos, PrintFields(data, header, requestType))
    requires end == pos + |PrintFields(data, header, requestType)| && end < |toks| && toks[end].kind == RParen
    ensures OptionalFields(toks, pos) == Extras(data, header, requestType, end)
  {
    var c := [Token(Comma, ",")];
    var a, b, d := c + OptToken(TokenKind.Str, data), c + OptToken(TokenKind.Str, header), c + OptToken(TokenKind.Str, requestType);
    assert PrintFields(data, header, requestType) == a + b + d;
    SpellsSplit3(toks, pos, a, b, d);
    CommaFieldTrip(toks, pos + |a| + |b|, requestType, end);
    CommaFieldTrip(toks, pos + |a|, header, pos + |a| + |b|);
    CommaFieldTrip(toks, pos, data, pos + |a|);
  }

  /** The arguments of a request, between its parentheses. */
  function PrintArgs(v: string, url: string, data: string, header: string, requestType: string): seq<Token> {
    OptToken(TokenKind.Variable, v) + [Token(Comma, ",")] + OptToken(TokenKind.Str, url) + PrintFields(data, header, requestType)
  }

  /** The arguments are read back field by field; p1 is the position of the comma after
    * the variable and p2 the position after the URL. */
  lemma ArgsTrip(toks: seq<Token>, pos: nat, v: string, url: string, data: string, header: string, requestType: string,
                 p1: nat, p2: nat, end: nat)
    requires SpellsAt(toks, pos, PrintArgs(v, url, data, header, requestType))
    requires p1 == pos + |OptToken(TokenKind.Variable, v)| && p2 == p1 + 1 + |OptToken(TokenKind.Str, url)|
    requires end == pos + |PrintArgs(v, url, data, header, requestType)| && end < |toks| && toks[end].kind == RParen
    ensures VarField(toks, pos) == Field(v, p1) && At(toks, p1).kind == Comma
    ensures StrField(toks, p1 + 1) == Field(url, p2) && OptionalFields(toks, p2) == Extras(data, header, requestType, end)
  {
    var name, comma, url', fields := OptToken(TokenKind.Variable, v), [Token(Comma, ",")], OptToken(TokenKind.Str, url), PrintFields(data, header, requestType);
    assert PrintArgs(v, url, data, header, requestType) == name + (comma + url') + fields;
    SpellsSplit3(toks, pos, name, comma + url', fields);
    SpellsSplit(toks, p1, comma, url');
    SpellsToken(toks, p1, Token(Comma, ","));
    FieldsTrip(toks, p2, data, header, requestType, end);
    assert fields[0] == Token(Comma, ",");
    assert toks[p2 + 0] == fields[0];
    StrFieldTrip(toks, p1 + 1, url);
    VarFieldTrip(toks, pos, v);
  }

  lemma PairTokens(toks: seq<Token>, pos: nat, t1: Token, t2: Token)
    requires SpellsAt(toks, pos, [t1, t2])
    ensures pos + 1 < |toks| && toks[pos] == t1 && toks[pos + 1] == t2
  {
    assert toks[pos + 0] == [t1, t2][0];
    assert toks[pos + 1] == [t1, t2][1];
  }

  /** parseHttpRequest, given that each of its fields reads back. */
  lemma RequestTrip(toks: seq<Token>, pos: nat, v: string, url: string, data: string, header: string, requestType: string,
                    p1: nat, p2: nat, end: nat)
    requires pos + 1 < |toks| && toks[pos + 1].kind == LParen
    requires VarField(toks, pos + 2) == Field(v, p1) && At(toks, p1).kind == Comma
    requires StrField(toks, p1 + 1) == Field(url, p2) && OptionalFields(toks, p2) == Extras(data, header, requestType, end)
    requires end + 1 < |toks| && toks[end].kind == RParen && toks[end + 1].kind == Semicolon
    ensures HttpRequest(toks, pos) == Stmt(Some(HttpRequestAssign(v, url, data, header, requestType)), end + 2)
  {
  }

  /** The tokens of a printed request, one part at a time: p1 is the position of the
    * comma after the variable, p2 the position after the URL and end that of `)`. */
  lemma HttpLayout(toks: seq<Token>, pos: nat, v: string, url: string, data: string, header: string, requestType: string)
    returns (p1: nat, p2: nat, end: nat)
    requires SpellsAt(toks, pos, PrintStatement(HttpRequestAssign(v, url, data, header, requestType)))
    ensures pos + 1 < |toks| && toks[pos].kind == Http && toks[pos + 1].kind == LParen
    ensures VarField(toks, pos + 2) == Field(v, p1) && At(toks, p1).kind == Comma
    ensures StrField(toks, p1 + 1) == Field(url, p2) && OptionalFields(toks, p2) == Extras(data, header, requestType, end)
    ensures end + 1 < |toks| && toks[end].kind == RParen && toks[end + 1].kind == Semicolon
    ensures end + 2 == pos + |PrintStatement(HttpRequestAssign(v, url, data, header, requestType))|
  {
    var opener, args, closer := [Token(Http, "http"), Token(LParen, "(")], PrintArgs(v, url, data, header, requestType), [Token(RParen, ")"), Token(Semicolon, ";")];
    assert PrintStatement(HttpRequestAssign(v, url, data, header, requestType)) == opener + args + closer;
    SpellsSplit3(toks, pos, opener, args, closer);
    PairTokens(toks, pos, opener[0], opener[1]);
    end := pos + 2 + |args|;
    PairTokens(toks, end, closer[0], closer[1]);
    p1 := pos + 2 + |OptToken(TokenKind.Variable, v)|;
    p2 := p1 + 1 + |OptToken(TokenKind.Str, url)|;
    ArgsTrip(toks, pos + 2, v, url, data, header, requestType, p1, p2, end);
  }

  lemma HttpTrip(toks: seq<Token>, pos: nat, v: string, url: string, data: string, header: string, requestType: string)
    requires SpellsAt(toks, pos, PrintStatement(HttpRequestAssign(v, url, data, header, requestType)))
    ensures Statement(toks, pos)
         == Stmt(Some(HttpRequestAssign(v, url, data, header, requestType)),
                 pos + |PrintStatement(HttpRequestAssign(v, url, data, header, requestType))|)
  {
    var p1, p2, end := HttpLayout(toks, pos, v, url, data, header, requestType);
    RequestTrip(toks, pos, v, url, data, header, requestType, p1, p2, end);
  }

  /** The echo branch of parse, given that the expression reads back. */
  lemma EchoStep(toks: seq<Token>, pos: nat, e: Node, end: nat)
    requires pos < |toks| && toks[pos].kind == Echo && Expr(toks, pos + 1) == Parsed(e, end)
    requires end < |toks| && toks[end].kind == Semicolon
    ensures Statement(toks, pos) == Stmt(Some(Print(e)), end + 1)
  {
  }

  /** The assignment branch of parse, given that the expression reads back. */
  lemma AssignStep(toks: seq<Token>, pos: nat, x: string, e: Node, end: nat)
    requires pos + 1 < |toks| && toks[pos] == Token(TokenKind.Variable, x) && toks[pos + 1].kind == Assign
    requires Expr(toks, pos + 2) == Parsed(e, end)
    requires end < |toks| && toks[end].kind == Semicolon
    ensures Statement(toks, pos) == Stmt(Some(Assignment(x, e)), end + 1)
  {
  }

  /** An expression followed by a semicolon reads back up to the semicolon. */
  lemma ExprThenSemicolon(toks: seq<Token>, pos: nat, e: Node, end: nat)
    requires IsExpr(e) && SpellsAt(toks, pos, PrintAt(e, 0) + [Token(Semicolon, ";")])
    requires end == pos + |PrintAt(e, 0)|
    ensures end < |toks| && toks[end].kind == Semicolon && Expr(toks, pos) == Parsed(e, end)
  {
    SpellsSplit(toks, pos, PrintAt(e, 0), [Token(Semicolon, ";")]);
    SpellsToken(toks, end, Token(Semicolon, ";"));
    ExprRoundTrip(toks, pos, e);
  }

  /** The tokens of a printed echo statement, one part at a time. */
  lemma EchoLayout(toks: seq<Token>, pos: nat, e: Node) returns (end: nat)
    requires IsExpr(e) && SpellsAt(toks, pos, PrintStatement(Print(e)))
    ensures pos < |toks| && toks[pos].kind == Echo && Expr(toks, pos + 1) == Parsed(e, end)
    ensures end < |toks| && toks[end].kind == Semicolon && end + 1 == pos + |PrintStatement(Print(e))|
  {
    var echo, rest := [Token(Echo, "echo")], PrintAt(e, 0) + [Token(Semicolon, ";")];
    assert PrintStatement(Print(e)) == echo + rest;
    SpellsSplit(toks, pos, echo, rest);
    SpellsToken(toks, pos, Token(Echo, "echo"));
    end := pos + 1 + |PrintAt(e, 0)|;
    ExprThenSemicolon(toks, pos + 1, e, end);
  }

  lemma EchoTrip(toks: seq<Token>, pos: nat, e: Node)
    requires IsExpr(e) && SpellsAt(toks, pos, PrintStatement(Print(e)))
    ensures Statement(toks, pos) == Stmt(Some(Print(e)), pos + |PrintStatement(Print(e))|)
  {
    var end := EchoLayout(toks, pos, e);
    EchoStep(toks, pos, e, end);
  }

  /** The tokens of a printed assignment, one part at a time. */
  lemma AssignLayout(toks: seq<Token>, pos: nat, x: string, e: Node) returns (end: nat)
    requires IsExpr(e) && SpellsAt(toks, pos, PrintStatement(Assignment(x, e)))
    ensures pos + 1 < |toks| && toks[pos] == Token(TokenKind.Variable, x) && toks[pos + 1].kind == Assign
    ensures Expr(toks, pos + 2) == Parsed(e, end)
    ensures end < |toks| && toks[end].kind == Semicolon && end + 1 == pos + |PrintStatement(Assignment(x, e))|
  {
    var head, rest := [Token(TokenKind.Variable, x), Token(Assign, "=")], PrintAt(e, 0) + [Token(Semicolon, ";")];
    assert PrintStatement(Assignment(x, e)) == head + rest;
    SpellsSplit(toks, pos, head, rest);
    PairTokens(toks, pos, head[0], head[1]);
    end := pos + 2 + |PrintAt(e, 0)|;
    ExprThenSemicolon(toks, pos + 2, e, end);
  }

  lemma AssignTrip(toks: seq<Token>, pos: nat, x: string, e: Node)
    requires IsExpr(e) && SpellsAt(toks, pos, PrintStatement(Assignment(x, e)))
    ensures Statement(toks, pos) == Stmt(Some(Assignment(x, e)), pos + |PrintStatement(Assignment(x, e))|)
  {
    var end := AssignLayout(toks, pos, x, e);
    AssignStep(toks, pos, x, e, end);
  }

  lemma DbTrip(toks: seq<Token>, pos: nat, q: string)
    requires SpellsAt(toks, pos, PrintStatement(DbQuery(q)))
    ensures Statement(toks, pos) == Stmt(Some(DbQuery(q)), pos + 3)
  {
    var p := PrintStatement(DbQuery(q));
    assert toks[pos + 0] == p[0] && toks[pos + 1] == p[1] && toks[pos + 2] == p[2];
  }

  lemma TextTrip(toks: seq<Token>, pos: nat, s: string)
    requires SpellsAt(toks, pos, PrintStatement(Node.Text(s)))
    ensures Statement(toks, pos) == Stmt(Some(Node.Text(s)), pos + 1)
  {
    assert toks[pos + 0] == PrintStatement(Node.Text(s))[0];
  }

  /** parse reads back one printed statement and resumes right after it. */
  lemma StatementRoundTrip(toks: seq<Token>, pos: nat, n: Node)
    requires IsStatement(n) && SpellsAt(toks, pos, PrintStatement(n))
    ensures pos < |toks| && Statement(toks, pos) == Stmt(Some(n), pos + |PrintStatement(n)|)
  {
    match n
    case Text(s) => TextTrip(toks, pos, s);
    case Print(e) => EchoTrip(toks, pos, e);
    case DbQuery(q) => DbTrip(toks, pos, q);
    case HttpRequestAssign(v, url, data, header, requestType) => HttpTrip(toks, pos, v, url, data, header, requestType);
    case Assignment(x, e) => AssignTrip(toks, pos, x, e);
  }

  /** The tokens of a program: its statements one after another. */
  function PrintProgram(ns: seq<Node>): seq<Token> {
    if ns == [] then [] else PrintStatement(ns[0]) + PrintProgram(ns[1..])
  }

  /** One pass of the loop of parse that yields a node. */
  lemma ParseStep(toks: seq<Token>, pos: nat, n: Node, next: nat, rest: seq<Node>, end: nat)
    requires pos < |toks| && Statement(toks, pos) == Stmt(Some(n), next)
    requires ParseFrom(toks, next) == Program(rest, end)
    ensures ParseFrom(toks, pos) == Program([n] + rest, end)
  {
  }

  /** A printed program: its first statement, then the rest. */
  lemma ProgramSplit(toks: seq<Token>, pos: nat, ns: seq<Node>) returns (next: nat)
    requires ns != [] && SpellsAt(toks, pos, PrintProgram(ns))
    ensures SpellsAt(toks, pos, PrintStatement(ns[0])) && next == pos + |PrintStatement(ns[0])|
    ensures SpellsAt(toks, next, PrintProgram(ns[1..])) && next + |PrintProgram(ns[1..])| == pos + |PrintProgram(ns)|
  {
    var p := PrintStatement(ns[0]);
    SpellsSplit(toks, pos, p, PrintProgram(ns[1..]));
    next := pos + |p|;
  }

  /** The first statement of a printed program reads back. */
  lemma FirstStatement(toks: seq<Token>, pos: nat, ns: seq<Node>) returns (next: nat)
    requires ns != [] && AllStatements(ns) && SpellsAt(toks, pos, PrintProgram(ns))
    ensures pos < |toks| && Statement(toks, pos) == Stmt(Some(ns[0]), next)
    ensures AllStatements(ns[1..]) && SpellsAt(toks, next, PrintProgram(ns[1..]))
    ensures next + |PrintProgram(ns[1..])| == pos + |PrintProgram(ns)|
  {
    next := ProgramSplit(toks, pos, ns);
    StatementRoundTrip(toks, pos, ns[0]);
    AllStatementsTail(ns);
  }

  lemma AllStatementsTail(ns: seq<Node>)
    requires ns != [] && AllStatements(ns)
    ensures AllStatements(ns[1..])
  {
    forall i | 0 <= i < |ns[1..]| ensures IsStatement(ns[1..][i]) {
      assert ns[1..][i] == ns[i + 1];
    }
  }

  /** parse reads back a printed program that is followed by an EOF token. */
  lemma {:induction false} ProgramRoundTrip(toks: seq<Token>, pos: nat, ns: seq<Node>, end: nat)
    requires AllStatements(ns) && SpellsAt(toks, pos, PrintProgram(ns))
    requires end == pos + |PrintProgram(ns)| && end < |toks| && toks[end].kind == EOF
    ensures ParseFrom(toks, pos) == Program(ns, end)
    decreases |ns|
  {
    if ns != [] {
      var next := FirstStatement(toks, pos, ns);
      ProgramRoundTrip(toks, next, ns[1..], end);
      ParseStep(toks, pos, ns[0], next, ns[1..], end);
      assert [ns[0]] + ns[1..] == ns;
    }
  }

  /** Printing a program and parsing the tokens, closed by the EOF token, gives the
    * program back. */
  lemma ParsePrinted(ns: seq<Node>)
    requires AllStatements(ns)
    ensures Parse(PrintProgram(ns) + [EndToken]) == ns
  {
    var toks := PrintProgram(ns) + [EndToken];
    assert SpellsAt(toks, 0, PrintProgram(ns)) by {
      forall k | 0 <= k < |PrintProgram(ns)| ensures toks[0 + k] == PrintProgram(ns)[k] {
      }
    }
    assert toks[|PrintProgram(ns)|] == EndToken;
    ProgramRoundTrip(toks, 0, ns, |PrintProgram(ns)|);
  }
}
