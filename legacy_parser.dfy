/** The parser of the single-file variant (php.cpp). Its parse loop, parseExpression,
  * parseTerm, parseFactor and parseVariable are those of the canonical parser, with PRINT
  * for `echo`, explicit branches that skip the open and close tags, and no http
  * statement. The tags play no part a comma does not play in the canonical grammar: away
  * from an http statement, which no legacy token can start, both are an unexpected token
  * that is consumed. So the legacy parser is specified by the canonical grammar on the
  * projected tokens, and each method is proved to compute it. */
module LegacyParsing {
  import opened Ast
  import opened LegacyTokens
  import Tokens
  import Grammar

  /** The canonical token a legacy token plays the part of: the tags stand for a comma,
    * PRINT for ECHO, every other kind for its namesake; the lexeme is kept. */
  function Project(t: Token): (p: Tokens.Token)
    ensures Agrees(t, p)
  {
    var k := match t.kind
      case EOF => Tokens.EOF
      case OpenTag => Tokens.Comma
      case CloseTag => Tokens.Comma
      case Print => Tokens.Echo
      case Str => Tokens.Str
      case Semicolon => Tokens.Semicolon
      case Db => Tokens.Db
      case Text => Tokens.Text
      case Variable => Tokens.Variable
      case Operator => Tokens.Operator
      case Assign => Tokens.Assign
      case Number => Tokens.Number
      case LParen => Tokens.LParen
      case RParen => Tokens.RParen;
    Tokens.Token(k, t.value)
  }

  /** A canonical token stands for a legacy one: the same lexeme, and kind for kind the
    * correspondence of the projection; nothing stands for `http`. */
  predicate Agrees(t: Token, p: Tokens.Token) {
    && p.value == t.value
    && (p.kind.EOF? <==> t.kind.EOF?)
    && (p.kind.Comma? <==> IsTag(t.kind))
    && (p.kind.Echo? <==> t.kind.Print?)
    && (p.kind.Str? <==> t.kind.Str?)
    && (p.kind.Semicolon? <==> t.kind.Semicolon?)
    && (p.kind.Db? <==> t.kind.Db?)
    && (p.kind.Text? <==> t.kind.Text?)
    && (p.kind.Variable? <==> t.kind.Variable?)
    && (p.kind.Operator? <==> t.kind.Operator?)
    && (p.kind.Assign? <==> t.kind.Assign?)
    && (p.kind.Number? <==> t.kind.Number?)
    && (p.kind.LParen? <==> t.kind.LParen?)
    && (p.kind.RParen? <==> t.kind.RParen?)
    && !p.kind.Http?
  }

  /** The projection of a whole token vector, token by token. */
  function Projection(ts: seq<Token>): (ps: seq<Tokens.Token>)
    ensures |ps| == |ts|
  {
    if |ts| == 0 then [] else Projection(ts[..|ts| - 1]) + [Project(ts[|ts| - 1])]
  }

  /** The token at index i, or EOF beyond the end. */
  function At(ts: seq<Token>, i: nat): Token {
    if i < |ts| then ts[i] else EndToken
  }

  /** The projection reads, at every index, the projection of the token there. */
  lemma {:induction false} ProjectAt(ts: seq<Token>, i: nat)
    ensures Agrees(At(ts, i), Grammar.At(Projection(ts), i))
    decreases |ts|
  {
    if i + 1 < |ts| {
      ProjectAt(ts[..|ts| - 1], i);
    }
  }

  /** The additive operators, spelled as the loop test of parseExpression spells them. */
  lemma AddOpSpelling(op: string)
    ensures IsAddOp(op) <==> op == "+" || op == "-" || op == "."
  {
    if |op| == 1 {
      assert op == [op[0]];
    }
  }

  /** The multiplicative operators, spelled as the loop test of parseTerm spells them. */
  lemma MulOpSpelling(op: string)
    ensures IsMulOp(op) <==> op == "*" || op == "/"
  {
    if |op| == 1 {
      assert op == [op[0]];
    }
  }

  /** The loop test of parseExpression, on the legacy tokens. */
  lemma AddOpAtView(ts: seq<Token>, i: nat)
    ensures Grammar.AddOpAt(Projection(ts), i) <==> i < |ts| && ts[i].kind == Operator && IsAddOp(ts[i].value)
  {
    ProjectAt(ts, i);
  }

  /** The loop test of parseTerm, on the legacy tokens. */
  lemma MulOpAtView(ts: seq<Token>, i: nat)
    ensures Grammar.MulOpAt(Projection(ts), i) <==> i < |ts| && ts[i].kind == Operator && IsMulOp(ts[i].value)
  {
    ProjectAt(ts, i);
  }

  /** The nodes a fresh legacy parser's parse returns. */
  function Parse(ts: seq<Token>): seq<Node> {
    Grammar.Parse(Projection(ts))
  }

  class Parser {
    const tokens: seq<Token>
    var position: nat

    /** The canonical tokens the legacy ones stand for. */
    function View(): seq<Tokens.Token> {
      Projection(tokens)
    }

    /** A new parser starts at the first token. */
    constructor (tokens: seq<Token>)
      ensures this.tokens == tokens && position == 0
    {
      this.tokens := tokens;
      position := 0;
    }

    /** parse: the statements from the current position on. */
    method Parse() returns (nodes: seq<Node>)
      modifies this`position
      ensures Grammar.ParseFrom(View(), old(position)) == Grammar.Program(nodes, position)
    {
      nodes := [];
      while position < |tokens| && tokens[position].kind != EOF
        invariant Grammar.ParseFrom(View(), old(position))
               == Grammar.Program(nodes + Grammar.ParseFrom(View(), position).nodes, Grammar.ParseFrom(View(), position).end)
        decreases |tokens| - position
      {
        ghost var start := position;
        ProjectAt(tokens, position);
        var node := ParseStatement();
        if node.Some? {
          nodes := nodes + [node.value];
        }
        assert Grammar.ParseFrom(View(), start).nodes
            == (if node.Some? then [node.value] else []) + Grammar.ParseFrom(View(), position).nodes;
      }
      ProjectAt(tokens, position);
    }

    /** One pass of the loop of parse; the tags are skipped one token at a time. */
    method ParseStatement() returns (node: Option<Node>)
      requires position < |tokens|
      modifies this`position
      ensures Grammar.Statement(View(), old(position)) == Grammar.Stmt(node, position)
    {
      var t := tokens[position];
      node := None;
      if t.kind == TokenKind.Print {
        node := ParsePrint();
      } else if t.kind == Db {
        node := ParseQuery();
      } else if t.kind == TokenKind.Variable {
        node := ParseAssignment();
      } else {
        ProjectAt(tokens, position);
        if t.kind == TokenKind.Text {
          node := Some(Node.Text(t.value));
        }
        // OPEN_TAG and CLOSE_TAG are skipped; anything else is an "Unexpected token"
        position := position + 1;
      }
    }

    /** The PRINT branch of parse: an expression and a semicolon. */
    method ParsePrint() returns (node: Option<Node>)
      requires position < |tokens| && tokens[position].kind == TokenKind.Print
      modifies this`position
      ensures Grammar.Statement(View(), old(position)) == Grammar.Stmt(node, position)
    {
      ProjectAt(tokens, position);
      node := None;
      position := position + 1;
      var expr := ParseExpression();
      ProjectAt(tokens, position);
      if At(tokens, position).kind == Semicolon {
        position := position + 1;
        node := Some(Node.Print(expr));
      }
      // otherwise: "Expected semicolon after expression"
    }

    /** The DB branch of parse: a string literal and a semicolon. */
    method ParseQuery() returns (node: Option<Node>)
      requires position < |tokens| && tokens[position].kind == Db
      modifies this`position
      ensures Grammar.Statement(View(), old(position)) == Grammar.Stmt(node, position)
    {
      ProjectAt(tokens, position);
      ProjectAt(tokens, position + 1);
      ProjectAt(tokens, position + 2);
      node := None;
      position := position + 1;
      if At(tokens, position).kind == TokenKind.Str {
        var query := tokens[position].value;
        position := position + 1;
        if At(tokens, position).kind == Semicolon {
          position := position + 1;
          node := Some(DbQuery(query));
        }
        // otherwise: "Expected semicolon after query"
      }
      // otherwise: "Expected query after db"
    }

    /** The VARIABLE branch of parse: the variable, `=`, an expression and a semicolon. */
    method ParseAssignment() returns (node: Option<Node>)
      requires position < |tokens| && tokens[position].kind == TokenKind.Variable
      modifies this`position
      ensures Grammar.Statement(View(), old(position)) == Grammar.Stmt(node, position)
    {
      ProjectAt(tokens, position);
      node := None;
      var variable := ParseVariable();
      ProjectAt(tokens, position);
      if At(tokens, position).kind == Assign {
        position := position + 1;
        var expr := ParseExpression();
        ProjectAt(tokens, position);
        if At(tokens, position).kind == Semicolon {
          position := position + 1;
          node := Some(Assignment(variable.value.name, expr));
        }
        // otherwise: "Expected semicolon after assignment"
      }
      // otherwise: "Expected assignment operator after variable"
    }

    /** parseExpression */
    method ParseExpression() returns (node: Node)
      requires position <= |tokens|
      modifies this`position
      ensures Grammar.Expr(View(), old(position)) == Grammar.Parsed(node, position)
      decreases |tokens| + 1 - position, 2
    {
      node := ParseTerm();
      // the test `+`, `-` or `.` of the source, as AddOpSpelling shows
      while position < |tokens| && tokens[position].kind == Operator && IsAddOp(tokens[position].value)
        invariant old(position) < position <= |tokens| + 1 && IsExpr(node)
        invariant Grammar.ExprLoop(View(), position, node) == Grammar.Expr(View(), old(position))
        decreases |tokens| + 1 - position
      {
        AddOpAtView(tokens, position);
        ProjectAt(tokens, position);
        ghost var at, left := position, node;
        var op := tokens[position].value;
        position := position + 1;
        var right := ParseTerm();
        node := Binary(node, op, right);
        assert Grammar.ExprLoop(View(), at, left) == Grammar.ExprLoop(View(), position, node);
      }
      AddOpAtView(tokens, position);
    }

    /** parseTerm */
    method ParseTerm() returns (node: Node)
      requires position <= |tokens|
      modifies this`position
      ensures Grammar.Term(View(), old(position)) == Grammar.Parsed(node, position)
      decreases |tokens| + 1 - position, 1
    {
      node := ParseFactor();
      // the test `*` or `/` of the source, as MulOpSpelling shows
      while position < |tokens| && tokens[position].kind == Operator && IsMulOp(tokens[position].value)
        invariant old(position) < position <= |tokens| + 1 && IsExpr(node)
        invariant Grammar.TermLoop(View(), position, node) == Grammar.Term(View(), old(position))
        decreases |tokens| + 1 - position
      {
        MulOpAtView(tokens, position);
        ProjectAt(tokens, position);
        ghost var at, left := position, node;
        var op := tokens[position].value;
        position := position + 1;
        var right := ParseFactor();
        node := Binary(node, op, right);
        assert Grammar.TermLoop(View(), at, left) == Grammar.TermLoop(View(), position, node);
      }
      MulOpAtView(tokens, position);
    }

    /** parseFactor */
    method ParseFactor() returns (node: Node)
      requires position <= |tokens|
      modifies this`position
      ensures Grammar.Factor(View(), old(position)) == Grammar.Parsed(node, position)
      decreases |tokens| + 1 - position, 0
    {
      var t := At(tokens, position);
      ProjectAt(tokens, position);
      if t.kind == Number {
        node := Num(t.value);
        position := position + 1;
      } else if t.kind == TokenKind.Variable {
        node := Node.Variable(t.value);
        position := position + 1;
      } else if t.kind == TokenKind.Str {
        node := Node.Str(t.value);
        position := position + 1;
      } else if t.kind == LParen {
        position := position + 1;
        node := ParseExpression();
        ProjectAt(tokens, position);
        if At(tokens, position).kind == RParen {
          position := position + 1;
        }
        // otherwise: "Expected closing parenthesis"
      } else {
        // "Unexpected token": the null node
        node := Hole;
        position := position + 1;
      }
    }

    /** parseVariable: a variable node for a variable token, consumed; otherwise null and
      * the position unchanged. */
    method ParseVariable() returns (node: Option<Node>)
      modifies this`position
      ensures At(tokens, old(position)).kind == TokenKind.Variable ==>
        node == Some(Node.Variable(At(tokens, old(position)).value)) && position == old(position) + 1
      ensures At(tokens, old(position)).kind != TokenKind.Variable ==>
        node == None && position == old(position)
    {
      node := None;
      if At(tokens, position).kind == TokenKind.Variable {
        node := Some(Node.Variable(tokens[position].value));
        position := position + 1;
      }
    }
  }
}
