/** The parser object (parser.h, parser.cpp): a cursor over a token vector, moved by
  * mutually recursive methods. Each method is proved to compute its function of the
  * grammar from the position it starts at. */
module Parsing {
  import opened Tokens
  import opened Ast
  import opened Grammar

  class Parser {
    const tokens: seq<Token>
    var position: nat

    /** A new parser starts at the first token. */
    constructor (tokens: seq<Token>)
      ensures this.tokens == tokens && position == 0
    {
      this.tokens := tokens;
      position := 0;
    }

    /** parse: the statements from the current position on. */
    method Parse() returns (nodes: seq<Node>)
      modifies this`position
      ensures ParseFrom(tokens, old(position)) == Program(nodes, position)
    {
      nodes := [];
      while position < |tokens| && tokens[position].kind != EOF
        invariant ParseFrom(tokens, old(position))
               == Program(nodes + ParseFrom(tokens, position).nodes, ParseFrom(tokens, position).end)
        decreases |tokens| - position
      {
        ghost var start := position;
        var node := ParseStatement();
        if node.Some? {
          nodes := nodes + [node.value];
        }
        assert ParseFrom(tokens, start).nodes
            == (if node.Some? then [node.value] else []) + ParseFrom(tokens, position).nodes;
      }
    }

    /** One pass of the loop of parse. Malformed statements leave the position after the
      * last token they consumed. */
    method ParseStatement() returns (node: Option<Node>)
      requires position < |tokens|
      modifies this`position
      ensures Statement(tokens, old(position)) == Stmt(node, position)
    {
      var t := tokens[position];
      node := None;
      if t.kind == TokenKind.Text {
        node := Some(Node.Text(t.value));
        position := position + 1;
      } else if t.kind == Echo {
        position := position + 1;
        var expr := ParseExpression();
        if At(tokens, position).kind == Semicolon {
          position := position + 1;
          node := Some(Print(expr));
        }
        // otherwise: "Expected semicolon after expression"
      } else if t.kind == Db {
        position := position + 1;
        if At(tokens, position).kind == TokenKind.Str {
          var query := tokens[position].value;
          position := position + 1;
          if At(tokens, position).kind == Semicolon {
            position := position + 1;
            node := Some(DbQuery(query));
          }
        }
      } else if t.kind == Http {
        node := ParseHttpRequest();
      } else if t.kind == TokenKind.Variable {
        var variable := ParseVariable();
        if At(tokens, position).kind == Assign {
          position := position + 1;
          var expr := ParseExpression();
          if At(tokens, position).kind == Semicolon {
            position := position + 1;
            node := Some(Assignment(variable.value.name, expr));
          }
        }
      } else {
        // "Unexpected token"
        position := position + 1;
      }
    }

    /** parseExpression */
    method ParseExpression() returns (node: Node)
      requires position <= |tokens|
      modifies this`position
      ensures Expr(tokens, old(position)) == Parsed(node, position)
      decreases |tokens| + 1 - position, 2
    {
      node := ParseTerm();
      while position < |tokens| && tokens[position].kind == Operator
        && (tokens[position].value == "+" || tokens[position].value == "-" || tokens[position].value == ".")
        invariant old(position) < position <= |tokens| + 1 && IsExpr(node)
        invariant ExprLoop(tokens, position, node) == Expr(tokens, old(position))
        decreases |tokens| + 1 - position
      {
        var op := tokens[position].value;
        position := position + 1;
        var right := ParseTerm();
        node := Binary(node, op, right);
      }
    }

    /** parseTerm */
    method ParseTerm() returns (node: Node)
      requires position <= |tokens|
      modifies this`position
      ensures Term(tokens, old(position)) == Parsed(node, position)
      decreases |tokens| + 1 - position, 1
    {
      node := ParseFactor();
      while position < |tokens| && tokens[position].kind == Operator
        && (tokens[position].value == "*" || tokens[position].value == "/")
        invariant old(position) < position <= |tokens| + 1 && IsExpr(node)
        invariant TermLoop(tokens, position, node) == Term(tokens, old(position))
        decreases |tokens| + 1 - position
      {
        var op := tokens[position].value;
        position := position + 1;
        var right := ParseFactor();
        node := Binary(node, op, right);
      }
    }

    /** parseFactor */
    method ParseFactor() returns (node: Node)
      requires position <= |tokens|
      modifies this`position
      ensures Factor(tokens, old(position)) == Parsed(node, position)
      decreases |tokens| + 1 - position, 0
    {
      var t := At(tokens, position);
      if t.kind == Number {
        node := Num(t.value);
        position := position + 1;
      } else if t.kind == TokenKind.Variable {
        node := Node.Variable(t.value);
        position := position + 1;
      } else if t.kind == TokenKind.Str {
        node := Node.Str(t.value);
        position := position + 1;
      } else if t.kind == LParen {
        position := position + 1;
        node := ParseExpression();
        if At(tokens, position).kind == RParen {
          position := position + 1;
        }
        // otherwise: "Expected closing parenthesis"
      } else {
        // "Unexpected token": the null node
        node := Hole;
        position := position + 1;
      }
    }

    /** parseVariable: a variable node for a variable token, consumed; otherwise null and
      * the position unchanged. */
    method ParseVariable() returns (node: Option<Node>)
      modifies this`position
      ensures At(tokens, old(position)).kind == TokenKind.Variable ==>
        node == Some(Node.Variable(At(tokens, old(position)).value)) && position == old(position) + 1
      ensures At(tokens, old(position)).kind != TokenKind.Variable ==>
        node == None && position == old(position)
    {
      node := None;
      if At(tokens, position).kind == TokenKind.Variable {
        node := Some(Node.Variable(tokens[position].value));
        position := position + 1;
      }
    }

    /** parseHttpRequest, at an `http` token. */
    method ParseHttpRequest() returns (node: Option<Node>)
      requires position < |tokens| && tokens[position].kind == Http
      modifies this`position
      ensures HttpRequest(tokens, old(position)) == Stmt(node, position)
    {
      ghost var start := position;
      node := None;
      position := position + 1;
      if At(tokens, position).kind != LParen {
        return;  // "Expected opening parenthesis"
      }
      position := position + 1;
      var varName := VariableArgument();
      ghost var afterName := position;
      assert VarField(tokens, start + 2) == Field(varName, afterName);
      if At(tokens, position).kind != Comma {
        return;  // "Expected comma after URL"
      }
      position := position + 1;
      var url := StringArgument();
      var data, header, requestType := OptionalArguments();
      ghost var x := Extras(data, header, requestType, position);
      assert HttpRequest(tokens, start) == HttpClose(tokens, varName, url, x);
      if At(tokens, position).kind != RParen {
        return;  // "Expected closing parenthesis"
      }
      position := position + 1;
      if At(tokens, position).kind != Semicolon {
        return;  // "Expected semicolon after HTTP request"
      }
      position := position + 1;
      node := Some(HttpRequestAssign(varName, url, data, header, requestType));
    }

    /** The nested optional data, header and type arguments of parseHttpRequest. */
    method OptionalArguments() returns (data: string, header: string, requestType: string)
      modifies this`position
      ensures OptionalFields(tokens, old(position)) == Extras(data, header, requestType, position)
    {
      data, header, requestType := "", "", "";
      if At(tokens, position).kind == Comma {
        position := position + 1;
        data := StringArgument();
        if At(tokens, position).kind == Comma {
          position := position + 1;
          header := StringArgument();
          if At(tokens, position).kind == Comma {
            position := position + 1;
            requestType := StringArgument();
          }
        }
      }
    }

    /** The optional variable argument of parseHttpRequest. */
    method VariableArgument() returns (name: string)
      modifies this`position
      ensures VarField(tokens, old(position)) == Field(name, position)
    {
      name := "";
      if At(tokens, position).kind == TokenKind.Variable {
        name := tokens[position].value;
        position := position + 1;
      }
    }

    /** An optional string literal argument of parseHttpRequest. */
    method StringArgument() returns (value: string)
      modifies this`position
      ensures StrField(tokens, old(position)) == Field(value, position)
    {
      value := "";
      if At(tokens, position).kind == TokenKind.Str {
        value := tokens[position].value;
        position := position + 1;
      }
    }
  }
}
