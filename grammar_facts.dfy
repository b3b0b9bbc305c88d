/** What parse promises about its result, for every token vector. */
module GrammarFacts {
  import opened Tokens
  import opened Ast
  import opened Grammar
  import opened Printer

  /** Every node parse returns is one of the five statements, with expression children. */
  lemma {:induction false} ParseGivesStatements(toks: seq<Token>, pos: nat)
    ensures AllStatements(ParseFrom(toks, pos).nodes)
    decreases |toks| - pos
  {
    if pos < |toks| && toks[pos].kind != EOF {
      var s := Statement(toks, pos);
      StatementIsStatement(toks, pos);
      ParseGivesStatements(toks, s.next);
      var rest := ParseFrom(toks, s.next).nodes;
      if s.node.Some? {
        forall i | 0 <= i < |[s.node.value] + rest| ensures IsStatement(([s.node.value] + rest)[i]) {
          if i > 0 {
            assert ([s.node.value] + rest)[i] == rest[i - 1];
          }
        }
      }
    }
  }

  lemma StatementIsStatement(toks: seq<Token>, pos: nat)
    requires pos < |toks|
    ensures Statement(toks, pos).node.Some? ==> IsStatement(Statement(toks, pos).node.value)
  {
  }

  /** parse yields at most one node per token it reads. */
  lemma {:induction false} ParseCount(toks: seq<Token>, pos: nat)
    ensures ParseFrom(toks, pos).nodes == [] || pos + |ParseFrom(toks, pos).nodes| <= |toks|
    decreases |toks| - pos
  {
    if pos < |toks| && toks[pos].kind != EOF {
      var s := Statement(toks, pos);
      ParseCount(toks, s.next);
    }
  }

  /** The nodes parse returns are no more than the tokens. */
  lemma ParseBound(toks: seq<Token>)
    ensures |Parse(toks)| <= |toks|
  {
    ParseCount(toks, 0);
  }

  /** One text node per token, with the token's string. */
  function TextNodes(ts: seq<Token>): (ns: seq<Node>)
    ensures |ns| == |ts|
  {
    if ts == [] then [] else [Node.Text(ts[0].value)] + TextNodes(ts[1..])
  }

  /** A run of text tokens, up to the end of the vector or an EOF token, becomes the text
    * nodes with the identical strings, in order. */
  lemma {:induction false} TextRun(toks: seq<Token>, pos: nat, end: nat)
    requires pos <= end <= |toks| && (end == |toks| || toks[end].kind == EOF)
    requires forall k | pos <= k < end :: toks[k].kind == TokenKind.Text
    ensures ParseFrom(toks, pos) == Program(TextNodes(toks[pos..end]), end)
    decreases end - pos
  {
    if pos < end {
      TextRun(toks, pos + 1, end);
      assert toks[pos..end][1..] == toks[pos + 1..end];
    }
  }

  /** Both operators of a chain of two at the same level group to the left:
    * `x o1 y o2 z` is `(x o1 y) o2 z`. */
  lemma LeftAssociative(toks: seq<Token>, x: string, o1: string, y: string, o2: string, z: string)
    requires (IsAddOp(o1) && IsAddOp(o2)) || (IsMulOp(o1) && IsMulOp(o2))
    requires |toks| > 5 && toks[..5] == [Token(TokenKind.Variable, x), Token(Operator, o1), Token(TokenKind.Variable, y),
                                       Token(Operator, o2), Token(TokenKind.Variable, z)]
    requires toks[5].kind != Operator
    ensures Expr(toks, 0) == Parsed(Binary(Binary(Node.Variable(x), o1, Node.Variable(y)), o2, Node.Variable(z)), 5)
  {
    var l := Binary(Node.Variable(x), o1, Node.Variable(y));
    var e := Binary(l, o2, Node.Variable(z));
    var M := if IsAddOp(o1) then 0 else 1;
    VariablePrint(x, M);
    VariablePrint(y, M + 1);
    VariablePrint(z, M + 1);
    assert PrintAt(l, M) == [Token(TokenKind.Variable, x), Token(Operator, o1), Token(TokenKind.Variable, y)];
    assert PrintAt(e, 0) == PrintAt(l, M) + [Token(Operator, o2), Token(TokenKind.Variable, z)];
    assert SpellsAt(toks, 0, PrintAt(e, 0)) by {
      forall k | 0 <= k < 5 ensures toks[0 + k] == PrintAt(e, 0)[k] {
        assert toks[k] == toks[..5][k];
      }
    }
    ExprRoundTrip(toks, 0, e);
  }

  /** `*` and `/` bind tighter than `+`, `-` and `.`, on either side. */
  lemma MulBindsTighter(toks: seq<Token>, x: string, a: string, y: string, m: string, z: string)
    requires IsAddOp(a) && IsMulOp(m)
    requires |toks| > 5 && toks[..5] == [Token(TokenKind.Variable, x), Token(Operator, a), Token(TokenKind.Variable, y),
                                       Token(Operator, m), Token(TokenKind.Variable, z)]
    requires toks[5].kind != Operator
    ensures Expr(toks, 0) == Parsed(Binary(Node.Variable(x), a, Binary(Node.Variable(y), m, Node.Variable(z))), 5)
  {
    var r := Binary(Node.Variable(y), m, Node.Variable(z));
    var e := Binary(Node.Variable(x), a, r);
    VariablePrint(x, 0);
    VariablePrint(y, 1);
    VariablePrint(z, 2);
    assert PrintAt(r, 1) == [Token(TokenKind.Variable, y), Token(Operator, m), Token(TokenKind.Variable, z)];
    assert PrintAt(e, 0) == [Token(TokenKind.Variable, x), Token(Operator, a)] + PrintAt(r, 1);
    assert SpellsAt(toks, 0, PrintAt(e, 0)) by {
      forall k | 0 <= k < 5 ensures toks[0 + k] == PrintAt(e, 0)[k] {
        assert toks[k] == toks[..5][k];
      }
    }
    ExprRoundTrip(toks, 0, e);
  }

  lemma VariablePrint(x: string, L: nat)
    requires L <= 2
    ensures PrintAt(Node.Variable(x), L) == [Token(TokenKind.Variable, x)]
  {
  }

  /** A factor that cannot start is consumed and stands for the null node. */
  lemma UnexpectedFactor(toks: seq<Token>, pos: nat)
    requires pos <= |toks|
    requires var k := At(toks, pos).kind; !k.Number? && !k.Variable? && !k.Str? && !k.LParen?
    ensures Factor(toks, pos) == Parsed(Hole, pos + 1)
  {
  }

  /** A parenthesis left open still yields the inner expression, and the token found in
    * place of `)` is not consumed. */
  lemma UnclosedParen(toks: seq<Token>, pos: nat)
    requires pos < |toks| && toks[pos].kind == LParen
    requires At(toks, Expr(toks, pos + 1).next).kind != RParen
    ensures Factor(toks, pos) == Expr(toks, pos + 1)
  {
  }

  /** An echo statement without its `;` is dropped, and parse resumes at the token found in
    * place of the `;`. */
  lemma EchoWithoutSemicolon(toks: seq<Token>, pos: nat)
    requires pos < |toks| && toks[pos].kind == Echo
    requires At(toks, Expr(toks, pos + 1).next).kind != Semicolon
    ensures ParseFrom(toks, pos) == ParseFrom(toks, Expr(toks, pos + 1).next)
  {
  }

  /** An assignment without `=` is dropped, and parse resumes just after the variable. */
  lemma AssignmentWithoutEquals(toks: seq<Token>, pos: nat)
    requires pos < |toks| && toks[pos].kind == TokenKind.Variable && At(toks, pos + 1).kind != Assign
    ensures ParseFrom(toks, pos) == ParseFrom(toks, pos + 1)
  {
  }

  /** A query keeps the raw string lexeme, quotes included. */
  lemma QueryKeepsQuotes(toks: seq<Token>, pos: nat)
    requires pos + 2 < |toks| && toks[pos].kind == Db && toks[pos + 1].kind == TokenKind.Str
    requires toks[pos + 2].kind == Semicolon
    ensures ParseFrom(toks, pos).nodes == [DbQuery(toks[pos + 1].value)] + ParseFrom(toks, pos + 3).nodes
  {
  }
}
