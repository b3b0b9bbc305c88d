/** What the legacy parse promises: it never builds an http statement, it skips a tag at
  * a statement boundary, and like the canonical one it returns statements only. */
module LegacyGrammarFacts {
  import opened Ast
  import opened LegacyTokens
  import opened LegacyParsing
  import Tokens
  import Grammar
  import GrammarFacts

  /** No node of a list is an http statement. */
  predicate NoHttpNodes(ns: seq<Node>) {
    forall i | 0 <= i < |ns| :: !ns[i].HttpRequestAssign?
  }

  /** Canonical tokens without an `http` keyword parse to nodes without an http statement. */
  lemma {:induction false} HttpFreeParse(toks: seq<Tokens.Token>, pos: nat)
    requires forall k | 0 <= k < |toks| :: !toks[k].kind.Http?
    ensures NoHttpNodes(Grammar.ParseFrom(toks, pos).nodes)
    decreases |toks| - pos
  {
    if pos < |toks| && !toks[pos].kind.EOF? {
      var s := Grammar.Statement(toks, pos);
      HttpFreeParse(toks, s.next);
      var rest := Grammar.ParseFrom(toks, s.next).nodes;
      if s.node.Some? {
        assert !s.node.value.HttpRequestAssign?;
        forall i | 0 <= i < |[s.node.value] + rest| ensures !([s.node.value] + rest)[i].HttpRequestAssign? {
          if i > 0 {
            assert ([s.node.value] + rest)[i] == rest[i - 1];
          }
        }
      }
    }
  }

  /** The single-file variant has no http statement: no legacy token projects to `http`. */
  lemma NoHttpStatement(ts: seq<Token>)
    ensures NoHttpNodes(Parse(ts))
  {
    var ps := Projection(ts);
    forall k | 0 <= k < |ps| ensures !ps[k].kind.Http? {
      ProjectAt(ts, k);
    }
    HttpFreeParse(ps, 0);
  }

  /** An open or close tag where a statement may start is consumed on its own and
    * contributes nothing. */
  lemma TagSkipped(ts: seq<Token>, pos: nat)
    requires pos < |ts| && IsTag(ts[pos].kind)
    ensures Grammar.ParseFrom(Projection(ts), pos) == Grammar.ParseFrom(Projection(ts), pos + 1)
  {
    ProjectAt(ts, pos);
  }

  /** Every node the legacy parse returns is one of the statements, with expression
    * children. */
  lemma ParseGivesStatements(ts: seq<Token>)
    ensures AllStatements(Parse(ts))
  {
    GrammarFacts.ParseGivesStatements(Projection(ts), 0);
  }
}
