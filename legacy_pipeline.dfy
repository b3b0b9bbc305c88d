/** The main function of the single-file variant (php.cpp): tokenize, parse and interpret
  * with a fresh interpreter. */
module LegacyPipeline {
  import opened Ast
  import opened LegacyTokens
  import Tokens
  import Patterns
  import LexerFacts
  import LegacyLexer
  import LegacyLexerFacts
  import LegacyParsing
  import LegacyGrammarFacts
  import Grammar
  import GrammarFacts
  import Interp
  import LegacyInterp
  import Pipeline

  /** The run of a source text. */
  function RunSource<N>(ctx: Interp.Context<N>, src: string): Interp.Run<N> {
    LegacyInterp.RunFrom(ctx, Interp.State(map[], ""), LegacyParsing.Parse(LegacyLexer.Tokenize(src)))
  }

  /** Since its parser builds no http statement, the variant runs its statements as the
    * canonical interpreter would. */
  lemma CanonicalRun<N>(ctx: Interp.Context<N>, src: string)
    ensures var nodes := LegacyParsing.Parse(LegacyLexer.Tokenize(src));
      RunSource(ctx, src) == Interp.RunFrom(ctx, Interp.State(map[], ""), nodes)
  {
    var nodes := LegacyParsing.Parse(LegacyLexer.Tokenize(src));
    LegacyGrammarFacts.NoHttpStatement(LegacyLexer.Tokenize(src));
    LegacyInterp.AgreesWithCanonical(ctx, Interp.State(map[], ""), nodes);
  }

  /** Projecting tokens keeps what they spell. */
  lemma {:induction false} SpellingProjection(ts: seq<Token>)
    ensures LexerFacts.Spelling(LegacyParsing.Projection(ts)) == LegacyLexerFacts.Spelling(ts)
    decreases |ts|
  {
    if |ts| > 0 {
      var ps := LegacyParsing.Projection(ts);
      var front := ts[..|ts| - 1];
      assert ps[..|ps| - 1] == LegacyParsing.Projection(front);
      assert ps[|ps| - 1] == LegacyParsing.Project(ts[|ts| - 1]);
      SpellingProjection(front);
    }
  }

  /** A source without tags is printed exactly as it is, every `<` included, whatever the
    * oracles; nothing throws and no variable is bound. */
  lemma MarkerFreeSource<N>(ctx: Interp.Context<N>, src: string)
    requires LexerFacts.NoMarkers(src)
    ensures RunSource(ctx, src) == Interp.Run(Interp.State(map[], src), false)
  {
    LegacyLexerFacts.VerbatimText(src);
    var ts := LegacyLexer.Tokenize(src);
    var end := |ts| - 1;
    var ps := LegacyParsing.Projection(ts);
    forall k | 0 <= k < end ensures ps[k].kind == Tokens.Text {
      LegacyParsing.ProjectAt(ts, k);
    }
    LegacyParsing.ProjectAt(ts, end);
    GrammarFacts.TextRun(ps, 0, end);
    assert ps[0..end] == ps[..end] == LegacyParsing.Projection(ts[..end]);
    CanonicalRun(ctx, src);
    Pipeline.TextsRun(ctx, Interp.State(map[], ""), ps[..end]);
    SpellingProjection(ts[..end]);
    assert "" + src == src;
  }

  /** A close tag at the very start leaves nothing to parse: the run prints nothing. */
  lemma StrayCloseTag<N>(ctx: Interp.Context<N>, src: string)
    requires Patterns.HasPrefixAt(src, 0, "?>")
    ensures RunSource(ctx, src) == Interp.Run(Interp.State(map[], ""), false)
  {
    LegacyLexerFacts.StrayCloseTag(src);
    assert LegacyParsing.Projection([]) == [];
  }
}
