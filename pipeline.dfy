/** The three stages one after another: tokenize, parse and interpret with a fresh
  * interpreter. */
module Pipeline {
  import opened Tokens
  import opened Ast
  import opened Lexer
  import opened LexerFacts
  import opened Grammar
  import opened GrammarFacts
  import opened Interp

  /** The run of a source text. */
  function RunSource<N>(ctx: Context<N>, src: string): Run<N> {
    RunFrom(ctx, State(map[], ""), Parse(Tokenize(src)))
  }

  /** Text nodes write their strings one after another and change nothing else. */
  lemma {:induction false} TextsRun<N>(ctx: Context<N>, s: State<N>, ts: seq<Token>)
    ensures RunFrom(ctx, s, TextNodes(ts)) == Run(State(s.variables, s.output + Spelling(ts)), false)
    decreases |ts|
  {
    if ts == [] {
      assert s.output + Spelling(ts) == s.output;
    } else {
      var next := State(s.variables, s.output + ts[0].value);
      var ns := TextNodes(ts);
      assert ns[0] == Node.Text(ts[0].value) && ns[1..] == TextNodes(ts[1..]);
      assert Interp.Step(ctx, s, ns[0]) == Continue(next);
      assert RunFrom(ctx, s, ns) == RunFrom(ctx, next, ns[1..]);
      TextsRun(ctx, next, ts[1..]);
      SpellingCons(ts[0], ts[1..]);
      assert [ts[0]] + ts[1..] == ts;
      assert next.output + Spelling(ts[1..]) == s.output + Spelling(ts);
    }
  }

  /** A source without tags is copied to the output, less the `<` characters the scanner
    * drops, whatever the oracles; nothing throws and no variable is bound. */
  lemma MarkerFreeSource<N>(ctx: Context<N>, src: string)
    requires NoMarkers(src)
    ensures RunSource(ctx, src) == Run(State(map[], KeptText(src)), false)
  {
    TextOnly(src);
    var ts := Tokenize(src);
    var end := |ts| - 1;
    TextRun(ts, 0, end);
    assert ts[0..end] == ts[..end];
    TextsRun(ctx, State(map[], ""), ts[..end]);
    assert "" + KeptText(src) == KeptText(src);
  }

  /** In particular a source without `<`, not starting with `?>`, is printed as it is. */
  lemma PlainSource<N>(ctx: Context<N>, src: string)
    requires |src| > 0 && !Patterns.HasPrefixAt(src, 0, "?>")
    requires forall k | 0 <= k < |src| :: src[k] != '<'
    ensures RunSource(ctx, src) == Run(State(map[], src), false)
  {
    assert NoMarkers(src);
    MarkerFreeSource(ctx, src);
    KeptRun(src, |src|);
    assert src[..|src|] == src && src[|src|..] == "";
  }
}
