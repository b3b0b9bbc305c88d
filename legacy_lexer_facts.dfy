/** Properties of the single-file variant's scan. */
module LegacyLexerFacts {
  import opened LegacyTokens
  import opened Patterns
  import opened LegacyLexer
  import LexerFacts

  /** The text a token sequence spells, lexeme after lexeme: `LexerFacts.Spelling` for
    * this variant's token type (`LegacyPipeline.SpellingProjection` proves the two agree
    * through the token projection). */
  function Spelling(ts: seq<Token>): string {
    if |ts| == 0 then "" else Spelling(ts[..|ts| - 1]) + ts[|ts| - 1].value
  }

  /** Every token is a text token. */
  predicate AllText(ts: seq<Token>) {
    |ts| == 0 || (AllText(ts[..|ts| - 1]) && ts[|ts| - 1].kind == Text)
  }

  lemma {:induction false} AllTextAt(ts: seq<Token>, k: nat)
    requires AllText(ts) && k < |ts|
    ensures ts[k].kind == Text
    decreases |ts|
  {
    if k < |ts| - 1 {
      AllTextAt(ts[..|ts| - 1], k);
    }
  }

  /** A cursor outside code regions, at a position where no close tag starts, behind text
    * tokens that spell the input up to its position. */
  predicate Verbatim(src: string, c: Cursor) {
    && !c.inside && c.pos <= |src| && !HasPrefixAt(src, c.pos, "?>")
    && AllText(c.acc)
    && Spelling(c.acc) == src[..c.pos]
  }

  /** Outside a code region, where neither tag matches, a step emits one text token: a
    * `<` on its own, or the run of characters up to the next `<`. */
  lemma TextGo(src: string, c: Cursor) returns (n: nat)
    requires c.pos < |src| && !c.inside && OpenTagLength(src, c.pos) == 0 && !HasPrefixAt(src, c.pos, "?>")
    ensures 0 < n && c.pos + n <= |src|
    ensures Step(src, c) == Go(Cursor(c.pos + n, false, c.acc + [Token(Text, src[c.pos..c.pos + n])]))
    ensures src[c.pos] == '<' ==> n == 1
    ensures src[c.pos] != '<' ==> c.pos + n == |src| || src[c.pos + n] == '<'
  {
    var pos := c.pos;
    assert Step(src, c) == Go(Cursor(TextStep(src, pos).next, false, c.acc + TextStep(src, pos).emitted));
    if src[pos] == '<' {
      assert src[pos..pos + 1] == [src[pos]] == "<";
      n := 1;
    } else {
      assert src[pos..pos + 1][0] == src[pos];
      n := MatchLength(TextRun, src, pos);
    }
  }

  /** One more text token for the next n characters keeps the spelling. */
  lemma PushText(src: string, acc: seq<Token>, pos: nat, n: nat)
    requires pos + n <= |src| && AllText(acc) && Spelling(acc) == src[..pos]
    ensures AllText(acc + [Token(Text, src[pos..pos + n])])
    ensures Spelling(acc + [Token(Text, src[pos..pos + n])]) == src[..pos + n]
  {
    var ts := acc + [Token(Text, src[pos..pos + n])];
    assert ts[..|ts| - 1] == acc;
    assert src[..pos] + src[pos..pos + n] == src[..pos + n];
  }

  /** No close tag starts at a character other than `?`. */
  lemma NoCloseAt(src: string, k: nat)
    requires k < |src| ==> src[k] != '?'
    ensures !HasPrefixAt(src, k, "?>")
  {
    if k + 2 <= |src| {
      assert src[k..k + 2][0] == src[k];
    }
  }

  lemma AngleVerbatim(src: string, acc: seq<Token>, pos: nat)
    requires pos < |src| && (pos + 1 < |src| ==> src[pos + 1] != '?')
    requires AllText(acc) && Spelling(acc) == src[..pos]
    ensures Verbatim(src, Cursor(pos + 1, false, acc + [Token(Text, src[pos..pos + 1])]))
  {
    NoCloseAt(src, pos + 1);
    PushText(src, acc, pos, 1);
  }

  /** The cursor behind the next text token of a verbatim cursor of marker-free input is
    * verbatim as well. */
  lemma NextVerbatim(src: string, c: Cursor, n: nat)
    requires LexerFacts.NoMarkers(src) && Verbatim(src, c) && c.pos < |src|
    requires 0 < n && c.pos + n <= |src|
    requires src[c.pos] == '<' ==> n == 1
    requires src[c.pos] != '<' ==> c.pos + n == |src| || src[c.pos + n] == '<'
    ensures Verbatim(src, Cursor(c.pos + n, false, c.acc + [Token(Text, src[c.pos..c.pos + n])]))
  {
    if src[c.pos] == '<' {
      assert !LexerFacts.Opener(src, c.pos);
      AngleVerbatim(src, c.acc, c.pos);
    } else {
      NoCloseAt(src, c.pos + n);
      PushText(src, c.acc, c.pos, n);
    }
  }

  /** On marker-free input a step from such a cursor goes on to another one. */
  lemma StepVerbatim(src: string, c: Cursor)
    requires LexerFacts.NoMarkers(src) && Verbatim(src, c) && c.pos < |src|
    ensures Step(src, c).Go? && Verbatim(src, Step(src, c).next)
  {
    LexerFacts.NoTagAt(src, c.pos);
    var n := TextGo(src, c);
    NextVerbatim(src, c, n);
  }

  /** From such a cursor the scan of marker-free input runs to the end, adding only text
    * tokens, which spell the whole input. */
  lemma {:induction false} ScanVerbatim(src: string, c: Cursor)
    requires LexerFacts.NoMarkers(src) && Verbatim(src, c)
    ensures ScanFrom(src, c).Finished?
    ensures AllText(ScanFrom(src, c).tokens)
    ensures Spelling(ScanFrom(src, c).tokens) == src
    decreases |src| - c.pos
  {
    if c.pos < |src| {
      StepVerbatim(src, c);
      ScanVerbatim(src, Step(src, c).next);
    } else {
      assert src[..c.pos] == src;
    }
  }

  /** Marker-free input becomes text tokens and EOF, and the text tokens spell the input
    * exactly: unlike the canonical tokenizer, this one keeps every `<`. */
  lemma VerbatimText(src: string)
    requires LexerFacts.NoMarkers(src)
    ensures var ts := Tokenize(src);
      && |ts| > 0 && ts[|ts| - 1] == EndToken
      && (forall k | 0 <= k < |ts| - 1 :: ts[k].kind == Text)
      && Spelling(ts[..|ts| - 1]) == src
  {
    var c := Cursor(0, false, []);
    assert src[..0] == "";
    ScanVerbatim(src, c);
    var r := ScanFrom(src, c);
    assert Tokenize(src)[..|Tokenize(src)| - 1] == r.tokens;
    forall k | 0 <= k < |r.tokens| ensures r.tokens[k].kind == Text {
      AllTextAt(r.tokens, k);
    }
  }

  /** A close tag at the very start stops the scan before anything is emitted: tokenize
    * returns an empty vector, without EOF. */
  lemma StrayCloseTag(src: string)
    requires HasPrefixAt(src, 0, "?>")
    ensures Tokenize(src) == []
  {
    assert src[0] == src[0..2][0] == '?';
    assert OpenTagLength(src, 0) == 0;
    assert Step(src, Cursor(0, false, [])).Stop?;
  }

  /** Inside a code region a slash followed by a star is not a comment opener: the slash
    * is an operator token. */
  lemma SlashStar(src: string, pos: nat)
    requires pos + 1 < |src| && src[pos] == '/' && src[pos + 1] == '*'
    ensures CodeStep(src, pos) == Advance(pos + 1, [Token(Operator, "/")])
  {
    assert src[pos..pos + 1] == "/";
    assert src[pos..pos + 2][1] == '*';
    assert MatchLength(Literal("//"), src, pos) == 0;
    if pos + 4 <= |src| {
      assert src[pos..pos + 4][1] == '*';
    }
    assert MatchLength(Literal("echo"), src, pos) == 0;
    assert MatchLength(Literal("db"), src, pos) == 0;
    assert MatchLength(VariableName, src, pos) == 0 && MatchLength(Numeral, src, pos) == 0;
    assert PunctStep(src, pos) == Advance(pos + 1, [Token(Operator, "/")]);
  }

  /** The characters that start none of the patterns tried inside a code region; unlike
    * the canonical scanner, this one has no pattern for `http` or `,`. */
  predicate StartsNoPattern(c: char) {
    !IsDigit(c) && !IsOperatorChar(c) && c !in "ed$=\";()"
  }

  /** Such a character is skipped without a token. */
  lemma UnmatchedSkipped(src: string, pos: nat)
    requires pos < |src| && StartsNoPattern(src[pos])
    ensures CodeStep(src, pos) == Advance(pos + 1, [])
  {
    LexerFacts.FirstMiss(src, pos, "//");
    LexerFacts.FirstMiss(src, pos, "echo");
    LexerFacts.FirstMiss(src, pos, "db");
    LexerFacts.FirstMiss(src, pos, "=");
    LexerFacts.FirstMiss(src, pos, ";");
    LexerFacts.FirstMiss(src, pos, "(");
    LexerFacts.FirstMiss(src, pos, ")");
    assert WordStep(src, pos) == PunctStep(src, pos);
  }

  /** Keywords are bare prefixes here too: `dbx` is the keyword `db` and then an `x`. */
  lemma KeywordPrefix(src: string, pos: nat)
    requires HasPrefixAt(src, pos, "db")
    ensures CodeStep(src, pos) == Advance(pos + 2, [Token(Db, "db")])
  {
    assert src[pos] == src[pos..pos + 2][0] == 'd';
    LexerFacts.FirstMiss(src, pos, "//");
    LexerFacts.FirstMiss(src, pos, "echo");
  }

  /** The tag kinds among a token sequence, in order. */
  function Tags(ts: seq<Token>): seq<TokenKind> {
    if |ts| == 0 then []
    else Tags(ts[..|ts| - 1]) + (if IsTag(ts[|ts| - 1].kind) then [ts[|ts| - 1].kind] else [])
  }

  lemma {:induction false} TagsAppend(a: seq<Token>, b: seq<Token>)
    ensures Tags(a + b) == Tags(a) + Tags(b)
    decreases |b|
  {
    if |b| == 0 {
      assert a + b == a;
    } else {
      assert (a + b)[..|a + b| - 1] == a + b[..|b| - 1];
      TagsAppend(a, b[..|b| - 1]);
    }
  }

  /** Tags that alternate, open tag first. */
  predicate Alternating(tags: seq<TokenKind>) {
    && (|tags| > 0 ==> tags[0] == TokenKind.OpenTag)
    && forall i | 0 < i < |tags| :: tags[i] != tags[i - 1]
  }

  /** The last tag is an open one: a code region is open. */
  predicate RegionOpen(tags: seq<TokenKind>) {
    |tags| > 0 && tags[|tags| - 1] == TokenKind.OpenTag
  }

  /** The mode a cursor is in agrees with the tags behind it: they alternate, and the last
    * one is an open tag exactly inside a code region. */
  predicate TagsAgree(c: Cursor) {
    Alternating(Tags(c.acc)) && (c.inside <==> RegionOpen(Tags(c.acc)))
  }

  /** The tags among at most one token that is not a tag. */
  lemma NoTags(e: seq<Token>)
    requires |e| <= 1 && forall t <- e :: !IsTag(t.kind)
    ensures Tags(e) == []
  {
    if |e| == 1 {
      assert e[..0] == [] && e[0] in e;
    }
  }

  /** What one step adds to the tags: an open tag on entering a code region, a close tag
    * on leaving one, and nothing while the mode stays. */
  lemma StepEmits(src: string, c: Cursor) returns (e: seq<Token>)
    requires c.pos < |src| && Step(src, c).Go?
    ensures Step(src, c).next.acc == c.acc + e
    ensures || (Tags(e) == [TokenKind.OpenTag] && !c.inside && Step(src, c).next.inside)
            || (Tags(e) == [CloseTag] && c.inside && !Step(src, c).next.inside)
            || (Tags(e) == [] && Step(src, c).next.inside == c.inside)
  {
    var next := Step(src, c).next;
    e := next.acc[|c.acc|..];
    assert next.acc == c.acc + e;
    if MatchLength(Pattern.OpenTag, src, c.pos) > 0 {
      assert e == [Token(TokenKind.OpenTag, "<?php")];
      assert Tags(e) == Tags([]) + [TokenKind.OpenTag];
    } else if MatchLength(Literal("?>"), src, c.pos) > 0 {
      assert e == [Token(CloseTag, "?>")];
      assert Tags(e) == Tags([]) + [CloseTag];
    } else if c.inside {
      assert e == CodeStep(src, c.pos).emitted;
      NoTags(e);
    } else {
      assert e == TextStep(src, c.pos).emitted;
      NoTags(e);
    }
  }

  /** Appending what a step adds keeps the tags alternating and in agreement with the mode. */
  lemma ExtendTags(acc: seq<Token>, inside: bool, e: seq<Token>, inside': bool)
    requires Alternating(Tags(acc)) && (inside <==> RegionOpen(Tags(acc)))
    requires || (Tags(e) == [TokenKind.OpenTag] && !inside && inside')
             || (Tags(e) == [CloseTag] && inside && !inside')
             || (Tags(e) == [] && inside' == inside)
    ensures Alternating(Tags(acc + e)) && (inside' <==> RegionOpen(Tags(acc + e)))
  {
    TagsAppend(acc, e);
  }

  /** One step keeps the tags in agreement with the mode. */
  lemma StepTags(src: string, c: Cursor)
    requires c.pos < |src| && Step(src, c).Go? && TagsAgree(c)
    ensures TagsAgree(Step(src, c).next)
  {
    var e := StepEmits(src, c);
    ExtendTags(c.acc, c.inside, e, Step(src, c).next.inside);
  }

  /** Every scan keeps the tags in agreement with the mode. */
  lemma {:induction false} ScanTags(src: string, c: Cursor)
    requires TagsAgree(c)
    ensures Alternating(Tags(ScanFrom(src, c).tokens))
    ensures ScanFrom(src, c).Mismatch? ==> (ScanFrom(src, c).inside <==> RegionOpen(Tags(ScanFrom(src, c).tokens)))
    decreases |src| - c.pos
  {
    if c.pos < |src| && Step(src, c).Go? {
      StepTags(src, c);
      ScanTags(src, Step(src, c).next);
    }
  }

  /** In every token vector the tag tokens alternate, open tag first; when the scan stops
    * at a mismatch, it stopped at an open tag exactly when the last tag it emitted is an
    * open one, and otherwise at a close tag. */
  lemma TokenizeTags(src: string)
    ensures Alternating(Tags(Tokenize(src)))
    ensures var r := ScanFrom(src, Cursor(0, false, []));
      r.Mismatch? ==> (RegionOpen(Tags(Tokenize(src))) <==> OpenTagLength(src, r.at) > 0)
  {
    var c := Cursor(0, false, []);
    assert Tags([]) == [];
    ScanTags(src, c);
    ScanMismatch(src, c);
    var r := ScanFrom(src, c);
    if r.Finished? {
      TagsAppend(r.tokens, [EndToken]);
      assert Tags([EndToken]) == [];
    }
  }

  /** A step emits only well-formed tokens. */
  lemma StepWellFormed(src: string, c: Cursor)
    requires c.pos < |src| && Step(src, c).Go?
    ensures Step(src, c).next.acc == c.acc + Step(src, c).next.acc[|c.acc|..]
    ensures forall t <- Step(src, c).next.acc[|c.acc|..] :: WellFormed(t)
  {
    var next := Step(src, c).next;
    if MatchLength(Pattern.OpenTag, src, c.pos) > 0 || MatchLength(Literal("?>"), src, c.pos) > 0 {
      assert |next.acc[|c.acc|..]| == 1;
    } else if c.inside {
      assert next.acc[|c.acc|..] == CodeStep(src, c.pos).emitted;
    } else {
      assert next.acc[|c.acc|..] == TextStep(src, c.pos).emitted;
    }
  }

  /** Everything a scan adds to its tokens is well formed: the property
    * `LexerFacts.ScanWellFormed` states of the canonical scanner, here over this variant's
    * own step function and token kinds. */
  lemma {:induction false} ScanWellFormed(src: string, c: Cursor)
    ensures forall t <- ScanFrom(src, c).tokens[|c.acc|..] :: WellFormed(t)
    decreases |src| - c.pos
  {
    var r := ScanFrom(src, c);
    if c.pos >= |src| || Step(src, c).Stop? {
      assert r.tokens[|c.acc|..] == [];
    } else {
      var next := Step(src, c).next;
      StepWellFormed(src, c);
      ScanWellFormed(src, next);
      var mid := next.acc[|c.acc|..];
      var tail := r.tokens[|next.acc|..];
      assert r.tokens[|c.acc|..] == mid + tail;
      forall t | t in r.tokens[|c.acc|..]
        ensures WellFormed(t)
      {
        assert t in mid || t in tail;
      }
    }
  }

  /** A scan that stops does so at a tag that does not fit the mode: an open tag while
    * inside a code region, or a close tag, not part of an open tag, while outside one.
    * This is `LexerFacts.ScanMismatch` for this variant's step function. */
  lemma {:induction false} ScanMismatch(src: string, c: Cursor)
    ensures var r := ScanFrom(src, c);
      r.Mismatch? ==>
        && c.pos <= r.at < |src|
        && (r.inside ==> OpenTagLength(src, r.at) > 0)
        && (!r.inside ==> OpenTagLength(src, r.at) == 0 && HasPrefixAt(src, r.at, "?>"))
    decreases |src| - c.pos
  {
    if c.pos < |src| && Step(src, c).Go? {
      ScanMismatch(src, Step(src, c).next);
    }
  }

  /** The state a scan leaves the tokenizer in: past the end of the input when it ran out,
    * and just past the offending tag, in the mode it had, when it stopped. */
  lemma {:induction false} ScanEnd(src: string, c: Cursor)
    ensures var r := ScanFrom(src, c); r.end.acc == r.tokens
    ensures var r := ScanFrom(src, c); r.Finished? ==> |src| <= r.end.pos
    ensures var r := ScanFrom(src, c);
      r.Mismatch? ==> r.end.inside == r.inside && r.end.pos == r.at + (if r.inside then 5 else 2)
    decreases |src| - c.pos
  {
    if c.pos < |src| && Step(src, c).Go? {
      ScanEnd(src, Step(src, c).next);
    }
  }

  /** The shape of every token vector: EOF occurs only as the last element, and it is there
    * exactly when the scan ran to the end of the input; every other token is well formed. */
  lemma TokenizeShape(src: string)
    ensures var ts := Tokenize(src);
      && (forall k | 0 <= k < |ts| - 1 :: WellFormed(ts[k]))
      && (|ts| > 0 && ts[|ts| - 1].kind == EOF <==> ScanFrom(src, Cursor(0, false, [])).Finished?)
      && (ScanFrom(src, Cursor(0, false, [])).Mismatch? ==> forall t <- ts :: WellFormed(t))
  {
    var r := ScanFrom(src, Cursor(0, false, []));
    var ts := Tokenize(src);
    ScanWellFormed(src, Cursor(0, false, []));
    assert r.tokens[0..] == r.tokens;
    assert forall t <- r.tokens :: WellFormed(t);
    if r.Finished? {
      assert ts == r.tokens + [EndToken];
      forall k | 0 <= k < |ts| - 1 ensures WellFormed(ts[k]) {
        assert ts[k] == r.tokens[k];
      }
    } else {
      assert ts == r.tokens;
      if |ts| > 0 {
        assert WellFormed(ts[|ts| - 1]);
      }
    }
  }
}
