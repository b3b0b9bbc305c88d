/** Properties of the canonical tokenizer's scan. */
module LexerFacts {
  import opened Tokens
  import opened Patterns
  import opened Lexer

  /** The text a token sequence spells, lexeme after lexeme. */
  function Spelling(ts: seq<Token>): string {
    if |ts| == 0 then "" else Spelling(ts[..|ts| - 1]) + ts[|ts| - 1].value
  }

  lemma {:induction false} SpellingAppend(a: seq<Token>, b: seq<Token>)
    ensures Spelling(a + b) == Spelling(a) + Spelling(b)
    decreases |b|
  {
    if |b| == 0 {
      assert a + b == a;
    } else {
      var c := a + b;
      assert c[..|c| - 1] == a + b[..|b| - 1];
      assert c[|c| - 1] == b[|b| - 1];
      SpellingAppend(a, b[..|b| - 1]);
      assert Spelling(c) == Spelling(a + b[..|b| - 1]) + b[|b| - 1].value;
    }
  }

  /** Text outside code regions as the scanner passes it on: every character, except a `<`
    * that is followed by another `<` or ends the input. */
  function KeptText(s: string): string {
    if |s| == 0 then ""
    else if s[0] == '<' && (|s| == 1 || s[1] == '<') then KeptText(s[1..])
    else [s[0]] + KeptText(s[1..])
  }

  /** Input in which the scanner never meets a tag: no `<?` anywhere, and no `?>` at the
    * start. */
  predicate NoMarkers(src: string) {
    && !HasPrefixAt(src, 0, "?>")
    && forall k | 0 <= k < |src| :: !Opener(src, k)
  }

  /** A `<?` starts at index k. */
  predicate Opener(src: string, k: nat) {
    k + 1 < |src| && src[k] == '<' && src[k + 1] == '?'
  }

  /** A run without `<` is kept whole. */
  lemma {:induction false} KeptRun(s: string, n: nat)
    requires n <= |s|
    requires forall k | 0 <= k < n :: s[k] != '<'
    ensures KeptText(s) == s[..n] + KeptText(s[n..])
    decreases n
  {
    if n > 0 {
      KeptRun(s[1..], n - 1);
      assert s[1..][..n - 1] == s[1..n];
      assert s[1..][n - 1..] == s[n..];
      assert [s[0]] + s[1..n] == s[..n];
    }
  }

  /** A `<` is kept only when another character than `<` follows it. */
  lemma KeptAngle(s: string)
    requires |s| > 0 && s[0] == '<'
    ensures KeptText(s) == (if |s| > 1 && s[1] != '<' then "<" else "") + KeptText(s[1..])
  {
  }

  /** At a step boundary of marker-free input neither tag matches. */
  lemma NoTagAt(src: string, pos: nat)
    requires NoMarkers(src) && pos < |src| && !HasPrefixAt(src, pos, "?>")
    ensures MatchLength(OpenTag, src, pos) == 0
    ensures MatchLength(Literal("?>"), src, pos) == 0
  {
    assert !Opener(src, pos);
    if pos + 5 <= |src| {
      assert src[pos..pos + 5][0] == src[pos] && src[pos..pos + 5][1] == src[pos + 1];
    }
  }

  /** Outside a code region a `<` only becomes the pending prefix. */
  lemma AngleStep(src: string, pos: nat, f: string, acc: seq<Token>)
    requires NoMarkers(src) && pos < |src| && !HasPrefixAt(src, pos, "?>") && src[pos] == '<'
    ensures ScanFrom(src, Cursor(pos, false, f, acc)) == ScanFrom(src, Cursor(pos + 1, false, "<", acc))
  {
    NoTagAt(src, pos);
    assert src[pos..pos + 1] == [src[pos]];
    assert MatchLength(Literal("<"), src, pos) > 0;
    assert Step(src, Cursor(pos, false, f, acc)) == Go(Cursor(pos + 1, false, "<", acc));
  }

  /** In marker-free input no `?>` follows a `<`. */
  lemma AngleNoClose(src: string, pos: nat)
    requires NoMarkers(src) && pos < |src| && src[pos] == '<'
    ensures !HasPrefixAt(src, pos + 1, "?>")
  {
    assert !Opener(src, pos);
    if pos + 3 <= |src| {
      assert src[pos + 1..pos + 3][0] == src[pos + 1];
    }
  }

  /** Outside a code region any other character starts a text run up to the next `<`,
    * emitted behind the pending prefix. */
  lemma RunStep(src: string, pos: nat, f: string, acc: seq<Token>) returns (n: nat)
    requires NoMarkers(src) && pos < |src| && !HasPrefixAt(src, pos, "?>") && src[pos] != '<'
    ensures 0 < n && pos + n <= |src|
    ensures forall k | pos <= k < pos + n :: src[k] != '<'
    ensures pos + n < |src| ==> src[pos + n] == '<'
    ensures ScanFrom(src, Cursor(pos, false, f, acc))
         == ScanFrom(src, Cursor(pos + n, false, f, acc + [Token(Text, f + src[pos..pos + n])]))
    ensures !HasPrefixAt(src, pos + n, "?>")
  {
    NoTagAt(src, pos);
    assert src[pos..pos + 1][0] == src[pos];
    n := MatchLength(TextRun, src, pos);
    assert Step(src, Cursor(pos, false, f, acc))
        == Go(Cursor(pos + n, false, f, acc + [Token(Text, f + src[pos..pos + n])]));
    if pos + n + 2 <= |src| {
      assert src[pos + n..pos + n + 2][0] == src[pos + n];
    }
  }

  /** The spelling of one token followed by more. */
  lemma SpellingCons(t: Token, rest: seq<Token>)
    ensures Spelling([t] + rest) == t.value + Spelling(rest)
  {
    SpellingAppend([t], rest);
    assert [t][..0] == [];
  }

  /** A scan result that ran to the end and added, behind acc, only text tokens spelling
    * the kept text of the input from pos, with the pending prefix in front when the
    * position is not at a `<`. */
  predicate TextResult(src: string, pos: nat, f: string, acc: seq<Token>, r: Scan)
    requires pos <= |src|
  {
    && r.Finished?
    && acc <= r.tokens
    && (forall t <- r.tokens[|acc|..] :: t.kind == Text)
    && Spelling(r.tokens[|acc|..]) == (if pos < |src| && src[pos] != '<' then f else "") + KeptText(src[pos..])
  }

  /** The scan from a step boundary outside code regions yields such a result. */
  predicate TextScan(src: string, pos: nat, f: string, acc: seq<Token>)
    requires pos <= |src|
  {
    TextResult(src, pos, f, acc, ScanFrom(src, Cursor(pos, false, f, acc)))
  }

  lemma AngleCase(src: string, pos: nat, f: string, acc: seq<Token>, r: Scan)
    requires pos < |src| && src[pos] == '<'
    requires TextResult(src, pos + 1, "<", acc, r)
    ensures TextResult(src, pos, f, acc, r)
  {
    var s := src[pos..];
    assert s[1..] == src[pos + 1..];
    assert |s| > 1 ==> s[1] == src[pos + 1];
    KeptAngle(s);
  }

  lemma RunCase(src: string, pos: nat, n: nat, f: string, acc: seq<Token>, r: Scan)
    requires pos < |src| && src[pos] != '<'
    requires 0 < n && pos + n <= |src| && forall k | pos <= k < pos + n :: src[k] != '<'
    requires pos + n < |src| ==> src[pos + n] == '<'
    requires TextResult(src, pos + n, f, acc + [Token(Text, f + src[pos..pos + n])], r)
    ensures TextResult(src, pos, f, acc, r)
  {
    var t := Token(Text, f + src[pos..pos + n]);
    var rest := (if pos + n < |src| && src[pos + n] != '<' then f else "") + KeptText(src[pos + n..]);
    assert rest == KeptText(src[pos + n..]);
    PushText(r.tokens, acc, t, rest);
    RunSpelling(src, pos, n, f);
  }

  /** The text of a run, behind its prefix, followed by the kept text after it. */
  lemma RunSpelling(src: string, pos: nat, n: nat, f: string)
    requires pos + n <= |src| && forall k | pos <= k < pos + n :: src[k] != '<'
    ensures (f + src[pos..pos + n]) + KeptText(src[pos + n..]) == f + KeptText(src[pos..])
  {
    KeptRun(src[pos..], n);
    assert src[pos..][..n] == src[pos..pos + n];
    assert src[pos..][n..] == src[pos + n..];
  }

  /** Emitting one more text token in front of the rest of a text-only tail. */
  lemma PushText(ts: seq<Token>, acc: seq<Token>, t: Token, rest: string)
    requires acc + [t] <= ts && t.kind == Text
    requires forall u <- ts[|acc| + 1..] :: u.kind == Text
    requires Spelling(ts[|acc| + 1..]) == rest
    ensures acc <= ts
    ensures forall u <- ts[|acc|..] :: u.kind == Text
    ensures Spelling(ts[|acc|..]) == t.value + rest
  {
    assert ts[|acc|..] == [t] + ts[|acc| + 1..];
    SpellingCons(t, ts[|acc| + 1..]);
  }

  /** The scan of marker-free input outside code regions, from any step boundary. */
  lemma {:induction false} OutsideScan(src: string, pos: nat, f: string, acc: seq<Token>)
    requires NoMarkers(src) && pos <= |src| && !HasPrefixAt(src, pos, "?>")
    ensures TextScan(src, pos, f, acc)
    decreases |src| - pos, 2
  {
    if pos == |src| {
      assert ScanFrom(src, Cursor(pos, false, f, acc)).tokens[|acc|..] == [];
    } else if src[pos] == '<' {
      AngleScan(src, pos, f, acc);
    } else {
      RunScan(src, pos, f, acc);
    }
  }

  lemma {:induction false} AngleScan(src: string, pos: nat, f: string, acc: seq<Token>)
    requires NoMarkers(src) && pos < |src| && !HasPrefixAt(src, pos, "?>") && src[pos] == '<'
    ensures TextScan(src, pos, f, acc)
    decreases |src| - pos, 1
  {
    AngleStep(src, pos, f, acc);
    AngleNoClose(src, pos);
    AngleTail(src, pos, f, acc);
  }

  /** The scan after a `<`, read back as a result for the position of the `<`. */
  lemma {:induction false} AngleTail(src: string, pos: nat, f: string, acc: seq<Token>)
    requires NoMarkers(src) && pos < |src| && !HasPrefixAt(src, pos + 1, "?>") && src[pos] == '<'
    ensures TextResult(src, pos, f, acc, ScanFrom(src, Cursor(pos + 1, false, "<", acc)))
    decreases |src| - pos, 0
  {
    OutsideScan(src, pos + 1, "<", acc);
    AngleCase(src, pos, f, acc, ScanFrom(src, Cursor(pos + 1, false, "<", acc)));
  }

  lemma {:induction false} RunScan(src: string, pos: nat, f: string, acc: seq<Token>)
    requires NoMarkers(src) && pos < |src| && !HasPrefixAt(src, pos, "?>") && src[pos] != '<'
    ensures TextScan(src, pos, f, acc)
    decreases |src| - pos, 1
  {
    var n := RunStep(src, pos, f, acc);
    RunTail(src, pos, n, f, acc);
  }

  /** The scan after a text run, read back as a result for the position of the run. */
  lemma {:induction false} RunTail(src: string, pos: nat, n: nat, f: string, acc: seq<Token>)
    requires NoMarkers(src) && pos < |src| && src[pos] != '<'
    requires 0 < n && pos + n <= |src| && forall k | pos <= k < pos + n :: src[k] != '<'
    requires pos + n < |src| ==> src[pos + n] == '<'
    requires !HasPrefixAt(src, pos + n, "?>")
    ensures TextResult(src, pos, f, acc, ScanFrom(src, Cursor(pos + n, false, f, acc + [Token(Text, f + src[pos..pos + n])])))
    decreases |src| - pos, 0
  {
    var next := Cursor(pos + n, false, f, acc + [Token(Text, f + src[pos..pos + n])]);
    OutsideScan(src, next.pos, next.first, next.acc);
    RunCase(src, pos, n, f, acc, ScanFrom(src, next));
  }

  /** Marker-free input becomes text tokens and EOF, and the text tokens spell the input
    * with the dropped `<` characters removed. */
  lemma TextOnly(src: string)
    requires NoMarkers(src)
    ensures var ts := Tokenize(src);
      && |ts| > 0 && ts[|ts| - 1] == EndToken
      && (forall k | 0 <= k < |ts| - 1 :: ts[k].kind == Text)
      && Spelling(ts[..|ts| - 1]) == KeptText(src)
  {
    OutsideScan(src, 0, "", []);
    assert TextScan(src, 0, "", []);
    var r := ScanFrom(src, Cursor(0, false, "", []));
    assert r.tokens[0..] == r.tokens;
    assert Tokenize(src)[..|Tokenize(src)| - 1] == r.tokens;
    assert src[0..] == src;
  }

  /** Input without any `<`, and not starting with a close tag, is one text token, the whole input, then EOF. */
  lemma PlainText(src: string)
    requires |src| > 0 && !HasPrefixAt(src, 0, "?>")
    requires forall k | 0 <= k < |src| :: src[k] != '<'
    ensures Tokenize(src) == [Token(Text, src), EndToken]
  {
    assert NoMarkers(src);
    var n := RunStep(src, 0, "", []);
    assert n == |src|;
    assert "" + src[0..n] == src;
    var c := Cursor(n, false, "", [Token(Text, src)]);
    assert ScanFrom(src, c) == Finished([Token(Text, src)], c);
  }

  /** A close tag at the very start stops the scan before anything is emitted: tokenize
    * returns an empty vector, without EOF. */
  lemma StrayCloseTag(src: string)
    requires HasPrefixAt(src, 0, "?>")
    ensures Tokenize(src) == []
  {
    assert src[0] == src[0..2][0] == '?';
    assert OpenTagLength(src, 0) == 0;
    assert Step(src, Cursor(0, false, "", [])).Stop?;
  }

  /** The characters that start none of the patterns tried inside a code region. */
  predicate StartsNoPattern(c: char) {
    !IsDigit(c) && !IsOperatorChar(c) && c !in "edh$=\";,()"
  }

  /** Such a character is skipped without a token. */
  lemma UnmatchedSkipped(src: string, pos: nat)
    requires pos < |src| && StartsNoPattern(src[pos])
    ensures CodeStep(src, pos) == Advance(pos + 1, [])
  {
    FirstMiss(src, pos, "//");
    FirstMiss(src, pos, "/*");
    FirstMiss(src, pos, "echo");
    FirstMiss(src, pos, "db");
    FirstMiss(src, pos, "http");
    FirstMiss(src, pos, "=");
    FirstMiss(src, pos, ";");
    FirstMiss(src, pos, ",");
    FirstMiss(src, pos, "(");
    FirstMiss(src, pos, ")");
    assert WordStep(src, pos) == PunctStep(src, pos);
  }

  /** A literal whose first character differs from the one at i does not match there. */
  lemma FirstMiss(s: string, i: nat, lit: string)
    requires i < |s| && |lit| > 0 && s[i] != lit[0]
    ensures MatchLength(Literal(lit), s, i) == 0
  {
  }

  /** Keywords are bare prefixes: `db` is read as the keyword whatever follows it, so
    * `dbx` is the keyword `db` and then an `x`, which starts no pattern. */
  lemma KeywordPrefix(src: string, pos: nat)
    requires HasPrefixAt(src, pos, "db")
    ensures CodeStep(src, pos) == Advance(pos + 2, [Token(Db, "db")])
  {
    assert src[pos] == src[pos..pos + 2][0] == 'd';
    FirstMiss(src, pos, "//");
    FirstMiss(src, pos, "/*");
    FirstMiss(src, pos, "echo");
  }

  /** A step emits only well-formed tokens. */
  lemma StepWellFormed(src: string, c: Cursor)
    requires c.pos < |src| && Step(src, c).Go?
    ensures Step(src, c).next.acc == c.acc + Step(src, c).next.acc[|c.acc|..]
    ensures forall t <- Step(src, c).next.acc[|c.acc|..] :: WellFormed(t)
  {
    var next := Step(src, c).next;
    if c.inside && MatchLength(OpenTag, src, c.pos) == 0 && MatchLength(Literal("?>"), src, c.pos) == 0 {
      assert next.acc[|c.acc|..] == CodeStep(src, c.pos).emitted;
    } else if !c.inside && MatchLength(OpenTag, src, c.pos) == 0 && MatchLength(Literal("?>"), src, c.pos) == 0
      && MatchLength(Literal("<"), src, c.pos) == 0 {
      assert next.acc[|c.acc|..] == TextStep(src, c.pos, c.first).emitted;
    } else {
      assert next.acc[|c.acc|..] == [];
    }
  }

  /** Everything a scan adds to its tokens is well formed. */
  lemma {:induction false} ScanWellFormed(src: string, c: Cursor)
    ensures forall t <- ScanFrom(src, c).tokens[|c.acc|..] :: WellFormed(t)
    decreases |src| - c.pos
  {
    var r := ScanFrom(src, c);
    if c.pos >= |src| || Step(src, c).Stop? {
      assert r.tokens[|c.acc|..] == [];
    } else {
      var next := Step(src, c).next;
      StepWellFormed(src, c);
      ScanWellFormed(src, next);
      var mid := next.acc[|c.acc|..];
      var tail := r.tokens[|next.acc|..];
      assert r.tokens[|c.acc|..] == mid + tail;
      forall t | t in r.tokens[|c.acc|..]
        ensures WellFormed(t)
      {
        assert t in mid || t in tail;
      }
    }
  }

  /** A scan that stops does so at a tag that does not fit the mode the scanner is in at
    * that point: an open tag while inside a code region (tokenize's "Unexpected <?php tag
    * without closing ?>"), or a close tag, not part of an open tag, while outside one. */
  lemma {:induction false} ScanMismatch(src: string, c: Cursor)
    ensures var r := ScanFrom(src, c);
      r.Mismatch? ==>
        && c.pos <= r.at < |src|
        && (r.inside ==> OpenTagLength(src, r.at) > 0)
        && (!r.inside ==> OpenTagLength(src, r.at) == 0 && HasPrefixAt(src, r.at, "?>"))
    decreases |src| - c.pos
  {
    if c.pos < |src| && Step(src, c).Go? {
      ScanMismatch(src, Step(src, c).next);
    }
  }

  /** The state a scan leaves the tokenizer in: past the end of the input when it ran out,
    * and just past the offending tag, in the mode it had, when it stopped. An open tag
    * inside a region has already cleared the pending prefix. */
  lemma {:induction false} ScanEnd(src: string, c: Cursor)
    ensures var r := ScanFrom(src, c); r.end.acc == r.tokens
    ensures var r := ScanFrom(src, c); r.Finished? ==> |src| <= r.end.pos
    ensures var r := ScanFrom(src, c);
      r.Mismatch? ==> r.end.inside == r.inside && r.end.pos == r.at + (if r.inside then 5 else 2)
    ensures var r := ScanFrom(src, c); r.Mismatch? && r.inside ==> r.end.first == ""
    decreases |src| - c.pos
  {
    if c.pos < |src| && Step(src, c).Go? {
      ScanEnd(src, Step(src, c).next);
    }
  }

  /** The shape of every token vector: EOF occurs only as the last element, and it is there
    * exactly when the scan ran to the end of the input; every other token is well formed. */
  lemma TokenizeShape(src: string)
    ensures var ts := Tokenize(src);
      && (forall k | 0 <= k < |ts| - 1 :: WellFormed(ts[k]))
      && (|ts| > 0 && ts[|ts| - 1].kind == EOF <==> ScanFrom(src, Cursor(0, false, "", [])).Finished?)
      && (ScanFrom(src, Cursor(0, false, "", [])).Mismatch? ==> forall t <- ts :: WellFormed(t))
  {
    var r := ScanFrom(src, Cursor(0, false, "", []));
    var ts := Tokenize(src);
    ScanWellFormed(src, Cursor(0, false, "", []));
    assert r.tokens[0..] == r.tokens;
    assert forall t <- r.tokens :: WellFormed(t);
    if r.Finished? {
      assert ts == r.tokens + [EndToken];
      forall k | 0 <= k < |ts| - 1 ensures WellFormed(ts[k]) {
        assert ts[k] == r.tokens[k];
      }
    } else {
      assert ts == r.tokens;
      if |ts| > 0 {
        assert WellFormed(ts[|ts| - 1]);
      }
    }
  }
}
