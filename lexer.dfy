/** The canonical tokenizer (lexer.h, lexer.cpp): a scanner with two modes, outside and
  * inside a `<?php ... ?>` region, that tries a fixed ordered list of anchored patterns at
  * each position. The functions give the meaning of the scan; class Tokenizer is the
  * imperative scanner, proved to compute them. */
module Lexer {
  import opened Tokens
  import opened Patterns

  /** What the tokenizer can emit: never EOF (the loop appends it), and every lexeme in the
    * language of the pattern that produced it. */
  predicate WellFormed(t: Token) {
    match t.kind
    case EOF => false
    case Text => |t.value| > 0
    case Echo => t.value == "echo"
    case Db => t.value == "db"
    case Http => t.value == "http"
    case Number => IsNumeral(t.value)
    case Str =>
      && |t.value| >= 2 && t.value[0] == '"' && t.value[|t.value| - 1] == '"'
      && forall k | 0 < k < |t.value| - 1 :: t.value[k] != '"'
    case Variable => IsVariableName(t.value)
    case Operator => |t.value| == 1 && IsOperatorChar(t.value[0])
    case Assign => t.value == "="
    case Semicolon => t.value == ";"
    case LParen => t.value == "("
    case RParen => t.value == ")"
    case Comma => t.value == ","
  }

  /** Where a `//` comment stops (skipComment): just after the next newline, or just before
    * the next `?>`, or at the end of the input, whichever comes first. */
  function SkipLine(src: string, pos: nat): (q: nat)
    ensures pos <= q
    ensures pos <= |src| ==> q <= |src|
    ensures |src| <= pos ==> q == pos
    ensures forall k | pos <= k < q :: !HasPrefixAt(src, k, "?>")
    ensures forall k | pos <= k < q - 1 :: src[k] != '\n'
    ensures q < |src| && (q == pos || src[q - 1] != '\n') ==> HasPrefixAt(src, q, "?>")
    decreases |src| - pos
  {
    if pos >= |src| then pos
    else if src[pos] == '\n' then pos + 1
    else if HasPrefixAt(src, pos, "?>") then pos
    else SkipLine(src, pos + 1)
  }

  /** Where a block comment stops (skipCommentMultilene): just after the next `*\/`, or just
    * before the next `?>`, or at the end of the input, whichever comes first. */
  function SkipBlock(src: string, pos: nat): (q: nat)
    ensures pos <= q
    ensures pos <= |src| ==> q <= |src|
    ensures |src| <= pos ==> q == pos
    ensures forall k | pos <= k < q :: !HasPrefixAt(src, k, "?>")
    ensures forall k | pos <= k && k + 2 < q :: !HasPrefixAt(src, k, "*/")
    ensures q < |src| ==> HasPrefixAt(src, q, "?>") || (pos + 2 <= q && HasPrefixAt(src, q - 2, "*/"))
    decreases |src| - pos
  {
    if pos >= |src| then pos
    else if HasPrefixAt(src, pos, "*/") then
      assert src[pos] == src[pos..pos + 2][0] == '*';
      assert src[pos + 1] == src[pos..pos + 2][1] == '/';
      pos + 2
    else if HasPrefixAt(src, pos, "?>") then pos
    else SkipBlock(src, pos + 1)
  }

  /** The position a step reaches and the tokens it emits. */
  datatype Advance = Advance(next: nat, emitted: seq<Token>)

  /** One step inside a code region, at a position where neither tag matches: the
    * patterns in the source's order, the first that matches winning. Comments come
    * first, then the keywords, which are bare prefixes (`dbx` starts with `db`). */
  function CodeStep(src: string, pos: nat): (r: Advance)
    requires pos < |src|
    ensures pos < r.next
    ensures |r.emitted| <= 1 && forall t <- r.emitted :: WellFormed(t)
  {
    if MatchLength(Literal("//"), src, pos) > 0 then Advance(SkipLine(src, pos + 2), [])
    // the source skips two more characters after `/*` before it looks for the terminator
    else if MatchLength(Literal("/*"), src, pos) > 0 then Advance(SkipBlock(src, pos + 4), [])
    else if MatchLength(Literal("echo"), src, pos) > 0 then Advance(pos + 4, [Token(Echo, "echo")])
    else if MatchLength(Literal("db"), src, pos) > 0 then Advance(pos + 2, [Token(Db, "db")])
    else if MatchLength(Literal("http"), src, pos) > 0 then Advance(pos + 4, [Token(Http, "http")])
    else WordStep(src, pos)
  }

  /** The next patterns in order: variable, number, operator, `=`. */
  function WordStep(src: string, pos: nat): (r: Advance)
    requires pos < |src|
    ensures pos < r.next
    ensures |r.emitted| <= 1 && forall t <- r.emitted :: WellFormed(t)
  {
    var v := MatchLength(VariableName, src, pos);
    if v > 0 then Advance(pos + v, [Token(Variable, src[pos..pos + v])]) else
    var d := MatchLength(Numeral, src, pos);
    if d > 0 then Advance(pos + d, [Token(Number, src[pos..pos + d])])
    else if MatchLength(OperatorChar, src, pos) > 0 then
      assert src[pos..pos + 1][0] == src[pos];
      Advance(pos + 1, [Token(Operator, src[pos..pos + 1])])
    else if MatchLength(Literal("="), src, pos) > 0 then Advance(pos + 1, [Token(Assign, "=")])
    else PunctStep(src, pos)
  }

  /** The last patterns in order: string literal, `;`, `,`, `(`, `)`; a character that
    * matches none of them is skipped. */
  function PunctStep(src: string, pos: nat): (r: Advance)
    requires pos < |src|
    ensures pos < r.next
    ensures |r.emitted| <= 1 && forall t <- r.emitted :: WellFormed(t)
  {
    var q := MatchLength(QuotedString, src, pos);
    if q > 0 then Advance(pos + q, [Token(Str, src[pos..pos + q])])
    else if MatchLength(Literal(";"), src, pos) > 0 then Advance(pos + 1, [Token(Semicolon, ";")])
    else if MatchLength(Literal(","), src, pos) > 0 then Advance(pos + 1, [Token(Comma, ",")])
    else if MatchLength(Literal("("), src, pos) > 0 then Advance(pos + 1, [Token(LParen, "(")])
    else if MatchLength(Literal(")"), src, pos) > 0 then Advance(pos + 1, [Token(RParen, ")")])
    else Advance(pos + 1, [])
  }

  /** One step outside a code region where no tag and no `<` matches: a run of text up
    * to the next `<`, emitted behind the pending prefix. The run always matches here, so
    * the final skip of one character is never taken. */
  function TextStep(src: string, pos: nat, first: string): (r: Advance)
    requires pos < |src|
    ensures pos < r.next
    ensures |r.emitted| <= 1 && forall t <- r.emitted :: WellFormed(t)
  {
    var n := MatchLength(TextRun, src, pos);
    if n > 0 then Advance(pos + n, [Token(Text, first + src[pos..pos + n])])
    else Advance(pos + 1, [])
  }

  /** The scanner's state between two passes of its main loop: the position, the mode,
    * the pending prefix for the next text token, and the tokens collected so far. */
  datatype Cursor = Cursor(pos: nat, inside: bool, first: string, acc: seq<Token>)

  /** The outcome of one pass: the scan stops at a mismatched tag, or goes on. A stop
    * still carries the state the tokenizer is left in: the tag has been matched, so the
    * position is past it. */
  datatype Move = Stop(after: Cursor) | Go(next: Cursor)

  /** Two tag tests come first in either mode: an open tag inside a code region and a close
    * tag outside one stop the scan; otherwise the tag switches mode. An open tag clears the
    * pending prefix; a close tag keeps it. */
  function Step(src: string, c: Cursor): (m: Move)
    requires c.pos < |src|
    ensures m.Go? ==> c.pos < m.next.pos && c.acc <= m.next.acc
    ensures m.Stop? && c.inside ==> OpenTagLength(src, c.pos) > 0
    ensures m.Stop? && !c.inside ==> OpenTagLength(src, c.pos) == 0 && HasPrefixAt(src, c.pos, "?>")
    ensures m.Stop? ==> m.after.inside == c.inside && m.after.acc == c.acc
    ensures m.Stop? && c.inside ==> m.after.pos == c.pos + 5 && m.after.first == ""
    ensures m.Stop? && !c.inside ==> m.after.pos == c.pos + 2 && m.after.first == c.first
  {
    var Cursor(pos, inside, first, acc) := c;
    if MatchLength(OpenTag, src, pos) > 0 then
      if inside then Stop(Cursor(pos + 5, true, "", acc)) else Go(Cursor(pos + 5, true, "", acc))
    else if MatchLength(Literal("?>"), src, pos) > 0 then
      if !inside then Stop(Cursor(pos + 2, false, first, acc)) else Go(Cursor(pos + 2, false, first, acc))
    else if inside then
      var a := CodeStep(src, pos);
      Go(Cursor(a.next, true, first, acc + a.emitted))
    else if MatchLength(Literal("<"), src, pos) > 0 then
      Go(Cursor(pos + 1, false, "<", acc))
    else
      var a := TextStep(src, pos, first);
      Go(Cursor(a.next, false, first, acc + a.emitted))
  }

  /** How a scan ends: at the end of the input, or at a tag that does not fit the mode
    * (`inside` tells which: an open tag while inside, or a close tag while outside).
    * Either way `end` is the state the tokenizer is left in. */
  datatype Scan =
    | Finished(tokens: seq<Token>, end: Cursor)
    | Mismatch(tokens: seq<Token>, at: nat, inside: bool, end: Cursor)

  /** The scan from cursor c to the end of the input or the first mismatched tag. */
  function ScanFrom(src: string, c: Cursor): (r: Scan)
    ensures c.acc <= r.tokens
    decreases |src| - c.pos
  {
    if c.pos >= |src| then Finished(c.acc, c)
    else match Step(src, c)
      case Stop(after) => Mismatch(c.acc, c.pos, c.inside, after)
      case Go(next) => ScanFrom(src, next)
  }

  /** The token vector tokenize returns: EOF is appended only when the input ran out. */
  function Result(r: Scan): seq<Token> {
    match r
    case Finished(ts, _) => ts + [EndToken]
    case Mismatch(ts, _, _, _) => ts
  }

  /** The tokens of src, for a freshly constructed tokenizer. */
  function Tokenize(src: string): seq<Token> {
    Result(ScanFrom(src, Cursor(0, false, "", [])))
  }

  class Tokenizer {
    const source: string
    var position: nat
    var first: string
    var lastMatch: string
    var insidePHP: bool

    /** A new tokenizer is at the start of its own copy of the source, outside any code
      * region, with nothing pending. */
    constructor (source: string)
      ensures this.source == source
      ensures position == 0 && !insidePHP && first == "" && lastMatch == ""
    {
      this.source := source;
      position := 0;
      first := "";
      lastMatch := "";
      insidePHP := false;
    }

    /** Tries pattern p anchored at the current position; on success records the matched
      * text and moves past it, on failure changes nothing. */
    method Match(p: Pattern) returns (matched: bool)
      requires position <= |source|
      modifies this`position, this`lastMatch
      ensures matched == (MatchLength(p, source, old(position)) > 0)
      ensures matched ==> position == old(position) + MatchLength(p, source, old(position))
      ensures matched ==> lastMatch == source[old(position)..position]
      ensures !matched ==> position == old(position) && lastMatch == old(lastMatch)
    {
      var n := MatchLength(p, source, position);
      matched := n > 0;
      if matched {
        lastMatch := source[position..position + n];
        position := position + n;
      }
    }

    /** skipComment: advances past a `//` comment. */
    method SkipComment()
      modifies this`position
      ensures position == SkipLine(source, old(position))
    {
      while position < |source|
        invariant SkipLine(source, position) == SkipLine(source, old(position))
        decreases |source| - position
      {
        if source[position] == '\n' {
          position := position + 1;
          break;
        }
        if HasPrefixAt(source, position, "?>") {
          break;
        }
        position := position + 1;
      }
    }

    /** skipCommentMultilene: advances past a block comment. */
    method SkipCommentMultiline()
      modifies this`position
      ensures position == SkipBlock(source, old(position))
    {
      while position < |source|
        invariant SkipBlock(source, position) == SkipBlock(source, old(position))
        decreases |source| - position
      {
        if HasPrefixAt(source, position, "*/") {
          position := position + 2;
          break;
        }
        if HasPrefixAt(source, position, "?>") {
          break;
        }
        position := position + 1;
      }
    }

    /** One pass of the main loop inside a code region, after both tags failed to match:
      * comments and keywords. */
    method ScanCode(tokens: seq<Token>) returns (tokens': seq<Token>)
      requires position < |source|
      modifies this`position, this`lastMatch
      ensures position == CodeStep(source, old(position)).next
      ensures tokens' == tokens + CodeStep(source, old(position)).emitted
    {
      var done := Match(Literal("//"));
      if done { SkipComment(); return tokens; }
      done := Match(Literal("/*"));
      if done { position := position + 2; SkipCommentMultiline(); return tokens; }
      done := Match(Literal("echo"));
      if done { return tokens + [Token(Echo, "echo")]; }
      done := Match(Literal("db"));
      if done { return tokens + [Token(Db, "db")]; }
      done := Match(Literal("http"));
      if done { return tokens + [Token(Http, "http")]; }
      tokens' := ScanWord(tokens);
    }

    /** The same pass, continued: variable, number, operator, `=`. */
    method ScanWord(tokens: seq<Token>) returns (tokens': seq<Token>)
      requires position < |source|
      modifies this`position, this`lastMatch
      ensures position == WordStep(source, old(position)).next
      ensures tokens' == tokens + WordStep(source, old(position)).emitted
    {
      var done := Match(VariableName);
      if done { return tokens + [Token(Variable, lastMatch)]; }
      done := Match(Numeral);
      if done { return tokens + [Token(Number, lastMatch)]; }
      done := Match(OperatorChar);
      if done { return tokens + [Token(Operator, lastMatch)]; }
      done := Match(Literal("="));
      if done { return tokens + [Token(Assign, "=")]; }
      tokens' := ScanPunct(tokens);
    }

    /** The same pass, concluded: string literal and punctuation; otherwise one character
      * is skipped. */
    method ScanPunct(tokens: seq<Token>) returns (tokens': seq<Token>)
      requires position < |source|
      modifies this`position, this`lastMatch
      ensures position == PunctStep(source, old(position)).next
      ensures tokens' == tokens + PunctStep(source, old(position)).emitted
    {
      var done := Match(QuotedString);
      if done { return tokens + [Token(Str, lastMatch)]; }
      done := Match(Literal(";"));
      if done { return tokens + [Token(Semicolon, ";")]; }
      done := Match(Literal(","));
      if done { return tokens + [Token(Comma, ",")]; }
      done := Match(Literal("("));
      if done { return tokens + [Token(LParen, "(")]; }
      done := Match(Literal(")"));
      if done { return tokens + [Token(RParen, ")")]; }
      position := position + 1;
      tokens' := tokens;
    }

    /** One pass of the main loop outside a code region, after both tags failed to match:
      * a `<` becomes the pending prefix, a run of text is emitted behind it. */
    method ScanText(tokens: seq<Token>) returns (tokens': seq<Token>)
      requires position < |source|
      modifies this`position, this`lastMatch, this`first
      ensures MatchLength(Literal("<"), source, old(position)) > 0 ==>
        position == old(position) + 1 && first == "<" && tokens' == tokens
      ensures MatchLength(Literal("<"), source, old(position)) == 0 ==>
        && first == old(first)
        && position == TextStep(source, old(position), first).next
        && tokens' == tokens + TextStep(source, old(position), first).emitted
    {
      var matched := Match(Literal("<"));
      if matched {
        first := "<";
        return tokens;
      }
      matched := Match(TextRun);
      if matched {
        return tokens + [Token(Text, first + lastMatch)];
      }
      position := position + 1;
      tokens' := tokens;
    }

    /** The rest of the open-tag branch once the tag is accepted outside a code region. The
      * text token for a `<` just before the position is never emitted: that character is
      * the `p` of the tag. */
    method EnterCode(tokens: seq<Token>) returns (tokens': seq<Token>)
      requires 0 < position <= |source| && source[position - 1] == 'p'
      modifies this`insidePHP
      ensures insidePHP && tokens' == tokens
    {
      tokens' := tokens;
      if position > 0 && source[position - 1] == '<' {
        tokens' := tokens' + [Token(Text, "<")];
      }
      insidePHP := true;
    }

    /** One pass of the main loop of tokenize. */
    method ScanStep(tokens: seq<Token>) returns (tokens': seq<Token>, stop: bool)
      requires position < |source|
      modifies this`position, this`lastMatch, this`first, this`insidePHP
      ensures var m := Step(source, Cursor(old(position), old(insidePHP), old(first), tokens));
        if stop then m == Stop(Cursor(position, insidePHP, first, tokens)) && tokens' == tokens
        else m == Go(Cursor(position, insidePHP, first, tokens'))
    {
      ghost var start := position;
      stop := false;
      var matched := Match(OpenTag);
      if matched {
        first := "";
        if insidePHP {
          // "Unexpected <?php tag without closing ?>"
          return tokens, true;
        }
        assert position - 1 == start + 4 && source[start + 4] == 'p';
        tokens' := EnterCode(tokens);
        return;
      }
      matched := Match(Literal("?>"));
      if matched {
        if !insidePHP {
          // "Unexpected ?> tag without opening <?php"
          return tokens, true;
        }
        insidePHP := false;
        return tokens, false;
      }
      if insidePHP {
        tokens' := ScanCode(tokens);
      } else {
        tokens' := ScanText(tokens);
      }
    }

    /** tokenize: the scan of the source from the current state. On a tag mismatch the
      * tokens collected so far are returned as they are, without EOF. The tokenizer keeps
      * the state the scan ends in, so a further call resumes from there. */
    method Tokenize() returns (tokens: seq<Token>)
      modifies this
      ensures var r := ScanFrom(source, Cursor(old(position), old(insidePHP), old(first), []));
        tokens == Result(r) && r.end == Cursor(position, insidePHP, first, r.tokens)
    {
      tokens := [];
      while position < |source|
        invariant ScanFrom(source, Cursor(position, insidePHP, first, tokens))
               == ScanFrom(source, Cursor(old(position), old(insidePHP), old(first), []))
        decreases |source| - position
      {
        var stop;
        tokens, stop := ScanStep(tokens);
        if stop {
          return;
        }
      }
      tokens := tokens + [EndToken];
    }
  }
}
