/** The tokenizer of the single-file variant (php.cpp): the same two-mode scanner as the
  * canonical one, but it emits the tags as tokens, emits a `<` outside code regions as a
  * text token of its own, and knows no `http`, no comma and no block comment. */
module LegacyLexer {
  import opened LegacyTokens
  import opened Patterns
  import Lexer

  /** What the tokenizer can emit: never EOF, and every lexeme in the language of the
    * pattern that produced it. */
  predicate WellFormed(t: Token) {
    match t.kind
    case EOF => false
    case OpenTag => t.value == "<?php"
    case CloseTag => t.value == "?>"
    case Text => |t.value| > 0
    case Print => t.value == "echo"
    case Db => t.value == "db"
    case Number => IsNumeral(t.value)
    case Str =>
      && |t.value| >= 2 && t.value[0] == '"' && t.value[|t.value| - 1] == '"'
      && forall k | 0 < k < |t.value| - 1 :: t.value[k] != '"'
    case Variable => IsVariableName(t.value)
    case Operator => |t.value| == 1 && IsOperatorChar(t.value[0])
    case Assign => t.value == "="
    case Semicolon => t.value == ";"
    case LParen => t.value == "("
    case RParen => t.value == ")"
  }

  /** The position a step reaches and the tokens it emits. */
  datatype Advance = Advance(next: nat, emitted: seq<Token>)

  /** One step inside a code region, at a position where neither tag matches: a `//`
    * comment (skipped as by the canonical skipComment), the keywords as bare prefixes,
    * then the remaining patterns. A block comment opener is not recognised: it reads as
    * two operators. */
  function CodeStep(src: string, pos: nat): (r: Advance)
    requires pos < |src|
    ensures pos < r.next
    ensures |r.emitted| <= 1 && forall t <- r.emitted :: WellFormed(t)
    ensures forall t <- r.emitted :: !IsTag(t.kind)
  {
    if MatchLength(Literal("//"), src, pos) > 0 then Advance(Lexer.SkipLine(src, pos + 2), [])
    else if MatchLength(Literal("echo"), src, pos) > 0 then Advance(pos + 4, [Token(Print, "echo")])
    else if MatchLength(Literal("db"), src, pos) > 0 then Advance(pos + 2, [Token(Db, "db")])
    else WordStep(src, pos)
  }

  /** The next patterns in order: variable, number. */
  function WordStep(src: string, pos: nat): (r: Advance)
    requires pos < |src|
    ensures pos < r.next
    ensures |r.emitted| <= 1 && forall t <- r.emitted :: WellFormed(t)
    ensures forall t <- r.emitted :: !IsTag(t.kind)
  {
    var v := MatchLength(VariableName, src, pos);
    if v > 0 then Advance(pos + v, [Token(Variable, src[pos..pos + v])]) else
    var d := MatchLength(Numeral, src, pos);
    if d > 0 then Advance(pos + d, [Token(Number, src[pos..pos + d])])
    else PunctStep(src, pos)
  }

  /** The remaining patterns in order: operator, `=`, string literal, `;`, `(`, `)`; a
    * character that matches none of them is skipped. */
  function PunctStep(src: string, pos: nat): (r: Advance)
    requires pos < |src|
    ensures pos < r.next
    ensures |r.emitted| <= 1 && forall t <- r.emitted :: WellFormed(t)
    ensures forall t <- r.emitted :: !IsTag(t.kind)
  {
    if MatchLength(OperatorChar, src, pos) > 0 then
      assert src[pos..pos + 1][0] == src[pos];
      Advance(pos + 1, [Token(Operator, src[pos..pos + 1])])
    else if MatchLength(Literal("="), src, pos) > 0 then Advance(pos + 1, [Token(Assign, "=")])
    else
      var q := MatchLength(QuotedString, src, pos);
      if q > 0 then Advance(pos + q, [Token(Str, src[pos..pos + q])])
      else if MatchLength(Literal(";"), src, pos) > 0 then Advance(pos + 1, [Token(Semicolon, ";")])
      else if MatchLength(Literal("("), src, pos) > 0 then Advance(pos + 1, [Token(LParen, "(")])
      else if MatchLength(Literal(")"), src, pos) > 0 then Advance(pos + 1, [Token(RParen, ")")])
      else Advance(pos + 1, [])
  }

  /** One step outside a code region where no tag matches: a `<` is a text token of its
    * own, any other character starts a run of text up to the next `<`. The run always
    * matches here, so the final skip of one character is never taken. */
  function TextStep(src: string, pos: nat): (r: Advance)
    requires pos < |src|
    ensures pos < r.next
    ensures |r.emitted| <= 1 && forall t <- r.emitted :: WellFormed(t)
    ensures forall t <- r.emitted :: !IsTag(t.kind)
  {
    if MatchLength(Literal("<"), src, pos) > 0 then Advance(pos + 1, [Token(Text, "<")]) else
    var n := MatchLength(TextRun, src, pos);
    if n > 0 then Advance(pos + n, [Token(Text, src[pos..pos + n])])
    else Advance(pos + 1, [])
  }

  /** The scanner's state between two passes of its main loop: the position, the mode and
    * the tokens collected so far. */
  datatype Cursor = Cursor(pos: nat, inside: bool, acc: seq<Token>)

  /** The outcome of one pass: the scan stops at a mismatched tag, or goes on. A stop
    * still carries the state the tokenizer is left in: the tag has been matched, so the
    * position is past it. */
  datatype Move = Stop(after: Cursor) | Go(next: Cursor)

  /** Two tag tests come first in either mode: an open tag inside a code region and a close
    * tag outside one stop the scan; otherwise the tag switches mode and is emitted. */
  function Step(src: string, c: Cursor): (m: Move)
    requires c.pos < |src|
    ensures m.Go? ==> c.pos < m.next.pos && c.acc <= m.next.acc
    ensures m.Stop? && c.inside ==> OpenTagLength(src, c.pos) > 0
    ensures m.Stop? && !c.inside ==> OpenTagLength(src, c.pos) == 0 && HasPrefixAt(src, c.pos, "?>")
    ensures m.Stop? ==> m.after.inside == c.inside && m.after.acc == c.acc
    ensures m.Stop? ==> m.after.pos == c.pos + (if c.inside then 5 else 2)
  {
    var Cursor(pos, inside, acc) := c;
    if MatchLength(Pattern.OpenTag, src, pos) > 0 then
      if inside then Stop(Cursor(pos + 5, true, acc)) else Go(Cursor(pos + 5, true, acc + [Token(TokenKind.OpenTag, "<?php")]))
    else if MatchLength(Literal("?>"), src, pos) > 0 then
      if !inside then Stop(Cursor(pos + 2, false, acc)) else Go(Cursor(pos + 2, false, acc + [Token(CloseTag, "?>")]))
    else if inside then
      var a := CodeStep(src, pos);
      Go(Cursor(a.next, true, acc + a.emitted))
    else
      var a := TextStep(src, pos);
      Go(Cursor(a.next, false, acc + a.emitted))
  }

  /** How a scan ends: at the end of the input, or at a tag that does not fit the mode.
    * Either way `end` is the state the tokenizer is left in. */
  datatype Scan =
    | Finished(tokens: seq<Token>, end: Cursor)
    | Mismatch(tokens: seq<Token>, at: nat, inside: bool, end: Cursor)

  /** The scan from cursor c to the end of the input or the first mismatched tag: the
    * loop of `Lexer.ScanFrom`, driven by this variant's own step function. */
  function ScanFrom(src: string, c: Cursor): (r: Scan)
    ensures c.acc <= r.tokens
    decreases |src| - c.pos
  {
    if c.pos >= |src| then Finished(c.acc, c)
    else match Step(src, c)
      case Stop(after) => Mismatch(c.acc, c.pos, c.inside, after)
      case Go(next) => ScanFrom(src, next)
  }

  /** The token vector tokenize returns: EOF is appended only when the input ran out. */
  function Result(r: Scan): seq<Token> {
    match r
    case Finished(ts, _) => ts + [EndToken]
    case Mismatch(ts, _, _, _) => ts
  }

  /** The tokens of src, for a freshly constructed tokenizer. */
  function Tokenize(src: string): seq<Token> {
    Result(ScanFrom(src, Cursor(0, false, [])))
  }

  class Tokenizer {
    const source: string
    var position: nat
    var lastMatch: string
    var insidePHP: bool

    /** A new tokenizer is at the start of its own copy of the source, outside any code
      * region. */
    constructor (source: string)
      ensures this.source == source
      ensures position == 0 && !insidePHP && lastMatch == ""
    {
      this.source := source;
      position := 0;
      lastMatch := "";
      insidePHP := false;
    }

    /** match: tries pattern p anchored at the current position; on success records the
      * matched text and moves past it, on failure changes nothing. */
    method Match(p: Pattern) returns (matched: bool)
      requires position <= |source|
      modifies this`position, this`lastMatch
      ensures matched == (MatchLength(p, source, old(position)) > 0)
      ensures matched ==> position == old(position) + MatchLength(p, source, old(position))
      ensures matched ==> lastMatch == source[old(position)..position]
      ensures !matched ==> position == old(position) && lastMatch == old(lastMatch)
    {
      var n := MatchLength(p, source, position);
      matched := n > 0;
      if matched {
        lastMatch := source[position..position + n];
        position := position + n;
      }
    }

    /** skipComment: advances past a `//` comment, exactly as the canonical one does. */
    method SkipComment()
      modifies this`position
      ensures position == Lexer.SkipLine(source, old(position))
    {
      while position < |source|
        invariant Lexer.SkipLine(source, position) == Lexer.SkipLine(source, old(position))
        decreases |source| - position
      {
        if source[position] == '\n' {
          position := position + 1;
          break;
        }
        if HasPrefixAt(source, position, "?>") {
          break;
        }
        position := position + 1;
      }
    }

    /** skipCommentMultilene: advances past a block comment, exactly as the canonical one
      * does. tokenize never calls it. */
    method SkipCommentMultiline()
      modifies this`position
      ensures position == Lexer.SkipBlock(source, old(position))
    {
      while position < |source|
        invariant Lexer.SkipBlock(source, position) == Lexer.SkipBlock(source, old(position))
        decreases |source| - position
      {
        if HasPrefixAt(source, position, "*/") {
          position := position + 2;
          break;
        }
        if HasPrefixAt(source, position, "?>") {
          break;
        }
        position := position + 1;
      }
    }

    /** One pass of the main loop inside a code region, after both tags failed to match. */
    method ScanCode(tokens: seq<Token>) returns (tokens': seq<Token>)
      requires position < |source|
      modifies this`position, this`lastMatch
      ensures position == CodeStep(source, old(position)).next
      ensures tokens' == tokens + CodeStep(source, old(position)).emitted
    {
      var done := Match(Literal("//"));
      if done { SkipComment(); return tokens; }
      done := Match(Literal("echo"));
      if done { return tokens + [Token(Print, "echo")]; }
      done := Match(Literal("db"));
      if done { return tokens + [Token(Db, "db")]; }
      tokens' := ScanWord(tokens);
    }

    /** The same pass, continued: variable, number. */
    method ScanWord(tokens: seq<Token>) returns (tokens': seq<Token>)
      requires position < |source|
      modifies this`position, this`lastMatch
      ensures position == WordStep(source, old(position)).next
      ensures tokens' == tokens + WordStep(source, old(position)).emitted
    {
      var done := Match(VariableName);
      if done { return tokens + [Token(Variable, lastMatch)]; }
      done := Match(Numeral);
      if done { return tokens + [Token(Number, lastMatch)]; }
      tokens' := ScanPunct(tokens);
    }

    /** The same pass, concluded: operator, `=`, string literal and punctuation; otherwise
      * one character is skipped. */
    method ScanPunct(tokens: seq<Token>) returns (tokens': seq<Token>)
      requires position < |source|
      modifies this`position, this`lastMatch
      ensures position == PunctStep(source, old(position)).next
      ensures tokens' == tokens + PunctStep(source, old(position)).emitted
    {
      var done := Match(OperatorChar);
      if done { return tokens + [Token(Operator, lastMatch)]; }
      done := Match(Literal("="));
      if done { return tokens + [Token(Assign, "=")]; }
      done := Match(QuotedString);
      if done { return tokens + [Token(Str, lastMatch)]; }
      done := Match(Literal(";"));
      if done { return tokens + [Token(Semicolon, ";")]; }
      done := Match(Literal("("));
      if done { return tokens + [Token(LParen, "(")]; }
      done := Match(Literal(")"));
      if done { return tokens + [Token(RParen, ")")]; }
      position := position + 1;
      tokens' := tokens;
    }

    /** One pass of the main loop outside a code region, after both tags failed to match. */
    method ScanText(tokens: seq<Token>) returns (tokens': seq<Token>)
      requires position < |source|
      modifies this`position, this`lastMatch
      ensures position == TextStep(source, old(position)).next
      ensures tokens' == tokens + TextStep(source, old(position)).emitted
    {
      var matched := Match(Literal("<"));
      if matched {
        return tokens + [Token(Text, "<")];
      }
      matched := Match(TextRun);
      if matched {
        return tokens + [Token(Text, lastMatch)];
      }
      position := position + 1;
      tokens' := tokens;
    }

    /** The rest of the open-tag branch once the tag is accepted outside a code region. The
      * text token for a `<` just before the position is never emitted: that character is
      * the `p` of the tag. */
    method EnterCode(tokens: seq<Token>) returns (tokens': seq<Token>)
      requires 0 < position <= |source| && source[position - 1] == 'p'
      modifies this`insidePHP
      ensures insidePHP && tokens' == tokens + [Token(TokenKind.OpenTag, "<?php")]
    {
      tokens' := tokens;
      if position > 0 && source[position - 1] == '<' {
        tokens' := tokens' + [Token(Text, "<")];
      }
      insidePHP := true;
      tokens' := tokens' + [Token(TokenKind.OpenTag, "<?php")];
    }

    /** One pass of the main loop of tokenize. */
    method ScanStep(tokens: seq<Token>) returns (tokens': seq<Token>, stop: bool)
      requires position < |source|
      modifies this`position, this`lastMatch, this`insidePHP
      ensures var m := Step(source, Cursor(old(position), old(insidePHP), tokens));
        if stop then m == Stop(Cursor(position, insidePHP, tokens)) && tokens' == tokens
        else m == Go(Cursor(position, insidePHP, tokens'))
    {
      ghost var start := position;
      stop := false;
      var matched := Match(Pattern.OpenTag);
      if matched {
        if insidePHP {
          // "Unexpected <?php tag without closing ?>"
          return tokens, true;
        }
        assert position - 1 == start + 4 && source[start + 4] == 'p';
        tokens' := EnterCode(tokens);
        return;
      }
      matched := Match(Literal("?>"));
      if matched {
        if !insidePHP {
          // "Unexpected ?> tag without opening <?php"
          return tokens, true;
        }
        insidePHP := false;
        return tokens + [Token(CloseTag, "?>")], false;
      }
      if insidePHP {
        tokens' := ScanCode(tokens);
      } else {
        tokens' := ScanText(tokens);
      }
    }

    /** tokenize: the scan of the source from the current state. On a tag mismatch the
      * tokens collected so far are returned as they are, without EOF. The tokenizer keeps
      * the state the scan ends in, so a further call resumes from there. */
    method Tokenize() returns (tokens: seq<Token>)
      modifies this
      ensures var r := ScanFrom(source, Cursor(old(position), old(insidePHP), []));
        tokens == Result(r) && r.end == Cursor(position, insidePHP, r.tokens)
    {
      tokens := [];
      while position < |source|
        invariant ScanFrom(source, Cursor(position, insidePHP, tokens))
               == ScanFrom(source, Cursor(old(position), old(insidePHP), []))
        decreases |source| - position
      {
        var stop;
        tokens, stop := ScanStep(tokens);
        if stop {
          return;
        }
      }
      tokens := tokens + [EndToken];
    }
  }
}
