/** Anchored prefix recognisers for the fixed regular expressions the tokenizers try.
  * The source hands each pattern to std::regex_search over the rest of the input and
  * accepts only a match that starts at the current position; for these patterns that is
  * the greedy match written out below. Each recogniser returns the length of the match
  * at index i, or 0 when there is none (no pattern matches the empty string). */
module Patterns {

  predicate IsDigit(c: char) { '0' <= c <= '9' }

  predicate IsLetter(c: char) { 'a' <= c <= 'z' || 'A' <= c <= 'Z' }

  /** The characters of \w, which decide the word boundary \b. */
  predicate IsWordChar(c: char) { IsLetter(c) || IsDigit(c) || c == '_' }

  predicate IsIdentStart(c: char) { IsLetter(c) || c == '_' }

  predicate IsOperatorChar(c: char) { c == '+' || c == '-' || c == '*' || c == '/' || c == '.' }

  /** s holds the literal lit at index i. */
  predicate HasPrefixAt(s: string, i: nat, lit: string) {
    i + |lit| <= |s| && s[i..i + |lit|] == lit
  }

  /** The end of the longest run, starting at i, of characters satisfying p. */
  function Span(s: string, i: nat, p: char -> bool): (j: nat)
    requires i <= |s|
    ensures i <= j <= |s|
    ensures forall k | i <= k < j :: p(s[k])
    ensures j < |s| ==> !p(s[j])
    decreases |s| - i
  {
    if i == |s| || !p(s[i]) then i else Span(s, i + 1, p)
  }

  predicate AllDigits(w: string) { forall k | 0 <= k < |w| :: IsDigit(w[k]) }

  /** The language of `\d+(\.\d+)?`. */
  predicate IsNumeral(w: string) {
    || (|w| > 0 && AllDigits(w))
    || exists k | 0 < k < |w| - 1 :: w[k] == '.' && AllDigits(w[..k]) && AllDigits(w[k + 1..])
  }

  /** The language of `\$[a-zA-Z_][a-zA-Z0-9_]*`. */
  predicate IsVariableName(w: string) {
    |w| >= 2 && w[0] == '$' && IsIdentStart(w[1]) && forall k | 2 <= k < |w| :: IsWordChar(w[k])
  }

  /** `<\?php\b`: the open tag, provided no word character follows it. */
  function OpenTagLength(s: string, i: nat): (n: nat)
    ensures n > 0 <==> HasPrefixAt(s, i, "<?php") && (i + 5 == |s| || !IsWordChar(s[i + 5]))
    ensures n > 0 ==> n == 5 && s[i + 4] == 'p'
  {
    if HasPrefixAt(s, i, "<?php") && (i + 5 == |s| || !IsWordChar(s[i + 5])) then 5 else 0
  }

  /** A fixed string such as `?>`, `//`, `echo` or `;`. */
  function LiteralLength(s: string, i: nat, lit: string): (n: nat)
    ensures n > 0 <==> |lit| > 0 && HasPrefixAt(s, i, lit)
    ensures n > 0 ==> n == |lit|
  {
    if |lit| > 0 && HasPrefixAt(s, i, lit) then |lit| else 0
  }

  /** `\$[a-zA-Z_][a-zA-Z0-9_]*` */
  function VariableLength(s: string, i: nat): (n: nat)
    requires i <= |s|
    ensures i + n <= |s|
    ensures n > 0 <==> i + 1 < |s| && s[i] == '$' && IsIdentStart(s[i + 1])
    ensures n > 0 ==> n >= 2 && forall k | i + 2 <= k < i + n :: IsWordChar(s[k])
    ensures n > 0 ==> IsVariableName(s[i..i + n])
    ensures n > 0 && i + n < |s| ==> !IsWordChar(s[i + n])
  {
    if i + 1 < |s| && s[i] == '$' && IsIdentStart(s[i + 1]) then Span(s, i + 2, IsWordChar) - i else 0
  }

  /** `\d+(\.\d+)?`: the digits, then a fraction only where a digit follows the dot. */
  function NumeralLength(s: string, i: nat): (n: nat)
    requires i <= |s|
    ensures i + n <= |s|
    ensures n > 0 <==> i < |s| && IsDigit(s[i])
    ensures n > 0 ==> IsNumeral(s[i..i + n])
    ensures n > 0 && i + n < |s| ==> !IsDigit(s[i + n])
    ensures n > 0 && i + n + 1 < |s| && s[i + n] == '.' && IsDigit(s[i + n + 1]) ==> '.' in s[i..i + n]
  {
    var d := Span(s, i, IsDigit);
    if d == i then 0
    else if d + 1 < |s| && s[d] == '.' && IsDigit(s[d + 1]) then
      var e := Span(s, d + 1, IsDigit);
      var w := s[i..e];
      assert w[..d - i] == s[i..d] && w[d - i + 1..] == s[d + 1..e];
      assert w[d - i] == '.';
      e - i
    else
      d - i
  }

  /** `[+\-*\/.]` */
  function OperatorLength(s: string, i: nat): (n: nat)
    ensures n > 0 <==> i < |s| && IsOperatorChar(s[i])
    ensures n > 0 ==> n == 1
  {
    if i < |s| && IsOperatorChar(s[i]) then 1 else 0
  }

  /** `"[^"]*"`: a double-quoted string, quotes included; no match without a closing quote. */
  function QuotedLength(s: string, i: nat): (n: nat)
    requires i <= |s|
    ensures i + n <= |s|
    ensures n > 0 ==> n >= 2 && s[i] == '"' && s[i + n - 1] == '"'
    ensures n > 0 ==> forall k | i < k < i + n - 1 :: s[k] != '"'
    ensures n == 0 ==> i == |s| || s[i] != '"' || forall k | i < k < |s| :: s[k] != '"'
  {
    if i < |s| && s[i] == '"' then
      var j := Span(s, i + 1, c => c != '"');
      if j < |s| then j + 1 - i else 0
    else
      0
  }

  /** `[^<]+` */
  function TextRunLength(s: string, i: nat): (n: nat)
    requires i <= |s|
    ensures i + n <= |s|
    ensures n > 0 <==> i < |s| && s[i] != '<'
    ensures forall k | i <= k < i + n :: s[k] != '<'
    ensures i + n < |s| ==> s[i + n] == '<'
  {
    Span(s, i, c => c != '<') - i
  }

  /** The patterns the tokenizers try, one constructor per regular expression shape. */
  datatype Pattern =
    | OpenTag
    | Literal(text: string)
    | VariableName
    | Numeral
    | OperatorChar
    | QuotedString
    | TextRun

  /** The length of the match of p anchored at index i of s, 0 for none. */
  function MatchLength(p: Pattern, s: string, i: nat): (n: nat)
    requires i <= |s|
    ensures i + n <= |s|
  {
    match p
    case OpenTag => OpenTagLength(s, i)
    case Literal(lit) => LiteralLength(s, i, lit)
    case VariableName => VariableLength(s, i)
    case Numeral => NumeralLength(s, i)
    case OperatorChar => OperatorLength(s, i)
    case QuotedString => QuotedLength(s, i)
    case TextRun => TextRunLength(s, i)
  }
}
