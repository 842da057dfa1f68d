/**
 * The lexical grammar of the scanner, stated declaratively.
 *
 * The scanner compiles one anchored regular expression (src/parser/tokenizer.rs:46-84).
 * Its alternatives are tried in this order, and the first one that matches wins:
 *   number, symbol, good string, block, whitespace, bad-eof string, clipped,
 *   boolean, dot, mark.
 * This module states what each alternative matches as a language over strings, and
 * `LeftmostFirst` states which capture the anchored expression yields on a given
 * input. The character classes `[[:space:]]` and `[[:alpha:]]` are the ASCII classes.
 * Module Regex computes the capture and proves that it meets `LeftmostFirst`.
 */
module Lexical {
  import opened Wrappers

  // ----- character classes -----

  /** `[[:space:]]`: tab, newline, vertical tab, form feed, carriage return, space. */
  predicate IsSpace(c: char) {
    c == ' ' || c == '\t' || c == '\n' || c == '\U{000B}' || c == '\U{000C}' || c == '\r'
  }

  /** `[[:alpha:]]` */
  predicate IsAlpha(c: char) {
    ('a' <= c <= 'z') || ('A' <= c <= 'Z')
  }

  predicate IsDigit(c: char) {
    '0' <= c <= '9'
  }

  // `[!$%&*/:<=>?^_~]`
  predicate IsSpecialInitial(c: char) {
    c == '!' || c == '$' || c == '%' || c == '&' || c == '*' || c == '/' || c == ':' ||
    c == '<' || c == '=' || c == '>' || c == '?' || c == '^' || c == '_' || c == '~'
  }

  /** `[+.@-]` */
  predicate IsSpecialSubsequent(c: char) {
    c == '+' || c == '.' || c == '@' || c == '-'
  }

  predicate IsInitial(c: char) {
    IsAlpha(c) || IsSpecialInitial(c)
  }

  predicate IsSubsequent(c: char) {
    IsDigit(c) || IsInitial(c) || IsSpecialSubsequent(c)
  }

  /** What the regex's `.` matches: any character but a newline. */
  predicate NotNewline(c: char) {
    c != '\n'
  }

  /** `[^"\\\n]`: a string character that needs no escape. */
  predicate IsPlainStringChar(c: char) {
    c != '"' && c != '\\' && c != '\n'
  }

  /** A character that may start the delimiter after a number, symbol, boolean or dot. */
  predicate IsDelimiterChar(c: char) {
    IsSpace(c) || c == '(' || c == ')' || c == '"' || c == ';'
  }

  /** The delimiter lookahead `(?:whitespace|[()";]|$)` can match at position `k`. */
  predicate DelimiterAt(s: string, k: nat) {
    k == |s| || (k < |s| && IsDelimiterChar(s[k]))
  }

  // ----- the languages of the alternatives -----

  ghost predicate Digits(t: string) {
    |t| > 0 && forall i :: 0 <= i < |t| ==> IsDigit(t[i])
  }

  /** `(?:\+|-)?[0-9]+` */
  ghost predicate NumberText(t: string) {
    Digits(t) || (|t| > 0 && (t[0] == '+' || t[0] == '-') && Digits(t[1..]))
  }

  /** `initial subsequent*` */
  ghost predicate NormalSymbolText(t: string) {
    |t| > 0 && IsInitial(t[0]) && forall i :: 1 <= i < |t| ==> IsSubsequent(t[i])
  }

  /** The peculiar identifiers `+`, `-` and `...`. */
  ghost predicate OddSymbolText(t: string) {
    t == "+" || t == "-" || t == "..."
  }

  /** `(?:[^"\\\n]|\\.)*`: plain characters and backslash escapes, left unresolved. */
  ghost predicate StringBody(t: string)
    decreases |t|
  {
    t == []
    || (IsPlainStringChar(t[0]) && StringBody(t[1..]))
    || (|t| >= 2 && t[0] == '\\' && NotNewline(t[1]) && StringBody(t[2..]))
  }

  /** `;.*` */
  ghost predicate CommentText(t: string) {
    |t| > 0 && t[0] == ';' && forall i :: 1 <= i < |t| ==> NotNewline(t[i])
  }

  /** `(?:[[:space:]]|;.*)+`: one or more space characters and comments. */
  ghost predicate WhitespaceText(t: string)
    decreases |t|
  {
    |t| > 0 &&
    ( (IsSpace(t[0]) && (|t| == 1 || WhitespaceText(t[1..])))
    || (exists j :: 1 <= j <= |t| && CommentText(t[..j]) && (j == |t| || WhitespaceText(t[j..]))))
  }

  // ----- the alternatives, anchored at the start of `s` -----
  // For the alternatives that end in a delimiter lookahead, `k` is the end of the
  // named group, which is where the token ends.

  ghost predicate NumberAlt(s: string, k: nat) {
    0 < k <= |s| && NumberText(s[..k]) && DelimiterAt(s, k)
  }

  ghost predicate SymbolAlt(s: string, k: nat) {
    0 < k <= |s| && (NormalSymbolText(s[..k]) || OddSymbolText(s[..k])) && DelimiterAt(s, k)
  }

  /** `"body"` ending at `k`, the position just past the closing quote. */
  ghost predicate GoodStringAlt(s: string, k: nat) {
    2 <= k <= |s| && s[0] == '"' && s[k - 1] == '"' && StringBody(s[1..k - 1])
  }

  predicate BlockAlt(s: string) {
    |s| > 0 && (s[0] == '(' || s[0] == ')')
  }

  ghost predicate WhitespaceAlt(s: string, k: nat) {
    0 < k <= |s| && WhitespaceText(s[..k])
  }

  /** `"body\\?$`: a string that the end of input cuts off. */
  ghost predicate BadEofStringAlt(s: string) {
    |s| > 0 && s[0] == '"' &&
    exists j :: 1 <= j <= |s| && StringBody(s[1..j]) && (j == |s| || (j == |s| - 1 && s[j] == '\\'))
  }

  /** `(?:\.{2}|#)$` */
  predicate ClippedAlt(s: string) {
    s == ".." || s == "#"
  }

  predicate BooleanAlt(s: string) {
    |s| >= 2 && s[0] == '#' && (s[1] == 't' || s[1] == 'f') && DelimiterAt(s, 2)
  }

  predicate DotAlt(s: string) {
    |s| > 0 && s[0] == '.' && DelimiterAt(s, 1)
  }

  predicate MarkAlt(s: string) {
    |s| > 0 && s[0] == '\''
  }

  /**
   * The delimiter alternation starting at `k` matches up to `m`. Its branches are
   * tried in order: a space character, a comment (greedy, so it runs up to the
   * newline or the end of input), one of `(`, `)`, `"` (a `;` was already taken
   * as a comment), or the end of input.
   */
  ghost predicate DelimiterMatch(s: string, k: nat, m: nat) {
    k <= m <= |s| &&
    ( (k < |s| && IsSpace(s[k]) && m == k + 1)
    || (k < |s| && s[k] == ';' && CommentText(s[k..m]) && (m == |s| || s[m] == '\n'))
    || (k < |s| && (s[k] == '(' || s[k] == ')' || s[k] == '"') && m == k + 1)
    || (k == |s| && m == k))
  }

  // ----- captures -----

  /** The named groups of the expression, one per alternative. */
  datatype Group =
    | Number | Symbol | GoodString | Block | Whitespace
    | BadEofString | Clipped | Boolean | Dot | Mark

  /**
   * The outcome of one anchored match: which alternative matched, the span
   * `[start, end)` of its named group, and the end of the whole match (which
   * includes the delimiter lookahead, if the alternative has one).
   */
  datatype Capture = Capture(group: Group, start: nat, end: nat, matchEnd: nat)

  /**
   * `c` is what leftmost-first alternation yields on `s`: the first alternative that
   * matches at all wins; within it, the span is the one a backtracking matcher finds
   * first. For the delimited alternatives that span is the only one; for whitespace
   * the greedy `+` gives the longest run; for a comment in a delimiter, the greedy
   * `.*` runs to the end of the line.
   */
  ghost predicate LeftmostFirst(s: string, c: Option<Capture>) {
    (c.Some? ==> c.value.start <= c.value.end <= c.value.matchEnd <= |s|) &&
    if exists k: nat :: NumberAlt(s, k) then
      c.Some? && c.value.group == Number && c.value.start == 0
      && (forall k: nat :: NumberAlt(s, k) <==> k == c.value.end)
      && DelimiterMatch(s, c.value.end, c.value.matchEnd)
    else if exists k: nat :: SymbolAlt(s, k) then
      c.Some? && c.value.group == Symbol && c.value.start == 0
      && (forall k: nat :: SymbolAlt(s, k) <==> k == c.value.end)
      && DelimiterMatch(s, c.value.end, c.value.matchEnd)
    else if exists k: nat :: GoodStringAlt(s, k) then
      c.Some? && c.value.group == GoodString && c.value.start == 1
      && (forall k: nat :: GoodStringAlt(s, k) <==> k == c.value.matchEnd)
      && c.value.end + 1 == c.value.matchEnd
    else if BlockAlt(s) then
      c == Some(Capture(Block, 0, 1, 1))
    else if exists k: nat :: WhitespaceAlt(s, k) then
      c.Some? && c.value.group == Whitespace && c.value.start == 0
      && WhitespaceAlt(s, c.value.end)
      && (forall k: nat :: WhitespaceAlt(s, k) ==> k <= c.value.end)
      && c.value.matchEnd == c.value.end
    else if BadEofStringAlt(s) then
      c.Some? && c.value.group == BadEofString && c.value.start == 1 && c.value.matchEnd == |s|
    else if ClippedAlt(s) then
      c == Some(Capture(Clipped, 0, |s|, |s|))
    else if BooleanAlt(s) then
      c.Some? && c.value.group == Boolean && c.value.start == 0 && c.value.end == 2
      && DelimiterMatch(s, 2, c.value.matchEnd)
    else if DotAlt(s) then
      c.Some? && c.value.group == Dot && c.value.start == 0 && c.value.end == 1
      && DelimiterMatch(s, 1, c.value.matchEnd)
    else if MarkAlt(s) then
      c == Some(Capture(Mark, 0, 1, 1))
    else
      c == None
  }
}
