/**
 * The anchored expression of src/parser/tokenizer.rs:46-84, computed by hand.
 *
 * Every repetition in the expression is over a character class, so each
 * alternative is decided by scanning the longest run of one class (`SpanEnd`,
 * `BodyEnd`, `WsEnd`) and looking at the character after it. `Captures` tries the
 * alternatives in the expression's order; `CapturesAreLeftmostFirst` proves that it
 * yields what `Lexical.LeftmostFirst` describes.
 */
module Regex {
  import opened Wrappers
  import opened Lexical

  // ----- maximal runs -----

  /** The end of the longest run of characters satisfying `p` that starts at `i`. */
  function SpanEnd(s: string, i: nat, p: char -> bool): (j: nat)
    requires i <= |s|
    ensures i <= j <= |s|
    ensures forall m :: i <= m < j ==> p(s[m])
    ensures j < |s| ==> !p(s[j])
    decreases |s| - i
  {
    if i < |s| && p(s[i]) then SpanEnd(s, i + 1, p) else i
  }

  /** A run of `p` that is followed by a non-`p` character (or the end) is the longest one. */
  lemma {:induction false} SpanEndAt(s: string, i: nat, j: nat, p: char -> bool)
    requires i <= j <= |s|
    requires forall m :: i <= m < j ==> p(s[m])
    requires j < |s| ==> !p(s[j])
    ensures SpanEnd(s, i, p) == j
    decreases j - i
  {
    if i < j {
      assert p(s[i]);
      SpanEndAt(s, i + 1, j, p);
    }
  }

  /** A run of `p` starting at `i` never reaches past the longest one. */
  lemma {:induction false} SpanEndCovers(s: string, i: nat, j: nat, p: char -> bool)
    requires i <= j <= |s|
    requires forall m :: i <= m < j ==> p(s[m])
    ensures j <= SpanEnd(s, i, p)
    decreases j - i
  {
    if i < j {
      assert p(s[i]);
      SpanEndCovers(s, i + 1, j, p);
    }
  }

  /**
   * The end of the longest string body `(?:[^"\\\n]|\\.)*` that starts at `i`. A body
   * splits into plain characters and two-character escapes in only one way, so this
   * walks that split.
   */
  function BodyEnd(s: string, i: nat): (j: nat)
    requires i <= |s|
    ensures i <= j <= |s|
    ensures j < |s| ==> !IsPlainStringChar(s[j]) && !(j + 1 < |s| && s[j] == '\\' && NotNewline(s[j + 1]))
    decreases |s| - i
  {
    if i < |s| && IsPlainStringChar(s[i]) then BodyEnd(s, i + 1)
    else if i + 1 < |s| && s[i] == '\\' && NotNewline(s[i + 1]) then BodyEnd(s, i + 2)
    else i
  }

  lemma {:induction false} BodyEndIsBody(s: string, i: nat)
    requires i <= |s|
    ensures StringBody(s[i..BodyEnd(s, i)])
    decreases |s| - i
  {
    var t := s[i..BodyEnd(s, i)];
    if i < |s| && IsPlainStringChar(s[i]) {
      BodyEndIsBody(s, i + 1);
      assert t[1..] == s[i + 1..BodyEnd(s, i + 1)];
    } else if i + 1 < |s| && s[i] == '\\' && NotNewline(s[i + 1]) {
      BodyEndIsBody(s, i + 2);
      assert t[2..] == s[i + 2..BodyEnd(s, i + 2)];
    } else {
      assert t == [];
    }
  }

  /**
   * Any string body starting at `i` ends on a boundary of the longest one: the scan
   * from its end reaches the same place.
   */
  lemma {:induction false} BodyPrefix(s: string, i: nat, j: nat)
    requires i <= j <= |s|
    requires StringBody(s[i..j])
    ensures BodyEnd(s, j) == BodyEnd(s, i)
    decreases j - i
  {
    var t := s[i..j];
    if t == [] {
      assert i == j;
    } else if IsPlainStringChar(t[0]) && StringBody(t[1..]) {
      assert t[1..] == s[i + 1..j];
      BodyPrefix(s, i + 1, j);
    } else {
      assert |t| >= 2 && t[0] == '\\' && NotNewline(t[1]) && StringBody(t[2..]);
      assert t[2..] == s[i + 2..j];
      BodyPrefix(s, i + 2, j);
    }
  }

  /** The end of the whitespace run `(?:[[:space:]]|;.*)+` taken greedily from `i`. */
  function WsEnd(s: string, i: nat): (j: nat)
    requires i <= |s|
    ensures i <= j <= |s|
    ensures j < |s| ==> !IsSpace(s[j]) && s[j] != ';'
    decreases |s| - i
  {
    if i < |s| && IsSpace(s[i]) then WsEnd(s, i + 1)
    else if i < |s| && s[i] == ';' then WsEnd(s, SpanEnd(s, i + 1, NotNewline))
    else i
  }

  lemma {:induction false} WsEndIsWhitespace(s: string, i: nat)
    requires i <= |s| && i < WsEnd(s, i)
    ensures WhitespaceText(s[i..WsEnd(s, i)])
    decreases |s| - i
  {
    var t := s[i..WsEnd(s, i)];
    if IsSpace(s[i]) {
      if i + 1 < WsEnd(s, i + 1) {
        WsEndIsWhitespace(s, i + 1);
        assert t[1..] == s[i + 1..WsEnd(s, i + 1)];
      }
    } else {
      var e := SpanEnd(s, i + 1, NotNewline);
      var j := e - i;
      assert t[..j] == s[i..e];
      assert CommentText(t[..j]);
      if e < WsEnd(s, e) {
        WsEndIsWhitespace(s, e);
        assert t[j..] == s[e..WsEnd(s, e)];
      }
    }
  }

  /** Every comment start inside the greedy run has its whole comment inside the run. */
  lemma {:induction false} WsEndCoversComments(s: string, i: nat, q: nat)
    requires i <= |s| && i <= q < WsEnd(s, i) && s[q] == ';'
    ensures SpanEnd(s, q + 1, NotNewline) <= WsEnd(s, i)
    decreases |s| - i
  {
    if IsSpace(s[i]) {
      WsEndCoversComments(s, i + 1, q);
    } else {
      var e := SpanEnd(s, i + 1, NotNewline);
      if q < e {
        SpanEndAt(s, q + 1, e, NotNewline);
      } else {
        WsEndCoversComments(s, e, q);
      }
    }
  }

  /** A whitespace text starts with a space character or a comment. */
  lemma WhitespaceTextStarts(t: string)
    requires WhitespaceText(t)
    ensures IsSpace(t[0]) || t[0] == ';'
  {
    if !IsSpace(t[0]) {
      var c :| 1 <= c <= |t| && CommentText(t[..c]) && (c == |t| || WhitespaceText(t[c..]));
      assert t[..c][0] == t[0];
    }
  }

  /** No whitespace text that starts inside the greedy run reaches past it. */
  lemma {:induction false} WsBound(s: string, i: nat, p: nat, j: nat)
    requires i <= |s| && i <= p <= WsEnd(s, i) && p <= j <= |s|
    requires WhitespaceText(s[p..j])
    ensures j <= WsEnd(s, i)
    decreases j - p
  {
    var t := s[p..j];
    WhitespaceTextStarts(t);
    assert s[p] == t[0];
    if IsSpace(t[0]) && (|t| == 1 || WhitespaceText(t[1..])) {
      if |t| > 1 {
        assert t[1..] == s[p + 1..j];
        WsBound(s, i, p + 1, j);
      }
    } else {
      var c :| 1 <= c <= |t| && CommentText(t[..c]) && (c == |t| || WhitespaceText(t[c..]));
      assert s[p] == t[..c][0] == ';';
      WsEndCoversComments(s, i, p);
      forall m | p + 1 <= m < p + c ensures NotNewline(s[m]) {
        assert s[m] == t[..c][m - p];
      }
      SpanEndCovers(s, p + 1, p + c, NotNewline);
      if c < |t| {
        assert t[c..] == s[p + c..j];
        WsBound(s, i, p + c, j);
      }
    }
  }

  // ----- one function per alternative -----

  /** The end of the number group, if the number alternative matches. */
  function NumberEnd(s: string): (r: Option<nat>)
    ensures r.Some? ==> 0 < r.value <= |s| && DelimiterAt(s, r.value)
  {
    if s == [] then None
    else
      var digitsStart := if s[0] == '+' || s[0] == '-' then 1 else 0;
      var e := SpanEnd(s, digitsStart, IsDigit);
      if digitsStart < e && DelimiterAt(s, e) then Some(e) else None
  }

  lemma NumberEndMatches(s: string)
    ensures forall k: nat :: NumberAlt(s, k) <==> NumberEnd(s) == Some(k)
  {
    forall k: nat | NumberAlt(s, k) ensures NumberEnd(s) == Some(k) {
      var t := s[..k];
      var d := if s[0] == '+' || s[0] == '-' then 1 else 0;
      if Digits(t) {
        assert IsDigit(t[0]);
      } else {
        assert Digits(t[1..]);
        forall m | 1 <= m < k ensures IsDigit(s[m]) {
          assert s[m] == t[1..][m - 1];
        }
      }
      assert forall m :: d <= m < k ==> IsDigit(s[m]) by {
        forall m | d <= m < k ensures IsDigit(s[m]) {
          if d == 0 { assert s[m] == t[m]; }
        }
      }
      SpanEndAt(s, d, k, IsDigit);
    }
    if NumberEnd(s).Some? {
      var k := NumberEnd(s).value;
      var t := s[..k];
      var d := if s[0] == '+' || s[0] == '-' then 1 else 0;
      if d == 0 {
        assert Digits(t) by {
          forall m | 0 <= m < |t| ensures IsDigit(t[m]) { assert t[m] == s[m]; }
        }
      } else {
        assert Digits(t[1..]) by {
          forall m | 0 <= m < |t[1..]| ensures IsDigit(t[1..][m]) { assert t[1..][m] == s[m + 1]; }
        }
      }
      assert NumberAlt(s, k);
    }
  }

  /** The end of the symbol group, if the symbol alternative matches. */
  function SymbolEnd(s: string): (r: Option<nat>)
    ensures r.Some? ==> 0 < r.value <= |s| && DelimiterAt(s, r.value)
  {
    if s == [] then None
    else if IsInitial(s[0]) then
      var e := SpanEnd(s, 1, IsSubsequent);
      if DelimiterAt(s, e) then Some(e) else None
    else if (s[0] == '+' || s[0] == '-') && DelimiterAt(s, 1) then Some(1)
    else if |s| >= 3 && s[..3] == "..." && DelimiterAt(s, 3) then Some(3)
    else None
  }

  lemma SymbolEndMatches(s: string)
    ensures forall k: nat :: SymbolAlt(s, k) <==> SymbolEnd(s) == Some(k)
  {
    forall k: nat | SymbolAlt(s, k) ensures SymbolEnd(s) == Some(k) {
      SymbolAltIsSymbolEnd(s, k);
    }
    if SymbolEnd(s).Some? {
      SymbolEndIsAlt(s);
    }
  }

  lemma SymbolAltIsSymbolEnd(s: string, k: nat)
    requires SymbolAlt(s, k)
    ensures SymbolEnd(s) == Some(k)
  {
    var t := s[..k];
    if NormalSymbolText(t) {
      assert IsInitial(s[0]) by { assert t[0] == s[0]; }
      forall m | 1 <= m < k ensures IsSubsequent(s[m]) { assert s[m] == t[m]; }
      SpanEndAt(s, 1, k, IsSubsequent);
    } else if t == "+" || t == "-" {
      assert s[0] == t[0];
    } else {
      assert t == "...";
      assert s[0] == t[0] == '.';
    }
  }

  lemma SymbolEndIsAlt(s: string)
    requires SymbolEnd(s).Some?
    ensures SymbolAlt(s, SymbolEnd(s).value)
  {
    var k := SymbolEnd(s).value;
    var t := s[..k];
    if IsInitial(s[0]) {
      forall m | 1 <= m < |t| ensures IsSubsequent(t[m]) { assert t[m] == s[m]; }
      assert NormalSymbolText(t);
    } else if (s[0] == '+' || s[0] == '-') && DelimiterAt(s, 1) {
      assert t == [s[0]];
    } else {
      assert t == "...";
    }
  }


  /** The end of the whole good-string match (just past the closing quote), if it matches. */
  function GoodStringEnd(s: string): (r: Option<nat>)
    ensures r.Some? ==> 2 <= r.value <= |s|
  {
    if |s| > 0 && s[0] == '"' then
      var e := BodyEnd(s, 1);
      if e < |s| && s[e] == '"' then Some(e + 1) else None
    else None
  }

  lemma GoodStringEndMatches(s: string)
    ensures forall k: nat :: GoodStringAlt(s, k) <==> GoodStringEnd(s) == Some(k)
  {
    forall k: nat | GoodStringAlt(s, k) ensures GoodStringEnd(s) == Some(k) {
      BodyPrefix(s, 1, k - 1);
    }
    if GoodStringEnd(s).Some? {
      BodyEndIsBody(s, 1);
    }
  }

  /** The end of the greedy whitespace run, if the whitespace alternative matches. */
  function WhitespaceEnd(s: string): (r: Option<nat>)
    ensures r.Some? ==> 0 < r.value <= |s|
  {
    var e := WsEnd(s, 0);
    if 0 < e then Some(e) else None
  }

  lemma WhitespaceEndMatches(s: string)
    ensures WhitespaceEnd(s).Some? <==> exists k: nat :: WhitespaceAlt(s, k)
    ensures WhitespaceEnd(s).Some? ==> WhitespaceAlt(s, WhitespaceEnd(s).value)
    ensures forall k: nat :: WhitespaceAlt(s, k) ==> WhitespaceEnd(s).Some? && k <= WhitespaceEnd(s).value
  {
    var e := WsEnd(s, 0);
    if 0 < e {
      WsEndIsWhitespace(s, 0);
      assert s[0..e] == s[..e];
      assert WhitespaceAlt(s, e);
    }
    forall k: nat | WhitespaceAlt(s, k) ensures 0 < e && k <= e {
      assert s[0..k] == s[..k];
      WsBound(s, 0, 0, k);
    }
  }

  /** Whether the bad-eof-string alternative `"body\\?$` matches. */
  function IsBadEofString(s: string): (r: bool)
    ensures r ==> |s| > 0
  {
    |s| > 0 && s[0] == '"' &&
    var e := BodyEnd(s, 1);
    e == |s| || (e == |s| - 1 && s[e] == '\\')
  }

  lemma BadEofStringMatches(s: string)
    ensures IsBadEofString(s) <==> BadEofStringAlt(s)
  {
    if IsBadEofString(s) {
      BodyEndIsBody(s, 1);
      var e := BodyEnd(s, 1);
      assert 1 <= e <= |s| && StringBody(s[1..e]) && (e == |s| || (e == |s| - 1 && s[e] == '\\'));
    }
    if BadEofStringAlt(s) {
      var j :| 1 <= j <= |s| && StringBody(s[1..j]) && (j == |s| || (j == |s| - 1 && s[j] == '\\'));
      BodyPrefix(s, 1, j);
    }
  }

  /** The end of the whole match of the delimiter that starts at `k`. */
  function DelimiterEnd(s: string, k: nat): (m: nat)
    requires DelimiterAt(s, k)
    ensures k <= m <= |s|
    ensures k < |s| ==> k < m
  {
    if k == |s| then k
    else if IsSpace(s[k]) then k + 1
    else if s[k] == ';' then SpanEnd(s, k + 1, NotNewline)
    else k + 1
  }

  lemma DelimiterEndMatches(s: string, k: nat)
    requires DelimiterAt(s, k)
    ensures forall m: nat :: DelimiterMatch(s, k, m) <==> m == DelimiterEnd(s, k)
  {
    if k < |s| && !IsSpace(s[k]) && s[k] == ';' {
      var e := SpanEnd(s, k + 1, NotNewline);
      assert CommentText(s[k..e]) by {
        forall m | 1 <= m < |s[k..e]| ensures NotNewline(s[k..e][m]) { assert s[k..e][m] == s[k + m]; }
      }
      forall m: nat | DelimiterMatch(s, k, m) ensures m == e {
        forall x | k + 1 <= x < m ensures NotNewline(s[x]) { assert s[x] == s[k..m][x - k]; }
        SpanEndAt(s, k + 1, m, NotNewline);
      }
    }
  }

  // ----- the whole expression -----

  /** `REGEX.captures(s)`: the alternatives in the expression's order. */
  function Captures(s: string): (r: Option<Capture>)
    ensures r.Some? ==> 0 < r.value.end && r.value.start <= r.value.end <= r.value.matchEnd <= |s|
  {
    var number := NumberEnd(s);
    if number.Some? then Some(Capture(Number, 0, number.value, DelimiterEnd(s, number.value)))
    else
    var symbol := SymbolEnd(s);
    if symbol.Some? then Some(Capture(Symbol, 0, symbol.value, DelimiterEnd(s, symbol.value)))
    else
    var goodString := GoodStringEnd(s);
    if goodString.Some? then Some(Capture(GoodString, 1, goodString.value - 1, goodString.value))
    else if BlockAlt(s) then Some(Capture(Block, 0, 1, 1))
    else
    var whitespace := WhitespaceEnd(s);
    if whitespace.Some? then Some(Capture(Whitespace, 0, whitespace.value, whitespace.value))
    else if IsBadEofString(s) then Some(Capture(BadEofString, 1, BodyEnd(s, 1), |s|))
    else if ClippedAlt(s) then Some(Capture(Clipped, 0, |s|, |s|))
    else if BooleanAlt(s) then Some(Capture(Boolean, 0, 2, DelimiterEnd(s, 2)))
    else if DotAlt(s) then Some(Capture(Dot, 0, 1, DelimiterEnd(s, 1)))
    else if MarkAlt(s) then Some(Capture(Mark, 0, 1, 1))
    else None
  }

  /**
   * A number, symbol, boolean or dot capture ends where a delimiter starts, and the
   * whole match goes past it unless the input ends there.
   */
  lemma CapturedDelimiter(s: string)
    requires Captures(s).Some?
    requires var g := Captures(s).value.group; g == Number || g == Symbol || g == Boolean || g == Dot
    ensures var c := Captures(s).value;
      DelimiterAt(s, c.end) && (c.end < |s| ==> c.end < c.matchEnd)
  {
  }

  /** The computed capture is the one leftmost-first alternation yields. */
  lemma CapturesAreLeftmostFirst(s: string)
    ensures LeftmostFirst(s, Captures(s))
  {
    if NumberEnd(s).Some? || SymbolEnd(s).Some? {
      LeftmostFirstNumberOrSymbol(s);
    } else if GoodStringEnd(s).Some? || BlockAlt(s) || WhitespaceEnd(s).Some? {
      LeftmostFirstStringBlockOrBlank(s);
    } else {
      LeftmostFirstRest(s);
    }
  }

  lemma LeftmostFirstNumberOrSymbol(s: string)
    requires NumberEnd(s).Some? || SymbolEnd(s).Some?
    ensures LeftmostFirst(s, Captures(s))
  {
    NumberEndMatches(s);
    if NumberEnd(s).Some? {
      DelimiterEndMatches(s, NumberEnd(s).value);
    } else {
      SymbolEndMatches(s);
      DelimiterEndMatches(s, SymbolEnd(s).value);
    }
  }

  lemma LeftmostFirstStringBlockOrBlank(s: string)
    requires NumberEnd(s).None? && SymbolEnd(s).None?
    requires GoodStringEnd(s).Some? || BlockAlt(s) || WhitespaceEnd(s).Some?
    ensures LeftmostFirst(s, Captures(s))
  {
    NumberEndMatches(s);
    SymbolEndMatches(s);
    GoodStringEndMatches(s);
    if GoodStringEnd(s).None? && !BlockAlt(s) {
      WhitespaceEndMatches(s);
    }
  }

  lemma LeftmostFirstRest(s: string)
    requires NumberEnd(s).None? && SymbolEnd(s).None? && GoodStringEnd(s).None?
    requires !BlockAlt(s) && WhitespaceEnd(s).None?
    ensures LeftmostFirst(s, Captures(s))
  {
    NumberEndMatches(s);
    SymbolEndMatches(s);
    GoodStringEndMatches(s);
    WhitespaceEndMatches(s);
    BadEofStringMatches(s);
    if BooleanAlt(s) {
      DelimiterEndMatches(s, 2);
    } else if DotAlt(s) {
      DelimiterEndMatches(s, 1);
    }
  }


}
