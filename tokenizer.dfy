/**
 * The scanner of src/parser/tokenizer.rs.
 *
 * `Scan` is what one call of `gen_token` decides on a remaining input: the internal
 * token and how far the input advances, or the error. `NextOf` is what one call of
 * the iterator's `next` yields and what input it leaves. The class `Tokenizer` holds
 * the remaining input and runs both steps in place; its methods are proved to
 * follow the two functions. The lemmas at the end state the scanner's promises.
 */
module Tokenizer {
  import opened Wrappers
  import L = Lexical
  import R = Regex

  datatype Block = Start | End

  datatype Mark = Quote

  /** Tokens borrow text from the input; here they carry a copy of it. */
  datatype Token =
    | Block(block: Block)
    | TString(body: string)
    | Symbol(name: string)
    | Number(text: string)
    | Bool(value: bool)
    | Dot
    | Mark(mark: Mark)

  /** Tokens as the scanner sees them, before whitespace and the end are filtered out. */
  datatype InternalToken = PublicToken(token: Token) | EndOfFile | Whitespace

  datatype TokenizerError = UnexpectedEndOfFile | UnknownToken

  /** An internal token and the position up to which the input is consumed. */
  datatype Scanned = Scanned(token: InternalToken, end: nat)

  /** `can_ignore`: only whitespace is skipped by the iterator. */
  predicate CanIgnore(t: InternalToken)
    ensures CanIgnore(t) <==> t == Whitespace
  {
    match t
    case PublicToken(_) => false
    case EndOfFile => false
    case Whitespace => true
  }

  /** The groups whose match includes a delimiter that the token must not consume. */
  predicate EndsAtGroup(g: L.Group) {
    g == L.Boolean || g == L.Symbol || g == L.Number || g == L.Dot
  }

  /** The groups that become a public token. */
  predicate IsTokenGroup(g: L.Group) {
    g != L.Whitespace && g != L.BadEofString && g != L.Clipped
  }

  /**
   * The public token for a capture of one of the token-producing groups: each group
   * gives its own kind of token, and the text-carrying tokens carry the group's text.
   */
  function TokenOf(s: string, c: L.Capture): (t: Token)
    requires c.start <= c.end <= |s|
    requires IsTokenGroup(c.group)
    ensures t.TString? <==> c.group == L.GoodString
    ensures t.Block? <==> c.group == L.Block
    ensures t.Bool? <==> c.group == L.Boolean
    ensures t.Symbol? <==> c.group == L.Symbol
    ensures t.Number? <==> c.group == L.Number
    ensures t.Dot? <==> c.group == L.Dot
    ensures t.Mark? <==> c.group == L.Mark
    ensures t.TString? ==> t.body == s[c.start..c.end]
    ensures t.Symbol? ==> t.name == s[c.start..c.end]
    ensures t.Number? ==> t.text == s[c.start..c.end]
  {
    var text := s[c.start..c.end];
    match c.group
    case GoodString => TString(text)
    case Block => Block(if text == "(" then Start else End)
    case Boolean => Bool(text == "#t")
    case Symbol => Symbol(text)
    case Number => Number(text)
    case Dot => Dot
    case Mark => Mark(Quote)
  }

  /**
   * One step of `gen_token` on the remaining input `s`: the end of input, the
   * regular expression's capture, or an error.
   */
  function Scan(s: string): (r: Result<Scanned, TokenizerError>)
    ensures r.Ok? ==> r.value.end <= |s|
    ensures r.Ok? ==> (r.value.token == EndOfFile <==> s == [])
    ensures r.Ok? && r.value.token != EndOfFile ==> 0 < r.value.end
  {
    if s == [] then Ok(Scanned(EndOfFile, 0))
    else match R.Captures(s)
      case None => Err(UnknownToken)
      case Some(c) =>
        if c.group == L.Whitespace then Ok(Scanned(Whitespace, c.matchEnd))
        else if c.group == L.BadEofString || c.group == L.Clipped then Err(UnexpectedEndOfFile)
        else Ok(Scanned(PublicToken(TokenOf(s, c)), if EndsAtGroup(c.group) then c.end else c.matchEnd))
  }

  /** `a` is what is left of `b` after dropping a prefix. */
  predicate IsSuffix(a: string, b: string) {
    |a| <= |b| && a == b[|b| - |a|..]
  }

  /** `gen_token` as a whole: its result and the input it leaves. */
  function Step(s: string): (r: (Result<InternalToken, TokenizerError>, string))
    ensures r.0.Err? ==> r.1 == s
    ensures r.0.Ok? && r.0.value == EndOfFile ==> s == [] && r.1 == s
    ensures r.0.Ok? && r.0.value != EndOfFile ==> |r.1| < |s| && IsSuffix(r.1, s)
  {
    match Scan(s)
    case Err(e) => (Err(e), s)
    case Ok(Scanned(t, k)) => (Ok(t), s[k..])
  }

  /**
   * One call of `next` on the remaining input `s`: skip whitespace, stop without a
   * token at the end of input, otherwise yield the token or the error. The second
   * component is the input left behind: empty when the stream ends and strictly
   * shorter after a token.
   */
  function NextOf(s: string): (r: (Option<Result<Token, TokenizerError>>, string))
    ensures r.0.None? ==> r.1 == []
    ensures r.0.Some? && r.0.value.Ok? ==> |r.1| < |s|
    decreases |s|
  {
    var (t, rest) := Step(s);
    match t
    case Err(e) => (Some(Err(e)), s)
    case Ok(t) =>
      if CanIgnore(t) then NextOf(rest)
      else if t == EndOfFile then (None, s)
      else (Some(Ok(t.token)), rest)
  }

  /** `next` leaves a suffix of its input. */
  lemma {:induction false} NextOfLeavesSuffix(s: string)
    ensures IsSuffix(NextOf(s).1, s)
    decreases |s|
  {
    var (t, rest) := Step(s);
    if t.Ok? && CanIgnore(t.value) {
      NextOfLeavesSuffix(rest);
      var r := NextOf(rest);
      assert IsSuffix(r.1, s) by {
        assert rest[|rest| - |r.1|..] == s[|s| - |r.1|..];
      }
    }
  }

  /**
   * An error leaves the input where the failing `gen_token` found it, so calling
   * `next` again reports the same error at the same place.
   */
  lemma {:induction false} ErrorIsSticky(s: string)
    requires NextOf(s).0.Some? && NextOf(s).0.value.Err?
    ensures Step(NextOf(s).1) == (Err(NextOf(s).0.value.error), NextOf(s).1)
    ensures NextOf(NextOf(s).1) == NextOf(s)
    decreases |s|
  {
    var (t, rest) := Step(s);
    if t.Ok? && CanIgnore(t.value) {
      ErrorIsSticky(rest);
    }
  }

  // ----- what a step means in terms of the grammar -----

  /** The token `t` is what the grammar reads from the first `k` characters of `s`. */
  ghost predicate Lexes(s: string, t: Token, k: nat) {
    k <= |s| &&
    match t
    case Number(text) => text == s[..k] && L.NumberAlt(s, k)
    case Symbol(name) => name == s[..k] && L.SymbolAlt(s, k) && !(exists n: nat :: L.NumberAlt(s, n))
    case TString(body) => 2 <= k && body == s[1..k - 1] && L.GoodStringAlt(s, k)
    case Bool(b) => k == 2 && L.BooleanAlt(s) && s[1] == (if b then 't' else 'f')
    case Dot => k == 1 && L.DotAlt(s)
    case Block(b) => k == 1 && s[0] == (if b == Start then '(' else ')')
    case Mark(_) => k == 1 && L.MarkAlt(s)
  }

  /** No alternative of the expression matches at the start of `s`. */
  ghost predicate NoAlternative(s: string) {
    && !(exists k: nat :: L.NumberAlt(s, k))
    && !(exists k: nat :: L.SymbolAlt(s, k))
    && !(exists k: nat :: L.GoodStringAlt(s, k))
    && !L.BlockAlt(s)
    && !(exists k: nat :: L.WhitespaceAlt(s, k))
    && !L.BadEofStringAlt(s)
    && !L.ClippedAlt(s)
    && !L.BooleanAlt(s)
    && !L.DotAlt(s)
    && !L.MarkAlt(s)
  }

  /**
   * Every outcome of `gen_token` is justified by the grammar: a token spans exactly
   * its text (a number, symbol, boolean or dot stops before its delimiter), a
   * whitespace step takes the longest blank run, `UnexpectedEndOfFile` means input
   * cut off inside a string or after `..` or `#`, and `UnknownToken` means that no
   * alternative matches.
   */
  lemma ScanFollowsGrammar(s: string)
    ensures Scan(s).Ok? && Scan(s).value.token.PublicToken? ==>
      Lexes(s, Scan(s).value.token.token, Scan(s).value.end)
    ensures Scan(s).Ok? && Scan(s).value.token == Whitespace ==>
      L.WhitespaceAlt(s, Scan(s).value.end) &&
      forall k: nat :: L.WhitespaceAlt(s, k) ==> k <= Scan(s).value.end
    ensures Scan(s) == Err(UnexpectedEndOfFile) ==> L.BadEofStringAlt(s) || L.ClippedAlt(s)
    ensures Scan(s) == Err(UnknownToken) <==> s != [] && NoAlternative(s)
  {
    if s != [] {
      R.CapturesAreLeftmostFirst(s);
      var c := R.Captures(s);
      if c.Some? {
        var g := c.value.group;
        if g == L.Block {
          assert s[0..1] == [s[0]];
        } else if g == L.Boolean {
          assert s[0..2] == [s[0], s[1]];
        }
        if g == L.Number {
          assert s[..c.value.end] == s[0..c.value.end];
        } else if g == L.Symbol {
          assert s[..c.value.end] == s[0..c.value.end];
        }
      }
    }
  }

  /** A number, symbol, boolean or dot is followed by its delimiter, which the whole match took and the token leaves. */
  lemma DelimiterNotConsumed(s: string)
    requires Scan(s).Ok? && Scan(s).value.token.PublicToken?
    requires var t := Scan(s).value.token.token; t.Number? || t.Symbol? || t.Bool? || t.Dot?
    ensures L.DelimiterAt(s, Scan(s).value.end)
    ensures Scan(s).value.end < |s| ==> Scan(s).value.end < R.Captures(s).value.matchEnd
  {
    var c := R.Captures(s).value;
    assert EndsAtGroup(c.group);
    R.CapturedDelimiter(s);
  }


  // ----- the order of the alternatives -----

  /** `123`, `+123` and `-123` before a delimiter are numbers with their sign kept. */
  lemma SignedNumberIsNumber(sign: string, digits: string, rest: string)
    requires sign == "" || sign == "+" || sign == "-"
    requires L.Digits(digits)
    requires rest == [] || L.IsDelimiterChar(rest[0])
    ensures Scan(sign + digits + rest) == Ok(Scanned(PublicToken(Number(sign + digits)), |sign| + |digits|))
  {
    var s := sign + digits + rest;
    var k := |sign| + |digits|;
    assert s[..k] == sign + digits;
    if sign != "" {
      assert (sign + digits)[1..] == digits;
    }
    assert L.NumberAlt(s, k);
    R.NumberEndMatches(s);
    ScanNumber(s, k);
  }


  /** A lone `+` or `-` before a delimiter is a symbol, not a number. */
  lemma LoneSignIsSymbol(sign: char, rest: string)
    requires sign == '+' || sign == '-'
    requires rest == [] || L.IsDelimiterChar(rest[0])
    ensures Scan([sign] + rest) == Ok(Scanned(PublicToken(Symbol([sign])), 1))
  {
    var s := [sign] + rest;
    if |s| > 1 {
      assert s[1] == rest[0];
      R.SpanEndAt(s, 1, 1, L.IsDigit);
    }
    assert R.NumberEnd(s) == None;
    assert R.SymbolEnd(s) == Some(1);
    ScanSymbol(s, 1);
    assert s[..1] == [sign];
  }


  /** `...` before a delimiter is a symbol. */
  lemma EllipsisIsSymbol(rest: string)
    requires rest == [] || L.IsDelimiterChar(rest[0])
    ensures Scan("..." + rest) == Ok(Scanned(PublicToken(Symbol("...")), 3))
  {
    var s := "..." + rest;
    assert s[..3] == "...";
    R.SpanEndAt(s, 0, 0, L.IsDigit);
    assert R.NumberEnd(s) == None;
    assert R.SymbolEnd(s) == Some(3);
    ScanSymbol(s, 3);
  }


  /** Input that ends in `..` or a lone `#` is cut off, not unknown. */
  lemma ClippedAtEndOfInput()
    ensures Scan("..") == Err(UnexpectedEndOfFile)
    ensures Scan("#") == Err(UnexpectedEndOfFile)
  {
    NeitherNumberNorSymbol("#");
    NotBlank("..");
    NotBlank("#");
  }

  /** An initial character and subsequent characters before a delimiter form one symbol, spelled raw. */
  lemma SymbolIsRawSpelling(name: string, rest: string)
    requires L.NormalSymbolText(name)
    requires rest == [] || L.IsDelimiterChar(rest[0])
    ensures Scan(name + rest) == Ok(Scanned(PublicToken(Symbol(name)), |name|))
  {
    var s := name + rest;
    assert s[..|name|] == name;
    assert L.SymbolAlt(s, |name|);
    R.SymbolEndMatches(s);
    assert s[0] == name[0];
    R.SpanEndAt(s, 0, 0, L.IsDigit);
    ScanSymbol(s, |name|);
  }

  /** Helper: a number alternative ending at `k` is scanned as a number up to `k`. */
  lemma ScanNumber(s: string, k: nat)
    requires R.NumberEnd(s) == Some(k)
    ensures Scan(s) == Ok(Scanned(PublicToken(Number(s[..k])), k))
  {
    assert s[0..k] == s[..k];
  }

  /** Helper: a symbol alternative ending at `k`, where no number matches, is scanned as a symbol up to `k`. */
  lemma ScanSymbol(s: string, k: nat)
    requires R.NumberEnd(s) == None && R.SymbolEnd(s) == Some(k)
    ensures Scan(s) == Ok(Scanned(PublicToken(Symbol(s[..k])), k))
  {
    assert s[0..k] == s[..k];
  }


  // ----- strings -----

  /** A terminated string yields its body with the escapes left as written. */
  lemma StringIsRawBody(body: string, rest: string)
    requires L.StringBody(body)
    ensures Scan("\"" + body + "\"" + rest) == Ok(Scanned(PublicToken(TString(body)), |body| + 2))
  {
    var s := "\"" + body + "\"" + rest;
    QuotedShape(body, rest);
    ScanGoodString(s, |body| + 2);
  }

  /** Helper: a string alternative ending at `k` is scanned as the string between the quotes. */
  lemma ScanGoodString(s: string, k: nat)
    requires L.GoodStringAlt(s, k)
    ensures Scan(s) == Ok(Scanned(PublicToken(TString(s[1..k - 1])), k))
  {
    R.GoodStringEndMatches(s);
    NeitherNumberNorSymbol(s);
    var c := L.Capture(L.GoodString, 1, k - 1, k);
    assert R.Captures(s) == Some(c);
  }

  /** Helper: where the quotes and the body sit in a quoted string. */
  lemma QuotedShape(body: string, rest: string)
    ensures var s := "\"" + body + "\"" + rest;
      |s| >= |body| + 2 && s[0] == '"' && s[|body| + 1] == '"' && s[1..|body| + 1] == body
  {
  }

  /** A string cut off by the end of input, with or without a final lone backslash, is `UnexpectedEndOfFile`. */
  lemma UnterminatedStringAtEof(body: string)
    requires L.StringBody(body)
    ensures Scan("\"" + body) == Err(UnexpectedEndOfFile)
    ensures Scan("\"" + body + "\\") == Err(UnexpectedEndOfFile)
  {
    var s := "\"" + body;
    assert s[1..|s|] == body;
    R.BodyPrefix(s, 1, |s|);
    NeitherNumberNorSymbol(s);
    NotBlank(s);
    var s2 := "\"" + body + "\\";
    assert s2[1..|s2| - 1] == body;
    R.BodyPrefix(s2, 1, |s2| - 1);
    NeitherNumberNorSymbol(s2);
    NotBlank(s2);
  }

  /** A newline inside a string matches no alternative: the string is unknown, not cut off. */
  lemma NewlineInStringIsUnknown(body: string, rest: string)
    requires L.StringBody(body)
    ensures Scan("\"" + body + "\n" + rest) == Err(UnknownToken)
  {
    var s := "\"" + body + "\n" + rest;
    var e := |body| + 1;
    assert s[1..e] == body;
    R.BodyPrefix(s, 1, e);
    assert s[e] == '\n';
    assert R.BodyEnd(s, e) == e;
    NeitherNumberNorSymbol(s);
    NotBlank(s);
    assert R.GoodStringEnd(s) == None;
    assert !R.IsBadEofString(s);
    assert R.Captures(s) == None;
  }

  // ----- booleans, blocks and the quote mark -----

  /** `#t` and `#f` before a delimiter are the booleans. */
  lemma BooleanToken(b: bool, rest: string)
    requires rest == [] || L.IsDelimiterChar(rest[0])
    ensures Scan((if b then "#t" else "#f") + rest) == Ok(Scanned(PublicToken(Bool(b)), 2))
  {
    var s := (if b then "#t" else "#f") + rest;
    NeitherNumberNorSymbol(s);
    NotBlank(s);
    assert s[0..2] == (if b then "#t" else "#f");
  }

  /** `#` followed by anything but a delimited `t` or `f` matches no alternative. */
  lemma UnknownHashToken(s: string)
    requires |s| >= 2 && s[0] == '#' && !L.BooleanAlt(s)
    ensures Scan(s) == Err(UnknownToken)
  {
    NeitherNumberNorSymbol(s);
    NotBlank(s);
  }

  /** `(`, `)` and `'` need no delimiter. */
  lemma BlockAndQuote(rest: string)
    ensures Scan("(" + rest) == Ok(Scanned(PublicToken(Block(Start)), 1))
    ensures Scan(")" + rest) == Ok(Scanned(PublicToken(Block(End)), 1))
    ensures Scan("'" + rest) == Ok(Scanned(PublicToken(Mark(Quote)), 1))
  {
    var open, close, quote := "(" + rest, ")" + rest, "'" + rest;
    NeitherNumberNorSymbol(open);
    NeitherNumberNorSymbol(close);
    NeitherNumberNorSymbol(quote);
    NotBlank(quote);
    assert open[0..1] == "(";
    assert close[0..1] == ")";
  }

  /** Helper: no number or symbol starts with a character that begins neither. */
  lemma NeitherNumberNorSymbol(s: string)
    requires |s| > 0 && !L.IsDigit(s[0]) && !L.IsInitial(s[0]) && s[0] != '+' && s[0] != '-' && s[0] != '.'
    ensures R.NumberEnd(s) == None && R.SymbolEnd(s) == None
    ensures s[0] != '"' ==> R.GoodStringEnd(s) == None
  {
    R.SpanEndAt(s, 0, 0, L.IsDigit);
  }

  /** Helper: no whitespace starts with a character other than a space or `;`. */
  lemma NotBlank(s: string)
    requires |s| > 0 && !L.IsSpace(s[0]) && s[0] != ';'
    ensures R.WhitespaceEnd(s) == None
  {
  }

  // ----- whole calls of `next` -----

  /** Input made only of whitespace and comments ends the stream with no error. */
  lemma BlankInputEndsStream(s: string)
    requires s == [] || L.WhitespaceText(s)
    ensures NextOf(s) == (None, [])
  {
    if s != [] {
      assert s[..|s|] == s;
      NextOfSkipsWhitespace(s, |s|);
      assert s[|s|..] == [];
    }
  }

  /** `next` skips the longest run of whitespace and comments at the start of the input. */
  lemma NextOfSkipsWhitespace(s: string, k: nat)
    requires L.WhitespaceAlt(s, k)
    requires forall j: nat :: L.WhitespaceAlt(s, j) ==> j <= k
    ensures NextOf(s) == NextOf(s[k..])
  {
    R.WhitespaceTextStarts(s[..k]);
    NeitherNumberNorSymbol(s);
    R.WhitespaceEndMatches(s);
    assert R.WhitespaceEnd(s) == Some(k);
    assert R.Captures(s) == Some(L.Capture(L.Whitespace, 0, k, k));
    assert Step(s) == (Ok(Whitespace), s[k..]);
  }

  /** A step that scans the public token `t` over `text` is what `next` yields, leaving the rest. */
  lemma NextOfToken(text: string, rest: string, t: Token)
    requires Scan(text + rest) == Ok(Scanned(PublicToken(t), |text|))
    ensures NextOf(text + rest) == (Some(Ok(t)), rest)
  {
    assert (text + rest)[|text|..] == rest;
  }

  /** The iterator state: the input not yet scanned. */
  class Tokenizer {
    var input: string

    constructor (input: string)
      ensures this.input == input
    {
      this.input := input;
    }

    /**
     * `gen_token`: match the expression at the start of the input; the position
     * advances to the end of the whole match, except for booleans, symbols, numbers
     * and dots, which stop at the end of their group, before the delimiter.
     */
    method GenToken() returns (r: Result<InternalToken, TokenizerError>)
      modifies this
      ensures (r, input) == Step(old(input))
    {
      if |input| == 0 {
        return Ok(EndOfFile);
      }
      var captures := R.Captures(input);
      if captures.None? {
        return Err(UnknownToken);
      }
      var c := captures.value;
      var endOfToken := c.matchEnd;
      var ret: InternalToken;
      if c.group == L.Whitespace {
        ret := Whitespace;
      } else if c.group == L.BadEofString || c.group == L.Clipped {
        return Err(UnexpectedEndOfFile);
      } else {
        if EndsAtGroup(c.group) {
          endOfToken := c.end;
        }
        ret := PublicToken(TokenOf(input, c));
      }
      input := input[endOfToken..];
      return Ok(ret);
    }

    /** `next`: scan until a token that is not whitespace, then report it. */
    method Next() returns (item: Option<Result<Token, TokenizerError>>)
      modifies this
      ensures (item, input) == NextOf(old(input))
    {
      ghost var before := input;
      var t := GenToken();
      while t.Ok? && CanIgnore(t.value)
        invariant NextOf(before) == NextOf(old(input))
        invariant (t, input) == Step(before)
        decreases |input| + (if t.Ok? && CanIgnore(t.value) then 1 else 0)
      {
        assert NextOf(before) == NextOf(input);
        before := input;
        t := GenToken();
      }
      if t == Ok(EndOfFile) {
        assert input == before;
        return None;
      }
      item := Some(match t case Ok(token) => Ok(token.token) case Err(e) => Err(e));
      assert NextOf(before) == (item, input);
    }
  }
}
