/** The CosyPy tokenizer. The cursor is the rest of the line buffer; a NUL ends the line, and so does the buffer's end. */
module CosTokens {
  import opened Int32
  import opened Decimal

  datatype Token =
    | Eof
    | Number(n: int)
    | Str(text: string)
    | Ident(name: string)
    | Plus | Minus | Star | Slash | Percent
    | Eq | EqEq | Ne | Lt | Gt | Le | Ge
    | LParen | RParen | Colon | Comma
    | And | Or | Not

  const NUL := '\0'

  /** The character under the cursor. */
  function Peek(s: string): char { if s == "" then NUL else s[0] }

  predicate Blank(c: char) { c == ' ' || c == '\t' }

  predicate IsAlpha(c: char) { 'a' <= c <= 'z' || 'A' <= c <= 'Z' || c == '_' }

  predicate IsAlnum(c: char) { IsAlpha(c) || IsDigit(c) }

  function SkipBlanks(s: string): (r: string)
    ensures |r| <= |s| && (r == "" || !Blank(r[0]))
  {
    if s != "" && Blank(s[0]) then SkipBlanks(s[1..]) else s
  }

  /** Length of the longest prefix of digits. */
  function DigitRun(s: string): (k: nat)
    ensures k <= |s| && AllDigits(s[..k]) && (k < |s| ==> !IsDigit(s[k]))
  {
    if s != "" && IsDigit(s[0]) then 1 + DigitRun(s[1..]) else 0
  }

  /** Length of the longest identifier prefix, at most `cap`. */
  function AlnumRun(s: string, cap: nat): (k: nat)
    ensures k <= |s| && k <= cap && (forall i :: 0 <= i < k ==> IsAlnum(s[i])) && (k < |s| && k < cap ==> !IsAlnum(s[k]))
  {
    if s != "" && cap > 0 && IsAlnum(s[0]) then 1 + AlnumRun(s[1..], cap - 1) else 0
  }

  /** Length of the string body before the closing quote or the NUL, at most `cap`. */
  function QuoteRun(s: string, quote: char, cap: nat): (k: nat)
    ensures k <= |s| && k <= cap && (forall i :: 0 <= i < k ==> s[i] != quote && s[i] != NUL)
    ensures k < |s| && k < cap ==> s[k] == quote || s[k] == NUL
  {
    if s != "" && cap > 0 && s[0] != quote && s[0] != NUL then 1 + QuoteRun(s[1..], quote, cap - 1) else 0
  }

  const IDENT_CAP := 31
  const STRING_CAP := 63

  function Keyword(name: string): Token
  {
    if name == "and" then And else if name == "or" then Or else if name == "not" then Not else Ident(name)
  }

  /** One- or two-character operators: `pair` when an equals sign follows. */
  function OrEquals(s: string, pair: Token, single: Token): (r: (Token, string))
    requires s != ""
    ensures |r.1| < |s|
  {
    if Peek(s[1..]) == '=' then (pair, s[2..]) else (single, s[1..])
  }

  /** The token at a cursor that is not on a blank, a NUL or a comment. */
  function LexSymbol(s: string): (r: (Token, string))
    requires s != ""
    ensures |r.1| < |s|
  {
    match s[0]
    case '+' => (Plus, s[1..])
    case '-' => (Minus, s[1..])
    case '*' => (Star, s[1..])
    case '/' => (Slash, s[1..])
    case '%' => (Percent, s[1..])
    case '(' => (LParen, s[1..])
    case ')' => (RParen, s[1..])
    case ':' => (Colon, s[1..])
    case ',' => (Comma, s[1..])
    case '=' => OrEquals(s, EqEq, Eq)
    case '!' => OrEquals(s, Ne, Not)
    case '<' => OrEquals(s, Le, Lt)
    case '>' => OrEquals(s, Ge, Gt)
    case _ => (Eof, s[1..])
  }

  predicate StartsNumber(s: string)
    requires s != ""
  {
    IsDigit(s[0]) || (s[0] == '-' && IsDigit(Peek(s[1..])))
  }

  function LexNumber(s: string): (r: (Token, string))
    requires s != "" && StartsNumber(s)
    ensures |r.1| < |s|
  {
    var body := if s[0] == '-' then s[1..] else s;
    var k := DigitRun(body);
    var v := Accumulate(0, body[..k]);
    (Number(Wrap(if s[0] == '-' then -v else v)), body[k..])
  }

  function LexString(s: string): (r: (Token, string))
    requires s != ""
    ensures |r.1| < |s|
  {
    var body := s[1..];
    var k := QuoteRun(body, s[0], STRING_CAP);
    (Str(body[..k]), if Peek(body[k..]) == s[0] && k < |body| then body[k + 1..] else body[k..])
  }

  function LexIdent(s: string): (r: (Token, string))
    requires s != "" && IsAlpha(s[0])
    ensures |r.1| < |s|
  {
    var k := AlnumRun(s, IDENT_CAP);
    (Keyword(s[..k]), s[k..])
  }

  /** The next token and the cursor after it. */
  function Lex(s: string): (r: (Token, string))
    ensures |r.1| <= |s| && (r.0 != Eof ==> |r.1| < |s|)
  {
    var t := SkipBlanks(s);
    if t == "" || t[0] == NUL || t[0] == '#' then (Eof, t)
    else if StartsNumber(t) then LexNumber(t)
    else if t[0] == '"' || t[0] == '\'' then LexString(t)
    else if IsAlpha(t[0]) then LexIdent(t)
    else LexSymbol(t)
  }

  // ---------- the cursor stays inside the line ----------

  /** `rest` is what is left of `s` after some characters, none of them the terminating NUL. */
  ghost predicate Inside(rest: string, s: string)
  {
    |rest| <= |s| && rest == s[|s| - |rest|..] && NUL !in s[..|s| - |rest|]
  }

  lemma InsideCut(s: string, k: nat)
    requires k <= |s| && forall i :: 0 <= i < k ==> s[i] != NUL
    ensures Inside(s[k..], s)
  {
  }

  lemma InsideTrans(a: string, b: string, c: string)
    requires Inside(a, b) && Inside(b, c)
    ensures Inside(a, c)
  {
    var i, j := |c| - |b|, |b| - |a|;
    assert c[..i + j] == c[..i] + b[..j];
    assert c[i + j..] == b[j..];
  }

  lemma {:induction false} SkipInside(s: string)
    ensures Inside(SkipBlanks(s), s)
    decreases |s|
  {
    if s != "" && Blank(s[0]) {
      SkipInside(s[1..]);
      InsideCut(s, 1);
      InsideTrans(SkipBlanks(s), s[1..], s);
    } else {
      InsideCut(s, 0);
    }
  }

  lemma NumberInside(s: string)
    requires s != "" && StartsNumber(s)
    ensures Inside(LexNumber(s).1, s)
  {
    hide DigitRun, Accumulate;
    if s[0] == '-' {
      DigitsInside(s[1..]);
      InsideCut(s, 1);
      InsideTrans(LexNumber(s).1, s[1..], s);
    } else {
      DigitsInside(s);
    }
  }

  lemma DigitsInside(s: string)
    ensures Inside(s[DigitRun(s)..], s)
  {
    var k := DigitRun(s);
    forall i | 0 <= i < k ensures s[i] != NUL {
      assert IsDigit(s[..k][i]);
    }
    InsideCut(s, k);
  }

  lemma StringInside(s: string)
    requires s != "" && s[0] != NUL
    ensures Inside(LexString(s).1, s)
  {
    var body := s[1..];
    var k := QuoteRun(body, s[0], STRING_CAP);
    InsideCut(s, 1);
    if k < |body| && body[k] == s[0] {
      InsideCut(body, k + 1);
      InsideTrans(body[k + 1..], body, s);
    } else {
      InsideCut(body, k);
      InsideTrans(body[k..], body, s);
    }
  }

  lemma IdentInside(s: string)
    requires s != "" && IsAlpha(s[0])
    ensures Inside(LexIdent(s).1, s)
  {
    InsideCut(s, AlnumRun(s, IDENT_CAP));
  }

  lemma SymbolInside(s: string)
    requires s != "" && s[0] != NUL
    ensures Inside(LexSymbol(s).1, s)
  {
    InsideCut(s, 1);
    if Peek(s[1..]) == '=' {
      InsideCut(s, 2);
    }
  }

  /** Whatever the buffer holds, the cursor only moves forward and never over the terminating NUL, and every token but
      the end token moves it. */
  lemma LexInside(s: string)
    ensures Inside(Lex(s).1, s) && (Lex(s).0 != Eof ==> |Lex(s).1| < |s|)
  {
    hide Inside, LexNumber, LexString, LexIdent, LexSymbol, StartsNumber;
    var t := SkipBlanks(s);
    SkipInside(s);
    if t == "" || t[0] == NUL || t[0] == '#' {
    } else if StartsNumber(t) {
      NumberInside(t);
      InsideTrans(Lex(s).1, t, s);
    } else if t[0] == '"' || t[0] == '\'' {
      StringInside(t);
      InsideTrans(Lex(s).1, t, s);
    } else if IsAlpha(t[0]) {
      IdentInside(t);
      InsideTrans(Lex(s).1, t, s);
    } else {
      SymbolInside(t);
      InsideTrans(Lex(s).1, t, s);
    }
  }

  /** What stands after the NUL is never read: the line ends there. */
  lemma AfterNul(s: string, rest: string)
    requires SkipBlanks(s) == ""
    ensures Lex(s + [NUL] + rest).0 == Eof
  {
    SkipThen(s, [NUL] + rest);
    assert s + [NUL] + rest == s + ([NUL] + rest);
  }

  lemma {:induction false} SkipThen(s: string, rest: string)
    requires SkipBlanks(s) == ""
    ensures SkipBlanks(s + rest) == SkipBlanks(rest)
    decreases |s|
  {
    if s == "" {
      assert s + rest == rest;
    } else {
      assert (s + rest)[1..] == s[1..] + rest;
      SkipThen(s[1..], rest);
    }
  }

  /** The tokens up to the first end token. */
  function Tokens(s: string): seq<Token>
    decreases |s|
  {
    var (t, rest) := Lex(s);
    if t == Eof then [] else [t] + Tokens(rest)
  }

  /** Tokens still to be parsed when `t` is current and the cursor is at `s`. */
  function Pending(t: Token, s: string): seq<Token>
  {
    if t == Eof then [] else [t] + Tokens(s)
  }
}
