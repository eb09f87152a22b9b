/** Expressions as text: printing, and the tokenizer reading the text back. */
module CosPrinter {
  import opened Int32
  import opened Decimal
  import opened CosTokens
  import opened CosParser

  /** A name the language keeps: an identifier of at most 15 characters that is no operator word. */
  predicate GoodVar(x: string)
  {
    && 1 <= |x| <= 15 && IsAlpha(x[0]) && (forall i :: 0 <= i < |x| ==> IsAlnum(x[i]))
    && x != "and" && x != "or" && x != "not"
  }

  predicate GoodVars(e: Expr)
  {
    match e
    case Lit(n) => true
    case Var(x) => GoodVar(x)
    case Neg(a) => GoodVars(a)
    case NotE(a) => GoodVars(a)
    case Bin(op, l, r) => GoodVars(l) && GoodVars(r)
  }

  function OpText(op: Token): (s: string)
    requires OpLevel(op) >= 0
  {
    match op
    case Or => "or"
    case And => "and"
    case Lt => "<"
    case Gt => ">"
    case Le => "<="
    case Ge => ">="
    case EqEq => "=="
    case Ne => "!="
    case Plus => "+"
    case Minus => "-"
    case Star => "*"
    case Slash => "/"
    case Percent => "%"
  }

  /** The text of a tree at a level: spaced operators, parentheses only where needed. */
  function ShowExpr(e: Expr, l: nat): (s: string)
    requires WellFormed(e) && l <= PRIMARY
    decreases e, if Prec(e) < l then 1 else 0
  {
    if Prec(e) < l then "(" + ShowExpr(e, 0) + ")"
    else
      match e
      case Lit(n) => Show(n)
      case Var(x) => x
      case Neg(a) => "- " + ShowExpr(a, PRIMARY)
      case NotE(a) => "not " + ShowExpr(a, PRIMARY)
      case Bin(op, a, b) => ShowExpr(a, OpLevel(op)) + (" " + OpText(op) + " ") + ShowExpr(b, OpLevel(op) + 1)
  }

  /** Text that cannot extend an identifier or a number before it. */
  predicate Breaks(suf: string) { suf == "" || !IsAlnum(suf[0]) }

  // ---------- single tokens ----------

  lemma TokensIs(s: string, t: Token, rest: string)
    requires Lex(s) == (t, rest) && t != Eof
    ensures Tokens(s) == [t] + Tokens(rest)
  {
  }

  lemma TokensBlank(s: string)
    ensures Tokens(" " + s) == Tokens(s)
  {
    assert (" " + s)[1..] == s;
    assert SkipBlanks(" " + s) == SkipBlanks(s);
  }

  lemma {:induction false} DigitRunIs(ds: string, suf: string)
    requires AllDigits(ds) && (suf == "" || !IsDigit(suf[0]))
    ensures DigitRun(ds + suf) == |ds|
    decreases |ds|
  {
    if ds == "" {
      assert ds + suf == suf;
    } else {
      assert (ds + suf)[1..] == ds[1..] + suf;
      DigitRunIs(ds[1..], suf);
    }
  }

  lemma NoBlanks(s: string)
    requires s != "" && !Blank(s[0])
    ensures SkipBlanks(s) == s
  {
  }

  /** Digits read as their value. */
  lemma DigitsRead(m: nat, suf: string)
    requires Breaks(suf)
    ensures var s := Digits(m) + suf;
      && DigitRun(s) == |Digits(m)| && s[..|Digits(m)|] == Digits(m) && s[|Digits(m)|..] == suf
      && IsDigit(s[0]) && Accumulate(0, Digits(m)) == Wrap(m)
  {
    hide Accumulate, Digits, DigitRun;
    DigitRunIs(Digits(m), suf);
    AccumulateDigits(m);
  }

  lemma LexNumberIs(n: int, suf: string)
    requires InInt32(n) && Breaks(suf)
    ensures Lex(Show(n) + suf) == (Number(n), suf)
  {
    hide Accumulate, Digits, DigitRun, SkipBlanks, LexString, LexIdent, LexSymbol;
    var m := if n < 0 then -n else n;
    var body := Digits(m) + suf;
    var s := Show(n) + suf;
    DigitsRead(m, suf);
    if n < 0 {
      assert s == "-" + body;
      assert s[0] == '-' && s[1..] == body;
      WrapNegate(n);
    } else {
      assert s == body;
    }
    NoBlanks(s);
    assert StartsNumber(s);
    assert LexNumber(s) == (Number(n), suf);
  }

  lemma {:induction false} AlnumRunIs(x: string, suf: string, cap: nat)
    requires (forall i :: 0 <= i < |x| ==> IsAlnum(x[i])) && Breaks(suf) && |x| <= cap
    ensures AlnumRun(x + suf, cap) == |x|
    decreases |x|
  {
    if x == "" {
      assert x + suf == suf;
    } else {
      assert (x + suf)[1..] == x[1..] + suf;
      AlnumRunIs(x[1..], suf, cap - 1);
    }
  }

  lemma LexWord(x: string, suf: string)
    requires 1 <= |x| <= IDENT_CAP && IsAlpha(x[0]) && (forall i :: 0 <= i < |x| ==> IsAlnum(x[i])) && Breaks(suf)
    ensures Lex(x + suf) == (Keyword(x), suf)
  {
    var s := x + suf;
    assert s[0] == x[0];
    assert SkipBlanks(s) == s;
    AlnumRunIs(x, suf, IDENT_CAP);
    assert s[..|x|] == x && s[|x|..] == suf;
    assert !StartsNumber(s);
  }

  lemma LexSingle(c: char, t: Token, suf: string)
    requires (c, t) in {('(', LParen), (')', RParen), (':', Colon), ('*', Star), ('/', Slash), ('%', Percent), ('+', Plus)}
    ensures Lex([c] + suf) == (t, suf)
  {
    var s := [c] + suf;
    assert s[1..] == suf && s[0] == c;
    assert SkipBlanks(s) == s;
    assert !StartsNumber(s);
  }

  /** A minus, a comparison sign or an equals sign read with a blank after it. */
  lemma LexSign(c: char, t: Token, suf: string)
    requires (c, t) in {('-', Minus), ('<', Lt), ('>', Gt), ('=', Eq)}
    ensures Lex([c] + (" " + suf)) == (t, " " + suf)
  {
    var s := [c] + (" " + suf);
    assert s[1..] == " " + suf && s[0] == c;
    assert Peek(s[1..]) == ' ';
    assert SkipBlanks(s) == s;
    assert !StartsNumber(s);
  }

  lemma LexPair(c: char, t: Token, suf: string)
    requires (c, t) in {('<', Le), ('>', Ge), ('=', EqEq), ('!', Ne)}
    ensures Lex([c, '='] + suf) == (t, suf)
  {
    var s := [c, '='] + suf;
    assert s[1..] == "=" + suf && s[2..] == suf && s[0] == c;
    assert SkipBlanks(s) == s;
    assert !StartsNumber(s);
  }

  lemma LexOp(op: Token, suf: string)
    requires OpLevel(op) >= 0
    ensures Lex(OpText(op) + (" " + suf)) == (op, " " + suf)
  {
    hide Lex;
    match op
    case Or => LexWord("or", " " + suf);
    case And => LexWord("and", " " + suf);
    case Lt => LexSign('<', op, suf);
    case Gt => LexSign('>', op, suf);
    case Le => LexPair('<', op, " " + suf);
    case Ge => LexPair('>', op, " " + suf);
    case EqEq => LexPair('=', op, " " + suf);
    case Ne => LexPair('!', op, " " + suf);
    case Plus => LexSingle('+', op, " " + suf);
    case Minus => LexSign('-', op, suf);
    case Star => LexSingle('*', op, " " + suf);
    case Slash => LexSingle('/', op, " " + suf);
    case Percent => LexSingle('%', op, " " + suf);
  }

  lemma OpNotEof(op: Token)
    requires OpLevel(op) >= 0
    ensures op != Eof
  {
  }

  // ---------- whole expressions ----------

  /** The tokenizer reads a printed tree back as the tree's tokens and goes on after it. */
  lemma {:induction false} TokensOfShow(e: Expr, l: nat, suf: string)
    requires WellFormed(e) && GoodVars(e) && l <= PRIMARY && Breaks(suf)
    ensures Tokens(ShowExpr(e, l) + suf) == Toks(e, l) + Tokens(suf)
    decreases e, if Prec(e) < l then 1 else 0
  {
    hide Lex, Tokens, Show;
    if Prec(e) < l {
      var body := ShowExpr(e, 0) + (")" + suf);
      assert ShowExpr(e, l) + suf == "(" + body;
      LexSingle('(', LParen, body);
      TokensIs("(" + body, LParen, body);
      TokensOfShow(e, 0, ")" + suf);
      LexSingle(')', RParen, suf);
      TokensIs(")" + suf, RParen, suf);
    } else {
      match e
      case Lit(n) =>
        LexNumberIs(n, suf);
        TokensIs(Show(n) + suf, Number(n), suf);
      case Var(x) =>
        LexWord(x, suf);
        TokensIs(x + suf, Ident(x), suf);
      case Neg(a) => ShowNeg(e, suf);
      case NotE(a) => ShowNot(e, suf);
      case Bin(op, a, b) => ShowBin(e, suf);
    }
  }

  lemma {:induction false} ShowNeg(e: Expr, suf: string)
    requires WellFormed(e) && GoodVars(e) && e.Neg? && Breaks(suf)
    ensures Tokens("- " + ShowExpr(e.e, PRIMARY) + suf) == [Minus] + Toks(e.e, PRIMARY) + Tokens(suf)
    decreases e, 0, 0
  {
    hide Lex, Tokens, ShowExpr, Toks;
    var body := ShowExpr(e.e, PRIMARY) + suf;
    assert "- " + ShowExpr(e.e, PRIMARY) + suf == "-" + (" " + body);
    LexSign('-', Minus, body);
    TokensIs("-" + (" " + body), Minus, " " + body);
    TokensBlank(body);
    TokensOfShow(e.e, PRIMARY, suf);
  }

  lemma {:induction false} ShowNot(e: Expr, suf: string)
    requires WellFormed(e) && GoodVars(e) && e.NotE? && Breaks(suf)
    ensures Tokens("not " + ShowExpr(e.e, PRIMARY) + suf) == [Not] + Toks(e.e, PRIMARY) + Tokens(suf)
    decreases e, 0, 0
  {
    hide Lex, Tokens, ShowExpr, Toks;
    var body := ShowExpr(e.e, PRIMARY) + suf;
    assert "not " + ShowExpr(e.e, PRIMARY) + suf == "not" + (" " + body);
    LexWord("not", " " + body);
    TokensIs("not" + (" " + body), Not, " " + body);
    TokensBlank(body);
    TokensOfShow(e.e, PRIMARY, suf);
  }

  lemma {:induction false} ShowBin(e: Expr, suf: string)
    requires WellFormed(e) && GoodVars(e) && e.Bin? && Breaks(suf)
    ensures var p := OpLevel(e.op);
      Tokens(ShowExpr(e.l, p) + (" " + OpText(e.op) + " ") + ShowExpr(e.r, p + 1) + suf)
      == Toks(e.l, p) + [e.op] + Toks(e.r, p + 1) + Tokens(suf)
    decreases e, 0, 0
  {
    hide Lex, Tokens, ShowExpr, Toks, OpText, OpLevel;
    var p := OpLevel(e.op);
    var right := ShowExpr(e.r, p + 1) + suf;
    var mid := OpText(e.op) + (" " + right);
    TokensOfShow(e.r, p + 1, suf);
    TokensBlank(right);
    LexOp(e.op, right);
    OpNotEof(e.op);
    TokensIs(mid, e.op, " " + right);
    TokensBlank(mid);
    TokensOfShow(e.l, p, " " + mid);
    assert ShowExpr(e.l, p) + (" " + OpText(e.op) + " ") + ShowExpr(e.r, p + 1) + suf == ShowExpr(e.l, p) + (" " + mid);
  }

  /** Printing a tree and evaluating the text gives the tree's value and stops at the terminator. */
  lemma RoundTrip(e: Expr, suf: string, w: World)
    requires WellFormed(e) && GoodVars(e) && Breaks(suf)
    requires Tokens(suf) == [] || (OpLevel(Tokens(suf)[0]) < 0 && Tokens(suf)[0] != LParen)
    ensures Parse(0, Tokens(ShowExpr(e, 0) + suf), w) == (Eval(e, w).0, Tokens(suf), Eval(e, w).1)
  {
    hide Lex, Tokens, ShowExpr, Parse;
    TokensOfShow(e, 0, suf);
    ParseWhole(e, Tokens(suf), w);
  }
}
