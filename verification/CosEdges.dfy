/** Single tokens as typed, what is no arithmetic, and where the interpreter's fixed sizes cut. */
module CosEdges {
  import opened Int32
  import opened Decimal
  import opened CosTokens
  import opened CosParser
  import opened CosPrinter
  import opened CosMachine
  import opened CosScript
  import opened CosLines
  import opened CosRefine
  import opened CosLaws

  // ---------- tokens ----------

  predicate Letter(c: char) { 'a' <= c <= 'z' || 'A' <= c <= 'Z' || c == '_' }

  predicate LetterOrDigit(c: char) { Letter(c) || '0' <= c <= '9' }

  /** A word is read whole, but for what comes after its 31st character. */
  lemma WordToken(x: string, rest: string)
    requires 1 <= |x| <= 31 && Letter(x[0]) && forall i :: 0 <= i < |x| ==> LetterOrDigit(x[i])
    requires rest != "" ==> !LetterOrDigit(rest[0]) || |x| == 31
    ensures Lex(x + rest) == (if x == "and" then And else if x == "or" then Or else if x == "not" then Not else Ident(x), rest)
  {
    hide AlnumRun;
    var s := x + rest;
    WordRun(x, rest, 31);
    NoBlanks(s);
    assert s[0] == x[0];
    assert s[..|x|] == x && s[|x|..] == rest;
  }

  lemma {:induction false} WordRun(x: string, rest: string, cap: nat)
    requires |x| <= cap && forall i :: 0 <= i < |x| ==> LetterOrDigit(x[i])
    requires rest != "" ==> !LetterOrDigit(rest[0]) || |x| == cap
    ensures AlnumRun(x + rest, cap) == |x|
    decreases |x|
  {
    if x == "" {
      assert x + rest == rest;
    } else {
      assert (x + rest)[1..] == x[1..] + rest;
      WordRun(x[1..], rest, cap - 1);
    }
  }

  /** Text between two quotes of either kind, up to 63 characters of it; without the closing quote, up to the line's end. */
  lemma QuotedToken(q: char, x: string, rest: string)
    requires (q == '"' || q == '\'') && q !in x && '\0' !in x && |x| <= 63
    requires rest != "" && rest[0] != q && rest[0] != '\0' ==> |x| == 63
    ensures Lex([q] + x + rest) == (Str(x), if rest != "" && rest[0] == q then rest[1..] else rest)
  {
    hide QuoteRun;
    var s := [q] + x + rest;
    var body := x + rest;
    assert s[1..] == body && s[0] == q;
    QuotedRun(q, x, rest, 63);
    NoBlanks(s);
    assert !StartsNumber(s);
    assert body[..|x|] == x && body[|x|..] == rest;
    assert Lex(s) == LexString(s);
    assert |x| < |body| ==> body[|x| + 1..] == rest[1..];
  }

  lemma {:induction false} QuotedRun(q: char, x: string, rest: string, cap: nat)
    requires q !in x && '\0' !in x && |x| <= cap
    requires rest != "" && rest[0] != q && rest[0] != '\0' ==> |x| == cap
    ensures QuoteRun(x + rest, q, cap) == |x|
    decreases |x|
  {
    if x == "" {
      assert x + rest == rest;
    } else {
      assert (x + rest)[1..] == x[1..] + rest;
      assert x[0] in x;
      QuotedRun(q, x[1..], rest, cap - 1);
    }
  }

  /** The signs; a minus in front of a digit belongs to the number. */
  lemma SignToken(rest: string)
    ensures Lex("+" + rest) == (Plus, rest) && Lex("*" + rest) == (Star, rest) && Lex("/" + rest) == (Slash, rest)
    ensures Lex("%" + rest) == (Percent, rest) && Lex("(" + rest) == (LParen, rest) && Lex(")" + rest) == (RParen, rest)
    ensures Lex(":" + rest) == (Colon, rest) && Lex("," + rest) == (Comma, rest)
    ensures rest == "" || !('0' <= rest[0] <= '9') ==> Lex("-" + rest) == (Minus, rest)
  {
    hide Lex, LexSymbol;
    OneSign('+', rest);
    OneSign('*', rest);
    OneSign('/', rest);
    OneSign('%', rest);
    OneSign('(', rest);
    OneSign(')', rest);
    OneSign(':', rest);
    OneSign(',', rest);
    if rest == "" || !('0' <= rest[0] <= '9') {
      OneSign('-', rest);
    }
  }

  lemma OneSign(c: char, rest: string)
    requires c in "+*/%():,-" && (c == '-' ==> rest == "" || !('0' <= rest[0] <= '9'))
    ensures var t := match c case '+' => Plus case '-' => Minus case '*' => Star case '/' => Slash case '%' => Percent
                      case '(' => LParen case ')' => RParen case ':' => Colon case _ => Comma;
      Lex([c] + rest) == (t, rest)
  {
    var s := [c] + rest;
    assert s[1..] == rest && s[0] == c;
    NoBlanks(s);
    assert !StartsNumber(s);
  }

  /** The signs that an equals sign may follow. */
  lemma EqualsToken(rest: string)
    ensures Lex("==" + rest) == (EqEq, rest) && Lex("!=" + rest) == (Ne, rest)
    ensures Lex("<=" + rest) == (Le, rest) && Lex(">=" + rest) == (Ge, rest)
    ensures rest == "" || rest[0] != '=' ==>
      && Lex("=" + rest) == (Eq, rest) && Lex("!" + rest) == (Not, rest)
      && Lex("<" + rest) == (Lt, rest) && Lex(">" + rest) == (Gt, rest)
  {
    hide Lex;
    PairOrSingle('=', rest);
    PairOrSingle('!', rest);
    PairOrSingle('<', rest);
    PairOrSingle('>', rest);
  }

  lemma PairOrSingle(c: char, rest: string)
    requires c in "=!<>"
    ensures Lex([c, '='] + rest) == (match c case '=' => EqEq case '!' => Ne case '<' => Le case _ => Ge, rest)
    ensures rest == "" || rest[0] != '=' ==>
      Lex([c] + rest) == (match c case '=' => Eq case '!' => Not case '<' => Lt case _ => Gt, rest)
  {
    var s, p := [c] + rest, [c, '='] + rest;
    assert s[1..] == rest && s[0] == c && p[1..] == "=" + rest && p[2..] == rest && p[0] == c;
    NoBlanks(s);
    NoBlanks(p);
    assert !StartsNumber(s) && !StartsNumber(p);
  }

  /** Digits are read as their value in 32 bits, a number sign ends the line, blanks and tabs are passed over. */
  lemma OtherTokens(n: nat, rest: string)
    ensures rest == "" || !('0' <= rest[0] <= '9') ==> Lex(Digits(n) + rest) == (Number(Wrap(n)), rest)
    ensures Lex("#" + rest).0 == Eof
    ensures Lex(" " + rest) == Lex(rest) && Lex("\t" + rest) == Lex(rest)
  {
    assert ("#" + rest)[0] == '#' && (" " + rest)[1..] == rest && ("\t" + rest)[1..] == rest;
    NoBlanks("#" + rest);
    assert SkipBlanks(" " + rest) == SkipBlanks(rest) && SkipBlanks("\t" + rest) == SkipBlanks(rest);
    if rest == "" || !('0' <= rest[0] <= '9') {
      NumberToken(n, rest);
    }
  }

  lemma NumberToken(n: nat, rest: string)
    requires rest == "" || !('0' <= rest[0] <= '9')
    ensures Lex(Digits(n) + rest) == (Number(Wrap(n)), rest)
  {
    hide Accumulate, Digits, DigitRun;
    var s := Digits(n) + rest;
    DigitRunIs(Digits(n), rest);
    AccumulateDigits(n);
    assert s[0] == Digits(n)[0];
    assert s[..|Digits(n)|] == Digits(n) && s[|Digits(n)|..] == rest;
    NoBlanks(s);
  }

  // ---------- printing, input, strings ----------

  /** A printed number is its 32 bits read as unsigned. */
  lemma PrintsNumber(n: int, w: World)
    requires InInt32(n)
    ensures RunStm(PrintE(Lit(n)), w).out == w.out + [Num(if n < 0 then n + 0x1_0000_0000 else n)]
  {
  }

  /** An assignment from `input()` takes the next line typed. */
  lemma InputLine(m: Machine)
    requires !m.skip
    ensures var r := Exec("x = input()", m);
      if m.w.inputs == [] then r.w == SetVar(m.w, "x", 0)
      else r.w == SetVar(m.w.(inputs := m.w.inputs[1..]), "x", Wrap(m.w.inputs[0]))
  {
    hide Lex, Tokens, Parse, SetVar, Exec, Classify;
    CallText("input");
    AssignTo("input()", m);
    assert "x = " + "input()" == "x = input()" && "input" + "()" == "input()";
    CallValue("input", m.w);
  }

  /** Any other call is 0. */
  lemma CallLine(m: Machine)
    requires !m.skip
    ensures Exec("x = f()", m).w == SetVar(m.w, "x", 0)
  {
    hide Lex, Tokens, Parse, SetVar, Exec, Classify;
    CallText("f");
    AssignTo("f()", m);
    assert "x = " + "f()" == "x = f()" && "f" + "()" == "f()";
    CallValue("f", m.w);
  }

  /** A string is its length. */
  lemma StringLine(t: string, m: Machine)
    requires !m.skip && |t| <= 63 && '"' !in t && '\0' !in t
    ensures Exec("x = " + ("\"" + t + "\""), m).w == SetVar(m.w, "x", |t|)
  {
    hide Lex, Tokens, Parse, SetVar, Exec, Classify;
    var text := "\"" + t + "\"";
    QuotedToken('"', t, "\"");
    assert "\""[1..] == "";
    assert text == ['"'] + t + "\"";
    TokensIs(text, Str(t), "");
    TokensEmpty();
    assert Tokens(text) == [Str(t)];
    AssignTo(text, m);
    StringValue(t, m.w);
  }

  lemma StringValue(t: string, w: World)
    ensures Parse(0, [Str(t)], w) == (|t|, [], w)
  {
    Levels([Str(t)], w);
  }

  lemma CallValue(f: string, w: World)
    ensures Parse(0, [Ident(f), LParen, RParen], w) == if f == "input" then (ReadInput(w).0, [], ReadInput(w).1) else (0, [], w)
  {
    var ts := [Ident(f), LParen, RParen];
    assert ts[2..] == [RParen] && [RParen][1..] == [];
    assert SkipArgs([RParen]) == [];
    Levels(ts, w);
  }

  /** When the innermost level takes every token, so do the others. */
  lemma Levels(ts: seq<Token>, w: World)
    requires Parse(5, ts, w).1 == []
    ensures Parse(0, ts, w) == Parse(5, ts, w)
  {
    assert Parse(4, ts, w) == Parse(5, ts, w);
    assert Parse(3, ts, w) == Parse(5, ts, w);
    assert Parse(2, ts, w) == Parse(5, ts, w);
    assert Parse(1, ts, w) == Parse(5, ts, w);
  }

  lemma CallText(f: string)
    requires f == "input" || f == "f"
    ensures Tokens(f + "()") == [Ident(f), LParen, RParen]
  {
    hide Lex, Tokens;
    WordToken(f, "()");
    TokensIs(f + "()", Ident(f), "()");
    SignToken(")");
    assert "()" == "(" + ")";
    TokensIs("()", LParen, ")");
    SignToken("");
    assert ")" == ")" + "";
    TokensIs(")", RParen, "");
    TokensEmpty();
  }

  lemma AssignTo(text: string, m: Machine)
    requires !m.skip
    ensures var (v, _, w') := Parse(0, Tokens(text), m.w);
      Exec("x = " + text, m).w == SetVar(w', "x", v)
  {
    hide Lex, Tokens, Parse, SetVar, Exec, Classify;
    NameX();
    ClassAssign("x", "= " + text);
    assert "x" + (" " + ("= " + text)) == "x = " + text;
    ExecByKind("x = " + text, m);
    LexWord("x", " " + ("= " + text));
    LexAssign(text);
    TokensBlank(text);
  }

  /** Empty lines, comments, and the words that end the prompt do nothing in a file. */
  lemma IgnoredLines(rest: string, m: Machine)
    ensures Exec("", m) == m && Exec("#" + rest, m) == m && Exec("exit" + rest, m) == m && Exec("quit" + rest, m) == m
  {
    hide Classify;
    assert ("#" + rest)[0] == '#';
    assert "exit" <= "exit" + rest && "quit" <= "quit" + rest;
    NoBlanks("#" + rest);
    NoBlanks("exit" + rest);
    NoBlanks("quit" + rest);
  }

  // ---------- sizes ----------

  /** Of a file with more than 64 lines the rest is not run. */
  lemma LongFile(ls: seq<string>, m: Machine)
    requires |ls| >= 64 && forall i :: 0 <= i < |ls| ==> '\n' !in ls[i] && |ls[i]| <= 127
    ensures RunFile(JoinLines(ls), m) == RunFile(JoinLines(ls[..64]), m)
  {
    hide FileLines, JoinLines, SplitLines;
    SplitFirst(ls, 64);
    SplitJoin(ls[..64], 64);
  }

  lemma {:induction false} SplitFirst(ls: seq<string>, n: nat)
    requires |ls| >= n && forall i :: 0 <= i < |ls| ==> '\n' !in ls[i] && |ls[i]| <= 127
    ensures SplitLines(JoinLines(ls), n) == ls[..n]
    decreases n
  {
    hide PieceLen, AfterPiece;
    if n > 0 {
      var rest := JoinLines(ls[1..]);
      assert JoinLines(ls) == ls[0] + ("\n" + rest);
      FirstPiece(ls[0], rest);
      SplitFirst(ls[1..], n - 1);
      assert ls[..n] == [ls[0]] + ls[1..][..n - 1];
    }
  }

  /** A line of more than 127 characters goes on in the next. */
  lemma LongLine(l: string, rest: string, n: nat)
    requires |l| == 127 && '\n' !in l && n > 0
    ensures SplitLines(l + rest, n) == [l] + SplitLines(if rest != "" && rest[0] == '\n' then rest[1..] else rest, n - 1)
  {
    hide PieceLen, SplitLines;
    var s := l + rest;
    WholePiece(l, rest);
    SplitUnfold(s, n);
    assert s[..127] == l && s[127..] == rest;
    assert rest != "" ==> s[128..] == rest[1..];
  }

  lemma {:induction false} WholePiece(l: string, rest: string)
    requires '\n' !in l
    ensures PieceLen(l + rest, |l|) == |l|
    decreases |l|
  {
    if l != "" {
      assert (l + rest)[1..] == l[1..] + rest;
      assert l[0] in l;
      WholePiece(l[1..], rest);
    }
  }

  /** Of a loop body of more than 16 lines the rest is dropped. */
  lemma LongBody(ls: seq<string>, tail: seq<string>, m: Machine)
    requires m.loops == 1 && |ls| >= 16 && forall i :: 0 <= i < |ls| ==> Inner(ls[i])
    ensures FileLines(ls + tail, m, []) == FileLines(ls[..16] + tail, m, [])
  {
    hide FileLines;
    Collects(ls, tail, m, []);
    Collects(ls[..16], tail, m, []);
    assert [] + ls[..16] == ls[..16] && ls[..16][..16] == ls[..16];
    assert |ls| == 16 ==> ls[..16] == ls;
  }

  /** A line inside a loop that neither opens nor closes one. */
  predicate Inner(l: string) { l != "" && l[0] != ' ' && l[0] != '\t' && !("while " <= l) && !("endwhile" <= l) }

  lemma {:induction false} Collects(ls: seq<string>, tail: seq<string>, m: Machine, body: seq<string>)
    requires m.loops == 1 && |body| <= 16 && forall i :: 0 <= i < |ls| ==> Inner(ls[i])
    ensures var room := 16 - |body|;
      FileLines(ls + tail, m, body) == FileLines(tail, m, body + if |ls| <= room then ls else ls[..room])
    decreases |ls|
  {
    hide FileLines, Exec, Loop;
    if ls == [] {
      assert ls + tail == tail && body + ls == body;
    } else {
      assert Inner(ls[0]);
      assert ls + tail == [ls[0]] + (ls[1..] + tail);
      NoBlanks(ls[0]);
      FileLinesCons(ls[0], ls[1..] + tail, m, body);
      var more := if |body| < 16 then body + [ls[0]] else body;
      Collects(ls[1..], tail, m, more);
      var room := 16 - |body|;
      if |body| < 16 {
        assert more + ls[1..] == body + ls;
        assert |ls| > room ==> more + ls[1..][..room - 1] == body + ls[..room];
      } else {
        assert ls[..room] == [];
      }
    }
  }
}
