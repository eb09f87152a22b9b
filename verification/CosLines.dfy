/** What the machine does with each kind of line a structured script prints. */
module CosLines {
  import opened CosTokens
  import opened CosParser
  import opened CosPrinter
  import opened CosMachine
  import opened CosScript

  // ---------- recognising lines ----------

  /** The machine's classes of line, in the order it tests for them. */
  datatype Kind = Nothing | Exit | Endif | Else | IfK | Endwhile | WhileK | DefK | PrintK | Other

  function Classify(l: string): Kind
  {
    if l == "" || l[0] == NUL || l[0] == '#' then Nothing
    else if IsExit(l) then Exit
    else if "endif" <= l then Endif
    else if IsElse(l) then Else
    else if "if " <= l then IfK
    else if "endwhile" <= l then Endwhile
    else if "while " <= l then WhileK
    else if "def " <= l then DefK
    else if IsPrint(l) then PrintK
    else Other
  }

  /** Execution by class. */
  function ExecKind(k: Kind, l: string, m: Machine): Machine
    requires k == IfK ==> |l| >= 3
    requires k == WhileK ==> |l| >= 6
    requires k == PrintK ==> |l| >= 6
  {
    match k
    case Endif => if m.depth > 0 then m.(depth := m.depth - 1, skip := if m.depth == 1 then false else m.skip) else m
    case Else => if m.depth == 1 then m.(skip := !m.skip) else m
    case IfK =>
      if m.skip then m.(depth := m.depth + 1)
      else
        var (v, _, w') := Parse(0, Tokens(l[3..]), m.w);
        m.(depth := m.depth + 1, skip := v == 0, w := w')
    case WhileK => if m.skip then m else m.(cond := l[6..], loops := m.loops + 1)
    case PrintK => if m.skip then m else m.(w := ExecPrint(l[6..], m.w))
    case Other => if m.skip then m else m.(w := ExecOther(l, m.w))
    case _ => m
  }

  lemma ExecByKind(l: string, m: Machine)
    requires l == "" || !Blank(l[0])
    ensures Classify(l) == IfK ==> |l| >= 3
    ensures Classify(l) == WhileK ==> |l| >= 6
    ensures Classify(l) == PrintK ==> |l| >= 6
    ensures Exec(l, m) == ExecKind(Classify(l), l, m)
  {
    hide Parse, Tokens, ExecPrint, ExecOther;
    assert SkipBlanks(l) == l;
  }

  lemma ClassIf(rest: string)
    ensures Classify("if " + rest) == IfK && ("if " + rest)[3..] == rest
  {
    var l := "if " + rest;
    assert l[0] == 'i';
  }

  lemma ClassWhile(rest: string)
    ensures Classify("while " + rest) == WhileK && ("while " + rest)[6..] == rest
  {
    var l := "while " + rest;
    assert l[0] == 'w';
    assert l[..6] == "while ";
  }

  lemma ClassPrint(rest: string)
    ensures Classify("print(" + rest) == PrintK && ("print(" + rest)[6..] == rest
  {
    var l := "print(" + rest;
    assert l[0] == 'p';
    assert l[..5] == "print";
    assert l[5..] == "(" + rest;
  }

  lemma ClassWords()
    ensures Classify("endif") == Endif && Classify("else:") == Else && Classify("endwhile") == Endwhile
    ensures "endwhile" <= "endwhile" && !("endwhile" <= "endif") && !("endwhile" <= "else:")
    ensures !("while " <= "endif") && !("while " <= "else:")
  {
    assert "endif"[1] == 'n' && "else:"[1] == 'l' && "endwhile"[1] == 'n' && "endwhile"[3] == 'w';
    assert "else:"[4..] == ":";
  }

  lemma PrefixCons(a: string, b: string)
    requires a != "" && b != ""
    ensures a <= b <==> a[0] == b[0] && a[1..] <= b[1..]
  {
    if a[0] == b[0] && a[1..] <= b[1..] {
      assert a == [a[0]] + a[1..] && b == [b[0]] + b[1..];
    }
  }

  /** A keyword without blanks starts the line exactly when it starts its first word. */
  lemma {:induction false} WordPrefix(kw: string, x: string, rest: string)
    requires ' ' !in kw
    ensures kw <= x + (" " + rest) <==> kw <= x
    decreases |kw|
  {
    var l := x + (" " + rest);
    if kw != "" {
      assert kw[0] in kw;
      PrefixCons(kw, l);
      if x != "" {
        PrefixCons(kw, x);
        assert l[1..] == x[1..] + (" " + rest);
        WordPrefix(kw[1..], x[1..], rest);
      }
    }
  }

  /** A keyword and a blank start the line exactly when the keyword is its first word. */
  lemma {:induction false} WordIs(kw: string, x: string, rest: string)
    requires ' ' !in kw && ' ' !in x
    ensures kw + " " <= x + (" " + rest) <==> kw == x
    decreases |kw|
  {
    var l, k := x + (" " + rest), kw + " ";
    PrefixCons(k, l);
    if kw != "" && x != "" {
      assert l[1..] == x[1..] + (" " + rest) && k[1..] == kw[1..] + " ";
      WordIs(kw[1..], x[1..], rest);
      assert kw == [kw[0]] + kw[1..] && x == [x[0]] + x[1..];
    } else if kw != "" {
      assert kw[0] in kw;
    } else if x != "" {
      assert x[0] in x;
    } else {
      assert k == " " && l[..1] == " ";
    }
  }

  lemma ClassAssign(x: string, rest: string)
    requires GoodTarget(x)
    ensures Classify(x + (" " + rest)) == Other
  {
    var l := x + (" " + rest);
    assert ' ' !in x by { forall i | 0 <= i < |x| ensures x[i] != ' ' { assert IsAlnum(x[i]); } }
    assert l[0] == x[0] && IsAlpha(x[0]);
    WordPrefix("exit", x, rest);
    WordPrefix("quit", x, rest);
    WordPrefix("endif", x, rest);
    WordPrefix("endwhile", x, rest);
    WordIs("if", x, rest);
    WordIs("while", x, rest);
    WordIs("def", x, rest);
    assert "if" + " " == "if " && "while" + " " == "while " && "def" + " " == "def ";
    NotElse(x, rest);
    NotPrint(x, rest);
  }

  lemma NotElse(x: string, rest: string)
    requires GoodTarget(x) && ' ' !in x
    ensures !IsElse(x + (" " + rest))
  {
    var l := x + (" " + rest);
    WordPrefix("else", x, rest);
    if "else" <= x {
      assert x == "else" + x[4..];
      assert |x| > 4 by { assert x[4..] == "" ==> x == "else"; }
      assert l[4..][0] == l[4] == x[4];
      assert IsAlnum(x[4]);
    }
  }

  lemma NotPrint(x: string, rest: string)
    requires GoodTarget(x) && ' ' !in x
    ensures !IsPrint(x + (" " + rest))
  {
    var l := x + (" " + rest);
    WordPrefix("print", x, rest);
    if "print" <= x {
      assert l[5..][0] == l[5];
      assert |x| > 5 ==> IsAlnum(x[5]);
    }
  }

  // ---------- executing them ----------

  lemma CondValue(c: Expr, w: World)
    requires GoodExpr(c)
    ensures Parse(0, Tokens(ShowExpr(c, 0) + ":"), w) == (Eval(c, w).0, [Colon], Eval(c, w).1)
  {
    hide Lex, Tokens, ShowExpr, Parse;
    assert ":" == ":" + "";
    LexSingle(':', Colon, "");
    TokensIs(":", Colon, "");
    TokensEmpty();
    assert Tokens(":") == [Colon];
    RoundTrip(c, ":", w);
  }

  lemma TokensEmpty()
    ensures Tokens("") == []
  {
  }

  lemma ExecIf(c: Expr, m: Machine)
    requires GoodExpr(c)
    ensures Exec(IfLine(c), m) ==
      if m.skip then m.(depth := m.depth + 1)
      else m.(depth := m.depth + 1, skip := Eval(c, m.w).0 == 0, w := Eval(c, m.w).1)
  {
    hide Tokens, Parse, ShowExpr, Exec, Classify;
    ClassIf(ShowExpr(c, 0) + ":");
    ExecByKind(IfLine(c), m);
    CondValue(c, m.w);
  }

  lemma ExecWhile(c: Expr, m: Machine)
    requires GoodExpr(c)
    ensures Exec(WhileLine(c), m) == if m.skip then m else m.(cond := ShowExpr(c, 0) + ":", loops := m.loops + 1)
  {
    hide Tokens, Parse, ShowExpr, Exec, Classify;
    ClassWhile(ShowExpr(c, 0) + ":");
    ExecByKind(WhileLine(c), m);
  }

  lemma ExecWords(m: Machine)
    ensures Exec("endif", m) ==
      if m.depth > 0 then m.(depth := m.depth - 1, skip := if m.depth == 1 then false else m.skip) else m
    ensures Exec("else:", m) == if m.depth == 1 then m.(skip := !m.skip) else m
    ensures Exec("endwhile", m) == m
  {
    hide Tokens, Parse, Exec, Classify;
    ClassWords();
    ExecByKind("endif", m);
    ExecByKind("else:", m);
    ExecByKind("endwhile", m);
  }

  lemma ToksHead(e: Expr, l: nat)
    requires WellFormed(e) && l <= PRIMARY
    ensures Toks(e, l) != [] && !Toks(e, l)[0].Str? && Toks(e, l)[0] != Eof
    decreases e, if Prec(e) < l then 1 else 0
  {
    if !(Prec(e) < l) && e.Bin? {
      ToksHead(e.l, OpLevel(e.op));
    }
  }

  lemma PendingIs(s: string)
    ensures Pending(Lex(s).0, Lex(s).1) == Tokens(s)
  {
  }

  lemma FirstToken(s: string, t: Token)
    requires Tokens(s) != [] && Tokens(s)[0] == t
    ensures Lex(s).0 == t
  {
  }

  lemma ExecPrintE(e: Expr, m: Machine)
    requires GoodExpr(e)
    ensures Exec(PrintLine(e), m) == if m.skip then m else m.(w := RunStm(PrintE(e), m.w))
  {
    hide Lex, Tokens, Parse, ShowExpr, Exec, Toks, Classify;
    var text := ShowExpr(e, 0) + ")";
    ClassPrint(text);
    ExecByKind(PrintLine(e), m);
    assert ")" == ")" + "";
    LexSingle(')', RParen, "");
    TokensIs(")", RParen, "");
    TokensEmpty();
    RoundTrip(e, ")", m.w);
    TokensOfShow(e, 0, ")");
    ToksHead(e, 0);
    FirstToken(text, Toks(e, 0)[0]);
    PendingIs(text);
  }

  lemma {:induction false} QuoteRunIs(t: string, suf: string, cap: nat)
    requires '"' !in t && NUL !in t && |t| <= cap
    ensures QuoteRun(t + ("\"" + suf), '"', cap) == |t|
    decreases |t|
  {
    var s := t + ("\"" + suf);
    if t != "" {
      assert s[1..] == t[1..] + ("\"" + suf);
      assert t[0] in t;
      QuoteRunIs(t[1..], suf, cap - 1);
    }
  }

  lemma LexText(t: string)
    requires GoodText(t)
    ensures Lex("\"" + (t + "\")")).0 == Str(t)
  {
    hide QuoteRun;
    var s := "\"" + (t + "\")");
    var body := t + "\")";
    assert s[0] == '"' && s[1..] == body;
    assert "\")" == "\"" + ")";
    QuoteRunIs(t, ")", STRING_CAP);
    assert body[..|t|] == t;
    NoBlanks(s);
    assert !StartsNumber(s);
  }

  lemma ExecText(t: string, m: Machine)
    requires GoodText(t)
    ensures Exec(TextLine(t), m) == if m.skip then m else m.(w := RunStm(PrintS(t), m.w))
  {
    hide Lex, Tokens, Parse, Exec, Classify;
    ClassPrint("\"" + (t + "\")"));
    ExecByKind(TextLine(t), m);
    LexText(t);
  }

  lemma ExecAssign(x: string, e: Expr, m: Machine)
    requires GoodTarget(x) && GoodExpr(e)
    ensures Exec(AssignLine(x, e), m) == if m.skip then m else m.(w := RunStm(Assign(x, e), m.w))
  {
    hide Lex, Tokens, Parse, ShowExpr, Exec, Classify;
    var value := ShowExpr(e, 0);
    ClassAssign(x, "= " + value);
    ExecByKind(AssignLine(x, e), m);
    LexWord(x, " " + ("= " + value));
    LexAssign(value);
    TokensBlank(value);
    TokensEmpty();
    assert value + "" == value;
    RoundTrip(e, "", m.w);
  }

  lemma LexAssign(value: string)
    ensures Lex(" " + ("= " + value)) == (Eq, " " + value)
  {
    assert "= " + value == "=" + (" " + value);
    LexSign('=', Eq, value);
    var s := " " + ("=" + (" " + value));
    assert s[1..] == "=" + (" " + value);
    assert SkipBlanks(s) == SkipBlanks(s[1..]);
  }
}
