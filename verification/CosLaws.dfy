/** What texts typed by hand evaluate to, operator by operator, and what small scripts do. */
module CosLaws {
  import opened Int32
  import opened Decimal
  import opened CosTokens
  import opened CosParser
  import opened CosPrinter
  import opened CosMachine
  import opened CosScript
  import opened CosRefine
  import opened CosAgree

  /** The value of an expression text. */
  function Value(text: string, w: World): int { Parse(0, Tokens(text), w).0 }

  /** What was printed once it has been evaluated. */
  function Output(text: string, w: World): seq<Event> { Parse(0, Tokens(text), w).2.out }

  lemma ValueOf(e: Expr, w: World)
    requires WellFormed(e) && GoodVars(e)
    ensures Value(ShowExpr(e, 0), w) == Eval(e, w).0 && Output(ShowExpr(e, 0), w) == Eval(e, w).1.out
  {
    hide Tokens, Parse, ShowExpr;
    assert Tokens("") == [] by { NoTokens(); }
    RoundTrip(e, "", w);
    assert ShowExpr(e, 0) + "" == ShowExpr(e, 0);
  }

  lemma NoTokens()
    ensures Tokens("") == []
  {
  }

  /** Two numbers and an operator, as typed. */
  lemma Typed(op: Token, t: string, a: int, b: int, w: World)
    requires OpLevel(op) >= 0 && t == " " + OpText(op) + " " && InInt32(a) && InInt32(b)
    ensures Value(Show(a) + t + Show(b), w) == Apply(op, a, b)
    ensures Output(Show(a) + t + Show(b), w) == Report(op, b, w).out
  {
    hide Value, Output, Show, Apply, Report;
    var e := Bin(op, Lit(a), Lit(b));
    assert ShowExpr(e, 0) == Show(a) + t + Show(b);
    ValueOf(e, w);
  }

  // ---------- operators ----------

  lemma ArithmeticText(a: int, b: int, w: World)
    requires InInt32(a) && InInt32(b)
    ensures InInt32(a + b) ==> Value(Show(a) + " + " + Show(b), w) == a + b
    ensures InInt32(a - b) ==> Value(Show(a) + " - " + Show(b), w) == a - b
    ensures InInt32(a * b) ==> Value(Show(a) + " * " + Show(b), w) == a * b
  {
    hide Value, Output, Show;
    Typed(Plus, " + ", a, b, w);
    Typed(Minus, " - ", a, b, w);
    Typed(Star, " * ", a, b, w);
  }

  /** The quotient is cut toward zero, the remainder has the dividend's sign, and both are 0 for a zero divisor. */
  lemma DivisionText(a: int, b: int, w: World)
    requires InInt32(a) && InInt32(b) && !(a == -0x8000_0000 && b == -1)
    ensures var q, m := Value(Show(a) + " / " + Show(b), w), Value(Show(a) + " % " + Show(b), w);
      if b == 0 then q == 0 && m == 0
      else a == b * q + m && (m == 0 || (m < 0) == (a < 0)) && -(if b < 0 then -b else b) < m < (if b < 0 then -b else b)
  {
    hide Value, Show, Div, Mod;
    Typed(Slash, " / ", a, b, w);
    Typed(Percent, " % ", a, b, w);
    if b != 0 {
      DivModSpec(a, b);
      DivFits(a, b);
    }
  }

  /** A division by zero is reported, a remainder by zero is not. */
  lemma ZeroText(a: int, b: int, w: World)
    requires InInt32(a) && InInt32(b)
    ensures Output(Show(a) + " / " + Show(b), w) == if b == 0 then w.out + [DivisionByZero] else w.out
    ensures Output(Show(a) + " % " + Show(b), w) == w.out
  {
    hide Output, Show;
    Typed(Slash, " / ", a, b, w);
    Typed(Percent, " % ", a, b, w);
  }

  lemma DivFits(a: int, b: int)
    requires InInt32(a) && InInt32(b) && b != 0 && !(a == -0x8000_0000 && b == -1)
    ensures InInt32(Div(a, b)) && InInt32(Mod(a, b))
  {
    DivModSpec(a, b);
    QuotientBound(if a < 0 then -a else a, if b < 0 then -b else b);
  }

  lemma QuotientBound(a: nat, b: nat)
    requires b > 0
    ensures 0 <= a / b <= a && (b >= 2 ==> 2 * (a / b) <= a)
  {
    var q := a / b;
    assert a == b * q + a % b;
    assert q >= 0;
    if b >= 2 {
      AtLeast(b, q);
    }
  }

  lemma AtLeast(b: nat, q: nat)
    requires b >= 2
    ensures b * q >= 2 * q
  {
  }

  lemma ComparisonText(a: int, b: int, w: World)
    requires InInt32(a) && InInt32(b)
    ensures Value(Show(a) + " < " + Show(b), w) == if a < b then 1 else 0
    ensures Value(Show(a) + " > " + Show(b), w) == if a > b then 1 else 0
    ensures Value(Show(a) + " <= " + Show(b), w) == if a <= b then 1 else 0
    ensures Value(Show(a) + " >= " + Show(b), w) == if a >= b then 1 else 0
    ensures Value(Show(a) + " == " + Show(b), w) == if a == b then 1 else 0
    ensures Value(Show(a) + " != " + Show(b), w) == if a == b then 0 else 1
  {
    hide Value, Output, Show;
    Typed(Lt, " < ", a, b, w);
    Typed(Gt, " > ", a, b, w);
    Typed(Le, " <= ", a, b, w);
    Typed(Ge, " >= ", a, b, w);
    Typed(EqEq, " == ", a, b, w);
    Typed(Ne, " != ", a, b, w);
  }

  /** Connectives take every number but 0 for true. */
  lemma LogicText(a: int, b: int, w: World)
    requires InInt32(a) && InInt32(b)
    ensures Value(Show(a) + " and " + Show(b), w) == if a == 0 || b == 0 then 0 else 1
    ensures Value(Show(a) + " or " + Show(b), w) == if a == 0 && b == 0 then 0 else 1
    ensures Value("not " + Show(a), w) == if a == 0 then 1 else 0
    ensures a != -0x8000_0000 ==> Value("- " + Show(a), w) == -a
  {
    hide Value, Output, Show;
    Typed(And, " and ", a, b, w);
    Typed(Or, " or ", a, b, w);
    assert ShowExpr(NotE(Lit(a)), 0) == "not " + Show(a);
    assert ShowExpr(Neg(Lit(a)), 0) == "- " + Show(a);
    ValueOf(NotE(Lit(a)), w);
    ValueOf(Neg(Lit(a)), w);
  }

  // ---------- precedence ----------

  lemma TwoLits(op: Token, a: int, b: int, w: World)
    requires OpLevel(op) >= 0 && InInt32(a) && InInt32(b)
    ensures var e := Bin(op, Lit(a), Lit(b));
      && WellFormed(e) && GoodVars(e) && Prec(e) == OpLevel(op)
      && Eval(e, w).0 == Apply(op, a, b)
      && forall l: nat :: l <= OpLevel(op) ==> ShowExpr(e, l) == Show(a) + (" " + OpText(op) + " ") + Show(b)
  {
    hide Show, Apply;
    var e := Bin(op, Lit(a), Lit(b));
    assert Eval(Lit(a), w) == (a, w) && Eval(Lit(b), w) == (b, w);
  }

  /** Three numbers, the second operator tighter or not. */
  lemma TypedThree(p: Token, t: string, q: Token, u: string, a: int, b: int, c: int, w: World)
    requires OpLevel(p) >= 0 && OpLevel(q) >= 0 && InInt32(a) && InInt32(b) && InInt32(c)
    requires t == " " + OpText(p) + " " && u == " " + OpText(q) + " "
    ensures Value(Show(a) + t + Show(b) + u + Show(c), w) ==
      if OpLevel(p) < OpLevel(q) then Apply(p, a, Apply(q, b, c)) else Apply(q, Apply(p, a, b), c)
  {
    if OpLevel(p) < OpLevel(q) {
      TypedRight(p, t, q, u, a, b, c, w);
    } else {
      TypedLeft(p, t, q, u, a, b, c, w);
    }
  }

  lemma TypedRight(p: Token, t: string, q: Token, u: string, a: int, b: int, c: int, w: World)
    requires 0 <= OpLevel(p) < OpLevel(q) && InInt32(a) && InInt32(b) && InInt32(c)
    requires t == " " + OpText(p) + " " && u == " " + OpText(q) + " "
    ensures Value(Show(a) + t + Show(b) + u + Show(c), w) == Apply(p, a, Apply(q, b, c))
  {
    hide Value, Output, Show, Apply, OpText, OpLevel;
    var inner := Bin(q, Lit(b), Lit(c));
    var e := Bin(p, Lit(a), inner);
    TwoLits(q, b, c, w);
    assert Eval(Lit(a), w) == (a, w);
    assert ShowExpr(Lit(a), OpLevel(p)) == Show(a);
    assert ShowExpr(e, 0) == Show(a) + t + (Show(b) + u + Show(c));
    assert Show(a) + t + (Show(b) + u + Show(c)) == Show(a) + t + Show(b) + u + Show(c);
    ValueOf(e, w);
  }

  lemma TypedLeft(p: Token, t: string, q: Token, u: string, a: int, b: int, c: int, w: World)
    requires 0 <= OpLevel(q) <= OpLevel(p) && InInt32(a) && InInt32(b) && InInt32(c)
    requires t == " " + OpText(p) + " " && u == " " + OpText(q) + " "
    ensures Value(Show(a) + t + Show(b) + u + Show(c), w) == Apply(q, Apply(p, a, b), c)
  {
    hide Value, Output, Show, Apply, OpText, OpLevel;
    var inner := Bin(p, Lit(a), Lit(b));
    var e := Bin(q, inner, Lit(c));
    TwoLits(p, a, b, w);
    assert forall v: World :: Eval(Lit(c), v) == (c, v);
    assert ShowExpr(e, 0) == Show(a) + t + Show(b) + u + Show(c);
    ValueOf(e, w);
  }

  /** Multiplication binds tighter than addition, and equal operators group from the left. */
  lemma SumsAndProducts(a: int, b: int, c: int, w: World)
    requires InInt32(a) && InInt32(b) && InInt32(c)
    ensures InInt32(b * c) && InInt32(a + b * c) ==> Value(Show(a) + " + " + Show(b) + " * " + Show(c), w) == a + b * c
    ensures InInt32(a * b) && InInt32(a * b + c) ==> Value(Show(a) + " * " + Show(b) + " + " + Show(c), w) == a * b + c
    ensures InInt32(a - b) && InInt32(a - b - c) ==> Value(Show(a) + " - " + Show(b) + " - " + Show(c), w) == a - b - c
  {
    hide Value, Output, Show;
    TypedThree(Plus, " + ", Star, " * ", a, b, c, w);
    TypedThree(Star, " * ", Plus, " + ", a, b, c, w);
    TypedThree(Minus, " - ", Minus, " - ", a, b, c, w);
  }

  /** Addition binds tighter than comparison, comparison than `and`, `and` than `or`. */
  lemma LooserOperators(a: int, b: int, c: int, w: World)
    requires InInt32(a) && InInt32(b) && InInt32(c)
    ensures InInt32(b + c) ==> Value(Show(a) + " < " + Show(b) + " + " + Show(c), w) == if a < b + c then 1 else 0
    ensures Value(Show(a) + " and " + Show(b) + " == " + Show(c), w) == if a != 0 && b == c then 1 else 0
    ensures Value(Show(a) + " or " + Show(b) + " and " + Show(c), w) == if a != 0 || (b != 0 && c != 0) then 1 else 0
  {
    hide Value, Output, Show;
    TypedThree(Lt, " < ", Plus, " + ", a, b, c, w);
    TypedThree(And, " and ", EqEq, " == ", a, b, c, w);
    TypedThree(Or, " or ", And, " and ", a, b, c, w);
  }

  // ---------- variables ----------

  /** A variable reads as what was last assigned to it; others keep their values. The table holds 64 names. */
  lemma AssignRead(w: World, x: string, v: int, y: string)
    requires x in w.vars || |w.vars| < 64
    ensures GetVar(SetVar(w, x, v), y) == if y == x then v else GetVar(w, y)
    ensures SetVar(w, x, v).out == w.out && SetVar(w, x, v).inputs == w.inputs
  {
  }

  /** A 65th name is ignored. */
  lemma FullTable(w: World, x: string, v: int)
    requires x !in w.vars && |w.vars| >= 64
    ensures SetVar(w, x, v) == w
  {
  }

  lemma UnsetIsZero(w: World, x: string)
    requires x !in w.vars
    ensures GetVar(w, x) == 0
  {
  }

  // ---------- small scripts ----------

  /** `while 1: print(1)` prints exactly a thousand times. */
  lemma {:induction false} Endless(n: nat, w: World)
    ensures RunLoop(n, Lit(1), Then(PrintE(Lit(1)), End), w) == w.(out := w.out + seq(n, _ => Num(1)))
    decreases n
  {
    if n > 0 {
      var b := Then(PrintE(Lit(1)), End);
      var w1 := w.(out := w.out + [Num(1)]);
      assert Run(b, w) == w1;
      Endless(n - 1, w1);
      assert w.out + [Num(1)] + seq(n - 1, _ => Num(1)) == w.out + seq(n, _ => Num(1));
    } else {
      assert w.out + seq(0, _ => Num(1)) == w.out;
    }
  }

  lemma ThousandRounds(w: World)
    ensures RunStm(While(Lit(1), Then(PrintE(Lit(1)), End)), w).out == w.out + seq(1000, _ => Num(1))
  {
    hide RunLoop;
    Endless(1000, w);
  }

  /** `while x > 0: x = x - 1` with x at most 1000 ends with x at 0. */
  lemma CountDown(w: World, x: string)
    requires x in w.vars && 0 <= w.vars[x] <= 1000
    ensures var body := Then(Assign(x, Bin(Minus, Var(x), Lit(1))), End);
      RunStm(While(Bin(Gt, Var(x), Lit(0)), body), w) == w.(vars := w.vars[x := 0])
  {
    hide RunLoop;
    CountRounds(1000, w, x);
  }

  lemma {:induction false} CountRounds(n: nat, w: World, x: string)
    requires x in w.vars && 0 <= w.vars[x] <= n && InInt32(w.vars[x])
    ensures var body := Then(Assign(x, Bin(Minus, Var(x), Lit(1))), End);
      RunLoop(n, Bin(Gt, Var(x), Lit(0)), body, w) == w.(vars := w.vars[x := 0])
    decreases n
  {
    var body := Then(Assign(x, Bin(Minus, Var(x), Lit(1))), End);
    var v := w.vars[x];
    var some := Bin(Gt, Var(x), Lit(0));
    assert Eval(Var(x), w) == (v, w) && Eval(Lit(0), w) == (0, w);
    if v > 0 {
      var w1 := w.(vars := w.vars[x := v - 1]);
      var less := Bin(Minus, Var(x), Lit(1));
      assert Eval(Var(x), w) == (v, w) && Eval(Lit(1), w) == (1, w);
      assert Eval(less, w) == (v - 1, w);
      assert Run(End, w1) == w1;
      assert Run(body, w) == w1;
      assert Eval(some, w) == (1, w);
      CountRounds(n - 1, w1, x);
      assert w1.vars[x := 0] == w.vars[x := 0];
      assert RunLoop(n, some, body, w) == RunLoop(n - 1, some, body, w1);
    } else {
      assert w.vars[x := 0] == w.vars;
      assert Eval(some, w) == (0, w);
      assert RunLoop(n, some, body, w) == w;
    }
  }

  /** An if takes its then part on every number but 0. */
  lemma IfTakes(n: int, a: Block, b: Block, w: World)
    requires InInt32(n)
    ensures RunStm(If(Lit(n), a, true, b), w) == if n == 0 then Run(b, w) else Run(a, w)
  {
    hide Run;
  }

  // ---------- a whole file, as typed ----------

  const FILE := ["x = 3", "while x > 0:", "print(x)", "x = x - 1", "endwhile", "if x == 0:", "print(\"done\")", "else:", "print(7)", "endif"]

  const BODY := Then(PrintE(Var("x")), Then(Assign("x", Bin(Minus, Var("x"), Lit(1))), End))
  const CHECK := If(Bin(EqEq, Var("x"), Lit(0)), Then(PrintS("done"), End), true, Then(PrintE(Lit(7)), End))
  const PROGRAM := Then(Assign("x", Lit(3)), Then(While(Bin(Gt, Var("x"), Lit(0)), BODY), Then(CHECK, End)))

  lemma ProgramProper()
    ensures Proper(PROGRAM) && Proper(BODY) && ProperStm(CHECK)
  {
    NameX();
    hide GoodVar, GoodTarget;
    assert Proper(Then(Assign("x", Bin(Minus, Var("x"), Lit(1))), End));
    assert Proper(BODY) && ProperStm(CHECK);
    assert Proper(Then(While(Bin(Gt, Var("x"), Lit(0)), BODY), Then(CHECK, End)));
  }

  lemma NameX()
    ensures GoodVar("x") && GoodTarget("x")
  {
  }

  lemma OneDigit(n: int)
    requires 0 <= n < 10
    ensures Show(n) == ['0' + n as char]
  {
  }

  lemma LineTexts()
    ensures AssignLine("x", Lit(3)) == "x = 3" && WhileLine(Bin(Gt, Var("x"), Lit(0))) == "while x > 0:"
    ensures PrintLine(Var("x")) == "print(x)" && AssignLine("x", Bin(Minus, Var("x"), Lit(1))) == "x = x - 1"
    ensures IfLine(Bin(EqEq, Var("x"), Lit(0))) == "if x == 0:" && TextLine("done") == "print(\"done\")" && PrintLine(Lit(7)) == "print(7)"
  {
    hide Show;
    OneDigit(0);
    OneDigit(1);
    OneDigit(3);
    OneDigit(7);
    assert ShowExpr(Var("x"), 0) == "x" && ShowExpr(Var("x"), 2) == "x" && ShowExpr(Var("x"), 3) == "x";
    assert ShowExpr(Bin(Gt, Var("x"), Lit(0)), 0) == "x > 0";
    assert ShowExpr(Bin(Minus, Var("x"), Lit(1)), 0) == "x - 1";
    assert ShowExpr(Bin(EqEq, Var("x"), Lit(0)), 0) == "x == 0";
  }

  lemma BodyLines()
    ensures Proper(BODY) && Lines(BODY) == ["print(x)", "x = x - 1"]
  {
    hide AssignLine, PrintLine;
    ProgramProper();
    LineTexts();
    var less := Assign("x", Bin(Minus, Var("x"), Lit(1)));
    assert StmLines(less) == ["x = x - 1"];
    assert Lines(End) == [];
    assert Lines(Then(less, End)) == ["x = x - 1"];
    assert StmLines(PrintE(Var("x"))) == ["print(x)"];
  }

  lemma CheckLines()
    ensures ProperStm(CHECK) && StmLines(CHECK) == ["if x == 0:", "print(\"done\")", "else:", "print(7)", "endif"]
  {
    hide IfLine, PrintLine, TextLine;
    ProgramProper();
    LineTexts();
    assert Lines(End) == [];
    assert StmLines(PrintS("done")) == ["print(\"done\")"] && StmLines(PrintE(Lit(7))) == ["print(7)"];
    assert Lines(Then(PrintS("done"), End)) == ["print(\"done\")"];
    assert Lines(Then(PrintE(Lit(7)), End)) == ["print(7)"];
  }

  lemma ProgramLines()
    ensures Proper(PROGRAM)
    ensures Lines(PROGRAM) == FILE
  {
    hide AssignLine, WhileLine;
    ProgramProper();
    LineTexts();
    BodyLines();
    CheckLines();
    var loop := While(Bin(Gt, Var("x"), Lit(0)), BODY);
    assert StmLines(loop) == ["while x > 0:"] + (Lines(BODY) + ["endwhile"]);
    assert Lines(End) == [];
    assert Lines(Then(CHECK, End)) == StmLines(CHECK);
    assert Lines(Then(loop, Then(CHECK, End))) == StmLines(loop) + StmLines(CHECK);
    assert StmLines(Assign("x", Lit(3))) == ["x = 3"];
  }

  /** Typed into a file and run, it counts down from 3 and says it is done. */
  lemma FileRuns(m: Machine)
    ensures RunFile(JoinLines(FILE), m).w.out == m.w.out + [Num(3), Num(2), Num(1), Text("done")]
    ensures RunFile(JoinLines(FILE), m).w.vars == map["x" := 0]
  {
    hide RunFile, Run, RunLoop, JoinLines, Straight, Fits, Lines;
    ProgramLines();
    ProgramFits();
    StraightRuns(PROGRAM, m);
    ProgramMeaning(m.w.(vars := map[]));
  }

  lemma ProgramFits()
    ensures Proper(PROGRAM) && Straight(PROGRAM) && Fits(FILE)
  {
    hide Lines, StmLines;
    ProgramProper();
    BodyLines();
    FileFits();
    var loop := While(Bin(Gt, Var("x"), Lit(0)), BODY);
    assert Plainly(BODY) && OneLevel(loop);
    assert OneLevel(CHECK);
    assert Straight(Then(CHECK, End));
    assert Straight(Then(loop, Then(CHECK, End)));
  }

  lemma FileFits()
    ensures Fits(FILE)
  {
  }

  lemma ProgramMeaning(w: World)
    requires w.vars == map[]
    ensures Run(PROGRAM, w).out == w.out + [Num(3), Num(2), Num(1), Text("done")] && Run(PROGRAM, w).vars == map["x" := 0]
  {
    hide RunStm, CHECK, BODY;
    var w3 := w.(vars := map["x" := 3]);
    StartsAtThree(w);
    var w0 := w.(vars := map["x" := 0], out := w.out + [Num(3), Num(2), Num(1)]);
    LoopPrints(w3);
    SaysDone(w0);
    var loop := While(Bin(Gt, Var("x"), Lit(0)), BODY);
    assert Run(End, RunStm(CHECK, w0)) == RunStm(CHECK, w0);
    assert Run(Then(CHECK, End), w0) == RunStm(CHECK, w0);
    assert Run(Then(loop, Then(CHECK, End)), w3) == RunStm(CHECK, w0);
  }

  lemma StartsAtThree(w: World)
    requires w.vars == map[]
    ensures RunStm(Assign("x", Lit(3)), w) == w.(vars := map["x" := 3])
  {
  }

  lemma SaysDone(w: World)
    requires w.vars == map["x" := 0]
    ensures RunStm(CHECK, w) == w.(out := w.out + [Text("done")])
  {
    assert Eval(Bin(EqEq, Var("x"), Lit(0)), w) == (1, w);
    assert Run(Then(PrintS("done"), End), w) == w.(out := w.out + [Text("done")]);
  }

  lemma LoopPrints(w: World)
    requires w.vars == map["x" := 3]
    ensures RunStm(While(Bin(Gt, Var("x"), Lit(0)), BODY), w) == w.(vars := map["x" := 0], out := w.out + [Num(3), Num(2), Num(1)])
  {
    hide RunLoop, BODY;
    Round(1000, w);
    var w2 := w.(vars := map["x" := 2], out := w.out + [Num(3)]);
    Round(999, w2);
    var w1 := w2.(vars := map["x" := 1], out := w2.out + [Num(2)]);
    Round(998, w1);
    var w0 := w1.(vars := map["x" := 0], out := w1.out + [Num(1)]);
    Round(997, w0);
    assert w0.out == w.out + [Num(3), Num(2), Num(1)];
  }

  /** One round of the loop. */
  lemma Round(n: nat, w: World)
    requires n > 0 && "x" in w.vars && w.vars.Keys == {"x"} && 0 <= w.vars["x"] < 10
    ensures var v := w.vars["x"];
      RunLoop(n, Bin(Gt, Var("x"), Lit(0)), BODY, w) ==
      if v == 0 then w
      else RunLoop(n - 1, Bin(Gt, Var("x"), Lit(0)), BODY, w.(vars := map["x" := v - 1], out := w.out + [Num(v)]))
  {
    var v := w.vars["x"];
    assert Eval(Bin(Gt, Var("x"), Lit(0)), w) == (if v > 0 then 1 else 0, w);
    if v > 0 {
      var p := w.(out := w.out + [Num(v)]);
      assert RunStm(PrintE(Var("x")), w) == p;
      assert Eval(Bin(Minus, Var("x"), Lit(1)), p) == (v - 1, p);
      assert w.vars["x" := v - 1] == map["x" := v - 1];
      assert RunStm(Assign("x", Bin(Minus, Var("x"), Lit(1))), p) == p.(vars := map["x" := v - 1]);
    }
  }
}
