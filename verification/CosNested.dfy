/** What the machine makes of a loop with a loop inside. */
module CosNested {
  import opened Int32
  import opened Decimal
  import opened CosTokens
  import opened CosParser
  import opened CosPrinter
  import opened CosMachine
  import opened CosScript
  import opened CosLines
  import opened CosRefine
  import opened CosLaws

  /** One block before another. */
  function Before(a: Block, b: Block): Block
  {
    match a
    case End => b
    case Then(s, rest) => Then(s, Before(rest, b))
  }

  /** `while outer:` a, `while inner:` b `endwhile`, c, `endwhile`. */
  function Nested(outer: Expr, a: Block, inner: Expr, b: Block, c: Block): Stm
  {
    While(outer, Before(a, Then(While(inner, b), c)))
  }

  /** The three parts one after another, once each. */
  function Round(a: Block, b: Block, c: Block, w: World): World
  {
    Act(c, Act(b, Act(a, w, false, 0).0, false, 0).0, false, 0).0
  }

  /** At most `n` rounds of all three parts as long as `e` holds, and how many there were. */
  function Rounds(n: nat, e: Expr, a: Block, b: Block, c: Block, w: World): (r: (World, nat))
    ensures r.1 <= n
    decreases n
  {
    if n == 0 then (w, 0)
    else
      var (v, w0) := Eval(e, w);
      if v == 0 then (w0, 0)
      else
        var (w1, k) := Rounds(n - 1, e, a, b, c, Round(a, b, c, w0));
        (w1, k + 1)
  }

  // ---------- one round ----------

  lemma {:induction false} ExecAppend(us: seq<string>, ls: seq<string>, m: Machine)
    ensures ExecAll(us + ls, m) == ExecAll(ls, ExecAll(us, m))
    decreases |us|
  {
    hide Exec;
    if us == [] {
      assert us + ls == ls;
    } else {
      assert (us + ls)[1..] == us[1..] + ls;
      ExecAppend(us[1..], ls, Exec(us[0], m));
    }
  }

  /** Plain lines neither look at the count of open loops nor change it. */
  lemma {:induction false} ExecAnyLoops(ls: seq<string>, m: Machine)
    requires AllPlain(ls)
    ensures ExecAll(ls, m) == ExecAll(ls, m.(loops := 0)).(loops := m.loops)
    decreases |ls|
  {
    hide Exec, PlainLine;
    if ls != [] {
      assert PlainLine(ls[0]);
      PlainAnyLoops(ls[0], m);
      ExecAnyLoops(ls[1..], Exec(ls[0], m));
    }
  }

  lemma PlainAnyLoops(l: string, m: Machine)
    requires PlainLine(l)
    ensures Exec(l, m) == Exec(l, m.(loops := 0)).(loops := m.loops) && Exec(l, m).loops == m.loops
    ensures Exec(l, m).(loops := 0) == Exec(l, m.(loops := 0))
  {
    hide Parse, Tokens, ExecPrint, ExecOther;
    NoBlanks(l);
  }

  lemma ExecBlock(b: Block, m: Machine)
    requires Proper(b) && NoWhile(b) && !m.skip && m.depth == 0
    ensures ExecAll(Lines(b), m) == m.(w := Act(b, m.w, false, 0).0)
  {
    hide FileLines, ExecAll, Lines, Act, Flat, AllPlain;
    var m0 := m.(loops := 0);
    NoWhileFlat(b, m.w, false, 0);
    TopClean(b, m.w);
    var last := BlockActs(b, m0, []);
    assert Lines(b) + [] == Lines(b);
    NoLines(After(m0, Act(b, m.w, false, 0), last));
    PlainLines(b);
    FileIsExec(Lines(b), m0);
    ExecAnyLoops(Lines(b), m);
  }

  /** The lines collected for the outer loop: the inner one's endwhile is not among them. */
  function Collected(a: Block, inner: Expr, b: Block, c: Block): seq<string>
    requires Parts(a, inner, b, c)
  {
    Lines(a) + ([WhileLine(inner)] + (Lines(b) + Lines(c)))
  }

  predicate Parts(a: Block, inner: Expr, b: Block, c: Block)
  {
    && Proper(a) && Proper(b) && Proper(c) && GoodExpr(inner) && NoWhile(a) && NoWhile(b) && NoWhile(c)
    && |Lines(a)| + |Lines(b)| + |Lines(c)| <= 15
  }

  /** A round stores the inner condition over the outer one, and counts one more open loop. */
  lemma RoundActs(a: Block, inner: Expr, b: Block, c: Block, m: Machine)
    requires Parts(a, inner, b, c) && !m.skip && m.depth == 0
    ensures ExecAll(Collected(a, inner, b, c), m) ==
      m.(w := Round(a, b, c, m.w), cond := ShowExpr(inner, 0) + ":", loops := m.loops + 1)
  {
    hide Lines, Act, Exec, WhileLine, ShowExpr, NoWhile, Proper;
    var ls := [WhileLine(inner)] + (Lines(b) + Lines(c));
    ExecAppend(Lines(a), ls, m);
    ExecBlock(a, m);
    var m1 := m.(w := Act(a, m.w, false, 0).0);
    ExecWhile(inner, m1);
    var m2 := m1.(cond := ShowExpr(inner, 0) + ":", loops := m.loops + 1);
    assert ls[1..] == Lines(b) + Lines(c);
    ExecAppend(Lines(b), Lines(c), m2);
    ExecBlock(b, m2);
    ExecBlock(c, m2.(w := Act(b, m2.w, false, 0).0));
  }

  lemma {:induction false} RoundsAct(n: nat, a: Block, inner: Expr, b: Block, c: Block, m: Machine)
    requires Parts(a, inner, b, c) && !m.skip && m.depth == 0 && m.cond == ShowExpr(inner, 0) + ":"
    ensures var (w, k) := Rounds(n, inner, a, b, c, m.w);
      Loop(n, Collected(a, inner, b, c), m) == m.(w := w, loops := m.loops + k)
    decreases n
  {
    hide ExecAll, Parse, Tokens, Collected, ShowExpr, Round, Parts, GoodExpr;
    if n > 0 {
      PartsGood(a, inner, b, c);
      Turn(n, inner, Collected(a, inner, b, c), m);
      var (v, w0) := Eval(inner, m.w);
      if v != 0 {
        var m1 := m.(w := w0);
        RoundActs(a, inner, b, c, m1);
        RoundsAct(n - 1, a, inner, b, c, m1.(w := Round(a, b, c, w0), loops := m.loops + 1));
      }
    }
  }

  lemma PartsGood(a: Block, inner: Expr, b: Block, c: Block)
    requires Parts(a, inner, b, c)
    ensures GoodExpr(inner)
  {
  }

  /** The machine after the whole loop. */
  function NestedAfter(outer: Expr, a: Block, inner: Expr, b: Block, c: Block, m: Machine): Machine
    requires WellFormed(outer) && WellFormed(inner)
  {
    var (v, w0) := Eval(outer, m.w);
    if v == 0 then m.(w := w0, cond := ShowExpr(outer, 0) + ":")
    else
      var (w, k) := Rounds(999, inner, a, b, c, Round(a, b, c, w0));
      m.(w := w, cond := ShowExpr(inner, 0) + ":", loops := k + 1)
  }

  lemma LoopNested(outer: Expr, a: Block, inner: Expr, b: Block, c: Block, m: Machine)
    requires GoodExpr(outer) && Parts(a, inner, b, c) && !m.skip && m.depth == 0 && m.loops == 0 && m.cond == ShowExpr(outer, 0) + ":"
    ensures Loop(1000, Collected(a, inner, b, c), m) == NestedAfter(outer, a, inner, b, c, m)
  {
    hide ExecAll, Parse, Tokens, Collected, ShowExpr, Round, Rounds, Parts, Loop, Eval;
    PartsGood(a, inner, b, c);
    Turn(1000, outer, Collected(a, inner, b, c), m);
    if Eval(outer, m.w).0 != 0 {
      Entered(outer, a, inner, b, c, m);
    } else {
      NotEntered(outer, a, inner, b, c, m);
    }
  }

  lemma NotEntered(outer: Expr, a: Block, inner: Expr, b: Block, c: Block, m: Machine)
    requires WellFormed(outer) && WellFormed(inner) && m.cond == ShowExpr(outer, 0) + ":" && Eval(outer, m.w).0 == 0
    ensures NestedAfter(outer, a, inner, b, c, m) == m.(w := Eval(outer, m.w).1)
  {
    hide ShowExpr, Eval;
  }

  lemma Entered(outer: Expr, a: Block, inner: Expr, b: Block, c: Block, m: Machine)
    requires WellFormed(outer) && Parts(a, inner, b, c) && !m.skip && m.depth == 0 && m.loops == 0 && Eval(outer, m.w).0 != 0
    ensures GoodExpr(inner)
    ensures var body := Collected(a, inner, b, c);
      Loop(999, body, ExecAll(body, m.(w := Eval(outer, m.w).1))) == NestedAfter(outer, a, inner, b, c, m)
  {
    hide ExecAll, Collected, ShowExpr, Round, Rounds, Parts, Loop, Eval, WellFormed;
    PartsGood(a, inner, b, c);
    FirstRound(a, inner, b, c, m, Eval(outer, m.w).1);
  }

  /** One turn of a loop on a printed condition. */
  lemma Turn(n: nat, e: Expr, body: seq<string>, m: Machine)
    requires n > 0 && GoodExpr(e) && m.cond == ShowExpr(e, 0) + ":"
    ensures var (v, w0) := Eval(e, m.w);
      Loop(n, body, m) == if v == 0 then m.(w := w0) else Loop(n - 1, body, ExecAll(body, m.(w := w0)))
  {
    hide ExecAll, Parse, Tokens, ShowExpr, Eval, GoodExpr;
    CondValue(e, m.w);
  }

  /** The first round and those after it, once the outer condition has held. */
  lemma FirstRound(a: Block, inner: Expr, b: Block, c: Block, m: Machine, w0: World)
    requires Parts(a, inner, b, c) && !m.skip && m.depth == 0 && m.loops == 0
    ensures GoodExpr(inner)
    ensures var (w, k) := Rounds(999, inner, a, b, c, Round(a, b, c, w0));
      Loop(999, Collected(a, inner, b, c), ExecAll(Collected(a, inner, b, c), m.(w := w0))) ==
        m.(w := w, cond := ShowExpr(inner, 0) + ":", loops := k + 1)
  {
    hide ExecAll, Collected, ShowExpr, Round, Rounds, Parts, Loop;
    PartsGood(a, inner, b, c);
    RoundActs(a, inner, b, c, m.(w := w0));
    RoundsAct(999, a, inner, b, c, m.(w := Round(a, b, c, w0), cond := ShowExpr(inner, 0) + ":", loops := 1));
  }

  // ---------- the lines of the loop ----------

  lemma {:induction false} BeforeLines(a: Block, b: Block)
    requires Proper(a) && Proper(b)
    ensures Proper(Before(a, b)) && Lines(Before(a, b)) == Lines(a) + Lines(b)
    decreases a
  {
    hide StmLines;
    if a.Then? {
      BeforeLines(a.rest, b);
    }
  }

  lemma NestedLines(outer: Expr, a: Block, inner: Expr, b: Block, c: Block, tail: seq<string>)
    requires GoodExpr(outer) && Parts(a, inner, b, c)
    ensures ProperStm(Nested(outer, a, inner, b, c))
    ensures StmLines(Nested(outer, a, inner, b, c)) + tail ==
      [WhileLine(outer)] + (Lines(a) + ([WhileLine(inner)] + (Lines(b) + (["endwhile"] + (Lines(c) + (["endwhile"] + tail))))))
  {
    hide WhileLine, Lines, StmLines, NoWhile, ShowExpr;
    var loop := While(inner, b);
    var inside := Before(a, Then(loop, c));
    assert ProperStm(loop);
    WhileLines(inner, b);
    ThenLines(loop, c);
    BeforeLines(a, Then(loop, c));
    WhileLines(outer, inside);
    InOrder([WhileLine(outer)], Lines(a), [WhileLine(inner)], Lines(b), ["endwhile"], Lines(c), tail);
  }

  lemma InOrder(o: seq<string>, a: seq<string>, i: seq<string>, b: seq<string>, e: seq<string>, c: seq<string>, t: seq<string>)
    ensures o + ((a + ((i + (b + e)) + c)) + e) + t == o + (a + (i + (b + (e + (c + (e + t))))))
  {
  }

  lemma WhileLines(e: Expr, body: Block)
    requires GoodExpr(e) && Proper(body)
    ensures ProperStm(While(e, body)) && StmLines(While(e, body)) == [WhileLine(e)] + (Lines(body) + ["endwhile"])
  {
    hide WhileLine, GoodExpr;
  }

  /** A loop with a loop inside, outside every if. The outer condition is tested once. In each round all lines but the loop lines
      are run once, those of the inner body too, and from the second round on the inner condition decides. Each round leaves one more
      loop open, so that afterwards none is if and only if the outer condition failed at once. */
  lemma NestedActs(outer: Expr, a: Block, inner: Expr, b: Block, c: Block, m: Machine, tail: seq<string>)
    requires GoodExpr(outer) && Parts(a, inner, b, c) && !m.skip && m.depth == 0 && m.loops == 0
    ensures ProperStm(Nested(outer, a, inner, b, c))
    ensures FileLines(StmLines(Nested(outer, a, inner, b, c)) + tail, m, []) ==
      FileLines(tail, NestedAfter(outer, a, inner, b, c, m), [])
    ensures NestedAfter(outer, a, inner, b, c, m).loops == 0 <==> Eval(outer, m.w).0 == 0
  {
    hide FileLines, Exec, WhileLine, Lines, StmLines, Loop, NestedAfter, ShowExpr, Proper, NoWhile, AllPlain;
    NestedLines(outer, a, inner, b, c, tail);
    var t4 := ["endwhile"] + tail;
    var t3 := ["endwhile"] + (Lines(c) + t4);
    var t2 := [WhileLine(inner)] + (Lines(b) + t3);
    PlainHeads(outer);
    ExecWhile(outer, m);
    var m1 := m.(cond := ShowExpr(outer, 0) + ":", loops := 1);
    StepLine(WhileLine(outer), Lines(a) + t2, m);
    CollectsNested(a, inner, b, c, m1, tail);
    LoopNested(outer, a, inner, b, c, m1.(loops := 0));
    SameAfter(outer, a, inner, b, c, m, m1.(loops := 0));
    OpenAfter(outer, a, inner, b, c, m);
  }

  lemma OpenAfter(outer: Expr, a: Block, inner: Expr, b: Block, c: Block, m: Machine)
    requires WellFormed(outer) && WellFormed(inner) && m.loops == 0
    ensures NestedAfter(outer, a, inner, b, c, m).loops == 0 <==> Eval(outer, m.w).0 == 0
  {
    hide ShowExpr, Rounds, Round, Eval;
  }

  /** From the line after the outer loop line to the last endwhile. */
  lemma CollectsNested(a: Block, inner: Expr, b: Block, c: Block, m: Machine, tail: seq<string>)
    requires Parts(a, inner, b, c) && m.loops == 1
    ensures FileLines(Lines(a) + ([WhileLine(inner)] + (Lines(b) + (["endwhile"] + (Lines(c) + (["endwhile"] + tail))))), m, []) ==
      FileLines(tail, Loop(1000, Collected(a, inner, b, c), m.(loops := 0)), [])
  {
    hide FileLines, FileLine, Exec, WhileLine, Lines, Loop, ShowExpr, AllPlain;
    PlainLines(a);
    PlainLines(b);
    PlainLines(c);
    InnerWhile(inner, m, Lines(a));
    Collects(Lines(a), WhileLine(inner), Lines(b), Lines(c), m, tail);
  }

  lemma Collects(a: seq<string>, l: string, b: seq<string>, c: seq<string>, m: Machine, tail: seq<string>)
    requires AllPlain(a) && AllPlain(b) && AllPlain(c) && |a| + |b| + |c| <= 15
    requires m.loops == 1 && FileLine(l, m, a) == (m.(loops := 2), a + [l])
    ensures FileLines(a + ([l] + (b + (["endwhile"] + (c + (["endwhile"] + tail))))), m, []) ==
      FileLines(tail, Loop(1000, a + ([l] + (b + c)), m.(loops := 0)), [])
  {
    hide FileLines, FileLine, Loop, AllPlain;
    var t := ["endwhile"] + (c + (["endwhile"] + tail));
    CollectsFirst(a, l, b + t, m);
    CollectRuns(b, t, m.(loops := 2), a + [l]);
    CollectsLast(a + [l] + b, c, m, tail);
    assert a + [l] + b + c == a + ([l] + (b + c)) by { Regroup(a, l, b, c); }
  }

  lemma Regroup(a: seq<string>, l: string, b: seq<string>, c: seq<string>)
    ensures a + [l] + b + c == a + ([l] + (b + c))
  {
  }

  /** Up to and with the inner loop line. */
  lemma CollectsFirst(a: seq<string>, l: string, rest: seq<string>, m: Machine)
    requires AllPlain(a) && |a| <= 15 && m.loops == 1 && FileLine(l, m, a) == (m.(loops := 2), a + [l])
    ensures FileLines(a + ([l] + rest), m, []) == FileLines(rest, m.(loops := 2), a + [l])
  {
    hide FileLines, FileLine, AllPlain;
    CollectRuns(a, [l] + rest, m, []);
    assert [] + a == a;
    FileLinesCons(l, rest, m, a);
  }

  /** From the inner endwhile on. */
  lemma CollectsLast(body: seq<string>, c: seq<string>, m: Machine, tail: seq<string>)
    requires AllPlain(c) && |body| + |c| <= 16 && m.loops == 1
    ensures FileLines(["endwhile"] + (c + (["endwhile"] + tail)), m.(loops := 2), body) ==
      FileLines(tail, Loop(1000, body + c, m.(loops := 0)), [])
  {
    hide FileLines, FileLine, Loop, AllPlain;
    FileLinesCons("endwhile", c + (["endwhile"] + tail), m.(loops := 2), body);
    InnerEnd(m.(loops := 2), body);
    CollectRuns(c, ["endwhile"] + tail, m, body);
    FileLinesCons("endwhile", tail, m, body + c);
    EndLoop(m, body + c);
  }

  lemma SameAfter(outer: Expr, a: Block, inner: Expr, b: Block, c: Block, m: Machine, m1: Machine)
    requires WellFormed(outer) && WellFormed(inner) && m1 == m.(cond := ShowExpr(outer, 0) + ":") && m.loops == 0
    ensures NestedAfter(outer, a, inner, b, c, m1) == NestedAfter(outer, a, inner, b, c, m)
  {
    hide ShowExpr, Rounds, Round, Eval;
  }

  lemma InnerWhile(e: Expr, m: Machine, body: seq<string>)
    requires GoodExpr(e) && m.loops == 1 && |body| < 16
    ensures FileLine(WhileLine(e), m, body) == (m.(loops := 2), body + [WhileLine(e)])
  {
    hide Loop, Exec, ShowExpr;
    var l := WhileLine(e);
    assert l[0] == 'w';
    NoBlanks(l);
    assert "endwhile"[0] == 'e';
    assert !("endwhile" <= l);
    assert "while " <= l;
  }

  lemma InnerEnd(m: Machine, body: seq<string>)
    requires m.loops == 2
    ensures FileLine("endwhile", m, body) == (m.(loops := 1), body)
  {
    hide Loop, Exec;
    NoBlanks("endwhile");
  }

  // ---------- whole scripts ----------

  /** With a loop left open lines are no longer run. */
  lemma {:induction false} Swallowed(ls: seq<string>, m: Machine, body: seq<string>)
    requires m.loops >= 1 && AllPlain(ls)
    ensures FileLines(ls, m, body).0 == m
    decreases |ls|
  {
    hide Exec, Loop;
    if ls != [] {
      NoBlanks(ls[0]);
      Swallowed(ls[1..], m, FileLine(ls[0], m, body).1);
    }
  }

  /** A script that is a nested loop and loop-free lines after it: once the outer condition has held, those lines are never run. */
  lemma NestedScript(outer: Expr, a: Block, inner: Expr, b: Block, c: Block, rest: Block, m: Machine)
    requires GoodExpr(outer) && Parts(a, inner, b, c) && Proper(rest) && NoWhile(rest)
    ensures var s := Then(Nested(outer, a, inner, b, c), rest);
      && Proper(s)
      && (Fits(Lines(s)) ==>
            var (v, w0) := Eval(outer, m.w.(vars := map[]));
            RunFile(JoinLines(Lines(s)), m).w ==
              if v == 0 then Act(rest, w0, false, 0).0 else Rounds(999, inner, a, b, c, Round(a, b, c, w0)).0)
  {
    hide FileLines, Lines, StmLines, Act, SplitLines, JoinLines, Rounds, Round, ShowExpr, NoWhile, AllPlain, Parts;
    PartsGood(a, inner, b, c);
    var m0 := m.(w := m.w.(vars := map[]), depth := 0, skip := false, loops := 0);
    var loop := Nested(outer, a, inner, b, c);
    NestedActs(outer, a, inner, b, c, m0, Lines(rest));
    var s := Then(loop, rest);
    assert Lines(s) == StmLines(loop) + Lines(rest) by { ThenLines(loop, rest); }
    var m1 := NestedAfter(outer, a, inner, b, c, m0);
    PlainLines(rest);
    if Fits(Lines(s)) {
      SplitJoin(Lines(s), MAX_LINES);
      if m1.loops == 0 {
        NoWhileFlat(rest, m1.w, false, 0);
        var last := BlockActs(rest, m1, []);
        assert Lines(rest) + [] == Lines(rest);
        NoLines(After(m1, Act(rest, m1.w, false, 0), last));
      } else {
        Swallowed(Lines(rest), m1, []);
      }
    }
  }

  lemma ThenLines(s: Stm, rest: Block)
    requires ProperStm(s) && Proper(rest)
    ensures Lines(Then(s, rest)) == StmLines(s) + Lines(rest)
  {
  }

  // ---------- a script that goes wrong ----------

  const FILE := ["while x == 0:", "x = 1", "while x == 0:", "print(7)", "endwhile", "endwhile", "print(\"done\")"]

  const ZERO := Bin(EqEq, Var("x"), Lit(0))
  const SETS := Then(Assign("x", Lit(1)), End)
  const SEVEN := Then(PrintE(Lit(7)), End)
  const DONE := Then(PrintS("done"), End)
  const SCRIPT := Then(Nested(ZERO, SETS, ZERO, SEVEN, End), DONE)

  lemma ScriptParts()
    ensures GoodExpr(ZERO) && Parts(SETS, ZERO, SEVEN, End) && Proper(DONE) && NoWhile(DONE)
  {
    NameX();
    hide GoodTarget;
    assert GoodExpr(ZERO) && Proper(SETS) && Proper(SEVEN) && Proper(End);
    assert StmLines(Assign("x", Lit(1))) == [AssignLine("x", Lit(1))] && StmLines(PrintE(Lit(7))) == [PrintLine(Lit(7))];
    assert Lines(End) == [];
    assert |Lines(SETS)| == 1 && |Lines(SEVEN)| == 1;
  }

  lemma ScriptLines()
    ensures Proper(SCRIPT) && Lines(SCRIPT) == FILE
  {
    hide Lines, StmLines, ShowExpr, Parts;
    ScriptParts();
    PartsGood(SETS, ZERO, SEVEN, End);
    NestedLines(ZERO, SETS, ZERO, SEVEN, End, Lines(DONE));
    ThenLines(Nested(ZERO, SETS, ZERO, SEVEN, End), DONE);
    OneLiners();
  }

  lemma OneLiners()
    ensures GoodExpr(ZERO) && WhileLine(ZERO) == "while x == 0:"
    ensures Proper(SETS) && Lines(SETS) == ["x = 1"]
    ensures Proper(SEVEN) && Lines(SEVEN) == ["print(7)"]
    ensures Proper(DONE) && Lines(DONE) == ["print(\"done\")"] && Lines(End) == []
  {
    hide Show;
    NameX();
    OneDigit(0);
    OneDigit(1);
    OneDigit(7);
    assert ShowExpr(ZERO, 0) == "x == 0";
    assert AssignLine("x", Lit(1)) == "x = 1" && PrintLine(Lit(7)) == "print(7)" && TextLine("done") == "print(\"done\")";
    assert StmLines(Assign("x", Lit(1))) == ["x = 1"] && StmLines(PrintE(Lit(7))) == ["print(7)"];
    assert StmLines(PrintS("done")) == ["print(\"done\")"];
    assert Lines(End) == [];
  }

  /** It should print "done", and prints 7 instead: the inner body runs although its condition fails, and the last line does not. */
  lemma NestedGoesWrong(m: Machine)
    ensures RunFile(JoinLines(FILE), m).w.out == m.w.out + [Num(7)]
    ensures Proper(SCRIPT) && Lines(SCRIPT) == FILE && Run(SCRIPT, m.w.(vars := map[])).out == m.w.out + [Text("done")]
  {
    hide RunFile, JoinLines, Lines, Run, Rounds, Round, Parts;
    ScriptParts();
    ScriptLines();
    FileFits();
    var w := m.w.(vars := map[]);
    NestedScript(ZERO, SETS, ZERO, SEVEN, End, DONE, m);
    OnceOnly(w);
    ShouldBe(w);
  }

  lemma FileFits()
    ensures Fits(FILE)
  {
  }

  lemma OnceOnly(w: World)
    requires w.vars == map[]
    ensures Eval(ZERO, w) == (1, w)
    ensures Rounds(999, ZERO, SETS, SEVEN, End, Round(SETS, SEVEN, End, w)).0.out == w.out + [Num(7)]
  {
    hide Round, Act;
    var w1 := w.(vars := map["x" := 1]);
    var w2 := w1.(out := w.out + [Num(7)]);
    SetsOne(w);
    PrintsSeven(w1);
    assert Act(End, w2, false, 0) == (w2, false) by { Nothing(w2); }
    assert Round(SETS, SEVEN, End, w) == w2 by { RoundIs(SETS, SEVEN, End, w); }
    assert Eval(ZERO, w2) == (0, w2);
    NoRound(999, SETS, SEVEN, End, w2);
  }

  lemma SetsOne(w: World)
    requires w.vars == map[]
    ensures Act(SETS, w, false, 0) == (w.(vars := map["x" := 1]), false)
  {
    assert RunStm(Assign("x", Lit(1)), w) == w.(vars := map["x" := 1]);
    Nothing(w.(vars := map["x" := 1]));
  }

  lemma PrintsSeven(w: World)
    ensures Act(SEVEN, w, false, 0) == (w.(out := w.out + [Num(7)]), false)
  {
    assert Eval(Lit(7), w) == (7, w) && Unsigned(7) == 7;
    assert RunStm(PrintE(Lit(7)), w) == w.(out := w.out + [Num(7)]);
    Nothing(w.(out := w.out + [Num(7)]));
  }

  lemma Nothing(w: World)
    ensures Act(End, w, false, 0) == (w, false)
  {
  }

  lemma RoundIs(a: Block, b: Block, c: Block, w: World)
    ensures Round(a, b, c, w) == Act(c, Act(b, Act(a, w, false, 0).0, false, 0).0, false, 0).0
  {
    hide Act;
  }

  lemma NoRound(n: nat, a: Block, b: Block, c: Block, w: World)
    requires Eval(ZERO, w) == (0, w)
    ensures Rounds(n, ZERO, a, b, c, w).0 == w
  {
    hide Round, Eval;
  }

  lemma ShouldBe(w: World)
    requires w.vars == map[]
    ensures Run(SCRIPT, w).out == w.out + [Text("done")]
  {
    hide RunLoop;
    var w1 := w.(vars := map["x" := 1]);
    var inside := Before(SETS, Then(While(ZERO, SEVEN), End));
    assert inside == Then(Assign("x", Lit(1)), Then(While(ZERO, SEVEN), End));
    assert Eval(ZERO, w) == (1, w) && Eval(ZERO, w1) == (0, w1);
    Stops(1000, SEVEN, w1);
    assert RunStm(While(ZERO, SEVEN), w1) == w1;
    assert RunStm(Assign("x", Lit(1)), w) == w1;
    assert Run(inside, w) == w1 by { TwoSteps(Assign("x", Lit(1)), While(ZERO, SEVEN), w); }
    Stops(999, inside, w1);
    Turns(1000, inside, w);
    assert RunStm(While(ZERO, inside), w) == w1;
    assert Run(DONE, w1) == w1.(out := w.out + [Text("done")]);
  }

  lemma TwoSteps(s: Stm, t: Stm, w: World)
    ensures Run(Then(s, Then(t, End)), w) == RunStm(t, RunStm(s, w))
  {
    hide RunStm;
    assert Run(End, RunStm(t, RunStm(s, w))) == RunStm(t, RunStm(s, w));
    assert Run(Then(t, End), RunStm(s, w)) == RunStm(t, RunStm(s, w));
  }

  lemma Stops(n: nat, body: Block, w: World)
    requires Eval(ZERO, w) == (0, w)
    ensures RunLoop(n, ZERO, body, w) == w
  {
    hide Run, Eval;
  }

  lemma Turns(n: nat, body: Block, w: World)
    requires n > 0 && Eval(ZERO, w) == (1, w)
    ensures RunLoop(n, ZERO, body, w) == RunLoop(n - 1, ZERO, body, Run(body, w))
  {
    hide Run, Eval;
  }
}
