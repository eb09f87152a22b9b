/** Where the machine's meaning of a script and its structured meaning agree, and where they do not. */
module CosAgree {
  import opened CosParser
  import opened CosMachine
  import opened CosScript
  import opened CosRefine

  /** Started from the same world: what the machine skips would change nothing, and what it runs besides changes nothing. */
  predicate Ok(b: Block, w: World, k: bool, d: nat)
    decreases b, 0
  {
    if k then Run(b, w) == w
    else
      match b
      case End => true
      case Then(s, rest) => OkStm(s, w, d) && Ok(rest, RunStm(s, w), ActStm(s, w, false, d).1, d)
  }

  predicate OkStm(s: Stm, w: World, d: nat)
    decreases s, 0
  {
    match s
    case If(c, thn, hasElse, els) =>
      var (v, w0) := Eval(c, w);
      if v != 0 then
        var k1 := Act(thn, w0, false, d + 1).1;
        var runs := if hasElse && d == 0 then k1 else !k1;
        var w1 := Run(thn, w0);
        Ok(thn, w0, false, d + 1) && (runs ==> Ok(els, w1, false, d + 1) && Run(els, w1) == w1)
      else if hasElse && d == 0 then Ok(els, w0, false, d + 1)
      else Run(els, w0) == w0
    case While(c, body) => OkLoop(MAX_ROUNDS, c, body, w, false, d)
    case _ => true
  }

  predicate OkLoop(n: nat, c: Expr, body: Block, w: World, k: bool, d: nat)
    decreases body, 1, n
  {
    n > 0 ==>
      var (v, w0) := Eval(c, w);
      v != 0 ==> Ok(body, w0, k, d) && OkLoop(n - 1, c, body, Run(body, w0), Act(body, w0, k, d).1, d)
  }

  lemma {:induction false} OkAgrees(b: Block, w: World, k: bool, d: nat)
    requires Ok(b, w, k, d)
    ensures Act(b, w, k, d).0 == Run(b, w)
    decreases b, 0
  {
    hide ActStm, OkStm;
    if k {
      SkipsAll(b, w, d);
    } else if b.Then? {
      StmAgrees(b.s, w, d);
      OkAgrees(b.rest, RunStm(b.s, w), ActStm(b.s, w, false, d).1, d);
    }
  }

  lemma {:induction false} StmAgrees(s: Stm, w: World, d: nat)
    requires OkStm(s, w, d)
    ensures ActStm(s, w, false, d).0 == RunStm(s, w)
    decreases s, 0
  {
    hide Act, Run, Ok, ActLoop, RunLoop, OkLoop;
    if s.If? {
      var (v, w0) := Eval(s.c, w);
      if v != 0 {
        OkAgrees(s.thn, w0, false, d + 1);
        var k1 := Act(s.thn, w0, false, d + 1).1;
        var w1 := Run(s.thn, w0);
        if if s.hasElse && d == 0 then k1 else !k1 {
          OkAgrees(s.els, w1, false, d + 1);
        } else {
          SkipsAll(s.els, w1, d + 1);
        }
      } else {
        SkipsAll(s.thn, w0, d + 1);
        if s.hasElse && d == 0 {
          OkAgrees(s.els, w0, false, d + 1);
        } else {
          SkipsAll(s.els, w0, d + 1);
        }
      }
    } else if s.While? {
      LoopAgrees(MAX_ROUNDS, s.c, s.body, w, false, d);
    }
  }

  lemma {:induction false} LoopAgrees(n: nat, c: Expr, body: Block, w: World, k: bool, d: nat)
    requires OkLoop(n, c, body, w, k, d)
    ensures ActLoop(n, c, body, w, k, d).0 == RunLoop(n, c, body, w)
    decreases body, 1, n
  {
    hide Act, Run, Ok;
    if n > 0 {
      var (v, w0) := Eval(c, w);
      if v != 0 {
        OkAgrees(body, w0, k, d);
        LoopAgrees(n - 1, c, body, Run(body, w0), Act(body, w0, k, d).1, d);
      }
    }
  }

  /** Running such a script file gives the variables and output its structure asks for, and leaves nothing open. */
  lemma ScriptRuns(b: Block, m: Machine)
    requires Proper(b) && Fits(Lines(b)) && Flat(b, m.w.(vars := map[]), false, 0) && Ok(b, m.w.(vars := map[]), false, 0)
    ensures var r := RunFile(JoinLines(Lines(b)), m);
      r.w == Run(b, m.w.(vars := map[])) && r.depth == 0 && !r.skip && r.loops == 0
  {
    hide Lines, Act, Run, Ok, Flat, Fits, RunFile, JoinLines;
    ScriptActs(b, m);
    OkAgrees(b, m.w.(vars := map[]), false, 0);
  }

  // ---------- scripts one can tell by looking ----------

  /** Assignments and prints only. */
  predicate Plainly(b: Block) { b.Then? ==> Simple(b.s) && Plainly(b.rest) }

  /** Ifs and loops whose parts are plain, one after another. */
  predicate Straight(b: Block)
    requires Proper(b)
  {
    b.Then? ==> OneLevel(b.s) && Straight(b.rest)
  }

  predicate OneLevel(s: Stm)
    requires ProperStm(s)
  {
    match s
    case If(c, thn, hasElse, els) => Plainly(thn) && Plainly(els)
    case While(c, body) => Plainly(body) && |Lines(body)| <= 16
    case _ => true
  }

  lemma {:induction false} PlainlyActs(b: Block, w: World, d: nat)
    requires Plainly(b)
    ensures Ok(b, w, false, d) && Act(b, w, false, d) == (Run(b, w), false)
    decreases b
  {
    hide RunStm;
    if b.Then? {
      PlainlyActs(b.rest, RunStm(b.s, w), d);
    }
  }

  lemma {:induction false} PlainlyNoWhile(b: Block)
    requires Plainly(b)
    ensures NoWhile(b)
    decreases b
  {
    if b.Then? {
      PlainlyNoWhile(b.rest);
    }
  }

  lemma {:induction false} PlainLoop(n: nat, c: Expr, body: Block, w: World)
    requires Plainly(body)
    ensures OkLoop(n, c, body, w, false, 0)
    decreases n
  {
    hide Run, Ok, Act;
    if n > 0 {
      var (v, w0) := Eval(c, w);
      PlainlyActs(body, w0, 0);
      PlainLoop(n - 1, c, body, Run(body, w0));
    }
  }

  lemma {:induction false} StraightOk(b: Block, w: World)
    requires Proper(b) && Straight(b)
    ensures Ok(b, w, false, 0) && Flat(b, w, false, 0)
    decreases b
  {
    if b.Then? {
      StraightStm(b.s, w);
      StmClean(b.s, w, 0);
      StmAgrees(b.s, w, 0);
      StraightOk(b.rest, RunStm(b.s, w));
    }
  }

  lemma StraightStm(s: Stm, w: World)
    requires ProperStm(s) && OneLevel(s)
    ensures OkStm(s, w, 0) && FlatStm(s, w, false, 0)
  {
    hide Run, Ok, Act, Flat, OkLoop;
    match s
    case If(c, thn, hasElse, els) =>
      var (v, w0) := Eval(c, w);
      PlainlyActs(thn, w0, 1);
      PlainlyActs(els, w0, 1);
      PlainlyActs(els, Run(thn, w0), 1);
      PlainlyNoWhile(thn);
      PlainlyNoWhile(els);
      NoWhileFlat(thn, w0, v == 0, 1);
      var (w1, k1) := Act(thn, w0, v == 0, 1);
      NoWhileFlat(els, w1, if hasElse then !k1 else k1, 1);
      if !hasElse && v != 0 {
        NothingMore(els, Run(thn, w0));
      }
      if !hasElse {
        NothingMore(els, w0);
      }
    case While(c, body) =>
      PlainLoop(MAX_ROUNDS, c, body, w);
      PlainlyNoWhile(body);
    case _ =>
  }

  lemma NothingMore(b: Block, w: World)
    ensures b == End ==> Run(b, w) == w
  {
  }

  /** Every such script runs as it is written. */
  lemma StraightRuns(b: Block, m: Machine)
    requires Proper(b) && Straight(b) && Fits(Lines(b))
    ensures RunFile(JoinLines(Lines(b)), m).w == Run(b, m.w.(vars := map[]))
  {
    hide Lines, Run, Ok, Flat, Fits, RunFile, JoinLines, Straight;
    StraightOk(b, m.w.(vars := map[]));
    ScriptRuns(b, m);
  }

  // ---------- exactly when nested ifs go wrong ----------

  /** The lines of a block outside every if. */
  lemma LinesAct(b: Block, m: Machine)
    requires Proper(b) && !m.skip && m.loops == 0 && m.depth == 0 && Flat(b, m.w, false, 0)
    ensures FileLines(Lines(b), m, []).0.w == Act(b, m.w, false, 0).0
  {
    hide FileLines, Lines, Act, Flat;
    var last := BlockActs(b, m, []);
    assert Lines(b) + [] == Lines(b);
    NoLines(After(m, Act(b, m.w, false, 0), last));
  }

  /** An if inside an executed branch that holds and has an else: it goes wrong unless its else part would change nothing. */
  lemma NestedElseExact(s: Stm, w: World, d: nat)
    requires s.If? && s.hasElse && d >= 1 && Eval(s.c, w).0 != 0
    requires var w0 := Eval(s.c, w).1;
      Ok(s.thn, w0, false, d + 1) && !Act(s.thn, w0, false, d + 1).1 && Ok(s.els, Run(s.thn, w0), false, d + 1)
    ensures var w1 := Run(s.thn, Eval(s.c, w).1);
      ActStm(s, w, false, d).0 == RunStm(s, w) <==> Run(s.els, w1) == w1
  {
    hide Act, Run, Ok;
    var w0 := Eval(s.c, w).1;
    OkAgrees(s.thn, w0, false, d + 1);
    OkAgrees(s.els, Run(s.thn, w0), false, d + 1);
  }

  function Append(a: Block, b: Block): Block
  {
    match a
    case End => b
    case Then(s, rest) => Then(s, Append(rest, b))
  }

  lemma {:induction false} ActAppend(a: Block, b: Block, w: World, k: bool, d: nat)
    ensures Act(Append(a, b), w, k, d) == Act(b, Act(a, w, k, d).0, Act(a, w, k, d).1, d)
    decreases a
  {
    hide ActStm;
    if a.Then? {
      var (w1, k1) := ActStm(a.s, w, k, d);
      ActAppend(a.rest, b, w1, k1, d);
    }
  }

  lemma {:induction false} RunAppend(a: Block, b: Block, w: World)
    ensures Run(Append(a, b), w) == Run(b, Run(a, w))
    decreases a
  {
    hide RunStm;
    if a.Then? {
      RunAppend(a.rest, b, RunStm(a.s, w));
    }
  }

  /** The worlds an if goes through when its branch is `p`, then a failing if `s`, then `rest`: after its own condition and `p`,
      and after the condition of `s`. */
  function BeforeInner(o: Stm, p: Block, w: World): World
    requires o.If?
  {
    Run(p, Eval(o.c, w).1)
  }

  function AtInner(o: Stm, p: Block, s: Stm, w: World): World
    requires o.If? && s.If?
  {
    Eval(s.c, BeforeInner(o, p, w)).1
  }

  /** `o` holds, and the first if of its branch to go wrong is `s`, which fails, after `p` and before `rest`. */
  predicate FailsInside(o: Stm, p: Block, s: Stm, rest: Block, w: World)
  {
    && o.If? && s.If? && o.thn == Append(p, Then(s, rest)) && Eval(o.c, w).0 != 0
    && Ok(p, Eval(o.c, w).1, false, 1) && !Act(p, Eval(o.c, w).1, false, 1).1
    && Eval(s.c, BeforeInner(o, p, w)).0 == 0
    && (o.hasElse ==> Ok(o.els, AtInner(o, p, s, w), false, 1))
  }

  /** The rest of the branch and the inner else part are skipped, and the outer else part runs: right if and only if they
      come to the same. */
  lemma OuterIfExact(o: Stm, p: Block, s: Stm, rest: Block, w: World)
    requires FailsInside(o, p, s, rest, w)
    ensures var w1 := AtInner(o, p, s, w);
      ActStm(o, w, false, 0).0 == RunStm(o, w)
      <==> (if o.hasElse then Run(o.els, w1) else w1) == Run(rest, Run(s.els, w1))
  {
    hide Ok;
    var w0, w1 := Eval(o.c, w).1, AtInner(o, p, s, w);
    OkAgrees(p, w0, false, 1);
    ActAppend(p, Then(s, rest), w0, false, 1);
    RunAppend(p, Then(s, rest), w0);
    FailedInner(s, rest, BeforeInner(o, p, w));
    if o.hasElse {
      OkAgrees(o.els, w1, false, 1);
    } else {
      SkipsAll(o.els, w1, 1);
    }
  }

  lemma FailedInner(s: Stm, rest: Block, w: World)
    requires s.If? && Eval(s.c, w).0 == 0
    ensures Act(Then(s, rest), w, false, 1) == (Eval(s.c, w).1, true)
    ensures Run(Then(s, rest), w) == Run(rest, Run(s.els, Eval(s.c, w).1))
  {
    var w1 := Eval(s.c, w).1;
    SkipsAll(s.thn, w1, 2);
    SkipsAll(s.els, w1, 2);
    SkipsAll(rest, w1, 1);
  }

  /** The same of the lines. */
  lemma OuterIfLines(o: Stm, p: Block, s: Stm, rest: Block, m: Machine)
    requires ProperStm(o) && FailsInside(o, p, s, rest, m.w) && FlatStm(o, m.w, false, 0)
    requires !m.skip && m.loops == 0 && m.depth == 0
    ensures var w1 := AtInner(o, p, s, m.w);
      FileLines(StmLines(o), m, []).0.w == RunStm(o, m.w)
      <==> (if o.hasElse then Run(o.els, w1) else w1) == Run(rest, Run(s.els, w1))
  {
    hide FileLines, StmLines, ActStm, FlatStm, RunStm, FailsInside;
    var last := StmActs(o, m, []);
    assert StmLines(o) + [] == StmLines(o);
    NoLines(After(m, ActStm(o, m.w, false, 0), last));
    OuterIfExact(o, p, s, rest, m.w);
  }

  // ---------- scripts ----------

  function One(s: Stm): Block { Then(s, End) }

  const FAILS := If(Lit(0), End, false, End)

  lemma Printed(n: int, w: World)
    requires 0 <= n < 10
    ensures RunStm(PrintE(Lit(n)), w).out == w.out + [Num(n)]
    ensures forall d :: ActStm(PrintE(Lit(n)), w, false, d) == (RunStm(PrintE(Lit(n)), w), false)
  {
  }

  /** An `if 1:` takes its then part, and by the flag after it the else part is run or not. */
  lemma HeldIf(s: Stm, w: World)
    requires s.If? && s.c == Lit(1)
    ensures forall d: nat {:trigger ActStm(s, w, false, d)} ::
      var r := Act(s.thn, w, false, d + 1);
      var q := Act(s.els, r.0, if s.hasElse && d == 0 then !r.1 else r.1, d + 1);
      ActStm(s, w, false, d) == (q.0, if d == 0 then false else q.1)
    ensures RunStm(s, w) == Run(s.thn, w)
  {
    hide Act, Run;
  }

  /** `if 1:` `if 0:` `endif` `print(1)` `endif` prints nothing. */
  lemma LosesOutput(m: Machine)
    requires !m.skip && m.loops == 0 && m.depth == 0
    ensures var b := One(If(Lit(1), Then(FAILS, One(PrintE(Lit(1)))), false, End));
      Proper(b) && Run(b, m.w).out == m.w.out + [Num(1)] && FileLines(Lines(b), m, []).0.w.out == m.w.out
  {
    hide FileLines, Lines, ActStm, RunStm, Flat;
    var inner := Then(FAILS, One(PrintE(Lit(1))));
    var o := If(Lit(1), inner, false, End);
    FailedInner(FAILS, One(PrintE(Lit(1))), m.w);
    HeldIf(o, m.w);
    Printed(1, m.w);
    NoWhileFlat(One(o), m.w, false, 0);
    LinesAct(One(o), m);
  }

  /** `if 1:` `if 1:` `print(1)` `else:` `print(2)` `endif` `endif` prints both. */
  lemma AddsOutput(m: Machine)
    requires !m.skip && m.loops == 0 && m.depth == 0
    ensures var b := One(If(Lit(1), One(If(Lit(1), One(PrintE(Lit(1))), true, One(PrintE(Lit(2))))), false, End));
      && Proper(b) && Run(b, m.w).out == m.w.out + [Num(1)]
      && FileLines(Lines(b), m, []).0.w.out == m.w.out + [Num(1), Num(2)]
  {
    var inner := If(Lit(1), One(PrintE(Lit(1))), true, One(PrintE(Lit(2))));
    hide FileLines, Lines, ActStm, RunStm, Flat;
    var o := If(Lit(1), One(inner), false, End);
    Printed(1, m.w);
    Printed(2, RunStm(PrintE(Lit(1)), m.w));
    HeldIf(inner, m.w);
    HeldIf(o, m.w);
    NoWhileFlat(One(o), m.w, false, 0);
    LinesAct(One(o), m);
  }

  /** `if 1:` `if 0:` `endif` `else:` `print(2)` `endif` prints 2. */
  lemma OuterElseRuns(m: Machine)
    requires !m.skip && m.loops == 0 && m.depth == 0
    ensures var b := One(If(Lit(1), One(FAILS), true, One(PrintE(Lit(2)))));
      Proper(b) && Run(b, m.w).out == m.w.out && FileLines(Lines(b), m, []).0.w.out == m.w.out + [Num(2)]
  {
    hide FileLines, Lines, ActStm, RunStm, Flat;
    var o := If(Lit(1), One(FAILS), true, One(PrintE(Lit(2))));
    FailedInner(FAILS, End, m.w);
    HeldIf(o, m.w);
    Printed(2, m.w);
    NoWhileFlat(One(o), m.w, false, 0);
    LinesAct(One(o), m);
  }

  /** `if 1:` `if 0:` `print(1)` `endif` `endif` runs as it should: nothing was left to do. */
  lemma NothingLeft(m: Machine)
    requires !m.skip && m.loops == 0 && m.depth == 0
    ensures var b := One(If(Lit(1), One(If(Lit(0), One(PrintE(Lit(1))), false, End)), false, End));
      Proper(b) && Ok(b, m.w, false, 0) && FileLines(Lines(b), m, []).0.w == Run(b, m.w)
  {
    var inner := If(Lit(0), One(PrintE(Lit(1))), false, End);
    hide FileLines, Lines, RunStm, Flat;
    var o := If(Lit(1), One(inner), false, End);
    FailedInner(inner, End, m.w);
    HeldIf(o, m.w);
    NoWhileFlat(One(o), m.w, false, 0);
    LinesAct(One(o), m);
    OkAgrees(One(o), m.w, false, 0);
  }
}
