/** Structured CosyPy scripts, their meaning, and the machine running their lines. */
module CosScript {
  import opened Int32
  import opened CosTokens
  import opened CosParser
  import opened CosPrinter
  import opened CosMachine

  datatype Stm =
    | Assign(x: string, e: Expr)
    | PrintE(e: Expr)
    | PrintS(s: string)
    | If(c: Expr, thn: Block, hasElse: bool, els: Block)
    | While(c: Expr, body: Block)

  datatype Block = End | Then(s: Stm, rest: Block)

  // ---------- meaning ----------

  function Run(b: Block, w: World): World
    decreases b, 0
  {
    match b
    case End => w
    case Then(s, rest) => Run(rest, RunStm(s, w))
  }

  function RunStm(s: Stm, w: World): World
    decreases s, 0
  {
    match s
    case Assign(x, e) =>
      var (v, w') := Eval(e, w);
      SetVar(w', x, v)
    case PrintE(e) =>
      var (v, w') := Eval(e, w);
      w'.(out := w'.out + [Num(Unsigned(v))])
    case PrintS(t) => w.(out := w.out + [Text(t)])
    case If(c, thn, hasElse, els) =>
      var (v, w') := Eval(c, w);
      if v != 0 then Run(thn, w') else Run(els, w')
    case While(c, body) => RunLoop(MAX_ROUNDS, c, body, w)
  }

  /** A loop stops when its condition fails, or after `n` rounds. */
  function RunLoop(n: nat, c: Expr, body: Block, w: World): World
    decreases body, 1, n
  {
    if n == 0 then w
    else
      var (v, w') := Eval(c, w);
      if v == 0 then w' else RunLoop(n - 1, c, body, Run(body, w'))
  }

  // ---------- text ----------

  function IfLine(c: Expr): string
    requires WellFormed(c)
  {
    "if " + (ShowExpr(c, 0) + ":")
  }

  function WhileLine(c: Expr): string
    requires WellFormed(c)
  {
    "while " + (ShowExpr(c, 0) + ":")
  }

  function AssignLine(x: string, e: Expr): string
    requires WellFormed(e)
  {
    x + (" " + ("= " + ShowExpr(e, 0)))
  }

  function PrintLine(e: Expr): string
    requires WellFormed(e)
  {
    "print(" + (ShowExpr(e, 0) + ")")
  }

  function TextLine(t: string): string { "print(" + ("\"" + (t + "\")")) }

  function Lines(b: Block): seq<string>
    requires Proper(b)
    decreases b, 0
  {
    match b
    case End => []
    case Then(s, rest) => StmLines(s) + Lines(rest)
  }

  function StmLines(s: Stm): (ls: seq<string>)
    requires ProperStm(s)
    ensures |ls| >= 1
    decreases s, 0
  {
    match s
    case Assign(x, e) => [AssignLine(x, e)]
    case PrintE(e) => [PrintLine(e)]
    case PrintS(t) => [TextLine(t)]
    case If(c, thn, hasElse, els) =>
      [IfLine(c)] + (Lines(thn) + ((if hasElse then ["else:"] else []) + (Lines(els) + ["endif"])))
    case While(c, body) => [WhileLine(c)] + (Lines(body) + ["endwhile"])
  }

  /** A name an assignment line can start with: no keyword line starts the same way. */
  predicate GoodTarget(x: string)
  {
    && GoodVar(x)
    && !("exit" <= x) && !("quit" <= x) && !("endif" <= x) && !("endwhile" <= x)
    && x != "else" && x != "if" && x != "while" && x != "def"
  }

  predicate GoodExpr(e: Expr) { WellFormed(e) && GoodVars(e) }

  predicate GoodText(t: string) { |t| <= STRING_CAP && '"' !in t && NUL !in t }

  predicate Proper(b: Block)
    decreases b, 0
  {
    match b
    case End => true
    case Then(s, rest) => ProperStm(s) && Proper(rest)
  }

  predicate ProperStm(s: Stm)
    decreases s, 0
  {
    match s
    case Assign(x, e) => GoodTarget(x) && GoodExpr(e)
    case PrintE(e) => GoodExpr(e)
    case PrintS(t) => GoodText(t)
    case If(c, thn, hasElse, els) => GoodExpr(c) && Proper(thn) && Proper(els) && (!hasElse ==> els == End)
    case While(c, body) => GoodExpr(c) && Proper(body)
  }

  /** No loop inside. */
  predicate NoWhile(b: Block)
    decreases b, 0
  {
    match b
    case End => true
    case Then(s, rest) =>
      && NoWhile(rest)
      && match s
         case If(c, thn, hasElse, els) => NoWhile(thn) && NoWhile(els)
         case While(c, body) => false
         case _ => true
  }

  // ---------- what the machine does with a block ----------

  /** The world and the skipping flag after the lines of a block at if-depth `d`, started with flag `k`. A skipped block does
      nothing. A failing if sets the flag; only the else and endif of an if at depth 0 ever change it back. */
  function Act(b: Block, w: World, k: bool, d: nat): (World, bool)
    decreases b, 0
  {
    match b
    case End => (w, k)
    case Then(s, rest) =>
      var (w1, k1) := ActStm(s, w, k, d);
      Act(rest, w1, k1, d)
  }

  function ActStm(s: Stm, w: World, k: bool, d: nat): (World, bool)
    decreases s, 0
  {
    if k then (w, true)
    else
      match s
      case If(c, thn, hasElse, els) =>
        var (v, w0) := Eval(c, w);
        var (w1, k1) := Act(thn, w0, v == 0, d + 1);
        var (w2, k2) := Act(els, w1, if hasElse && d == 0 then !k1 else k1, d + 1);
        (w2, if d == 0 then false else k2)
      case While(c, body) => ActLoop(MAX_ROUNDS, c, body, w, false, d)
      case _ => (RunStm(s, w), false)
  }

  /** The condition is evaluated every round, even after the body has set the flag. */
  function ActLoop(n: nat, c: Expr, body: Block, w: World, k: bool, d: nat): (World, bool)
    decreases body, 1, n
  {
    if n == 0 then (w, k)
    else
      var (v, w0) := Eval(c, w);
      if v == 0 then (w0, k)
      else
        var (w1, k1) := Act(body, w0, k, d);
        ActLoop(n - 1, c, body, w1, k1, d)
  }

  /** Every loop that is reached has no loop inside and at most 16 lines; what is skipped may be anything. */
  predicate Flat(b: Block, w: World, k: bool, d: nat)
    requires Proper(b)
    decreases b, 0
  {
    match b
    case End => true
    case Then(s, rest) =>
      var (w1, k1) := ActStm(s, w, k, d);
      FlatStm(s, w, k, d) && Flat(rest, w1, k1, d)
  }

  predicate FlatStm(s: Stm, w: World, k: bool, d: nat)
    requires ProperStm(s)
    decreases s, 0
  {
    k ||
    match s
    case If(c, thn, hasElse, els) =>
      var (v, w0) := Eval(c, w);
      var (w1, k1) := Act(thn, w0, v == 0, d + 1);
      Flat(thn, w0, v == 0, d + 1) && Flat(els, w1, if hasElse && d == 0 then !k1 else k1, d + 1)
    case While(c, body) => NoWhile(body) && |Lines(body)| <= 16
    case _ => true
  }

  lemma {:induction false} SkipsAll(b: Block, w: World, d: nat)
    ensures Act(b, w, true, d) == (w, true)
    decreases b
  {
    if b.Then? {
      SkipsAll(b.rest, w, d);
    }
  }

  lemma {:induction false} SkipsFlat(b: Block, w: World, d: nat)
    requires Proper(b)
    ensures Flat(b, w, true, d)
    decreases b
  {
    if b.Then? {
      SkipsFlat(b.rest, w, d);
    }
  }

  /** Outside every if the flag is never left set. */
  lemma {:induction false} TopClean(b: Block, w: World)
    ensures !Act(b, w, false, 0).1
    decreases b, 0
  {
    if b.Then? {
      if b.s.While? {
        LoopClean(MAX_ROUNDS, b.s.c, b.s.body, w);
      }
      TopClean(b.rest, ActStm(b.s, w, false, 0).0);
    }
  }

  lemma {:induction false} LoopClean(n: nat, c: Expr, body: Block, w: World)
    ensures !ActLoop(n, c, body, w, false, 0).1
    decreases body, 1, n
  {
    if n > 0 {
      var (v, w0) := Eval(c, w);
      if v != 0 {
        TopClean(body, w0);
        LoopClean(n - 1, c, body, Act(body, w0, false, 0).0);
      }
    }
  }

  /** A block without loops is flat. */
  lemma {:induction false} NoWhileFlat(b: Block, w: World, k: bool, d: nat)
    requires Proper(b) && NoWhile(b)
    ensures Flat(b, w, k, d)
    decreases b
  {
    if b.Then? {
      var (w1, k1) := ActStm(b.s, w, k, d);
      NoWhileFlat(b.rest, w1, k1, d);
      if b.s.If? {
        var (v, w0) := Eval(b.s.c, w);
        var (w2, k2) := Act(b.s.thn, w0, v == 0, d + 1);
        NoWhileFlat(b.s.thn, w0, v == 0, d + 1);
        NoWhileFlat(b.s.els, w2, if b.s.hasElse && d == 0 then !k2 else k2, d + 1);
      }
    }
  }
}
