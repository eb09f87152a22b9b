/** Line-by-line execution refines the structured meaning of a script. */
module CosRefine {
  import opened CosTokens
  import opened CosParser
  import opened CosPrinter
  import opened CosMachine
  import opened CosScript
  import opened CosLines

  /** A line as the file loop meets it: not indented, and no loop delimiter. */
  predicate PlainLine(l: string)
  {
    l != "" && !Blank(l[0]) && !("endwhile" <= l) && !("while " <= l)
  }

  lemma LineRuns(l: string, m: Machine, body: seq<string>)
    requires l != "" && !Blank(l[0]) && m.loops == 0
    ensures FileLine(l, m, body) == (Exec(l, m), body)
  {
    hide Exec;
    NoBlanks(l);
  }

  /** Executing one more line of a file outside loops. */
  lemma StepLine(l: string, rest: seq<string>, m: Machine)
    requires l != "" && !Blank(l[0]) && m.loops == 0
    ensures FileLines([l] + rest, m, []) == FileLines(rest, Exec(l, m), [])
  {
    hide Exec, FileLine, FileLines;
    FileLinesCons(l, rest, m, []);
    LineRuns(l, m, []);
  }

  /** The first characters of printed lines. */
  lemma LineHeads(x: string, e: Expr, t: string)
    requires WellFormed(e) && (x == "" || GoodTarget(x))
    ensures IfLine(e) != "" && IfLine(e)[0] == 'i' && WhileLine(e) != "" && WhileLine(e)[0] == 'w'
    ensures PlainLine(IfLine(e)) && PlainLine(PrintLine(e)) && PlainLine(TextLine(t)) && PlainLine("else:") && PlainLine("endif")
    ensures x != "" ==> PlainLine(AssignLine(x, e))
  {
    hide ShowExpr;
    ClassWords();
    assert "endif"[0] == 'e' && "else:"[0] == 'e';
    assert IfLine(e)[0] == 'i' && PrintLine(e)[0] == 'p' && TextLine(t)[0] == 'p';
    if x != "" {
      AssignPlain(x, "= " + ShowExpr(e, 0));
    }
  }

  lemma AssignPlain(x: string, rest: string)
    requires GoodTarget(x)
    ensures PlainLine(x + (" " + rest))
  {
    var l := x + (" " + rest);
    assert l[0] == x[0] && IsAlpha(x[0]);
    assert ' ' !in x by { forall i | 0 <= i < |x| ensures x[i] != ' ' { assert IsAlnum(x[i]); } }
    WordPrefix("endwhile", x, rest);
    WordIs("while", x, rest);
    assert "while" + " " == "while ";
  }

  // ---------- skipped branches ----------

  lemma {:induction false} SkipRuns(b: Block, m: Machine, tail: seq<string>)
    requires Proper(b) && m.skip && m.depth >= 1 && m.loops == 0
    ensures FileLines(Lines(b) + tail, m, []) == FileLines(tail, m, [])
    decreases b, 0
  {
    hide FileLines;
    match b
    case End => assert Lines(b) + tail == tail;
    case Then(s, rest) =>
      assert Lines(b) + tail == StmLines(s) + (Lines(rest) + tail);
      SkipStm(s, m, Lines(rest) + tail);
      SkipRuns(rest, m, tail);
  }

  /** The inside of an if under a skipped one: neither its else nor its endif stops the skipping. */
  lemma {:induction false} SkipIf(s: Stm, m: Machine, tail: seq<string>)
    requires ProperStm(s) && s.If? && m.skip && m.depth >= 2 && m.loops == 0
    ensures FileLines(Lines(s.thn) + IfRest(s, tail), m, []) == FileLines(tail, m.(depth := m.depth - 1), [])
    decreases s, 0
  {
    hide FileLines, Exec, Lines;
    var close := ["endif"] + tail;
    PlainHeads(Lit(0));
    SkipRuns(s.thn, m, IfRest(s, tail));
    ExecWords(m);
    if s.hasElse {
      StepLine("else:", Lines(s.els) + close, m);
    } else {
      assert IfRest(s, tail) == Lines(s.els) + close;
    }
    SkipRuns(s.els, m, close);
    StepLine("endif", tail, m);
  }

  lemma {:induction false} SkipStm(s: Stm, m: Machine, tail: seq<string>)
    requires ProperStm(s) && m.skip && m.depth >= 1 && m.loops == 0
    ensures FileLines(StmLines(s) + tail, m, []) == FileLines(tail, m, [])
    decreases s, 1
  {
    hide IfRest, FileLines, Exec, IfLine, WhileLine, AssignLine, PrintLine, TextLine, PlainLine, Lines;
    match s
    case Assign(x, e) => SkipSimple(s, m, tail);
    case PrintE(e) => SkipSimple(s, m, tail);
    case PrintS(t) => SkipSimple(s, m, tail);
    case If(c, thn, hasElse, els) =>
      IfLines(s, tail);
      PlainHeads(c);
      ExecIf(c, m);
      StepLine(IfLine(c), Lines(thn) + IfRest(s, tail), m);
      SkipIf(s, m.(depth := m.depth + 1), tail);
    case While(c, body) =>
      var close := ["endwhile"] + tail;
      assert StmLines(s) + tail == [WhileLine(c)] + (Lines(body) + close);
      PlainHeads(c);
      ExecWhile(c, m);
      StepLine(WhileLine(c), Lines(body) + close, m);
      SkipRuns(body, m, close);
      ExecWords(m);
      StepLine("endwhile", tail, m);
  }

  /** From the else of an if (or its endif) on. */
  function IfRest(s: Stm, tail: seq<string>): seq<string>
    requires ProperStm(s) && s.If?
  {
    (if s.hasElse then ["else:"] else []) + (Lines(s.els) + (["endif"] + tail))
  }

  lemma IfLines(s: Stm, tail: seq<string>)
    requires ProperStm(s) && s.If?
    ensures StmLines(s) + tail == [IfLine(s.c)] + (Lines(s.thn) + IfRest(s, tail))
  {
    hide IfLine, Lines;
  }

  lemma PlainHeads(c: Expr)
    requires WellFormed(c)
    ensures IfLine(c) != "" && !Blank(IfLine(c)[0]) && WhileLine(c) != "" && !Blank(WhileLine(c)[0])
    ensures !Blank("else:"[0]) && !Blank("endif"[0]) && !Blank("endwhile"[0])
  {
    LineHeads("", c, "");
  }

  /** Assignments and prints: one line each. */
  predicate Simple(s: Stm) { s.Assign? || s.PrintE? || s.PrintS? }

  lemma SimpleLine(s: Stm, m: Machine)
    requires ProperStm(s) && Simple(s)
    ensures |StmLines(s)| == 1 && PlainLine(StmLines(s)[0])
    ensures Exec(StmLines(s)[0], m) == if m.skip then m else m.(w := RunStm(s, m.w))
  {
    hide Exec, PlainLine, AssignLine, PrintLine, TextLine, RunStm;
    match s
    case Assign(x, e) => LineHeads(x, e, ""); ExecAssign(x, e, m);
    case PrintE(e) => LineHeads("", e, ""); ExecPrintE(e, m);
    case PrintS(t) => LineHeads("", Lit(0), t); ExecText(t, m);
  }

  lemma SkipSimple(s: Stm, m: Machine, tail: seq<string>)
    requires ProperStm(s) && Simple(s) && m.skip && m.loops == 0
    ensures FileLines(StmLines(s) + tail, m, []) == FileLines(tail, m, [])
  {
    hide FileLines, Exec, StmLines;
    SimpleLine(s, m);
    assert StmLines(s) == [StmLines(s)[0]];
    StepLine(StmLines(s)[0], tail, m);
  }

  // ---------- executed code ----------

  /** The machine after a block: its world and flag, and `c` as the stored loop condition. */
  function After(m: Machine, r: (World, bool), c: string): Machine
  {
    m.(w := r.0, skip := r.1, cond := c)
  }

  /** Executing a block's lines is what the block's meaning for the machine says, flag included. */
  lemma {:induction false} BlockActs(b: Block, m: Machine, tail: seq<string>) returns (last: string)
    requires Proper(b) && m.loops == 0 && (m.skip ==> m.depth >= 1) && Flat(b, m.w, m.skip, m.depth)
    ensures FileLines(Lines(b) + tail, m, []) == FileLines(tail, After(m, Act(b, m.w, m.skip, m.depth), last), [])
    ensures NoWhile(b) ==> last == m.cond
    decreases b, 0
  {
    hide FileLines, StmLines, ActStm, FlatStm;
    if m.skip {
      SkipRuns(b, m, tail);
      SkipsAll(b, m.w, m.depth);
      last := m.cond;
    } else {
      match b
      case End =>
        last := m.cond;
        assert Lines(b) + tail == tail;
      case Then(s, rest) =>
        assert Lines(b) + tail == StmLines(s) + (Lines(rest) + tail);
        var c := StmActs(s, m, Lines(rest) + tail);
        StmClean(s, m.w, m.depth);
        last := BlockActs(rest, After(m, ActStm(s, m.w, false, m.depth), c), tail);
    }
  }

  lemma StmClean(s: Stm, w: World, d: nat)
    ensures ActStm(s, w, false, d).1 ==> d >= 1
  {
    if d == 0 {
      TopClean(Then(s, End), w);
    }
  }

  predicate NoWhileStm(s: Stm)
  {
    match s
    case If(c, thn, hasElse, els) => NoWhile(thn) && NoWhile(els)
    case While(c, body) => false
    case _ => true
  }

  lemma {:induction false} StmActs(s: Stm, m: Machine, tail: seq<string>) returns (last: string)
    requires ProperStm(s) && !m.skip && m.loops == 0 && FlatStm(s, m.w, false, m.depth)
    ensures FileLines(StmLines(s) + tail, m, []) == FileLines(tail, After(m, ActStm(s, m.w, false, m.depth), last), [])
    ensures NoWhileStm(s) ==> last == m.cond
    decreases s, 2
  {
    hide FileLines, StmLines, RunStm, Exec, ActLoop, Act, FlatStm;
    if Simple(s) {
      last := m.cond;
      SimpleLine(s, m);
      assert StmLines(s) == [StmLines(s)[0]];
      StepLine(StmLines(s)[0], tail, m);
    } else if s.While? {
      last := WhileActs(s, m, tail);
    } else {
      last := IfActs(s, m, tail);
    }
  }

  /** An if: its condition, its then part, what its else line does to the flag, its else part, its endif. */
  lemma {:induction false} IfActs(s: Stm, m: Machine, tail: seq<string>) returns (last: string)
    requires ProperStm(s) && s.If? && !m.skip && m.loops == 0 && FlatStm(s, m.w, false, m.depth)
    ensures FileLines(StmLines(s) + tail, m, []) == FileLines(tail, After(m, ActStm(s, m.w, false, m.depth), last), [])
    ensures NoWhileStm(s) ==> last == m.cond
    decreases s, 1
  {
    hide FileLines, Exec, IfLine, Lines, Act, Flat, StmLines, IfRest;
    var c := s.c;
    IfLines(s, tail);
    PlainHeads(c);
    ExecIf(c, m);
    var (v, w0) := Eval(c, m.w);
    var m1 := m.(depth := m.depth + 1, skip := v == 0, w := w0);
    StepLine(IfLine(c), Lines(s.thn) + IfRest(s, tail), m);
    last := BlockActs(s.thn, m1, IfRest(s, tail));
    var m2 := After(m1, Act(s.thn, w0, v == 0, m.depth + 1), last);
    last := RestActs(s, m2, tail);
  }

  /** From the else of an if (or its endif) on. */
  lemma {:induction false} RestActs(s: Stm, m: Machine, tail: seq<string>) returns (last: string)
    requires ProperStm(s) && s.If? && m.loops == 0 && m.depth >= 1
    requires Flat(s.els, m.w, if s.hasElse && m.depth == 1 then !m.skip else m.skip, m.depth)
    ensures var r := Act(s.els, m.w, if s.hasElse && m.depth == 1 then !m.skip else m.skip, m.depth);
      FileLines(IfRest(s, tail), m, [])
      == FileLines(tail, After(m, r, last).(depth := m.depth - 1, skip := if m.depth == 1 then false else r.1), [])
    ensures NoWhile(s.els) ==> last == m.cond
    decreases s, 0
  {
    hide FileLines, Exec, Lines, Act, Flat;
    var close := ["endif"] + tail;
    PlainHeads(Lit(0));
    ExecWords(m);
    var m1 := m.(skip := if s.hasElse && m.depth == 1 then !m.skip else m.skip);
    if s.hasElse {
      StepLine("else:", Lines(s.els) + close, m);
    } else {
      assert IfRest(s, tail) == Lines(s.els) + close;
    }
    last := BlockActs(s.els, m1, close);
    var m2 := After(m1, Act(s.els, m.w, m1.skip, m.depth), last);
    ExecWords(m2);
    StepLine("endif", tail, m2);
  }

  // ---------- loops ----------

  predicate AllPlain(ls: seq<string>) { forall i :: 0 <= i < |ls| ==> PlainLine(ls[i]) }

  lemma PlainConcat(a: seq<string>, b: seq<string>)
    requires AllPlain(a) && AllPlain(b)
    ensures AllPlain(a + b)
  {
    hide PlainLine;
  }

  /** Lines of a block without loops are plain. */
  lemma {:induction false} PlainLines(b: Block)
    requires Proper(b) && NoWhile(b)
    ensures AllPlain(Lines(b))
    decreases b, 0
  {
    hide PlainLine, Exec, IfLine, AllPlain;
    if b.End? {
      assert AllPlain([]) by { NothingPlain(); }
    } else {
      PlainLines(b.rest);
      if Simple(b.s) {
        SimpleLine(b.s, Start([]));
        OnePlain(StmLines(b.s)[0]);
        assert StmLines(b.s) == [StmLines(b.s)[0]];
      } else {
        PlainLines(b.s.thn);
        PlainLines(b.s.els);
        PlainIf(b.s);
      }
      PlainConcat(StmLines(b.s), Lines(b.rest));
    }
  }

  lemma NothingPlain()
    ensures AllPlain([])
  {
  }

  lemma OnePlain(l: string)
    requires PlainLine(l)
    ensures AllPlain([l])
  {
  }

  lemma PlainIf(s: Stm)
    requires ProperStm(s) && s.If? && AllPlain(Lines(s.thn)) && AllPlain(Lines(s.els))
    ensures AllPlain(StmLines(s))
  {
    hide PlainLine, IfLine, AllPlain, Lines;
    LineHeads("", s.c, "");
    OnePlain(IfLine(s.c));
    OnePlain("else:");
    OnePlain("endif");
    NothingPlain();
    var last := Lines(s.els) + ["endif"];
    PlainConcat(Lines(s.els), ["endif"]);
    var mid := if s.hasElse then ["else:"] else [];
    PlainConcat(mid, last);
    PlainConcat(Lines(s.thn), mid + last);
    PlainConcat([IfLine(s.c)], Lines(s.thn) + (mid + last));
  }

  /** Inside a loop plain lines are only collected. */
  lemma {:induction false} CollectRuns(ls: seq<string>, tail: seq<string>, m: Machine, body: seq<string>)
    requires m.loops >= 1 && |body| + |ls| <= MAX_BODY && AllPlain(ls)
    ensures FileLines(ls + tail, m, body) == FileLines(tail, m, body + ls)
    decreases |ls|
  {
    hide FileLines, Exec, Loop;
    if ls == [] {
      assert ls + tail == tail && body + ls == body;
    } else {
      assert ls + tail == [ls[0]] + (ls[1..] + tail);
      NoBlanks(ls[0]);
      FileLinesCons(ls[0], ls[1..] + tail, m, body);
      CollectRuns(ls[1..], tail, m, body + [ls[0]]);
      assert body + [ls[0]] + ls[1..] == body + ls;
    }
  }

  /** On plain lines the file loop is plain execution. */
  lemma {:induction false} FileIsExec(ls: seq<string>, m: Machine)
    requires m.loops == 0 && AllPlain(ls)
    ensures FileLines(ls, m, []) == (ExecAll(ls, m), [])
    decreases |ls|
  {
    hide Exec, PlainLine, FileLine;
    if ls != [] {
      assert PlainLine(ls[0]);
      PlainKeeps(ls[0], m);
      FileIsExec(ls[1..], Exec(ls[0], m));
    }
  }

  lemma PlainKeeps(l: string, m: Machine)
    requires PlainLine(l) && m.loops == 0
    ensures Exec(l, m).loops == 0 && FileLine(l, m, []) == (Exec(l, m), [])
  {
    hide Parse, Tokens, ExecPrint, ExecOther;
    NoBlanks(l);
  }

  /** The collected body, round by round; the flag it may set stays for the rounds after. */
  lemma {:induction false} LoopActs(n: nat, c: Expr, body: Block, m: Machine)
    requires GoodExpr(c) && Proper(body) && NoWhile(body) && m.loops == 0 && m.cond == ShowExpr(c, 0) + ":"
    requires m.skip ==> m.depth >= 1
    ensures Loop(n, Lines(body), m) == After(m, ActLoop(n, c, body, m.w, m.skip, m.depth), m.cond)
    decreases body, 1, n
  {
    hide FileLines, ExecAll, Parse, Tokens, Lines, Act, Flat, ShowExpr;
    if n > 0 {
      CondValue(c, m.w);
      var (v, w0) := Eval(c, m.w);
      if v != 0 {
        var m1 := m.(w := w0);
        NoWhileFlat(body, w0, m.skip, m.depth);
        var last := BlockActs(body, m1, []);
        var m2 := After(m1, Act(body, w0, m.skip, m.depth), last);
        PlainLines(body);
        FileIsExec(Lines(body), m1);
        assert Lines(body) + [] == Lines(body);
        NoLines(m2);
        if m.depth == 0 {
          TopClean(body, w0);
        }
        LoopActs(n - 1, c, body, m2);
      }
    }
  }

  lemma NoLines(m: Machine)
    ensures FileLines([], m, []) == (m, [])
  {
  }

  lemma {:induction false} WhileActs(s: Stm, m: Machine, tail: seq<string>) returns (last: string)
    requires ProperStm(s) && s.While? && !m.skip && m.loops == 0 && FlatStm(s, m.w, false, m.depth)
    ensures FileLines(StmLines(s) + tail, m, []) == FileLines(tail, After(m, ActStm(s, m.w, false, m.depth), last), [])
    decreases s, 1
  {
    hide FileLines, Exec, WhileLine, Lines, Loop, ActLoop, ShowExpr;
    var While(c, body) := s;
    last := ShowExpr(c, 0) + ":";
    var close := ["endwhile"] + tail;
    assert StmLines(s) + tail == [WhileLine(c)] + (Lines(body) + close);
    PlainHeads(c);
    ExecWhile(c, m);
    var m1 := m.(cond := last, loops := 1);
    StepLine(WhileLine(c), Lines(body) + close, m);
    PlainLines(body);
    CollectRuns(Lines(body), close, m1, []);
    assert [] + Lines(body) == Lines(body);
    FileLinesCons("endwhile", tail, m1, Lines(body));
    EndLoop(m1, Lines(body));
    LoopActs(MAX_ROUNDS, c, body, m1.(loops := 0));
  }

  lemma EndLoop(m: Machine, body: seq<string>)
    requires m.loops == 1
    ensures FileLine("endwhile", m, body) == (Loop(MAX_ROUNDS, body, m.(loops := 0)), [])
  {
    hide Loop;
    NoBlanks("endwhile");
  }

  // ---------- whole scripts ----------

  /** The lines fit the file loop's buffers. */
  predicate Fits(ls: seq<string>)
  {
    |ls| <= 64 && forall i :: 0 <= i < |ls| ==> '\n' !in ls[i] && |ls[i]| <= 127
  }

  /** Running a script file, for every script whose loops are flat: its variables and output are those of the machine's
      meaning, and no if, no skipping and no loop is left open. */
  lemma ScriptActs(b: Block, m: Machine)
    requires Proper(b) && Fits(Lines(b)) && Flat(b, m.w.(vars := map[]), false, 0)
    ensures var r := RunFile(JoinLines(Lines(b)), m);
      r.w == Act(b, m.w.(vars := map[]), false, 0).0 && r.depth == 0 && !r.skip && r.loops == 0
  {
    hide FileLines, Lines, Act, Flat, SplitLines, JoinLines;
    var m0 := m.(w := m.w.(vars := map[]), depth := 0, skip := false, loops := 0);
    SplitJoin(Lines(b), MAX_LINES);
    var last := BlockActs(b, m0, []);
    assert Lines(b) + [] == Lines(b);
    TopClean(b, m0.w);
    NoLines(After(m0, Act(b, m0.w, false, 0), last));
  }
}
