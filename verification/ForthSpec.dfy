/** The Forth word machine, and arithmetic compiled to its postfix words. */
module ForthSpec {
  import opened Int32
  import opened Decimal

  const DEPTH := 128

  datatype Op = Add | Sub | Mul | Quot

  /** The stack, bottom first, the text written so far, and whether the session was left; `heap` is what `mem` reports. */
  datatype Machine = Machine(stack: seq<int>, out: string, left: bool, heap: nat)

  function OpOf(w: string): (r: seq<Op>)
    ensures |r| <= 1
  {
    if w == "+" then [Add] else if w == "-" then [Sub] else if w == "*" then [Mul] else if w == "/" then [Quot] else []
  }

  function OpWord(op: Op): string
  {
    match op case Add => "+" case Sub => "-" case Mul => "*" case Quot => "/"
  }

  function Apply(op: Op, a: int, b: int): (r: int)
    requires op == Quot ==> b != 0
    ensures InInt32(r)
  {
    match op
    case Add => Wrap(a + b)
    case Sub => Wrap(a - b)
    case Mul => Wrap(a * b)
    case Quot => Wrap(Div(a, b))
  }

  function Body(s: string): string { if s != "" && (s[0] == '-' || s[0] == '+') then s[1..] else s }

  predicate IsNumber(s: string) { Body(s) != "" && AllDigits(Body(s)) }

  function NumberOf(s: string): int
    requires IsNumber(s)
  {
    var v := Accumulate(0, Body(s));
    if s[0] == '-' then Wrap(-v) else Wrap(v)
  }

  /** End of the run of digits from `i` on. */
  function DigitsEnd(s: string, i: nat): (k: nat)
    requires i <= |s|
    ensures i <= k <= |s| && AllDigits(s[i..k]) && (k < |s| ==> !IsDigit(s[k]))
    decreases |s| - i
  {
    if i < |s| && IsDigit(s[i]) then
      var k := DigitsEnd(s, i + 1);
      assert s[i..k] == [s[i]] + s[i + 1..k];
      k
    else i
  }

  /** Where the digits of a text start, after blanks and a sign. */
  function DigitsStart(s: string): (k: nat)
    ensures k <= |s|
  {
    var b := SkipBlanks(s, 0);
    if b < |s| && (s[b] == '-' || s[b] == '+') then b + 1 else b
  }

  predicate Negative(s: string)
  {
    var b := SkipBlanks(s, 0);
    b < |s| && s[b] == '-'
  }

  /** What `atoi` makes of any text: blanks, a sign, digits, and no matter what after them. */
  function AtoiOf(s: string): (v: int)
    ensures InInt32(v)
  {
    var from := DigitsStart(s);
    var n := Accumulate(0, s[from..DigitsEnd(s, from)]);
    Wrap(if Negative(s) then -n else n)
  }

  /** On the words the machine takes for numbers, it is the number. */
  lemma AtoiNumber(s: string)
    requires IsNumber(s)
    ensures AtoiOf(s) == NumberOf(s)
  {
    hide Accumulate, SkipBlanks, DigitsEnd, Wrap;
    BodyDigits(s, if s[0] == '-' || s[0] == '+' then 1 else 0);
    NotBlank(s);
    var from := DigitsStart(s);
    DigitsToEnd(s, from);
    assert s[from..|s|] == s[from..];
  }

  lemma BodyDigits(s: string, from: nat)
    requires IsNumber(s) && from == if s[0] == '-' || s[0] == '+' then 1 else 0
    ensures Body(s) == s[from..] && !Blank(s[0]) && forall j :: from <= j < |s| ==> IsDigit(s[j])
  {
    var b := Body(s);
    forall j | from <= j < |s| ensures IsDigit(s[j]) {
      assert s[j] == b[j - from];
    }
  }

  lemma NotBlank(s: string)
    requires s != "" && !Blank(s[0])
    ensures SkipBlanks(s, 0) == 0
  {
  }

  lemma {:induction false} DigitsToEnd(s: string, i: nat)
    requires i <= |s| && forall j :: i <= j < |s| ==> IsDigit(s[j])
    ensures DigitsEnd(s, i) == |s|
    decreases |s| - i
  {
    if i < |s| {
      DigitsToEnd(s, i + 1);
    }
  }

  // ---------- one word ----------

  function Say(m: Machine, text: string): Machine { m.(out := m.out + text) }

  function Push(m: Machine, v: int, full: string): Machine
  {
    if |m.stack| >= DEPTH then Say(m, full) else m.(stack := m.stack + [v])
  }

  /** A binary word; with one operand only, that operand is lost. */
  function Binary(m: Machine, op: Op): Machine
  {
    var n := |m.stack|;
    if n < 2 then Say(m.(stack := []), "stack underflow\n")
    else
      var a, b := m.stack[n - 2], m.stack[n - 1];
      if op == Quot && b == 0 then Say(m, "div by zero\n")
      else m.(stack := m.stack[..n - 2] + [Apply(op, a, b)])
  }

  function ShowStack(s: seq<int>): string
  {
    if s == [] then "" else ShowStack(s[..|s| - 1]) + Digits(Unsigned(s[|s| - 1])) + " "
  }

  const WORDS := "+ - * / dup drop swap . .s mem clear words bye\n"

  const SHUFFLES := ["dup", "drop", "swap", "."]

  /** `dup`, `drop`, `swap` and `.`. */
  function Shuffle(m: Machine, w: string): Machine
  {
    var n := |m.stack|;
    if w == "dup" then if n == 0 then Say(m, "stack error\n") else Push(m, m.stack[n - 1], "stack error\n")
    else if w == "swap" then
      if n < 2 then Say(m, "stack underflow\n")
      else m.(stack := m.stack[..n - 2] + [m.stack[n - 1], m.stack[n - 2]])
    else if n == 0 then Say(m, "stack underflow\n")
    else
      var popped := m.(stack := m.stack[..n - 1]);
      if w == "." then Say(popped, Digits(Unsigned(m.stack[n - 1])) + "\n") else popped
  }

  /** Words that touch no operands, numbers, and unknown words. */
  function Other(m: Machine, w: string): Machine
  {
    if w == ".s" then Say(m, "<" + Digits(|m.stack|) + "> " + ShowStack(m.stack) + "\n")
    else if w == "mem" then Say(m, "heap used: " + Digits(Unsigned(m.heap)) + " bytes\n")
    else if w == "clear" then m.(stack := [])
    else if w == "words" then Say(m, WORDS)
    else if IsNumber(w) then Push(m, NumberOf(w), "stack full\n")
    else Say(m, "unknown word: " + w + "\n")
  }

  function Exec(m: Machine, w: string): Machine
  {
    if w == "bye" || w == "exit" then Say(m.(left := true), "Leaving forth\n")
    else if OpOf(w) != [] then Binary(m, OpOf(w)[0])
    else if w in SHUFFLES then Shuffle(m, w)
    else Other(m, w)
  }

  /** Words one after another until the session is left. */
  function Run(m: Machine, ws: seq<string>): Machine
    decreases |ws|
  {
    if ws == [] || m.left then m else Run(Exec(m, ws[0]), ws[1..])
  }

  lemma {:induction false} RunAppend(m: Machine, us: seq<string>, ws: seq<string>)
    ensures Run(m, us + ws) == Run(Run(m, us), ws)
    decreases |us|
  {
    if us == [] {
      assert us + ws == ws;
    } else if !m.left {
      assert (us + ws)[1..] == us[1..] + ws;
      RunAppend(Exec(m, us[0]), us[1..], ws);
    } else {
    }
  }

  // ---------- the stack stays in bounds ----------

  ghost predicate Inv(m: Machine)
  {
    |m.stack| <= DEPTH && forall i :: 0 <= i < |m.stack| ==> InInt32(m.stack[i])
  }

  lemma NumberInInt32(w: string)
    requires IsNumber(w)
    ensures InInt32(NumberOf(w))
  {
  }

  lemma BinaryInv(m: Machine, op: Op)
    requires Inv(m)
    ensures Inv(Binary(m, op))
  {
    hide Apply;
  }

  lemma ShuffleInv(m: Machine, w: string)
    requires Inv(m)
    ensures Inv(Shuffle(m, w))
  {
    hide Digits;
  }

  lemma OtherInv(m: Machine, w: string)
    requires Inv(m)
    ensures Inv(Other(m, w))
  {
    hide Digits, ShowStack, NumberOf;
    if IsNumber(w) {
      NumberInInt32(w);
    }
  }

  lemma ExecInv(m: Machine, w: string)
    requires Inv(m)
    ensures Inv(Exec(m, w))
  {
    hide Binary, Shuffle, Other;
    ShuffleInv(m, w);
    OtherInv(m, w);
    if OpOf(w) != [] {
      BinaryInv(m, OpOf(w)[0]);
    }
  }

  /** Whatever the words, the stack never holds more than 128 values, and all are 32-bit. */
  lemma {:induction false} RunInv(m: Machine, ws: seq<string>)
    requires Inv(m)
    ensures Inv(Run(m, ws))
    decreases |ws|
  {
    hide Exec;
    if ws != [] && !m.left {
      ExecInv(m, ws[0]);
      RunInv(Exec(m, ws[0]), ws[1..]);
    }
  }

  /** Two swaps, or a dup and a drop, leave the machine as it was whenever the stack allows the first of them. */
  lemma ShuffleLaws(m: Machine)
    ensures |m.stack| >= 2 ==> Exec(Exec(m, "swap"), "swap") == m
    ensures 1 <= |m.stack| < DEPTH ==> Exec(Exec(m, "dup"), "drop") == m
  {
    hide Shuffle, Other, Binary;
    SwapTwice(m);
    DupDrop(m);
    ShuffleExec(m, "swap");
    ShuffleExec(Shuffle(m, "swap"), "swap");
    ShuffleExec(m, "dup");
    ShuffleExec(Shuffle(m, "dup"), "drop");
  }

  lemma ShuffleExec(m: Machine, w: string)
    requires w in SHUFFLES
    ensures Exec(m, w) == Shuffle(m, w)
  {
    hide Shuffle, Other, Binary;
  }

  lemma SwapTwice(m: Machine)
    ensures |m.stack| >= 2 ==> Shuffle(Shuffle(m, "swap"), "swap") == m
  {
    hide Digits;
    if |m.stack| >= 2 {
      assert Shuffle(Shuffle(m, "swap"), "swap").stack == m.stack;
    }
  }

  lemma DupDrop(m: Machine)
    ensures 1 <= |m.stack| < DEPTH ==> Shuffle(Shuffle(m, "dup"), "drop") == m
  {
    hide Digits;
  }

  // ---------- arithmetic trees ----------

  datatype Tree = Lit(n: int) | Node(op: Op, l: Tree, r: Tree)

  function Postfix(t: Tree): seq<string>
  {
    match t
    case Lit(n) => [Show(n)]
    case Node(op, l, r) => Postfix(l) + Postfix(r) + [OpWord(op)]
  }

  /** The value in 32-bit arithmetic; none where a divisor is zero. */
  function Eval(t: Tree): (r: seq<int>)
    ensures |r| <= 1
  {
    match t
    case Lit(n) => [Wrap(n)]
    case Node(op, l, r) =>
      var a, b := Eval(l), Eval(r);
      if a == [] || b == [] || (op == Quot && b[0] == 0) then [] else [Apply(op, a[0], b[0])]
  }

  /** Stack places an evaluation needs at once. */
  function Need(t: Tree): (n: nat)
    ensures n >= 1
  {
    match t
    case Lit(_) => 1
    case Node(_, l, r) => if Need(l) > Need(r) then Need(l) else 1 + Need(r)
  }

  function Leaves(t: Tree): (n: nat)
    ensures n >= 1
  {
    match t case Lit(_) => 1 case Node(_, l, r) => Leaves(l) + Leaves(r)
  }

  predicate LitsFit(t: Tree)
  {
    match t case Lit(n) => InInt32(n) case Node(_, l, r) => LitsFit(l) && LitsFit(r)
  }

  lemma ShowIsNumber(n: int)
    requires InInt32(n)
    ensures IsNumber(Show(n)) && NumberOf(Show(n)) == n
  {
    hide Digits, Accumulate;
    var s := Show(n);
    if n < 0 {
      assert s[1..] == Digits(-n);
      AccumulateDigits(-n);
      WrapNegate(n);
    } else {
      AccumulateDigits(n);
      assert IsDigit(s[0]);
      assert Body(s) == s;
    }
  }

  /** A number is never taken for another word. */
  lemma NumberExec(m: Machine, w: string)
    requires IsNumber(w)
    ensures Exec(m, w) == Push(m, NumberOf(w), "stack full\n")
  {
    hide NumberOf;
    var b := Body(w);
    assert IsDigit(b[0]);
    assert b == w || (|w| >= 2 && w[1] == b[0]);
  }

  lemma OpExec(m: Machine, op: Op)
    ensures Exec(m, OpWord(op)) == Binary(m, op)
  {
    hide Binary, IsNumber;
  }

  lemma RunOne(m: Machine, w: string)
    requires !m.left
    ensures Run(m, [w]) == Exec(m, w)
  {
    assert [w][1..] == [];
  }

  lemma RunLit(m: Machine, n: int)
    requires !m.left && InInt32(n)
    ensures Run(m, [Show(n)]) == Push(m, n, "stack full\n")
  {
    hide Exec, Run, IsNumber, NumberOf;
    ShowIsNumber(n);
    RunOne(m, Show(n));
    NumberExec(m, Show(n));
  }

  lemma RunNode(m: Machine, t: Tree)
    requires t.Node?
    ensures var k := Run(Run(m, Postfix(t.l)), Postfix(t.r));
      Run(m, Postfix(t)) == if k.left then k else Binary(k, t.op)
  {
    hide Exec, Binary;
    var ws := Postfix(t.l) + Postfix(t.r);
    RunAppend(m, ws, [OpWord(t.op)]);
    RunAppend(m, Postfix(t.l), Postfix(t.r));
    var k := Run(m, ws);
    if !k.left {
      RunOne(k, OpWord(t.op));
      OpExec(k, t.op);
    }
  }

  /** Running an expression's postfix words leaves what was on the stack and puts exactly the value on top. */
  lemma {:induction false} PostfixRuns(m: Machine, t: Tree)
    requires !m.left && LitsFit(t) && Eval(t) != [] && |m.stack| + Need(t) <= DEPTH
    ensures Run(m, Postfix(t)) == m.(stack := m.stack + Eval(t))
    decreases t
  {
    hide Run, Apply;
    match t
    case Lit(n) =>
      RunLit(m, n);
    case Node(op, l, r) =>
      RunNode(m, t);
      PostfixRuns(m, l);
      var m1 := m.(stack := m.stack + Eval(l));
      PostfixRuns(m1, r);
      var k := m1.(stack := m1.stack + Eval(r));
      assert k.stack[..|k.stack| - 2] == m.stack;
  }

  /** An expression never takes from below where it started, and one with a zero divisor leaves more than one value. */
  lemma {:induction false} PostfixHeight(m: Machine, t: Tree)
    requires !m.left && LitsFit(t) && |m.stack| + Leaves(t) <= DEPTH
    ensures var k := Run(m, Postfix(t));
      && !k.left && |m.stack| + 1 <= |k.stack| <= |m.stack| + Leaves(t)
      && (Eval(t) == [] ==> |k.stack| >= |m.stack| + 2)
    decreases t
  {
    hide Run, Apply;
    match t
    case Lit(n) =>
      RunLit(m, n);
    case Node(op, l, r) =>
      RunNode(m, t);
      PostfixHeight(m, l);
      var m1 := Run(m, Postfix(l));
      PostfixHeight(m1, r);
      if Eval(l) != [] && Eval(r) != [] {
        NeedLeaves(l);
        NeedLeaves(r);
        PostfixRuns(m, l);
        PostfixRuns(m1, r);
      }
  }

  lemma {:induction false} NeedLeaves(t: Tree)
    ensures Need(t) <= Leaves(t)
  {
    if t.Node? {
      NeedLeaves(t.l);
      NeedLeaves(t.r);
    }
  }

  /** With room for all its numbers, an expression ends as one value on the old stack if and only if no divisor is zero. */
  lemma PostfixExact(m: Machine, t: Tree)
    requires !m.left && LitsFit(t) && |m.stack| + Leaves(t) <= DEPTH
    ensures |Run(m, Postfix(t)).stack| == |m.stack| + 1 <==> Eval(t) != []
    ensures Eval(t) != [] ==> Run(m, Postfix(t)).stack == m.stack + Eval(t)
  {
    hide Run;
    PostfixHeight(m, t);
    NeedLeaves(t);
    if Eval(t) != [] {
      PostfixRuns(m, t);
    }
  }

  /** The exact value, over unbounded integers with division toward zero. */
  function Ideal(t: Tree): int
    requires Eval(t) != []
  {
    match t
    case Lit(n) => n
    case Node(op, l, r) =>
      var a, b := Ideal(l), Ideal(r);
      match op
      case Add => a + b
      case Sub => a - b
      case Mul => a * b
      case Quot => if b == 0 then 0 else Div(a, b)
  }

  ghost predicate AllFit(t: Tree)
    requires Eval(t) != []
  {
    InInt32(Ideal(t)) && (t.Node? ==> AllFit(t.l) && AllFit(t.r))
  }

  /** Where every intermediate result fits in 32 bits, the value is the exact one. */
  lemma {:induction false} EvalIdeal(t: Tree)
    requires Eval(t) != [] && AllFit(t)
    ensures Eval(t) == [Ideal(t)]
    decreases t
  {
    if t.Node? {
      EvalIdeal(t.l);
      EvalIdeal(t.r);
    }
  }

  // ---------- lines ----------

  predicate Blank(c: char) { c == ' ' || c == '\t' }

  /** First place from `i` on that is not blank. */
  function SkipBlanks(line: string, i: nat): (k: nat)
    requires i <= |line|
    ensures i <= k <= |line| && (k < |line| ==> !Blank(line[k]))
    decreases |line| - i
  {
    if i < |line| && Blank(line[i]) then SkipBlanks(line, i + 1) else i
  }

  /** First blank place from `i` on. */
  function WordEnd(line: string, i: nat): (k: nat)
    requires i <= |line|
    ensures i <= k <= |line| && (k < |line| ==> Blank(line[k])) && forall j :: i <= j < k ==> !Blank(line[j])
    decreases |line| - i
  {
    if i < |line| && !Blank(line[i]) then WordEnd(line, i + 1) else i
  }

  /** The words of a line from place `i` on. */
  function Words(line: string, i: nat): seq<string>
    requires i <= |line|
    decreases |line| - i
  {
    var s := SkipBlanks(line, i);
    if s == |line| then []
    else
      var e := WordEnd(line, s);
      [line[s..e]] + Words(line, if e < |line| then e + 1 else e)
  }

  function Join(ws: seq<string>): string
  {
    if ws == [] then "" else ws[0] + " " + Join(ws[1..])
  }

  ghost predicate Solid(w: string) { w != "" && forall i :: 0 <= i < |w| ==> !Blank(w[i]) }

  /** Words typed with blanks between them are read back one by one. */
  lemma {:induction false} WordsOfJoin(before: string, ws: seq<string>)
    requires forall k :: 0 <= k < |ws| ==> Solid(ws[k])
    ensures Words(before + Join(ws), |before|) == ws
    decreases |ws|
  {
    hide Words, WordEnd, SkipBlanks, Blank;
    var line := before + Join(ws);
    if ws == [] {
      WordsAtEnd(line);
    } else {
      var w, rest := ws[0], Join(ws[1..]);
      var next := before + w + " ";
      assert line == next + rest;
      WordInside(before, w, rest);
      WordsStep(line, |before|, |before| + |w|);
      WordsOfJoin(next, ws[1..]);
    }
  }

  lemma WordsUnfold(line: string, i: nat)
    requires i <= |line|
    ensures var s := SkipBlanks(line, i);
      && (s == |line| ==> Words(line, i) == [])
      && (s < |line| ==>
            var e := WordEnd(line, s);
            s < e && Words(line, i) == [line[s..e]] + Words(line, if e < |line| then e + 1 else e))
  {
  }

  lemma WordsAtEnd(line: string)
    ensures Words(line, |line|) == []
  {
  }

  lemma WordInside(before: string, w: string, rest: string)
    requires Solid(w)
    ensures var line, i := before + w + " " + rest, |before|;
      line[i..i + |w|] == w && Blank(line[i + |w|]) && forall j :: i <= j < i + |w| ==> !Blank(line[j])
  {
    var line := before + w + " " + rest;
    forall j | |before| <= j < |before| + |w| ensures !Blank(line[j]) {
      assert line[j] == w[j - |before|];
    }
  }

  lemma WordsStep(line: string, i: nat, e: nat)
    requires i < e < |line| && Blank(line[e]) && forall j :: i <= j < e ==> !Blank(line[j])
    ensures Words(line, i) == [line[i..e]] + Words(line, e + 1)
  {
    WordEndIs(line, i, e);
  }

  lemma {:induction false} WordEndIs(line: string, i: nat, e: nat)
    requires i <= e < |line| && Blank(line[e]) && forall j :: i <= j < e ==> !Blank(line[j])
    ensures WordEnd(line, i) == e
    decreases e - i
  {
    if i < e {
      WordEndIs(line, i + 1, e);
    }
  }

  lemma {:induction false} PostfixSolid(t: Tree)
    ensures forall k :: 0 <= k < |Postfix(t)| ==> Solid(Postfix(t)[k])
    decreases t
  {
    if t.Node? {
      PostfixSolid(t.l);
      PostfixSolid(t.r);
    }
  }

  /** From typed line to value. */
  lemma LineRuns(m: Machine, t: Tree)
    requires !m.left && LitsFit(t) && Eval(t) != [] && |m.stack| + Need(t) <= DEPTH
    ensures Run(m, Words(Join(Postfix(t)), 0)) == m.(stack := m.stack + Eval(t))
  {
    hide Run, Words, Join, Postfix;
    PostfixSolid(t);
    WordsOfJoin("", Postfix(t));
    assert "" + Join(Postfix(t)) == Join(Postfix(t));
    PostfixRuns(m, t);
  }
}
