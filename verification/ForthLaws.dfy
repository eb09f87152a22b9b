/** The Forth words, one by one, over the values on the stack. */
module ForthLaws {
  import opened Int32
  import opened Decimal
  import opened ForthSpec

  /** `t` is `s` but for its last `n` values. */
  predicate SameBelow(s: seq<int>, t: seq<int>, n: nat)
  {
    n <= |s| && |s| - n <= |t| && forall i :: 0 <= i < |s| - n ==> t[i] == s[i]
  }

  // ---------- arithmetic ----------

  /** Two numbers and an operator word, as typed. */
  lemma TypedWords(m: Machine, a: int, b: int, w: string)
    requires !m.left && InInt32(a) && InInt32(b) && |m.stack| + 2 <= 128
    ensures Run(m, [Show(a), Show(b), w]) == Exec(m.(stack := m.stack + [a, b]), w)
  {
    hide Exec, IsNumber, NumberOf;
    var m1, m2 := m.(stack := m.stack + [a]), m.(stack := m.stack + [a] + [b]);
    var ws := [Show(a), Show(b), w];
    ShowIsNumber(a);
    NumberExec(m, Show(a));
    ShowIsNumber(b);
    NumberExec(m1, Show(b));
    assert ws[1..] == [Show(b), w] && ws[1..][1..] == [w];
    RunOne(m2, w);
    assert m.stack + [a] + [b] == m.stack + [a, b];
  }

  /** `+`, `-` and `*` replace two numbers by their sum, difference and product. */
  lemma ArithmeticWords(m: Machine, a: int, b: int)
    requires !m.left && InInt32(a) && InInt32(b) && |m.stack| + 2 <= 128
    ensures InInt32(a + b) ==> Run(m, [Show(a), Show(b), "+"]) == m.(stack := m.stack + [a + b])
    ensures InInt32(a - b) ==> Run(m, [Show(a), Show(b), "-"]) == m.(stack := m.stack + [a - b])
    ensures InInt32(a * b) ==> Run(m, [Show(a), Show(b), "*"]) == m.(stack := m.stack + [a * b])
  {
    hide Exec, Run, Show;
    TypedWords(m, a, b, "+");
    TypedWords(m, a, b, "-");
    TypedWords(m, a, b, "*");
    OperatorExec(m, a, b, "+", Add);
    OperatorExec(m, a, b, "-", Sub);
    OperatorExec(m, a, b, "*", Mul);
  }

  /** `/` by zero keeps both numbers and says so; otherwise the quotient is cut toward zero. */
  lemma DivisionWord(m: Machine, a: int, b: int)
    requires !m.left && InInt32(a) && InInt32(b) && |m.stack| + 2 <= 128
    ensures b == 0 ==> Run(m, [Show(a), Show(b), "/"]) == m.(stack := m.stack + [a, b], out := m.out + "div by zero\n")
    ensures b != 0 && InInt32(Div(a, b)) ==> Run(m, [Show(a), Show(b), "/"]) == m.(stack := m.stack + [Div(a, b)])
  {
    hide Exec, Run, Show, Div;
    TypedWords(m, a, b, "/");
    OperatorExec(m, a, b, "/", Quot);
  }

  lemma OperatorExec(m: Machine, a: int, b: int, w: string, op: Op)
    requires OpOf(w) == [op] && w != "bye" && w != "exit"
    ensures Exec(m.(stack := m.stack + [a, b]), w) ==
      if op == Quot && b == 0 then m.(stack := m.stack + [a, b], out := m.out + "div by zero\n")
      else m.(stack := m.stack + [Apply(op, a, b)])
  {
    hide Apply, Shuffle, Other;
    var s := m.stack + [a, b];
    assert s[..|s| - 2] == m.stack;
  }

  /** With one operand only, an operator word says so and the operand is lost. */
  lemma OneOperand(m: Machine, w: string)
    requires |m.stack| <= 1 && w in ["+", "-", "*", "/"]
    ensures Exec(m, w) == m.(stack := [], out := m.out + "stack underflow\n")
  {
    hide Apply, Shuffle, Other;
  }

  // ---------- the stack ----------

  /** `swap` exchanges the two top values, `dup` doubles the top one, `drop` takes it away. */
  lemma StackWords(m: Machine)
    ensures |m.stack| >= 2 ==>
      var q, n := Exec(m, "swap"), |m.stack|;
      |q.stack| == n && SameBelow(m.stack, q.stack, 2) && q.stack[n - 1] == m.stack[n - 2] && q.stack[n - 2] == m.stack[n - 1] && q.out == m.out
    ensures 1 <= |m.stack| < 128 ==>
      var q, n := Exec(m, "dup"), |m.stack|;
      |q.stack| == n + 1 && SameBelow(m.stack, q.stack, 0) && q.stack[n] == m.stack[n - 1] && q.out == m.out
    ensures |m.stack| >= 1 ==>
      var q, n := Exec(m, "drop"), |m.stack|;
      |q.stack| == n - 1 && SameBelow(m.stack, q.stack, 1) && q.out == m.out
  {
    hide Binary, Other, Digits;
    ShuffleExec(m, "swap");
    ShuffleExec(m, "dup");
    ShuffleExec(m, "drop");
  }

  /** Without enough values they say so, and so does `dup` on a full stack; the stack stays as it is. */
  lemma StackRefusals(m: Machine)
    ensures |m.stack| < 2 ==> Exec(m, "swap") == m.(out := m.out + "stack underflow\n")
    ensures m.stack == [] || |m.stack| >= 128 ==> Exec(m, "dup") == m.(out := m.out + "stack error\n")
    ensures m.stack == [] ==> Exec(m, "drop") == m.(out := m.out + "stack underflow\n") && Exec(m, ".") == Exec(m, "drop")
  {
    hide Binary, Other, Digits;
    ShuffleExec(m, "swap");
    ShuffleExec(m, "dup");
    ShuffleExec(m, "drop");
    ShuffleExec(m, ".");
  }

  // ---------- printing ----------

  /** `.` takes the top value away and prints it as an unsigned number and a newline. */
  lemma DotWord(m: Machine)
    requires |m.stack| >= 1
    ensures var q, n := Exec(m, "."), |m.stack|;
      && |q.stack| == n - 1 && SameBelow(m.stack, q.stack, 1)
      && q.out == m.out + (Digits(m.stack[n - 1] % 0x1_0000_0000) + "\n")
  {
    hide Binary, Other, Digits;
    ShuffleExec(m, ".");
  }

  /** A sign or none, and then digits only. */
  predicate NumberText(w: string)
  {
    var b := if w != "" && w[0] in "+-" then w[1..] else w;
    b != "" && forall i :: 0 <= i < |b| ==> '0' <= b[i] <= '9'
  }

  /** `clear` empties the stack, `bye` and `exit` leave, `words` and `mem` report, and a word that is nothing else and no number is said to be unknown. */
  lemma OtherWords(m: Machine, w: string)
    ensures Exec(m, "clear") == m.(stack := [])
    ensures Exec(m, "bye") == m.(left := true, out := m.out + "Leaving forth\n") == Exec(m, "exit")
    ensures Exec(m, "words") == m.(out := m.out + "+ - * / dup drop swap . .s mem clear words bye\n")
    ensures Exec(m, "mem") == m.(out := m.out + ("heap used: " + Digits(m.heap % 0x1_0000_0000) + " bytes\n"))
    ensures w !in ["+", "-", "*", "/", "dup", "drop", "swap", ".", ".s", "mem", "clear", "words", "bye", "exit"] && !NumberText(w) ==>
      Exec(m, w) == m.(out := m.out + ("unknown word: " + w + "\n"))
  {
    hide Binary, Shuffle, Digits, ShowStack;
    assert !NumberText(w) ==> !IsNumber(w);
  }

  /** `.s` prints how many values there are and then, bottom first, each as an unsigned number. */
  lemma StackShown(m: Machine, s: seq<int>, v: int)
    ensures Exec(m, ".s") == m.(out := m.out + ("<" + Digits(|m.stack|) + "> " + ShowStack(m.stack) + "\n"))
    ensures ShowStack([]) == "" && ShowStack(s + [v]) == ShowStack(s) + Digits(v % 0x1_0000_0000) + " "
  {
    hide Binary, Shuffle, Digits;
    assert (s + [v])[..|s|] == s;
  }

  /** A number goes on top, unless the stack is full; a plus sign is allowed. */
  lemma NumberWord(m: Machine, n: nat)
    requires n < 0x8000_0000
    ensures Exec(m, "+" + Digits(n)) == if |m.stack| < 128 then m.(stack := m.stack + [n]) else m.(out := m.out + "stack full\n")
    ensures Exec(m, Digits(n)) == Exec(m, "+" + Digits(n))
  {
    hide Digits, Accumulate, Exec;
    AccumulateDigits(n);
    var w := "+" + Digits(n);
    assert w[1..] == Digits(n);
    NumberExec(m, w);
    assert IsDigit(Digits(n)[0]);
    assert Body(Digits(n)) == Digits(n);
    NumberExec(m, Digits(n));
  }
}
