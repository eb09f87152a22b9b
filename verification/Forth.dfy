/** The Forth session in place: a fixed stack array and its pointer, refining the word machine. */
module Forth {
  import opened Int32
  import opened Decimal
  import Spec = ForthSpec

  const NUL := '\0'

  /** A line as typed: NUL-terminated, and cut up in place as its words are read. */
  class LineBuffer {
    const buf: array<char>
    /** The first place not read yet. */
    var cur: nat
    /** The line before any word was cut off. */
    ghost var text: string

    ghost predicate Valid()
      reads this, buf
    {
      && cur <= |text| < buf.Length && buf[|text|] == NUL
      && (forall k :: 0 <= k < |text| ==> text[k] != NUL)
      && (forall k :: cur <= k < |text| ==> buf[k] == text[k])
    }

    /** A NUL-terminated text starts at `start`. */
    ghost predicate Terminated(start: nat)
      reads buf
    {
      exists e :: start <= e < buf.Length && buf[e] == NUL
    }

    constructor (typed: string, size: nat)
      requires |typed| < size && forall k :: 0 <= k < |typed| ==> typed[k] != NUL
      ensures Valid() && cur == 0 && text == typed && fresh(buf)
    {
      buf := new char[size](i => if 0 <= i < |typed| then typed[i] else NUL);
      cur, text := 0, typed;
    }

    method SkipBlanks()
      requires Valid()
      modifies this`cur
      ensures Valid() && cur == Spec.SkipBlanks(text, old(cur))
    {
      while buf[cur] == ' ' || buf[cur] == '\t'
        invariant Valid() && Spec.SkipBlanks(text, old(cur)) == Spec.SkipBlanks(text, cur)
        decreases |text| - cur
      {
        cur := cur + 1;
      }
    }

    /** First blank, or the NUL, from the cursor on. */
    method FindEnd() returns (e: nat)
      requires Valid()
      ensures cur <= e <= |text| && e == Spec.WordEnd(text, cur)
    {
      e := cur;
      while buf[e] != NUL && buf[e] != ' ' && buf[e] != '\t'
        invariant cur <= e <= |text| && Spec.WordEnd(text, cur) == Spec.WordEnd(text, e)
        decreases |text| - e
      {
        e := e + 1;
      }
    }

    /** Finds the next word, ends it in place with a NUL, and moves on; the rest of the line stays as it was. */
    method NextTok() returns (found: bool, start: nat)
      requires Valid()
      modifies this`cur, buf
      ensures Valid() && old(cur) <= cur
      ensures !found ==> Spec.Words(text, old(cur)) == [] == Spec.Words(text, cur)
      ensures found ==>
        && start < cur && Terminated(start)
        && Spec.Words(text, old(cur)) == [CutAt(buf[..], start)] + Spec.Words(text, cur)
    {
      hide Spec.SkipBlanks, Spec.WordEnd, Spec.Words, CutAt;
      Spec.WordsUnfold(text, cur);
      SkipBlanks();
      start := cur;
      if buf[cur] == NUL {
        Spec.WordsAtEnd(text);
        return false, start;
      }
      var e := FindEnd();
      cur := e;
      if buf[e] != NUL {
        buf[e] := NUL;
        cur := e + 1;
      }
      assert buf[e] == NUL;
      CutIs(buf[..], start, e);
      assert buf[start..e] == text[start..e];
      return true, start;
    }

    /** The NUL-terminated text that starts at `start`. */
    method TextAt(start: nat) returns (w: string)
      requires Terminated(start)
      ensures w == CutAt(buf[..], start)
    {
      w := "";
      var i := start;
      ghost var e :| start <= e < buf.Length && buf[e] == NUL;
      while buf[i] != NUL
        invariant start <= i <= e && w == buf[start..i] && forall k :: start <= k < i ==> buf[k] != NUL
        decreases e - i
      {
        w := w + [buf[i]];
        i := i + 1;
      }
      CutIs(buf[..], start, i);
    }
  }

  /** The C string that starts at `start` of a buffer. */
  function CutAt(b: string, start: nat): string
    decreases |b| - start
  {
    if start >= |b| || b[start] == NUL then "" else [b[start]] + CutAt(b, start + 1)
  }

  lemma {:induction false} CutIs(b: string, start: nat, e: nat)
    requires start <= e < |b| && b[e] == NUL && forall k :: start <= k < e ==> b[k] != NUL
    ensures CutAt(b, start) == b[start..e]
    decreases e - start
  {
    if start < e {
      CutIs(b, start + 1, e);
      assert b[start..e] == [b[start]] + b[start + 1..e];
    }
  }

  class Session {
    const stack: array<int>
    var sp: nat
    var out: string
    var left: bool
    const heap: nat

    ghost predicate Valid()
      reads this, stack
    {
      stack.Length == Spec.DEPTH && sp <= Spec.DEPTH && forall i :: 0 <= i < sp ==> InInt32(stack[i])
    }

    ghost function State(): Spec.Machine
      requires Valid()
      reads this, stack
    {
      Spec.Machine(stack[..sp], out, left, heap)
    }

    constructor (heapUsed: nat)
      ensures Valid() && State() == Spec.Machine([], "", false, heapUsed) && fresh(stack)
    {
      stack := new int[Spec.DEPTH](_ => 0);
      sp, out, left, heap := 0, "", false, heapUsed;
    }

    method Pop() returns (ok: bool, v: int)
      requires Valid()
      modifies this`sp
      ensures Valid() && ok == (old(sp) > 0)
      ensures if ok then sp == old(sp) - 1 && v == stack[sp] else sp == old(sp)
    {
      if sp == 0 {
        return false, 0;
      }
      sp := sp - 1;
      return true, stack[sp];
    }

    method Push(v: int) returns (ok: bool)
      requires Valid() && InInt32(v)
      modifies this`sp, stack
      ensures Valid() && ok == (old(sp) < Spec.DEPTH)
      ensures stack[..sp] == if ok then old(stack[..sp]) + [v] else old(stack[..sp])
    {
      if sp >= Spec.DEPTH {
        return false;
      }
      stack[sp] := v;
      sp := sp + 1;
      return true;
    }

    method Say(text: string)
      requires Valid()
      modifies this`out
      ensures Valid() && State() == Spec.Say(old(State()), text)
    {
      out := out + text;
    }

    static method IsNumber(s: string) returns (yes: bool)
      ensures yes == Spec.IsNumber(s)
    {
      var i := 0;
      if s != "" && (s[0] == '-' || s[0] == '+') {
        i := 1;
      }
      ghost var from := i;
      assert Spec.Body(s) == s[from..];
      if i == |s| {
        return false;
      }
      while i < |s|
        invariant from <= i <= |s| && forall j :: from <= j < i ==> IsDigit(s[j])
      {
        if s[i] < '0' || s[i] > '9' {
          assert !IsDigit(s[from..][i - from]);
          return false;
        }
        i := i + 1;
      }
      return true;
    }

    static method Atoi(s: string) returns (v: int)
      ensures v == Spec.AtoiOf(s)
    {
      var i := 0;
      while i < |s| && (s[i] == ' ' || s[i] == '\t')
        invariant i <= |s| && Spec.SkipBlanks(s, 0) == Spec.SkipBlanks(s, i)
      {
        i := i + 1;
      }
      var negative := false;
      if i < |s| && s[i] == '-' {
        i, negative := i + 1, true;
      } else if i < |s| && s[i] == '+' {
        i := i + 1;
      }
      assert i == Spec.DigitsStart(s) && negative == Spec.Negative(s);
      v := ReadDigits(s, i);
      v := if negative then Wrap(-v) else Wrap(v);
    }

    /** The digit loop. */
    static method ReadDigits(s: string, from: nat) returns (v: int)
      requires from <= |s|
      ensures v == Accumulate(0, s[from..Spec.DigitsEnd(s, from)])
    {
      ghost var end := Spec.DigitsEnd(s, from);
      ghost var body := s[from..end];
      var i := from;
      v := 0;
      while i < |s| && '0' <= s[i] <= '9'
        invariant from <= i <= |s| && Spec.DigitsEnd(s, i) == end
        invariant Accumulate(0, body) == Accumulate(v, s[i..end])
      {
        assert Spec.DigitsEnd(s, i) == Spec.DigitsEnd(s, i + 1);
        assert s[i..end][0] == s[i] && s[i..end][1..] == s[i + 1..end];
        v := Wrap(v * 10 + DigitVal(s[i]));
        i := i + 1;
      }
      assert s[i..end] == "";
    }

    /** `+`, `-`, `*` and `/`. */
    method Binary(op: Spec.Op)
      requires Valid()
      modifies this`sp, this`out, stack
      ensures Valid() && State() == Spec.Binary(old(State()), op)
    {
      hide Spec.Apply;
      var okB, b := Pop();
      if !okB {
        Say("stack underflow\n");
        return;
      }
      var okA, a := Pop();
      if !okA {
        Say("stack underflow\n");
        return;
      }
      ghost var was, base := old(stack[..sp]), stack[..sp];
      assert was[|was| - 1] == b && was[|was| - 2] == a && was[..|was| - 2] == base;
      if op == Spec.Quot && b == 0 {
        Say("div by zero\n");
        PushBoth(a, b);
        assert base + [a, b] == was;
      } else {
        var _ := Push(Spec.Apply(op, a, b));
      }
    }

    method PushBoth(a: int, b: int)
      requires Valid() && InInt32(a) && InInt32(b) && sp + 2 <= Spec.DEPTH
      modifies this`sp, stack
      ensures Valid() && stack[..sp] == old(stack[..sp]) + [a, b]
    {
      var _ := Push(a);
      var _ := Push(b);
    }

    method PrintStack()
      requires Valid()
      modifies this`out
      ensures Valid() && State() == Spec.Say(old(State()), "<" + Digits(sp) + "> " + Spec.ShowStack(stack[..sp]) + "\n")
    {
      ghost var head := "<" + Digits(sp) + "> ";
      ghost var was := out;
      out := out + "<" + Digits(sp) + "> ";
      assert out == was + head;
      var i := 0;
      while i < sp
        invariant i <= sp && out == was + (head + Spec.ShowStack(stack[..i]))
      {
        assert stack[..i + 1][..i] == stack[..i];
        out := out + Digits(Unsigned(stack[i])) + " ";
        i := i + 1;
      }
      out := out + "\n";
      assert out == was + (head + Spec.ShowStack(stack[..sp]) + "\n");
    }

    method Swap()
      requires Valid() && sp >= 2
      modifies stack
      ensures Valid() && stack[..sp] == old(stack[..sp - 2]) + [old(stack[sp - 1]), old(stack[sp - 2])]
    {
      var t := stack[sp - 1];
      stack[sp - 1] := stack[sp - 2];
      stack[sp - 2] := t;
    }

    /** Dispatches one word. */
    method RunWord(w: string)
      requires Valid()
      modifies this, stack
      ensures Valid() && State() == Spec.Exec(old(State()), w)
    {
      hide Spec.Binary, Spec.Shuffle, Spec.Other;
      if w == "bye" || w == "exit" {
        left := true;
        Say("Leaving forth\n");
      } else if w == "+" {
        Binary(Spec.Add);
      } else if w == "-" {
        Binary(Spec.Sub);
      } else if w == "*" {
        Binary(Spec.Mul);
      } else if w == "/" {
        Binary(Spec.Quot);
      } else if w == "dup" || w == "drop" || w == "swap" || w == "." {
        RunShuffle(w);
      } else {
        RunOther(w);
      }
    }

    method RunShuffle(w: string)
      requires Valid() && w in Spec.SHUFFLES
      modifies this, stack
      ensures Valid() && State() == Spec.Shuffle(old(State()), w)
    {
      hide Digits;
      if w == "dup" {
        var ok := sp > 0;
        if ok {
          ok := Push(stack[sp - 1]);
        }
        if !ok {
          Say("stack error\n");
        }
      } else if w == "drop" {
        var ok, _ := Pop();
        if !ok {
          Say("stack underflow\n");
        }
      } else if w == "swap" {
        if sp < 2 {
          Say("stack underflow\n");
        } else {
          Swap();
        }
      } else {
        var ok, v := Pop();
        if ok {
          Say(Digits(Unsigned(v)) + "\n");
        } else {
          Say("stack underflow\n");
        }
      }
    }

    method RunOther(w: string)
      requires Valid()
      modifies this, stack
      ensures Valid() && State() == Spec.Other(old(State()), w)
    {
      hide Spec.ShowStack, Digits, Spec.IsNumber, Spec.NumberOf;
      if w == ".s" {
        PrintStack();
      } else if w == "mem" {
        Say("heap used: " + Digits(Unsigned(heap)) + " bytes\n");
      } else if w == "clear" {
        sp := 0;
      } else if w == "words" {
        Say(Spec.WORDS);
      } else {
        var number := IsNumber(w);
        if number {
          var v := Atoi(w);
          Spec.AtoiNumber(w);
          var ok := Push(v);
          if !ok {
            Say("stack full\n");
          }
        } else {
          Say("unknown word: " + w + "\n");
        }
      }
    }

    /** Runs the words of a line in order, until the session is left. */
    method RunLine(line: LineBuffer)
      requires Valid() && !left && line.Valid() && line.cur == 0
      modifies this, stack, line`cur, line.buf
      ensures Valid() && State() == Spec.Run(old(State()), Spec.Words(old(line.text), 0))
    {
      hide Spec.Exec, Spec.Words;
      ghost var start, text := State(), line.text;
      var more := true;
      while more && !left
        invariant Valid() && line.Valid() && line.text == text
        invariant Spec.Run(start, Spec.Words(text, 0)) == Spec.Run(State(), Spec.Words(text, line.cur))
        invariant !more ==> Spec.Words(text, line.cur) == []
        decreases |text| - line.cur, more
      {
        ghost var at := line.cur;
        var found, from := line.NextTok();
        if found {
          var w := line.TextAt(from);
          assert Spec.Words(text, at) == [w] + Spec.Words(text, line.cur);
          assert ([w] + Spec.Words(text, line.cur))[1..] == Spec.Words(text, line.cur);
          RunWord(w);
        } else {
          more := false;
        }
      }
    }
  }
}
