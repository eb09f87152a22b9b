/** The line-at-a-time CosyPy machine. */
module CosMachine {
  import opened Int32
  import opened CosTokens
  import opened CosParser

  /** World, nesting of ifs, the skipping flag, the stored loop condition and the loop nesting. */
  datatype Machine = Machine(w: World, depth: nat, skip: bool, cond: string, loops: nat)

  const MAX_ROUNDS := 1000
  const MAX_BODY := 16

  predicate IsElse(l: string)
  {
    "else" <= l && (Peek(l[4..]) == ':' || Peek(l[4..]) == NUL || Peek(l[4..]) == ' ')
  }

  predicate IsExit(l: string) { "exit" <= l || "quit" <= l }

  predicate IsPrint(l: string) { "print" <= l && Peek(l[5..]) == '(' }

  function ExecPrint(text: string, w: World): World
  {
    var (t, rest) := Lex(text);
    if t.Str? then w.(out := w.out + [Text(t.text)])
    else
      var (v, _, w') := Parse(0, Pending(t, rest), w);
      w'.(out := w'.out + [Num(Unsigned(v))])
  }

  /** A line that is neither a keyword line nor a print: an assignment, or nothing. */
  function ExecOther(l: string, w: World): World
  {
    var (t, rest) := Lex(l);
    if t.Ident? then
      var (t2, rest2) := Lex(rest);
      if t2 == Eq then
        var (v, _, w') := Parse(0, Tokens(rest2), w);
        SetVar(w', t.name, v)
      else w
    else w
  }

  /** One line, as execute_statement treats it. A line that starts a function definition does nothing here. */
  function Exec(line: string, m: Machine): Machine
  {
    var l := SkipBlanks(line);
    if l == "" || l[0] == NUL || l[0] == '#' then m
    else if IsExit(l) then m
    else if "endif" <= l then
      if m.depth > 0 then m.(depth := m.depth - 1, skip := if m.depth == 1 then false else m.skip) else m
    else if IsElse(l) then
      if m.depth == 1 then m.(skip := !m.skip) else m
    else if "if " <= l then
      if m.skip then m.(depth := m.depth + 1)
      else
        var (v, _, w') := Parse(0, Tokens(l[3..]), m.w);
        m.(depth := m.depth + 1, skip := v == 0, w := w')
    else if m.skip then m
    else if "endwhile" <= l then m
    else if "while " <= l then m.(cond := l[6..], loops := m.loops + 1)
    else if "def " <= l then m
    else if IsPrint(l) then m.(w := ExecPrint(l[6..], m.w))
    else m.(w := ExecOther(l, m.w))
  }

  function ExecAll(lines: seq<string>, m: Machine): Machine
  {
    if lines == [] then m else ExecAll(lines[1..], Exec(lines[0], m))
  }

  /** At most `n` rounds of the collected loop body. */
  function Loop(n: nat, body: seq<string>, m: Machine): Machine
  {
    if n == 0 then m
    else
      var (v, _, w') := Parse(0, Tokens(m.cond), m.w);
      if v == 0 then m.(w := w') else Loop(n - 1, body, ExecAll(body, m.(w := w')))
  }

  /** One line of a script file: collected into a loop body, or executed. */
  function FileLine(line: string, m: Machine, body: seq<string>): (Machine, seq<string>)
  {
    var l := SkipBlanks(line);
    if m.loops > 0 && !("endwhile" <= l) then
      (m.(loops := if "while " <= l then m.loops + 1 else m.loops), if |body| < MAX_BODY then body + [l] else body)
    else if m.loops > 0 then
      if m.loops == 1 then (Loop(MAX_ROUNDS, body, m.(loops := 0)), []) else (m.(loops := m.loops - 1), body)
    else (Exec(l, m), body)
  }

  function FileLines(lines: seq<string>, m: Machine, body: seq<string>): (Machine, seq<string>)
    decreases |lines|
  {
    if lines == [] then (m, body)
    else
      var (m', body') := FileLine(lines[0], m, body);
      FileLines(lines[1..], m', body')
  }

  // ---------- splitting a file into lines ----------

  const MAX_LINES := 64
  const LINE_CAP := 127

  /** Length of the next line piece: up to a newline, the end, or the line buffer's capacity. */
  function PieceLen(s: string, cap: nat): (k: nat)
    ensures k <= |s| && k <= cap && (forall i :: 0 <= i < k ==> s[i] != '\n') && (k < |s| && k < cap ==> s[k] == '\n')
  {
    if s == "" || cap == 0 || s[0] == '\n' then 0 else 1 + PieceLen(s[1..], cap - 1)
  }

  function AfterPiece(s: string): (r: string)
    requires s != ""
    ensures |r| < |s|
  {
    var k := PieceLen(s, LINE_CAP);
    if k < |s| && s[k] == '\n' then s[k + 1..] else s[k..]
  }

  function SplitLines(s: string, n: nat): seq<string>
    decreases n
  {
    if s == "" || n == 0 then []
    else [s[..PieceLen(s, LINE_CAP)]] + SplitLines(AfterPiece(s), n - 1)
  }

  lemma SplitUnfold(s: string, n: nat)
    ensures s == "" || n == 0 ==> SplitLines(s, n) == []
    ensures s != "" && n > 0 ==> SplitLines(s, n) == [s[..PieceLen(s, LINE_CAP)]] + SplitLines(AfterPiece(s), n - 1)
  {
  }

  /** The state every script starts in. */
  function Start(inputs: seq<int>): Machine
  {
    Machine(World(map[], inputs, []), 0, false, "", 0)
  }

  function RunFile(content: string, m: Machine): Machine
  {
    FileLines(SplitLines(content, MAX_LINES), m.(w := m.w.(vars := map[]), depth := 0, skip := false, loops := 0), []).0
  }

  // ---------- composition ----------

  lemma {:induction false} FileLinesAppend(a: seq<string>, b: seq<string>, m: Machine, body: seq<string>)
    ensures FileLines(a + b, m, body) == FileLines(b, FileLines(a, m, body).0, FileLines(a, m, body).1)
    decreases |a|
  {
    hide FileLine;
    if a == [] {
      assert a + b == b;
    } else {
      assert (a + b)[1..] == a[1..] + b;
      var (m', body') := FileLine(a[0], m, body);
      FileLinesAppend(a[1..], b, m', body');
    }
  }

  lemma FileLinesCons(l: string, rest: seq<string>, m: Machine, body: seq<string>)
    ensures FileLines([l] + rest, m, body) == FileLines(rest, FileLine(l, m, body).0, FileLine(l, m, body).1)
  {
    hide FileLine;
    assert ([l] + rest)[1..] == rest;
  }

  function JoinLines(lines: seq<string>): string
  {
    if lines == [] then "" else lines[0] + "\n" + JoinLines(lines[1..])
  }

  lemma {:induction false} PieceLenIs(l: string, rest: string, cap: nat)
    requires '\n' !in l && |l| <= cap
    ensures PieceLen(l + ("\n" + rest), cap) == |l|
    decreases |l|
  {
    var s := l + ("\n" + rest);
    if l != "" {
      assert s[1..] == l[1..] + ("\n" + rest);
      assert l[0] in l;
      PieceLenIs(l[1..], rest, cap - 1);
    }
  }

  lemma FirstPiece(l: string, rest: string)
    requires '\n' !in l && |l| <= LINE_CAP
    ensures var s := l + ("\n" + rest);
      s[..PieceLen(s, LINE_CAP)] == l && AfterPiece(s) == rest
  {
    hide PieceLen;
    var s := l + ("\n" + rest);
    PieceLenIs(l, rest, LINE_CAP);
    assert s[|l|] == '\n' && s[|l| + 1..] == rest;
  }

  /** Joining lines and splitting the file gives the lines back. */
  lemma {:induction false} SplitJoin(lines: seq<string>, n: nat)
    requires |lines| <= n && forall i :: 0 <= i < |lines| ==> '\n' !in lines[i] && |lines[i]| <= LINE_CAP
    ensures SplitLines(JoinLines(lines), n) == lines
    decreases n
  {
    hide PieceLen, AfterPiece;
    if lines != [] {
      var rest := JoinLines(lines[1..]);
      assert JoinLines(lines) == lines[0] + ("\n" + rest);
      FirstPiece(lines[0], rest);
      SplitJoin(lines[1..], n - 1);
    }
  }
}
