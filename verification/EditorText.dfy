/** A text as the editor sees it: characters, lines, and positions as row and column. */
module EditorText {

  type Text = seq<char>

  function LineStart(t: Text, pos: nat): (s: nat)
    requires pos <= |t|
  {
    if pos > 0 && t[pos - 1] != '\n' then LineStart(t, pos - 1) else pos
  }

  function LineEnd(t: Text, pos: nat): (e: nat)
    requires pos <= |t|
    ensures pos <= e <= |t| && (e < |t| ==> t[e] == '\n') && forall k :: pos <= k < e ==> t[k] != '\n'
    decreases |t| - pos
  {
    if pos < |t| && t[pos] != '\n' then LineEnd(t, pos + 1) else pos
  }

  /** `s` is the only place where the line holding `pos` can begin. */
  lemma {:induction false} LineStartIs(t: Text, pos: nat, s: nat)
    requires s <= pos <= |t| && (s == 0 || t[s - 1] == '\n') && forall k :: s <= k < pos ==> t[k] != '\n'
    ensures LineStart(t, pos) == s
  {
    if pos > s {
      LineStartIs(t, pos - 1, s);
    }
  }

  lemma {:induction false} LineStartBound(t: Text, pos: nat)
    requires pos <= |t|
    ensures LineStart(t, pos) <= pos
    ensures LineStart(t, pos) > 0 ==> t[LineStart(t, pos) - 1] == '\n'
  {
    if pos > 0 && t[pos - 1] != '\n' {
      LineStartBound(t, pos - 1);
    }
  }

  // ---------- lines ----------

  /** The text cut at its newlines. */
  function Lines(t: Text): (ls: seq<Text>)
    ensures |ls| >= 1
    decreases |t|
  {
    var e := LineEnd(t, 0);
    if e == |t| then [t] else [t[..e]] + Lines(t[e + 1..])
  }

  /** Lines put back together with newlines between them. */
  function Unlines(ls: seq<Text>): Text
    requires |ls| >= 1
  {
    if |ls| == 1 then ls[0] else ls[0] + ['\n'] + Unlines(ls[1..])
  }

  lemma {:induction false} LinesRoundTrip(t: Text)
    ensures Unlines(Lines(t)) == t && forall i :: 0 <= i < |Lines(t)| ==> '\n' !in Lines(t)[i]
    decreases |t|
  {
    var e := LineEnd(t, 0);
    if e < |t| {
      LinesRoundTrip(t[e + 1..]);
      assert Lines(t)[1..] == Lines(t[e + 1..]);
    }
  }

  /** Where row `r` begins. */
  function RowStart(ls: seq<Text>, r: nat): nat
    requires r < |ls|
  {
    if r == 0 then 0 else |ls[0]| + 1 + RowStart(ls[1..], r - 1)
  }

  lemma {:induction false} NextRow(ls: seq<Text>, r: nat)
    requires r + 1 < |ls|
    ensures RowStart(ls, r + 1) == RowStart(ls, r) + |ls[r]| + 1
  {
    if r > 0 {
      NextRow(ls[1..], r - 1);
    }
  }

  /** A row in the text: free of newlines, just after one unless first, just before one unless last. */
  ghost predicate RowAt(t: Text, s: nat, e: nat, first: bool, last: bool)
  {
    && s <= e <= |t|
    && (forall k :: s <= k < e ==> t[k] != '\n')
    && (if first then s == 0 else s > 0 && t[s - 1] == '\n')
    && (if last then e == |t| else e < |t| && t[e] == '\n')
  }

  lemma {:induction false} RowFacts(t: Text, r: nat)
    requires r < |Lines(t)|
    ensures var ls := Lines(t);
      RowAt(t, RowStart(ls, r), RowStart(ls, r) + |ls[r]|, r == 0, r + 1 == |ls|)
    decreases r
  {
    hide RowAt, Lines;
    LinesUnfold(t);
    if r == 0 {
      FirstRow(t);
    } else {
      var e := LineEnd(t, 0);
      var rest := t[e + 1..];
      var ls := Lines(rest);
      assert Lines(t)[1..] == ls;
      RowFacts(rest, r - 1);
      ShiftRow(t, e, RowStart(ls, r - 1), RowStart(ls, r - 1) + |ls[r - 1]|, r == 1, r == |ls|);
    }
  }

  lemma {:induction false} LinesUnfold(t: Text)
    ensures var e := LineEnd(t, 0);
      Lines(t) == if e == |t| then [t] else [t[..e]] + Lines(t[e + 1..])
  {
  }

  lemma {:induction false} FirstRow(t: Text)
    ensures RowAt(t, 0, |Lines(t)[0]|, true, 1 == |Lines(t)|) && Lines(t)[0] == t[..LineEnd(t, 0)]
  {
    LinesUnfold(t);
  }

  lemma ShiftRow(t: Text, e: nat, s: nat, f: nat, first: bool, last: bool)
    requires e < |t| && t[e] == '\n' && RowAt(t[e + 1..], s, f, first, last)
    ensures RowAt(t, e + 1 + s, e + 1 + f, false, last)
  {
    forall k | e + 1 + s <= k < e + 1 + f ensures t[k] != '\n' {
      assert t[k] == t[e + 1..][k - e - 1];
    }
  }

  /** `pos` is column `c` of row `r`. */
  predicate At(t: Text, pos: nat, r: nat, c: nat)
  {
    r < |Lines(t)| && c <= |Lines(t)[r]| && pos == RowStart(Lines(t), r) + c
  }

  /** Every position has a row and a column. */
  lemma {:induction false} HasRow(t: Text, pos: nat) returns (r: nat, c: nat)
    requires pos <= |t|
    ensures At(t, pos, r, c)
    decreases |t|
  {
    var e := LineEnd(t, 0);
    if pos <= e {
      r, c := 0, pos;
    } else {
      r, c := HasRow(t[e + 1..], pos - e - 1);
      r := r + 1;
      assert Lines(t)[1..] == Lines(t[e + 1..]);
    }
  }

  lemma {:induction false} LineBounds(t: Text, pos: nat, r: nat, c: nat)
    requires pos <= |t| && At(t, pos, r, c)
    ensures LineStart(t, pos) == RowStart(Lines(t), r) && LineEnd(t, pos) == RowStart(Lines(t), r) + |Lines(t)[r]|
  {
    hide Lines, RowStart;
    RowFacts(t, r);
    LineStartIs(t, pos, RowStart(Lines(t), r));
  }

  // ---------- moving between lines ----------

  function Min(a: nat, b: nat): nat { if a < b then a else b }

  /** Cursor after a move down. */
  function Down(t: Text, cursor: nat): (p: nat)
    requires cursor <= |t|
    ensures p <= |t|
  {
    LineStartBound(t, cursor);
    var col := cursor - LineStart(t, cursor);
    var e := LineEnd(t, cursor);
    if e < |t| && t[e] == '\n' then
      var next := e + 1;
      next + Min(col, LineEnd(t, next) - next)
    else cursor
  }

  /** Cursor after a move up. */
  function Up(t: Text, cursor: nat): (p: nat)
    requires cursor <= |t|
    ensures p <= |t|
  {
    LineStartBound(t, cursor);
    var s := LineStart(t, cursor);
    if s > 0 then
      var prevEnd := s - 1;
      LineStartBound(t, prevEnd);
      LineStart(t, prevEnd) + Min(cursor - s, prevEnd - LineStart(t, prevEnd))
    else cursor
  }

  /** A move down lands in the same column of the next row, or at that row's end; on the last row it does nothing. */
  lemma DownRow(t: Text, pos: nat, r: nat, c: nat)
    requires pos <= |t| && At(t, pos, r, c)
    ensures if r + 1 < |Lines(t)| then At(t, Down(t, pos), r + 1, Min(c, |Lines(t)[r + 1]|)) else Down(t, pos) == pos
  {
    hide Lines, RowStart;
    LineBounds(t, pos, r, c);
    RowFacts(t, r);
    if r + 1 < |Lines(t)| {
      NextRow(Lines(t), r);
      RowFacts(t, r + 1);
      LineBounds(t, RowStart(Lines(t), r + 1), r + 1, 0);
    }
  }

  /** A move up lands in the same column of the row above, or at that row's end; on the first row it does nothing. */
  lemma UpRow(t: Text, pos: nat, r: nat, c: nat)
    requires pos <= |t| && At(t, pos, r, c)
    ensures if r > 0 then At(t, Up(t, pos), r - 1, Min(c, |Lines(t)[r - 1]|)) else Up(t, pos) == pos
  {
    hide Lines, RowStart;
    LineBounds(t, pos, r, c);
    RowFacts(t, r);
    if r > 0 {
      NextRow(Lines(t), r - 1);
      RowFacts(t, r - 1);
      LineBounds(t, RowStart(Lines(t), r) - 1, r - 1, |Lines(t)[r - 1]|);
    }
  }

  /** Down and up again comes back when the lower row is long enough. */
  lemma DownUp(t: Text, pos: nat, r: nat, c: nat)
    requires pos <= |t| && At(t, pos, r, c) && r + 1 < |Lines(t)|
    ensures Up(t, Down(t, pos)) == pos <==> c <= |Lines(t)[r + 1]|
  {
    hide Lines, RowStart, Up, Down;
    DownRow(t, pos, r, c);
    UpRow(t, Down(t, pos), r + 1, Min(c, |Lines(t)[r + 1]|));
  }

  // ---------- splicing ----------

  function InsertAt(t: Text, pos: nat, c: char): Text
    requires pos <= |t|
  {
    t[..pos] + [c] + t[pos..]
  }

  function RemoveAt(t: Text, pos: nat): Text
    requires pos < |t|
  {
    t[..pos] + t[pos + 1..]
  }

  /** A backspace undoes a typed character. */
  lemma InsertRemove(t: Text, pos: nat, c: char)
    requires pos <= |t|
    ensures RemoveAt(InsertAt(t, pos, c), pos) == t
  {
  }
}
