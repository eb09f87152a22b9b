/** The CosyPy interpreter as it runs: global cursor, current token, variable table and flags. */
module CosInterp {
  import opened Int32
  import opened Decimal
  import opened CosTokens
  import opened CosParser
  import opened CosMachine

  /** The map a variable table stands for. */
  function VarMap(names: seq<string>, values: seq<int>): (m: map<string, int>)
    requires |names| == |values|
    ensures forall x :: x in m <==> x in names
  {
    if names == [] then map[]
    else
      var n := |names| - 1;
      assert names == names[..n] + [names[n]];
      VarMap(names[..n], values[..n])[names[n] := values[n]]
  }

  ghost predicate Distinct(names: seq<string>) { forall i, j :: 0 <= i < j < |names| ==> names[i] != names[j] }

  lemma {:induction false} VarMapAt(names: seq<string>, values: seq<int>, i: nat)
    requires |names| == |values| && Distinct(names) && i < |names|
    ensures names[i] in VarMap(names, values) && VarMap(names, values)[names[i]] == values[i]
  {
    var n := |names| - 1;
    if i < n {
      assert names[..n][i] == names[i];
      VarMapAt(names[..n], values[..n], i);
    }
  }

  lemma {:induction false} VarMapSize(names: seq<string>, values: seq<int>)
    requires |names| == |values| && Distinct(names)
    ensures |VarMap(names, values)| == |names|
  {
    if names != [] {
      var n := |names| - 1;
      VarMapSize(names[..n], values[..n]);
      assert names[n] !in names[..n];
    }
  }

  lemma VarMapUnfold(names: seq<string>, values: seq<int>)
    requires |names| == |values| && names != []
    ensures var n := |names| - 1;
      VarMap(names, values) == VarMap(names[..n], values[..n])[names[n] := values[n]]
  {
  }

  lemma SliceUpdate(values: seq<int>, i: nat, v: int)
    requires i < |values|
    ensures var n := |values| - 1;
      values[i := v][..n] == (if i < n then values[..n][i := v] else values[..n])
  {
  }

  lemma DistinctInit(names: seq<string>, i: nat)
    requires Distinct(names) && i < |names|
    ensures var n := |names| - 1;
      Distinct(names[..n]) && (i < n ==> names[..n][i] == names[i] != names[n])
  {
  }

  lemma SwapUpdates(m: map<string, int>, x: string, v: int, y: string, u: int)
    requires x != y
    ensures m[x := v][y := u] == m[y := u][x := v]
  {
  }

  lemma {:induction false} VarMapUpdate(names: seq<string>, values: seq<int>, i: nat, v: int)
    requires |names| == |values| && Distinct(names) && i < |names|
    ensures VarMap(names, values[i := v]) == VarMap(names, values)[names[i] := v]
  {
    hide VarMap, Distinct;
    var n := |names| - 1;
    VarMapUnfold(names, values);
    VarMapUnfold(names, values[i := v]);
    SliceUpdate(values, i, v);
    DistinctInit(names, i);
    if i < n {
      VarMapUpdate(names[..n], values[..n], i, v);
      SwapUpdates(VarMap(names[..n], values[..n]), names[i], v, names[n], values[n]);
    }
  }

  lemma VarMapPush(names: seq<string>, values: seq<int>, x: string, v: int)
    requires |names| == |values|
    ensures VarMap(names + [x], values + [v]) == VarMap(names, values)[x := v]
  {
    assert (names + [x])[..|names|] == names && (values + [v])[..|values|] == values;
  }

  predicate IsComparison(t: Token)
    ensures IsComparison(t) <==> OpLevel(t) == 2
  {
    t == Lt || t == Gt || t == Le || t == Ge || t == EqEq || t == Ne
  }

  predicate IsAdditive(t: Token)
    ensures IsAdditive(t) <==> OpLevel(t) == 3
  {
    t == Plus || t == Minus
  }

  predicate IsMultiplicative(t: Token)
    ensures IsMultiplicative(t) <==> OpLevel(t) == 4
  {
    t == Star || t == Slash || t == Percent
  }

  lemma NoReport(op: Token, b: int, w: World)
    requires OpLevel(op) == 2
    ensures Report(op, b, w) == w
  {
  }

  lemma EofIsNoOp()
    ensures OpLevel(Eof) == -1
  {
  }

  class Interp {
    var cursor: string
    /** The line the cursor was last set on. */
    ghost var line: string
    var tok: Token
    var names: seq<string>
    var values: seq<int>
    var inputs: seq<int>
    var out: seq<Event>
    var depth: nat
    var skip: bool
    var cond: string
    var loops: nat

    ghost predicate Valid()
      reads this
    {
      |names| == |values| <= MAX_VARS && Distinct(names) && Inside(cursor, line)
    }

    ghost function W(): World
      requires Valid()
      reads this
    {
      World(VarMap(names, values), inputs, out)
    }

    ghost function M(): Machine
      requires Valid()
      reads this
    {
      Machine(W(), depth, skip, cond, loops)
    }

    /** Tokens not yet consumed. */
    ghost function Rem(): seq<Token>
      reads this`cursor, this`tok
    {
      Pending(tok, cursor)
    }

    constructor (keyboard: seq<int>)
      ensures Valid() && M() == Start(keyboard)
    {
      cursor, line, tok, names, values := "", "", Eof, [], [];
      inputs, out, depth, skip, cond, loops := keyboard, [], 0, false, "", 0;
    }

    // ---------- tokenizer ----------

    method SkipWhitespace()
      modifies this`cursor
      ensures cursor == SkipBlanks(old(cursor))
    {
      while cursor != "" && Blank(cursor[0])
        invariant SkipBlanks(cursor) == SkipBlanks(old(cursor))
        decreases |cursor|
      {
        cursor := cursor[1..];
      }
    }

    method NumberToken()
      requires cursor != "" && StartsNumber(cursor)
      modifies this`cursor, this`tok
      ensures (tok, cursor) == LexNumber(old(cursor))
    {
      var sign := 1;
      if cursor[0] == '-' {
        sign := -1;
        cursor := cursor[1..];
      }
      ghost var body := cursor;
      ghost var k := DigitRun(body);
      var n, i := 0, 0;
      while cursor != "" && IsDigit(cursor[0])
        invariant 0 <= i <= k && cursor == body[i..]
        invariant Accumulate(n, body[i..k]) == Accumulate(0, body[..k])
        decreases |cursor|
      {
        assert body[i..k][0] == body[i] && body[i..k][1..] == body[i + 1..k];
        n := Wrap(n * 10 + DigitVal(cursor[0]));
        cursor := cursor[1..];
        i := i + 1;
      }
      assert i == k;
      tok := Number(Wrap(if sign == -1 then -n else n));
    }

    method StringToken()
      requires cursor != ""
      modifies this`cursor, this`tok
      ensures (tok, cursor) == LexString(old(cursor))
    {
      var quote := cursor[0];
      cursor := cursor[1..];
      ghost var body := cursor;
      ghost var k := QuoteRun(body, quote, STRING_CAP);
      var i := 0;
      var text := "";
      while cursor != "" && cursor[0] != NUL && cursor[0] != quote && i < STRING_CAP
        invariant 0 <= i <= k && cursor == body[i..] && text == body[..i]
        decreases |cursor|
      {
        text := text + [cursor[0]];
        cursor := cursor[1..];
        i := i + 1;
      }
      assert i == k;
      if cursor != "" && cursor[0] == quote {
        cursor := cursor[1..];
      }
      tok := Str(text);
    }

    method IdentToken()
      requires cursor != "" && IsAlpha(cursor[0])
      modifies this`cursor, this`tok
      ensures (tok, cursor) == LexIdent(old(cursor))
    {
      ghost var body := cursor;
      ghost var k := AlnumRun(body, IDENT_CAP);
      var i := 0;
      var name := "";
      while cursor != "" && IsAlnum(cursor[0]) && i < IDENT_CAP
        invariant 0 <= i <= k && cursor == body[i..] && name == body[..i]
        decreases |cursor|
      {
        name := name + [cursor[0]];
        cursor := cursor[1..];
        i := i + 1;
      }
      assert i == k;
      tok := Keyword(name);
    }

    method SymbolToken()
      requires cursor != ""
      modifies this`cursor, this`tok
      ensures (tok, cursor) == LexSymbol(old(cursor))
    {
      var (t, rest) := LexSymbol(cursor);
      tok, cursor := t, rest;
    }

    /** Reads a token; the cursor never leaves the line it was set on. */
    method NextToken()
      requires Inside(cursor, line)
      modifies this`cursor, this`tok
      ensures Inside(cursor, line)
      ensures (tok, cursor) == Lex(old(cursor)) && Rem() == Tokens(old(cursor))
    {
      hide LexNumber, LexString, LexIdent, LexSymbol, Inside;
      LexInside(cursor);
      InsideTrans(Lex(cursor).1, cursor, line);
      SkipWhitespace();
      if cursor == "" || cursor[0] == NUL || cursor[0] == '#' {
        tok := Eof;
      } else if StartsNumber(cursor) {
        NumberToken();
      } else if cursor[0] == '"' || cursor[0] == '\'' {
        StringToken();
      } else if IsAlpha(cursor[0]) {
        IdentToken();
      } else {
        SymbolToken();
      }
    }

    /** Consumes the current token, which is never the end token. */
    method Advance()
      requires tok != Eof && Inside(cursor, line)
      modifies this`cursor, this`tok
      ensures Inside(cursor, line)
      ensures Rem() == old(Rem())[1..] && |Rem()| < |old(Rem())|
    {
      hide Inside, Lex, Tokens;
      NextToken();
    }

    // ---------- variables ----------

    method Find(name: string) returns (i: nat)
      requires Valid()
      ensures i <= |names| && (i < |names| ==> names[i] == name) && (i == |names| ==> name !in names)
    {
      i := 0;
      while i < |names|
        invariant i <= |names| && name !in names[..i]
      {
        if names[i] == name {
          return;
        }
        i := i + 1;
      }
      assert names[..i] == names;
    }

    method GetValue(name: string) returns (v: int)
      requires Valid()
      ensures v == GetVar(W(), name)
    {
      var i := Find(name);
      if i < |names| {
        VarMapAt(names, values, i);
        v := values[i];
      } else {
        v := 0;
      }
    }

    method SetValue(name: string, v: int)
      requires Valid()
      modifies this`names, this`values
      ensures Valid() && W() == SetVar(old(W()), name, v)
    {
      var i := Find(name);
      VarMapSize(names, values);
      if i < |names| {
        VarMapUpdate(names, values, i, v);
        values := values[i := v];
      } else if |names| < MAX_VARS {
        VarMapPush(names, values, name, v);
        names, values := names + [name], values + [v];
      }
    }

    // ---------- expressions ----------

    /** Reads a keyboard line as a number. */
    method Input() returns (v: int)
      requires Valid()
      modifies this`inputs
      ensures (v, W()) == ReadInput(old(W()))
    {
      v := 0;
      if inputs != [] {
        v := Wrap(inputs[0]);
        inputs := inputs[1..];
      }
    }

    /** Skips call arguments up to and including the closing parenthesis. */
    method SkipCall()
      requires Inside(cursor, line)
      modifies this`cursor, this`tok
      ensures Inside(cursor, line)
      ensures Rem() == SkipArgs(old(Rem()))
    {
      hide Inside, Lex, Tokens;
      while tok != RParen && tok != Eof
        invariant Inside(cursor, line)
        invariant SkipArgs(Rem()) == SkipArgs(old(Rem()))
        decreases |Rem()|
      {
        Advance();
      }
      if tok == RParen {
        Advance();
      }
    }

    /** After an identifier: a call, or the variable's value. */
    method CallOrVariable(x: string) returns (v: int)
      requires Valid()
      modifies this`cursor, this`tok, this`inputs
      ensures Valid() && (v, Rem(), W()) == Parse(PRIMARY, [Ident(x)] + old(Rem()), old(W()))
    {
      hide Inside, Lex, Tokens, VarMap;
      ghost var ts := [Ident(x)] + Rem();
      assert ts[1..] == Rem();
      if tok == LParen {
        assert ts[1] == LParen && ts[2..] == Rem()[1..];
        Advance();
        SkipCall();
        if x == "input" {
          v := Input();
        } else {
          v := 0;
        }
      } else {
        v := GetValue(x);
      }
    }

    method ParsePrimary() returns (v: int)
      requires Valid()
      modifies this`cursor, this`tok, this`inputs, this`out
      ensures Valid() && (v, Rem(), W()) == Parse(PRIMARY, old(Rem()), old(W()))
      decreases |Rem()|, 0
    {
      hide Inside, Lex, Tokens, VarMap, Tail, Parse;
      ghost var ts, w := Rem(), W();
      match tok
      case Number(n) =>
        ParseAtom(ts, w);
        Advance();
        v := n;
      case Str(s) =>
        ParseAtom(ts, w);
        Advance();
        v := |s|;
      case Ident(x) =>
        assert ts == [Ident(x)] + ts[1..];
        Advance();
        v := CallOrVariable(x);
      case LParen =>
        ParseParen(ts, w);
        Advance();
        v := ParseExpr();
        if tok == RParen {
          Advance();
        }
      case Minus =>
        ParseUnary(ts, w);
        Advance();
        v := ParsePrimary();
        v := Wrap(-v);
      case Not =>
        ParseUnary(ts, w);
        Advance();
        v := ParsePrimary();
        v := Truth(v == 0);
      case _ =>
        ParseAtom(ts, w);
        v := 0;
    }

    method ParseTerm() returns (left: int)
      requires Valid()
      modifies this`cursor, this`tok, this`inputs, this`out
      ensures Valid() && (left, Rem(), W()) == Parse(4, old(Rem()), old(W()))
      decreases |Rem()|, 1
    {
      hide Inside, Lex, Tokens, Parse, Tail, VarMap;
      ParseDown(4, Rem(), W());
      left := ParsePrimary();
      while IsMultiplicative(tok)
        invariant Valid() && |Rem()| <= |old(Rem())|
        invariant Tail(4, left, Rem(), W()) == Parse(4, old(Rem()), old(W()))
        decreases |Rem()|
      {
        var op := tok;
        TailStep(4, left, Rem(), W());
        Advance();
        var right := ParsePrimary();
        if op == Star {
          left := Wrap(left * right);
        } else if op == Slash {
          if right != 0 {
            left := Wrap(Div(left, right));
          } else {
            out := out + [DivisionByZero];
            left := 0;
          }
        } else if right != 0 {
          left := Wrap(Mod(left, right));
        } else {
          left := 0;
        }
      }
      TailStops(4, left, Rem(), W());
    }

    method ParseAdditive() returns (left: int)
      requires Valid()
      modifies this`cursor, this`tok, this`inputs, this`out
      ensures Valid() && (left, Rem(), W()) == Parse(3, old(Rem()), old(W()))
      decreases |Rem()|, 2
    {
      hide Inside, Lex, Tokens, Parse, Tail, VarMap;
      ParseDown(3, Rem(), W());
      left := ParseTerm();
      while IsAdditive(tok)
        invariant Valid() && |Rem()| <= |old(Rem())|
        invariant Tail(3, left, Rem(), W()) == Parse(3, old(Rem()), old(W()))
        decreases |Rem()|
      {
        var op := tok;
        TailStep(3, left, Rem(), W());
        Advance();
        var right := ParseTerm();
        left := if op == Plus then Wrap(left + right) else Wrap(left - right);
      }
      TailStops(3, left, Rem(), W());
    }

    method Compare(op: Token, a: int, b: int) returns (v: int)
      requires OpLevel(op) == 2
      ensures v == Apply(op, a, b)
    {
      match op
      case Lt => v := Truth(a < b);
      case Gt => v := Truth(a > b);
      case Le => v := Truth(a <= b);
      case Ge => v := Truth(a >= b);
      case EqEq => v := Truth(a == b);
      case Ne => v := Truth(a != b);
    }

    method ParseComparison() returns (left: int)
      requires Valid()
      modifies this`cursor, this`tok, this`inputs, this`out
      ensures Valid() && (left, Rem(), W()) == Parse(2, old(Rem()), old(W()))
      decreases |Rem()|, 3
    {
      hide Inside, Lex, Tokens, Parse, Tail, VarMap, Apply, OpLevel, IsComparison, Report;
      EofIsNoOp();
      ParseDown(2, Rem(), W());
      left := ParseAdditive();
      while IsComparison(tok)
        invariant Valid() && |Rem()| <= |old(Rem())|
        invariant Tail(2, left, Rem(), W()) == Parse(2, old(Rem()), old(W()))
        decreases |Rem()|
      {
        var op := tok;
        TailStep(2, left, Rem(), W());
        Advance();
        var right := ParseAdditive();
        NoReport(op, right, W());
        left := Compare(op, left, right);
      }
      TailStops(2, left, Rem(), W());
    }

    method ParseAnd() returns (left: int)
      requires Valid()
      modifies this`cursor, this`tok, this`inputs, this`out
      ensures Valid() && (left, Rem(), W()) == Parse(1, old(Rem()), old(W()))
      decreases |Rem()|, 4
    {
      hide Inside, Lex, Tokens, Parse, Tail, VarMap;
      ParseDown(1, Rem(), W());
      left := ParseComparison();
      while tok == And
        invariant Valid() && |Rem()| <= |old(Rem())|
        invariant Tail(1, left, Rem(), W()) == Parse(1, old(Rem()), old(W()))
        decreases |Rem()|
      {
        TailStep(1, left, Rem(), W());
        Advance();
        var right := ParseComparison();
        left := Truth(left != 0 && right != 0);
      }
      TailStops(1, left, Rem(), W());
    }

    method ParseExpr() returns (left: int)
      requires Valid()
      modifies this`cursor, this`tok, this`inputs, this`out
      ensures Valid() && (left, Rem(), W()) == Parse(0, old(Rem()), old(W()))
      decreases |Rem()|, 5
    {
      hide Inside, Lex, Tokens, Parse, Tail, VarMap;
      ParseDown(0, Rem(), W());
      left := ParseAnd();
      while tok == Or
        invariant Valid() && |Rem()| <= |old(Rem())|
        invariant Tail(0, left, Rem(), W()) == Parse(0, old(Rem()), old(W()))
        decreases |Rem()|
      {
        TailStep(0, left, Rem(), W());
        Advance();
        var right := ParseAnd();
        left := Truth(left != 0 || right != 0);
      }
      TailStops(0, left, Rem(), W());
    }

    method SetCursor(text: string)
      requires Valid()
      modifies this`cursor, this`line
      ensures Valid() && cursor == text && W() == old(W())
    {
      InsideCut(text, 0);
      cursor, line := text, text;
    }

    /** Evaluates the expression a text starts with. */
    method Evaluate(text: string) returns (v: int)
      requires Valid()
      modifies this`cursor, this`line, this`tok, this`inputs, this`out
      ensures Valid() && v == Parse(0, Tokens(text), old(W())).0 && W() == Parse(0, Tokens(text), old(W())).2
    {
      hide Inside, Lex, Tokens, Parse, VarMap;
      SetCursor(text);
      NextToken();
      v := ParseExpr();
    }

    // ---------- statements ----------

    method Print(text: string)
      requires Valid()
      modifies this`cursor, this`line, this`tok, this`inputs, this`out
      ensures Valid() && W() == ExecPrint(text, old(W()))
    {
      hide Inside, Lex, Tokens, Parse, VarMap;
      SetCursor(text);
      NextToken();
      if tok.Str? {
        out := out + [Text(tok.text)];
      } else {
        var v := ParseExpr();
        out := out + [Num(Unsigned(v))];
      }
    }

    method AssignOrNothing(text: string)
      requires Valid()
      modifies this`cursor, this`line, this`tok, this`inputs, this`out, this`names, this`values
      ensures Valid() && W() == ExecOther(text, old(W()))
    {
      hide Inside, Lex, Tokens, Parse, VarMap;
      SetCursor(text);
      NextToken();
      if tok.Ident? {
        var name := tok.name;
        NextToken();
        if tok == Eq {
          NextToken();
          var v := ParseExpr();
          SetValue(name, v);
        }
      }
    }

    method ExecuteStatement(line: string) returns (rc: int)
      requires Valid()
      modifies this
      ensures Valid() && M() == Exec(line, old(M()))
      ensures rc < 0 <==> IsExit(SkipBlanks(line))
    {
      hide Inside, Lex, Tokens, Parse, VarMap, ExecPrint, ExecOther;
      rc := 0;
      var l := SkipBlanks(line);
      if l == "" || l[0] == NUL || l[0] == '#' {
        return;
      }
      if IsExit(l) {
        return -1;
      }
      if "endif" <= l {
        if depth > 0 {
          depth := depth - 1;
          if depth == 0 {
            skip := false;
          }
        }
      } else if IsElse(l) {
        if depth == 1 {
          skip := !skip;
        }
      } else if "if " <= l {
        depth := depth + 1;
        if !skip {
          var v := Evaluate(l[3..]);
          if v == 0 {
            skip := true;
          }
        }
      } else if skip || "endwhile" <= l {
        return;
      } else if "while " <= l {
        cond := l[6..];
        loops := loops + 1;
      } else if "def " <= l {
        return;
      } else if IsPrint(l) {
        Print(l[6..]);
      } else {
        AssignOrNothing(l);
      }
    }

    // ---------- script files ----------

    method CollectLines(content: string) returns (lines: seq<string>)
      ensures lines == SplitLines(content, MAX_LINES)
    {
      hide PieceLen, AfterPiece, SplitLines;
      lines := [];
      var p := content;
      while p != "" && |lines| < MAX_LINES
        invariant |lines| <= MAX_LINES
        invariant SplitLines(content, MAX_LINES) == lines + SplitLines(p, MAX_LINES - |lines|)
        decreases |p|
      {
        SplitUnfold(p, MAX_LINES - |lines|);
        var piece, rest := TakeLine(p);
        assert lines + ([piece] + SplitLines(rest, MAX_LINES - |lines| - 1))
          == (lines + [piece]) + SplitLines(rest, MAX_LINES - |lines| - 1);
        lines := lines + [piece];
        p := rest;
      }
      SplitUnfold(p, MAX_LINES - |lines|);
    }

    method TakeLine(s: string) returns (piece: string, rest: string)
      requires s != ""
      ensures piece == s[..PieceLen(s, LINE_CAP)] && rest == AfterPiece(s)
    {
      var len := 0;
      while len < |s| && s[len] != '\n' && len < LINE_CAP
        invariant 0 <= len <= PieceLen(s, LINE_CAP)
      {
        len := len + 1;
      }
      piece := s[..len];
      rest := if len < |s| && s[len] == '\n' then s[len + 1..] else s[len..];
    }

    method ExecuteBody(body: seq<string>)
      requires Valid()
      modifies this
      ensures Valid() && M() == ExecAll(body, old(M()))
    {
      hide Exec, VarMap;
      for j := 0 to |body|
        invariant Valid() && ExecAll(body[j..], M()) == ExecAll(body, old(M()))
      {
        assert body[j..][0] == body[j] && body[j..][1..] == body[j + 1..];
        var _ := ExecuteStatement(body[j]);
      }
    }

    method RunLoop(body: seq<string>)
      requires Valid()
      modifies this
      ensures Valid() && M() == Loop(MAX_ROUNDS, body, old(M()))
    {
      hide Inside, Lex, Tokens, Parse, VarMap, ExecAll;
      var rounds := MAX_ROUNDS;
      while rounds > 0
        invariant 0 <= rounds <= MAX_ROUNDS && Valid()
        invariant Loop(rounds, body, M()) == Loop(MAX_ROUNDS, body, old(M()))
      {
        var v := Evaluate(cond);
        if v == 0 {
          return;
        }
        ExecuteBody(body);
        rounds := rounds - 1;
      }
    }

    method FileStep(line: string, body: seq<string>) returns (body': seq<string>)
      requires Valid()
      modifies this
      ensures Valid() && (M(), body') == FileLine(line, old(M()), body)
    {
      hide VarMap, Exec, Loop, SkipBlanks;
      var l := SkipBlanks(line);
      body' := body;
      if loops > 0 && !("endwhile" <= l) {
        if |body| < MAX_BODY {
          body' := body + [l];
        }
        if "while " <= l {
          loops := loops + 1;
        }
      } else if loops > 0 {
        loops := loops - 1;
        if loops == 0 {
          RunLoop(body);
          body' := [];
        }
      } else {
        var _ := ExecuteStatement(l);
      }
    }

    method RunScript(content: string)
      requires Valid()
      modifies this
      ensures Valid() && M() == RunFile(content, old(M()))
    {
      hide FileLine, SplitLines;
      names, values, depth, skip, loops := [], [], 0, false, 0;
      ghost var m0 := M();
      var lines := CollectLines(content);
      var body := [];
      for i := 0 to |lines|
        invariant Valid() && FileLines(lines[i..], M(), body) == FileLines(lines, m0, [])
      {
        assert lines[i..][0] == lines[i] && lines[i..][1..] == lines[i + 1..];
        body := FileStep(lines[i], body);
      }
    }
  }
}
