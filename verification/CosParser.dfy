/** The one-pass CosyPy evaluator on token sequences, and its agreement with expression trees. */
module CosParser {
  import opened Int32
  import opened CosTokens

  // ---------- the world a script runs in ----------

  datatype Event = Num(u: nat) | Text(s: string) | DivisionByZero

  /** Variables, keyboard lines still to be read (as numbers) and everything printed. */
  datatype World = World(vars: map<string, int>, inputs: seq<int>, out: seq<Event>)

  const MAX_VARS := 64

  function GetVar(w: World, x: string): int
  {
    if x in w.vars then w.vars[x] else 0
  }

  /** Assignment; a full table silently ignores new names. */
  function SetVar(w: World, x: string, v: int): World
  {
    if x in w.vars || |w.vars| < MAX_VARS then w.(vars := w.vars[x := v]) else w
  }

  function ReadInput(w: World): (int, World)
  {
    if w.inputs == [] then (0, w) else (Wrap(w.inputs[0]), w.(inputs := w.inputs[1..]))
  }

  // ---------- operators ----------

  /** Binding level of a binary operator, from `or` (0) to the multiplicative ones (4); -1 for other tokens. */
  function OpLevel(t: Token): (l: int)
    ensures -1 <= l <= 4
  {
    match t
    case Or => 0
    case And => 1
    case Lt => 2
    case Gt => 2
    case Le => 2
    case Ge => 2
    case EqEq => 2
    case Ne => 2
    case Plus => 3
    case Minus => 3
    case Star => 4
    case Slash => 4
    case Percent => 4
    case _ => -1
  }

  function Truth(b: bool): int { if b then 1 else 0 }

  function Apply(op: Token, a: int, b: int): int
  {
    match op
    case Or => Truth(a != 0 || b != 0)
    case And => Truth(a != 0 && b != 0)
    case Lt => Truth(a < b)
    case Gt => Truth(a > b)
    case Le => Truth(a <= b)
    case Ge => Truth(a >= b)
    case EqEq => Truth(a == b)
    case Ne => Truth(a != b)
    case Plus => Wrap(a + b)
    case Minus => Wrap(a - b)
    case Star => Wrap(a * b)
    case Slash => if b != 0 then Wrap(Div(a, b)) else 0
    case Percent => if b != 0 then Wrap(Mod(a, b)) else 0
    case _ => 0
  }

  /** Only a zero divisor of `/` is reported. */
  function Report(op: Token, b: int, w: World): World
  {
    if op == Slash && b == 0 then w.(out := w.out + [DivisionByZero]) else w
  }

  // ---------- the parser ----------

  const PRIMARY := 5

  /** Tokens after the closing parenthesis of a call whose arguments are skipped. */
  function SkipArgs(ts: seq<Token>): (r: seq<Token>)
    ensures |r| <= |ts|
  {
    if ts == [] then [] else if ts[0] == RParen then ts[1..] else SkipArgs(ts[1..])
  }

  /** Value, remaining tokens and world after parsing at a level; level 5 is parse_primary. */
  function Parse(l: nat, ts: seq<Token>, w: World): (r: (int, seq<Token>, World))
    requires l <= PRIMARY
    ensures |r.1| <= |ts|
    decreases |ts|, PRIMARY - l, 1
  {
    if l < PRIMARY then
      var (v, rest, w') := Parse(l + 1, ts, w);
      Tail(l, v, rest, w')
    else if ts == [] then (0, ts, w)
    else
      match ts[0]
      case Number(n) => (n, ts[1..], w)
      case Str(s) => (|s|, ts[1..], w)
      case Ident(x) =>
        if |ts| > 1 && ts[1] == LParen then
          var rest := SkipArgs(ts[2..]);
          if x == "input" then
            var (v, w') := ReadInput(w);
            (v, rest, w')
          else (0, rest, w)
        else (GetVar(w, x), ts[1..], w)
      case LParen =>
        var (v, rest, w') := Parse(0, ts[1..], w);
        (v, if rest != [] && rest[0] == RParen then rest[1..] else rest, w')
      case Minus =>
        var (v, rest, w') := Parse(PRIMARY, ts[1..], w);
        (Wrap(-v), rest, w')
      case Not =>
        var (v, rest, w') := Parse(PRIMARY, ts[1..], w);
        (Truth(v == 0), rest, w')
      case _ => (0, ts, w)
  }

  /** The operator loop of one level. */
  function Tail(l: nat, left: int, ts: seq<Token>, w: World): (r: (int, seq<Token>, World))
    requires l < PRIMARY
    ensures |r.1| <= |ts|
    decreases |ts|, PRIMARY - l, 0
  {
    if ts != [] && OpLevel(ts[0]) == l then
      var (right, rest, w') := Parse(l + 1, ts[1..], w);
      Tail(l, Apply(ts[0], left, right), rest, Report(ts[0], right, w'))
    else (left, ts, w)
  }

  // ---------- expression trees ----------

  datatype Expr = Lit(n: int) | Var(x: string) | Neg(e: Expr) | NotE(e: Expr) | Bin(op: Token, l: Expr, r: Expr)

  predicate WellFormed(e: Expr)
  {
    match e
    case Lit(n) => InInt32(n)
    case Var(x) => true
    case Neg(a) => WellFormed(a)
    case NotE(a) => WellFormed(a)
    case Bin(op, l, r) => OpLevel(op) >= 0 && WellFormed(l) && WellFormed(r)
  }

  /** The tree's value: operands left to right, both always evaluated. */
  function Eval(e: Expr, w: World): (int, World)
  {
    match e
    case Lit(n) => (n, w)
    case Var(x) => (GetVar(w, x), w)
    case Neg(a) =>
      var (v, w') := Eval(a, w);
      (Wrap(-v), w')
    case NotE(a) =>
      var (v, w') := Eval(a, w);
      (Truth(v == 0), w')
    case Bin(op, l, r) =>
      var (a, w1) := Eval(l, w);
      var (b, w2) := Eval(r, w1);
      (Apply(op, a, b), Report(op, b, w2))
  }

  /** How tightly a tree holds together when printed. */
  function Prec(e: Expr): (p: nat)
    requires WellFormed(e)
    ensures p <= PRIMARY
  {
    if e.Bin? then OpLevel(e.op) else PRIMARY
  }

  /** The tree's tokens at a level, with parentheses only where the level asks for them. */
  function Toks(e: Expr, l: nat): (ts: seq<Token>)
    requires WellFormed(e) && l <= PRIMARY
    decreases e, if Prec(e) < l then 1 else 0
  {
    if Prec(e) < l then [LParen] + Toks(e, 0) + [RParen]
    else
      match e
      case Lit(n) => [Number(n)]
      case Var(x) => [Ident(x)]
      case Neg(a) => [Minus] + Toks(a, PRIMARY)
      case NotE(a) => [Not] + Toks(a, PRIMARY)
      case Bin(op, a, b) => Toks(a, OpLevel(op)) + [op] + Toks(b, OpLevel(op) + 1)
  }

  /** What may follow a tree printed at level `l`: no tighter operator, and no call parenthesis. */
  predicate Follows(l: nat, tail: seq<Token>)
  {
    tail == [] || (OpLevel(tail[0]) <= l && tail[0] != LParen)
  }

  /** Where the operator loop of a level, if it has one, takes over. */
  function Resume(l: nat, v: int, tail: seq<Token>, w: World): (int, seq<Token>, World)
    requires l <= PRIMARY
  {
    if l < PRIMARY then Tail(l, v, tail, w) else (v, tail, w)
  }

  function Rank(e: Expr, l: nat): nat
    requires WellFormed(e) && l <= PRIMARY
  {
    if l <= Prec(e) then Prec(e) - l else 10 + (PRIMARY - l)
  }

  lemma TailStops(l: nat, v: int, tail: seq<Token>, w: World)
    requires l < PRIMARY && (tail == [] || OpLevel(tail[0]) != l)
    ensures Tail(l, v, tail, w) == (v, tail, w)
  {
  }

  lemma TailStep(l: nat, v: int, ts: seq<Token>, w: World)
    requires l < PRIMARY && ts != [] && OpLevel(ts[0]) == l
    ensures var (right, rest, w') := Parse(l + 1, ts[1..], w);
      Tail(l, v, ts, w) == Tail(l, Apply(ts[0], v, right), rest, Report(ts[0], right, w'))
  {
  }

  lemma ParseParen(ts: seq<Token>, w: World)
    requires ts != [] && ts[0] == LParen
    ensures var (v, rest, w') := Parse(0, ts[1..], w);
      Parse(PRIMARY, ts, w) == (v, if rest != [] && rest[0] == RParen then rest[1..] else rest, w')
  {
  }

  lemma ParseUnary(ts: seq<Token>, w: World)
    requires ts != [] && (ts[0] == Minus || ts[0] == Not)
    ensures var (v, rest, w') := Parse(PRIMARY, ts[1..], w);
      Parse(PRIMARY, ts, w) == (if ts[0] == Minus then Wrap(-v) else Truth(v == 0), rest, w')
  {
  }

  lemma ParseAtom(ts: seq<Token>, w: World)
    requires ts == [] || !(ts[0] == LParen || ts[0] == Minus || ts[0] == Not || ts[0].Ident?)
    ensures Parse(PRIMARY, ts, w) ==
      if ts == [] then (0, ts, w)
      else if ts[0].Number? then (ts[0].n, ts[1..], w)
      else if ts[0].Str? then (|ts[0].text|, ts[1..], w)
      else (0, ts, w)
  {
  }

  lemma ParseDown(l: nat, ts: seq<Token>, w: World)
    requires l < PRIMARY
    ensures var (v, rest, w') := Parse(l + 1, ts, w);
      Parse(l, ts, w) == Tail(l, v, rest, w')
  {
  }

  /** Parsing a printed tree computes its value and hands what follows to the operator loop. */
  lemma {:induction false} ParseToks(e: Expr, l: nat, tail: seq<Token>, w: World)
    requires WellFormed(e) && l <= PRIMARY && Follows(l, tail)
    ensures Parse(l, Toks(e, l) + tail, w) == Resume(l, Eval(e, w).0, tail, Eval(e, w).1)
    decreases e, Rank(e, l)
  {
    hide Tail, Apply, Report;
    if l < PRIMARY && Prec(e) != l {
      hide Parse, Eval;
      assert Toks(e, l) == Toks(e, l + 1);
      ParseToks(e, l + 1, tail, w);
      ParseDown(l, Toks(e, l) + tail, w);
      if l + 1 < PRIMARY {
        TailStops(l + 1, Eval(e, w).0, tail, Eval(e, w).1);
      }
    } else if Prec(e) < l {
      hide Parse, Eval;
      ParseParens(e, tail, w);
    } else {
      match e
      case Lit(n) => AtomTail(Number(n), tail);
      case Var(x) => AtomTail(Ident(x), tail);
      case Neg(a) => UnaryTail(Minus, Toks(a, PRIMARY), tail); ParseToks(a, PRIMARY, tail, w);
      case NotE(a) => UnaryTail(Not, Toks(a, PRIMARY), tail); ParseToks(a, PRIMARY, tail, w);
      case Bin(op, a, b) =>
        hide Parse, Eval;
        ParseBin(e, tail, w);
    }
  }

  lemma AtomTail(t: Token, tail: seq<Token>)
    ensures ([t] + tail)[0] == t && ([t] + tail)[1..] == tail
  {
  }

  lemma UnaryTail(t: Token, body: seq<Token>, tail: seq<Token>)
    ensures ([t] + body + tail)[0] == t && ([t] + body + tail)[1..] == body + tail
  {
  }

  lemma {:induction false} ParseParens(e: Expr, tail: seq<Token>, w: World)
    requires WellFormed(e) && Prec(e) < PRIMARY
    ensures Parse(PRIMARY, Toks(e, PRIMARY) + tail, w) == (Eval(e, w).0, tail, Eval(e, w).1)
    decreases e, Rank(e, PRIMARY), 0
  {
    var inner := [RParen] + tail;
    ParseToks(e, 0, inner, w);
    var ts := Toks(e, PRIMARY) + tail;
    assert ts == [LParen] + (Toks(e, 0) + inner);
    assert ts[1..] == Toks(e, 0) + inner;
    assert inner[1..] == tail;
  }

  lemma {:induction false} ParseBin(e: Expr, tail: seq<Token>, w: World)
    requires WellFormed(e) && e.Bin? && Follows(OpLevel(e.op), tail)
    ensures var l := OpLevel(e.op);
      Parse(l, Toks(e, l) + tail, w) == Tail(l, Eval(e, w).0, tail, Eval(e, w).1)
    decreases e, 0, 0
  {
    hide Tail, Apply, Report, Parse;
    var l := OpLevel(e.op);
    var rest := Toks(e.r, l + 1) + tail;
    var mid := [e.op] + rest;
    assert Toks(e, l) + tail == Toks(e.l, l) + mid;
    var (a, w1) := Eval(e.l, w);
    var (b, w2) := Eval(e.r, w1);
    ParseToks(e.l, l, mid, w);
    assert mid[0] == e.op && mid[1..] == rest;
    ParseToks(e.r, l + 1, tail, w1);
    if l + 1 < PRIMARY {
      TailStops(l + 1, b, tail, w2);
    }
    TailStep(l, a, mid, w1);
  }

  /** At the top level the parser stops exactly at a token that is no operator. */
  lemma ParseWhole(e: Expr, tail: seq<Token>, w: World)
    requires WellFormed(e) && (tail == [] || (OpLevel(tail[0]) < 0 && tail[0] != LParen))
    ensures Parse(0, Toks(e, 0) + tail, w) == (Eval(e, w).0, tail, Eval(e, w).1)
  {
    ParseToks(e, 0, tail, w);
  }

  // ---------- exact arithmetic ----------

  /** The value over unbounded integers; comparisons, connectives and division by zero as the language defines them. */
  function Ideal(e: Expr, vars: map<string, int>): int
    requires WellFormed(e)
  {
    match e
    case Lit(n) => n
    case Var(x) => if x in vars then vars[x] else 0
    case Neg(a) => -Ideal(a, vars)
    case NotE(a) => if Ideal(a, vars) == 0 then 1 else 0
    case Bin(op, l, r) =>
      var a, b := Ideal(l, vars), Ideal(r, vars);
      match op
      case Plus => a + b
      case Minus => a - b
      case Star => a * b
      case Slash => if b != 0 then Div(a, b) else 0
      case Percent => if b != 0 then Mod(a, b) else 0
      case Lt => if a < b then 1 else 0
      case Gt => if a > b then 1 else 0
      case Le => if a <= b then 1 else 0
      case Ge => if a >= b then 1 else 0
      case EqEq => if a == b then 1 else 0
      case Ne => if a == b then 0 else 1
      case And => if a == 0 || b == 0 then 0 else 1
      case Or => if a == 0 && b == 0 then 0 else 1
  }

  /** Every intermediate result fits 32 bits. */
  predicate NoOverflow(e: Expr, vars: map<string, int>)
    requires WellFormed(e)
  {
    InInt32(Ideal(e, vars)) &&
    match e
    case Lit(n) => true
    case Var(x) => true
    case Neg(a) => NoOverflow(a, vars)
    case NotE(a) => NoOverflow(a, vars)
    case Bin(op, l, r) => NoOverflow(l, vars) && NoOverflow(r, vars)
  }

  /** Without overflow the machine value is the mathematical one; evaluation never changes variables. */
  lemma {:induction false} EvalIdeal(e: Expr, w: World)
    requires WellFormed(e)
    ensures Eval(e, w).1.vars == w.vars && Eval(e, w).1.inputs == w.inputs
    ensures NoOverflow(e, w.vars) ==> Eval(e, w).0 == Ideal(e, w.vars)
  {
    match e
    case Lit(n) =>
    case Var(x) =>
    case Neg(a) => EvalIdeal(a, w);
    case NotE(a) => EvalIdeal(a, w);
    case Bin(op, l, r) =>
      EvalIdeal(l, w);
      EvalIdeal(r, Eval(l, w).1);
  }
}
