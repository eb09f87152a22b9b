/** The keyboard ring between the interrupt handler and its one reader. */
module Keyboard {

  const CELLS := 256

  /** `kbd_buf`, `kbd_head` and `kbd_tail`. */
  datatype Ring = Ring(buf: seq<char>, head: nat, tail: nat)
  {
    predicate Valid() { |buf| == CELLS && head < CELLS && tail < CELLS }
  }

  function Next(i: nat): (n: nat)
    requires i < CELLS
    ensures n < CELLS
  {
    (i + 1) % CELLS
  }

  /** Cell `k` places after `tail`, going round. */
  function Place(tail: nat, k: nat): (i: nat)
    requires tail < CELLS && k < CELLS
    ensures i < CELLS
  {
    if tail + k < CELLS then tail + k else tail + k - CELLS
  }

  function Count(r: Ring): (n: nat)
    requires r.Valid()
    ensures n < CELLS
  {
    if r.head >= r.tail then r.head - r.tail else r.head + CELLS - r.tail
  }

  /** The unread characters, oldest first. */
  function Pending(r: Ring): (s: seq<char>)
    requires r.Valid()
    ensures |s| == Count(r)
  {
    seq(Count(r), k requires 0 <= k < Count(r) => r.buf[Place(r.tail, k)])
  }

  // ---------- the handler's and the reader's accesses ----------

  function Enqueue(r: Ring, c: char): (q: Ring)
    requires r.Valid()
    ensures q.Valid()
  {
    if Next(r.head) == r.tail then r else r.(buf := r.buf[r.head := c], head := Next(r.head))
  }

  function Advance(r: Ring): (q: Ring)
    requires r.Valid()
    ensures q.Valid()
  {
    r.(tail := Next(r.tail))
  }

  /** A character is dropped exactly when 255 are pending; otherwise it joins the pending ones at the end. */
  lemma EnqueuePending(r: Ring, c: char)
    requires r.Valid()
    ensures Next(r.head) == r.tail <==> Count(r) == CELLS - 1
    ensures Pending(Enqueue(r, c)) == if Count(r) == CELLS - 1 then Pending(r) else Pending(r) + [c]
  {
    var q := Enqueue(r, c);
    if Count(r) != CELLS - 1 {
      assert Place(r.tail, Count(r)) == r.head;
      assert forall k :: 0 <= k < Count(r) ==> Place(r.tail, k) != r.head;
      assert Pending(q) == Pending(r) + [c];
    }
  }

  lemma AdvancePending(r: Ring)
    requires r.Valid() && r.head != r.tail
    ensures Pending(r) == [r.buf[r.tail]] + Pending(Advance(r))
  {
    assert Place(r.tail, 0) == r.tail;
    assert forall k :: 0 <= k < Count(r) - 1 ==> Place(Next(r.tail), k) == Place(r.tail, k + 1);
  }

  // ---------- every interleaving ----------

  /** Where the reader is between two of its memory accesses. */
  datatype Reader = Idle | Checked | Got(c: char) | Flushing

  /** `accepted` and `delivered` are counted from the start of the last flush. */
  datatype World = World(ring: Ring, reader: Reader, accepted: seq<char>, delivered: seq<char>)

  /** An interrupt may come between any two accesses of the reader; the reader goes on, or starts a flush. */
  datatype Action = Interrupt(c: char) | ReaderStep | StartFlush

  function Boot(buf: seq<char>): World { World(Ring(buf, 0, 0), Idle, [], []) }

  function Act(w: World, a: Action): (q: World)
    requires w.ring.Valid()
    ensures q.ring.Valid()
  {
    var r := w.ring;
    match a
    case Interrupt(c) =>
      w.(ring := Enqueue(r, c), accepted := if Next(r.head) == r.tail then w.accepted else w.accepted + [c])
    case StartFlush =>
      if w.reader.Idle? then World(r.(head := 0), Flushing, [], []) else w
    case ReaderStep =>
      match w.reader
      case Idle => if r.head == r.tail then w else w.(reader := Checked)
      case Checked => w.(reader := Got(r.buf[r.tail]))
      case Got(c) => w.(ring := Advance(r), reader := Idle, delivered := w.delivered + [c])
      case Flushing => w.(ring := r.(tail := 0), reader := Idle)
  }

  function Acts(w: World, s: seq<Action>): (q: World)
    requires w.ring.Valid()
    ensures q.ring.Valid()
    decreases |s|
  {
    if s == [] then w else Acts(Act(w, s[0]), s[1..])
  }

  /** Delivered and pending characters are the accepted ones, in order; the reader never acts on a stale cell. */
  ghost predicate Inv(w: World)
  {
    && w.ring.Valid()
    && var r := w.ring;
    match w.reader
    case Idle => w.delivered + Pending(r) == w.accepted
    case Checked => w.delivered + Pending(r) == w.accepted && r.head != r.tail
    case Got(c) => w.delivered + Pending(r) == w.accepted && r.head != r.tail && c == r.buf[r.tail]
    case Flushing => w.delivered == [] && w.accepted == r.buf[..r.head] && (r.tail == 0 || r.head < r.tail)
  }

  lemma BootInv(buf: seq<char>)
    requires |buf| == CELLS
    ensures Inv(Boot(buf))
  {
  }

  lemma ActInv(w: World, a: Action)
    requires Inv(w)
    ensures Inv(Act(w, a))
  {
    var r := w.ring;
    match a
    case Interrupt(c) =>
      EnqueuePending(r, c);
      if w.reader.Flushing? {
        if Next(r.head) != r.tail {
          assert Enqueue(r, c).buf[..r.head + 1] == r.buf[..r.head] + [c];
        }
      } else if Count(r) != CELLS - 1 {
        assert w.delivered + (Pending(r) + [c]) == w.delivered + Pending(r) + [c];
      }
    case StartFlush =>
    case ReaderStep =>
      match w.reader
      case Idle =>
      case Checked =>
      case Got(c) =>
        AdvancePending(r);
        assert w.delivered + ([c] + Pending(Advance(r))) == w.delivered + [c] + Pending(Advance(r));
      case Flushing =>
        var q := r.(tail := 0);
        assert Pending(q) == r.buf[..r.head];
  }

  /** Under every interleaving. */
  lemma {:induction false} ActsInv(w: World, s: seq<Action>)
    requires Inv(w)
    ensures Inv(Acts(w, s))
    decreases |s|
  {
    if s != [] {
      ActInv(w, s[0]);
      ActsInv(Act(w, s[0]), s[1..]);
    }
  }

  /** The reader's characters are a prefix of what the handler accepted, and the rest are still waiting in the ring. */
  lemma NothingLost(buf: seq<char>, s: seq<Action>)
    requires |buf| == CELLS
    ensures var w := Acts(Boot(buf), s);
      && w.delivered <= w.accepted
      && (!w.reader.Flushing? ==> w.accepted[|w.delivered|..] == Pending(w.ring))
  {
    BootInv(buf);
    ActsInv(Boot(buf), s);
  }

  /** An interrupt drops its character exactly when 255 are pending; in the middle of a flush, exactly when those
      accepted since it began have caught up with the old tail. */
  lemma DropExactly(w: World, c: char)
    requires Inv(w)
    ensures var q := Act(w, Interrupt(c));
      && (q.accepted == w.accepted || q.accepted == w.accepted + [c])
      && (!w.reader.Flushing? ==> (q.accepted == w.accepted <==> |Pending(w.ring)| == CELLS - 1))
      && (w.reader.Flushing? ==>
            (q.accepted == w.accepted <==> |w.accepted| + 1 == if w.ring.tail == 0 then CELLS else w.ring.tail))
  {
    EnqueuePending(w.ring, c);
  }

  /** With 254 or fewer characters pending a key is kept, with 255 it is dropped. */
  lemma Room(w: World, c: char)
    requires Inv(w) && !w.reader.Flushing?
    ensures |Pending(w.ring)| <= 255
    ensures var q := Act(w, Interrupt(c));
      Pending(q.ring) == (if |Pending(w.ring)| < 255 then Pending(w.ring) + [c] else Pending(w.ring)) && q.delivered == w.delivered
  {
    EnqueuePending(w.ring, c);
  }

  /** Three steps of an idle reader deliver the oldest pending character, whatever keys are pressed between them. */
  lemma ReaderGets(w: World, s: seq<Action>, t: seq<Action>)
    requires Inv(w) && w.reader.Idle? && Pending(w.ring) != [] && AllKeys(s) && AllKeys(t)
    ensures Acts(w, [ReaderStep] + s + [ReaderStep] + t + [ReaderStep]).delivered == w.delivered + [Pending(w.ring)[0]]
  {
    hide Act, Inv, Pending;
    Idles(w);
    var w1 := Act(w, ReaderStep);
    KeysWait(w1, s);
    var w2 := Acts(w1, s);
    Checks(w2);
    var w3 := Act(w2, ReaderStep);
    KeysWait(w3, t);
    var w4 := Acts(w3, t);
    Gets(w4);
    var w5 := Act(w4, ReaderStep);
    One(w, ReaderStep);
    One(w2, ReaderStep);
    One(w4, ReaderStep);
    ActsAppend(w, [ReaderStep], s);
    ActsAppend(w, [ReaderStep] + s, [ReaderStep]);
    ActsAppend(w, [ReaderStep] + s + [ReaderStep], t);
    ActsAppend(w, [ReaderStep] + s + [ReaderStep] + t, [ReaderStep]);
  }

  ghost predicate AllKeys(s: seq<Action>) { forall i :: 0 <= i < |s| ==> s[i].Interrupt? }

  lemma One(w: World, a: Action)
    requires w.ring.Valid()
    ensures Acts(w, [a]) == Act(w, a)
  {
    hide Act;
    assert Acts(Act(w, a), []) == Act(w, a);
  }

  lemma {:induction false} ActsAppend(w: World, s: seq<Action>, t: seq<Action>)
    requires w.ring.Valid()
    ensures Acts(w, s + t) == Acts(Acts(w, s), t)
    decreases |s|
  {
    hide Act;
    if s == [] {
      assert s + t == t;
    } else {
      assert (s + t)[1..] == s[1..] + t;
      ActsAppend(Act(w, s[0]), s[1..], t);
    }
  }

  lemma Idles(w: World)
    requires Inv(w) && w.reader.Idle? && Pending(w.ring) != []
    ensures var q := Act(w, ReaderStep);
      Inv(q) && q.reader == Checked && q.ring == w.ring && q.delivered == w.delivered
  {
  }

  lemma Checks(w: World)
    requires Inv(w) && w.reader.Checked?
    ensures Pending(w.ring) != []
    ensures var q := Act(w, ReaderStep);
      Inv(q) && q.reader == Got(Pending(w.ring)[0]) && q.ring == w.ring && q.delivered == w.delivered
  {
    AdvancePending(w.ring);
  }

  lemma Gets(w: World)
    requires Inv(w) && w.reader.Got?
    ensures Act(w, ReaderStep).delivered == w.delivered + [w.reader.c] && Act(w, ReaderStep).reader == Idle
  {
  }

  /** Keys pressed meanwhile leave the reader where it is and the oldest character in place. */
  lemma {:induction false} KeysWait(w: World, s: seq<Action>)
    requires Inv(w) && (w.reader.Checked? || w.reader.Got?) && AllKeys(s) && Pending(w.ring) != []
    ensures var q := Acts(w, s);
      Inv(q) && q.reader == w.reader && q.delivered == w.delivered && Pending(q.ring) != [] && Pending(q.ring)[0] == Pending(w.ring)[0]
    decreases |s|
  {
    if s != [] {
      hide Pending, Acts;
      var q := Act(w, s[0]);
      EnqueuePending(w.ring, s[0].c);
      ActInv(w, s[0]);
      KeysWait(q, s[1..]);
      assert Acts(w, s) == Acts(q, s[1..]) by { Unfold(w, s); }
    }
  }

  lemma Unfold(w: World, s: seq<Action>)
    requires w.ring.Valid() && s != []
    ensures Acts(w, s) == Acts(Act(w, s[0]), s[1..])
  {
  }

  /** One character read, a flush begun: the next key is lost although nothing is pending. */
  lemma FlushCanDrop(buf: seq<char>, a: char, b: char)
    requires |buf| == CELLS
    ensures var w := Acts(Boot(buf), [Interrupt(a), ReaderStep, ReaderStep, ReaderStep, StartFlush]);
      w.reader.Flushing? && Act(w, Interrupt(b)) == w && w.accepted == [] && Act(w, ReaderStep).ring.head == Act(w, ReaderStep).ring.tail
  {
    var w0 := Boot(buf);
    var w1 := Act(w0, Interrupt(a));
    var w2 := Act(w1, ReaderStep);
    var w3 := Act(w2, ReaderStep);
    var w4 := Act(w3, ReaderStep);
    var w5 := Act(w4, StartFlush);
    assert w5.ring.head == 0 && w5.ring.tail == 1;
    var s := [Interrupt(a), ReaderStep, ReaderStep, ReaderStep, StartFlush];
    assert s[1..] == [ReaderStep, ReaderStep, ReaderStep, StartFlush];
    assert s[1..][1..] == [ReaderStep, ReaderStep, StartFlush];
    assert s[1..][1..][1..] == [ReaderStep, StartFlush];
    assert s[1..][1..][1..][1..] == [StartFlush];
    assert s[1..][1..][1..][1..][1..] == [];
    assert Acts(w5, []) == w5;
    assert Acts(w4, [StartFlush]) == w5;
    assert Acts(w3, [ReaderStep, StartFlush]) == w5;
    assert Acts(w2, [ReaderStep, ReaderStep, StartFlush]) == w5;
  }

  // ---------- the ring in place ----------

  class KeyRing {
    const buf: array<char>
    var head: nat
    var tail: nat

    ghost predicate Valid()
      reads this
    {
      buf.Length == CELLS && head < CELLS && tail < CELLS
    }

    ghost function State(): (r: Ring)
      requires Valid()
      reads this, buf
      ensures r.Valid()
    {
      Ring(buf[..], head, tail)
    }

    constructor ()
      ensures Valid() && Pending(State()) == [] && fresh(buf)
    {
      buf := new char[CELLS](_ => '\0');
      head, tail := 0, 0;
    }

    method EnqueueChar(c: char)
      requires Valid()
      modifies this`head, buf
      ensures Valid() && State() == Enqueue(old(State()), c)
      ensures Pending(State()) == if |old(Pending(State()))| == CELLS - 1 then old(Pending(State())) else old(Pending(State())) + [c]
    {
      EnqueuePending(State(), c);
      var next := (head + 1) % CELLS;
      if next == tail {
        return;
      }
      ghost var was := buf[..];
      buf[head] := c;
      assert buf[..] == was[head := c];
      head := next;
    }

    method DequeueChar() returns (ok: bool, c: char)
      requires Valid()
      modifies this`tail
      ensures Valid() && ok == (|old(Pending(State()))| > 0)
      ensures ok ==> old(Pending(State())) == [c] + Pending(State())
      ensures ok ==> State() == Advance(old(State()))
      ensures !ok ==> State() == old(State())
    {
      if head == tail {
        return false, '\0';
      }
      AdvancePending(State());
      c := buf[tail];
      tail := (tail + 1) % CELLS;
      ok := true;
    }

    method Flush()
      requires Valid()
      modifies this`head, this`tail
      ensures Valid() && Pending(State()) == []
    {
      head := 0;
      tail := 0;
    }
  }
}
