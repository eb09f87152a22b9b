/** The editor session in place: a NUL-terminated buffer shifted by loops, refining the key machine. */
module Editor {
  import opened EditorText
  import opened EditorSpec

  class Session {
    const text: array<char>
    const colon: array<char>
    var len: nat
    var cursor: nat
    var insert: bool
    var dirty: bool
    ghost var saved: Text

    ghost predicate Valid()
      reads this, text
    {
      && text != colon && text.Length == CAPACITY && colon.Length == COLON
      && cursor <= len < CAPACITY && text[len] == NUL
    }

    ghost function Contents(): Text
      requires Valid()
      reads this, text
    {
      text[..len]
    }

    ghost function State(): (ed: Ed)
      requires Valid()
      reads this, text
      ensures ed.cursor <= |ed.text|
    {
      Ed(Contents(), cursor, insert, dirty, saved)
    }

    /** Opens a text of at most 4095 characters; an absent file opens as the empty text. */
    constructor (src: Text)
      requires |src| < CAPACITY
      ensures Valid() && State() == Open(src) && fresh(text) && fresh(colon)
    {
      text := new char[CAPACITY](i => if 0 <= i < |src| then src[i] else NUL);
      colon := new char[COLON](_ => NUL);
      len, cursor, insert, dirty, saved := |src|, 0, false, false, src;
      new;
      assert text[..|src|] == src;
    }

    method FindLineStart(pos: nat) returns (s: nat)
      requires Valid() && pos <= len
      ensures s == LineStart(Contents(), pos) && s <= pos
    {
      s := pos;
      while s > 0 && text[s - 1] != '\n'
        invariant s <= pos && LineStart(Contents(), pos) == LineStart(Contents(), s)
      {
        s := s - 1;
      }
    }

    method FindLineEnd(pos: nat) returns (e: nat)
      requires Valid() && pos <= len
      ensures e == LineEnd(Contents(), pos)
    {
      e := pos;
      while e < len && text[e] != '\n'
        invariant pos <= e <= len && LineEnd(Contents(), pos) == LineEnd(Contents(), e)
      {
        e := e + 1;
      }
    }

    /** Shifts the tail up by one and puts `c` in front of it; refused when the buffer is full. */
    method InsertChar(c: char) returns (ok: bool)
      requires Valid()
      modifies this`len, this`cursor, text
      ensures Valid() && ok == (old(len) + 1 < CAPACITY)
      ensures ok ==> Contents() == InsertAt(old(Contents()), old(cursor), c) && cursor == old(cursor) + 1
      ensures !ok ==> Contents() == old(Contents()) && cursor == old(cursor)
    {
      if len + 1 >= CAPACITY {
        return false;
      }
      ghost var was := text[..];
      var i := len;
      while i > cursor
        invariant len == old(len) && cursor == old(cursor) && cursor <= i <= len < text.Length
        invariant forall k :: 0 <= k <= i ==> text[k] == was[k]
        invariant forall k :: i < k <= len ==> text[k] == was[k - 1]
      {
        text[i] := text[i - 1];
        i := i - 1;
      }
      text[cursor] := c;
      len := len + 1;
      cursor := cursor + 1;
      text[len] := NUL;
      ok := true;
      Splice(was, text[..], old(len), old(cursor), c);
    }

    static lemma Splice(was: Text, now: Text, len: nat, cursor: nat, c: char)
      requires cursor <= len && len + 1 < |was| == |now|
      requires forall k :: 0 <= k < cursor ==> now[k] == was[k]
      requires now[cursor] == c && forall k :: cursor < k <= len ==> now[k] == was[k - 1]
      ensures now[..len + 1] == InsertAt(was[..len], cursor, c)
    {
    }

    static lemma Cut(was: Text, now: Text, len: nat, pos: nat)
      requires pos < len < |was| == |now|
      requires forall k :: 0 <= k < pos ==> now[k] == was[k]
      requires forall k :: pos <= k < len - 1 ==> now[k] == was[k + 1]
      ensures now[..len - 1] == RemoveAt(was[..len], pos)
    {
    }

    /** Shifts the tail down over the character at `pos`; past the end it does nothing. */
    method DeleteAt(pos: nat)
      requires Valid() && (pos < len ==> cursor < len)
      modifies this`len, text
      ensures Valid()
      ensures Contents() == if pos < old(len) then RemoveAt(old(Contents()), pos) else old(Contents())
    {
      if pos >= len {
        return;
      }
      ghost var was := text[..];
      var i := pos;
      while i + 1 < len
        invariant len == old(len) && pos <= i < len < text.Length
        invariant forall k :: 0 <= k < pos || i < k < CAPACITY ==> text[k] == was[k]
        invariant forall k :: pos <= k < i ==> text[k] == was[k + 1]
        invariant i < len - 1 ==> text[i] == was[i]
      {
        text[i] := text[i + 1];
        i := i + 1;
      }
      len := len - 1;
      text[len] := NUL;
      Cut(was, text[..], old(len), pos);
    }

    /** A file write that ends as `ok` says. */
    method SaveText(ok: bool)
      requires Valid()
      modifies this`dirty, this`saved
      ensures Valid() && State() == Save(old(State()), ok)
    {
      if ok {
        dirty := false;
        saved := text[..len];
      }
    }

    method TypeChar(c: char)
      requires Valid()
      modifies this`len, this`cursor, this`dirty, text
      ensures Valid() && State() == Type(old(State()), c)
    {
      var ok := InsertChar(c);
      if ok {
        dirty := true;
      }
    }

    method HandleInsert(ev: Event)
      requires Valid() && insert
      modifies this, text
      ensures Valid() && State() == InsertKey(old(State()), ev)
    {
      hide InsertAt, RemoveAt;
      var c := ev.key;
      if c == CTRL_S {
        SaveText(ev.writeOk);
      } else if c == ESC {
        insert := false;
      } else if c == BACKSPACE {
        if cursor > 0 {
          cursor := cursor - 1;
          DeleteAt(cursor);
          dirty := true;
        }
      } else if c == '\n' || c == '\r' {
        TypeChar('\n');
      } else {
        if ' ' <= c <= '~' {
          TypeChar(c);
        }
        if c == KEY_LEFT && cursor > 0 {
          cursor := cursor - 1;
        } else if c == KEY_RIGHT && cursor < len {
          cursor := cursor + 1;
        }
      }
    }

    method MoveDown()
      requires Valid()
      modifies this`cursor
      ensures Valid() && State() == old(State()).(cursor := Down(old(Contents()), old(cursor)))
    {
      var start := FindLineStart(cursor);
      var col := cursor - start;
      var next := FindLineEnd(cursor);
      if next < len && text[next] == '\n' {
        next := next + 1;
        var end := FindLineEnd(next);
        var width := end - next;
        cursor := next + if col < width then col else width;
      }
    }

    method MoveUp()
      requires Valid()
      modifies this`cursor
      ensures Valid() && State() == old(State()).(cursor := Up(old(Contents()), old(cursor)))
    {
      var start := FindLineStart(cursor);
      if start > 0 {
        var col := cursor - start;
        var prevEnd := start - 1;
        var prevStart := FindLineStart(prevEnd);
        var width := prevEnd - prevStart;
        cursor := prevStart + if col < width then col else width;
      }
    }

    method HandleNormal(ev: Event)
      requires Valid() && !insert
      modifies this, text
      ensures Valid() && State() == NormalKey(old(State()), ev)
    {
      hide InsertAt, RemoveAt, Up, Down;
      var c := ev.key;
      if c == CTRL_S {
        SaveText(ev.writeOk);
      } else if c == 'i' {
        insert := true;
      } else if c == 'h' || c == KEY_LEFT {
        if cursor > 0 {
          cursor := cursor - 1;
        }
      } else if c == 'l' || c == KEY_RIGHT {
        if cursor < len {
          cursor := cursor + 1;
        }
      } else if c == 'x' || c == KEY_DELETE {
        if cursor < len {
          DeleteAt(cursor);
          dirty := true;
        }
      } else if c == 'j' || c == KEY_DOWN {
        MoveDown();
      } else if c == 'k' || c == KEY_UP {
        MoveUp();
      }
    }

    /** Trailing spaces of the first `n` command characters are cut off. */
    method TrimColon(n: nat) returns (m: nat)
      requires Valid() && n < COLON
      modifies colon
      ensures m <= n && colon[..m] == TrimRight(old(colon[..n])) && colon[m] == NUL
    {
      m := n;
      colon[m] := NUL;
      while m > 0 && colon[m - 1] == ' '
        invariant m <= n && colon[m] == NUL
        invariant colon[..m] == old(colon[..m])
        invariant TrimRight(old(colon[..n])) == TrimRight(old(colon[..m]))
      {
        assert old(colon[..m])[..m - 1] == old(colon[..m - 1]);
        m := m - 1;
        colon[m] := NUL;
      }
    }

    /** Reads the `:` line from key `from` on; `at` is the first key not read. */
    method ReadColonCmd(es: seq<Event>, from: nat) returns (at: nat, entered: bool, cancelled: bool, n: nat)
      requires Valid() && from <= |es|
      modifies colon
      ensures from <= at <= |es| && n < COLON && !(entered && cancelled)
      ensures var r := ReadColon("", es[from..]);
        if entered then at > from && r == Entered(colon[..n], es[at - 1].writeOk, es[at..])
        else if cancelled then r == Cancelled(es[at..])
        else r == Unfinished
    {
      at, n := from, 0;
      while at < |es|
        invariant from <= at <= |es| && n < COLON
        invariant ReadColon("", es[from..]) == ReadColon(colon[..n], es[at..])
      {
        assert es[at..][0] == es[at] && es[at..][1..] == es[at + 1..];
        var c := es[at].key;
        at := at + 1;
        if c == NUL {
        } else if c == '\n' || c == '\r' {
          n := TrimColon(n);
          return at, true, false, n;
        } else if c == ESC {
          return at, false, true, n;
        } else if c == BACKSPACE {
          if n > 0 {
            assert colon[..n][..n - 1] == colon[..n - 1];
            n := n - 1;
          }
        } else if n + 1 < COLON && ' ' <= c <= '~' {
          ghost var cmd := colon[..n];
          colon[n] := c;
          n := n + 1;
          assert colon[..n] == cmd + [c];
        }
      }
      return at, false, false, n;
    }

    /** Acts on an entered command. */
    method RunCommand(n: nat, ok: bool) returns (end: End)
      requires Valid() && n < COLON
      modifies this`dirty, this`saved
      ensures Valid() && Outcome(State(), end) == Command(old(State()), colon[..n], ok)
    {
      end := Waiting;
      if colon[..n] == "w" {
        SaveText(ok);
      } else if colon[..n] == "q" {
        if !dirty {
          end := Quit;
        }
      } else if colon[..n] == "q!" {
        end := Forced;
      } else if colon[..n] == "wq" || colon[..n] == "x" {
        if ok {
          saved := text[..len];
          end := Written;
        }
      }
    }

    /** The whole session: keys are handled until the editor is left or none are to come. */
    method EditFile(es: seq<Event>) returns (end: End)
      requires Valid()
      modifies this, text, colon
      ensures Valid() && Outcome(State(), end) == Edit(old(State()), es)
    {
      hide InsertKey, NormalKey, Command, ReadColon;
      ghost var start := State();
      var i := 0;
      assert es[0..] == es;
      while i < |es|
        invariant Valid() && i <= |es| && Edit(start, es) == Edit(State(), es[i..])
        decreases |es| - i
      {
        var ev := es[i];
        assert es[i..][0] == ev && es[i..][1..] == es[i + 1..];
        i := i + 1;
        if insert {
          HandleInsert(ev);
        } else if ev.key == ':' {
          var at, entered, cancelled, n := ReadColonCmd(es, i);
          i := at;
          if entered {
            end := RunCommand(n, es[at - 1].writeOk);
            if !end.Waiting? {
              return;
            }
          } else if !cancelled {
            return Waiting;
          }
        } else {
          HandleNormal(ev);
        }
      }
      end := Waiting;
    }
  }
}
