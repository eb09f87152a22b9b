/** The modal editor as a machine over keys. */
module EditorSpec {
  import opened EditorText

  /** FS_MAX_FILE_SIZE: one cell is kept for the terminating NUL. */
  const CAPACITY := 4096
  /** Size of the `:` command buffer, with its NUL. */
  const COLON := 16

  const NUL := '\0'
  const CTRL_S := 19 as char
  const ESC := 27 as char
  const BACKSPACE := 8 as char
  const KEY_UP := 0x80 as char
  const KEY_DOWN := 0x81 as char
  const KEY_LEFT := 0x82 as char
  const KEY_RIGHT := 0x83 as char
  const KEY_DELETE := 0x88 as char

  /** `saved` is the text last loaded or successfully written. */
  datatype Ed = Ed(text: Text, cursor: nat, insert: bool, dirty: bool, saved: Text)

  /** A key press, and how a file write would end if this key asks for one. */
  datatype Event = Event(key: char, writeOk: bool)

  /** How the session stands: still waiting for keys, or left by `:q`, `:q!`, or `:wq`. */
  datatype End = Waiting | Quit | Forced | Written

  datatype Outcome = Outcome(ed: Ed, end: End)

  ghost predicate Inv(ed: Ed)
  {
    && ed.cursor <= |ed.text| < CAPACITY
    && (!ed.dirty ==> ed.text == ed.saved)
  }

  predicate Printable(c: char) { ' ' <= c <= '~' }

  function Open(t: Text): Ed { Ed(t, 0, false, false, t) }

  function Save(ed: Ed, ok: bool): Ed { if ok then ed.(dirty := false, saved := ed.text) else ed }

  function Type(ed: Ed, c: char): Ed
    requires ed.cursor <= |ed.text|
  {
    if |ed.text| + 1 >= CAPACITY then ed
    else ed.(text := InsertAt(ed.text, ed.cursor, c), cursor := ed.cursor + 1, dirty := true)
  }

  function Delete(ed: Ed, pos: nat): Ed
    requires pos < |ed.text|
  {
    ed.(text := RemoveAt(ed.text, pos), dirty := true)
  }

  function InsertKey(ed: Ed, ev: Event): Ed
    requires ed.cursor <= |ed.text|
  {
    var c := ev.key;
    if c == CTRL_S then Save(ed, ev.writeOk)
    else if c == ESC then ed.(insert := false)
    else if c == BACKSPACE then if ed.cursor > 0 then Delete(ed.(cursor := ed.cursor - 1), ed.cursor - 1) else ed
    else if c == '\n' || c == '\r' then Type(ed, '\n')
    else if Printable(c) then Type(ed, c)
    else if c == KEY_LEFT && ed.cursor > 0 then ed.(cursor := ed.cursor - 1)
    else if c == KEY_RIGHT && ed.cursor < |ed.text| then ed.(cursor := ed.cursor + 1)
    else ed
  }

  /** A key in normal mode other than `:`. */
  function NormalKey(ed: Ed, ev: Event): Ed
    requires ed.cursor <= |ed.text|
  {
    var c := ev.key;
    if c == CTRL_S then Save(ed, ev.writeOk)
    else if c == 'i' then ed.(insert := true)
    else if c == 'h' || c == KEY_LEFT then if ed.cursor > 0 then ed.(cursor := ed.cursor - 1) else ed
    else if c == 'l' || c == KEY_RIGHT then if ed.cursor < |ed.text| then ed.(cursor := ed.cursor + 1) else ed
    else if c == 'x' || c == KEY_DELETE then if ed.cursor < |ed.text| then Delete(ed, ed.cursor) else ed
    else if c == 'j' || c == KEY_DOWN then ed.(cursor := Down(ed.text, ed.cursor))
    else if c == 'k' || c == KEY_UP then ed.(cursor := Up(ed.text, ed.cursor))
    else ed
  }

  // ---------- the `:` line ----------

  function TrimRight(s: string): (t: string)
    ensures |t| <= |s| && t <= s && (t == "" || t[|t| - 1] != ' ')
  {
    if s != "" && s[|s| - 1] == ' ' then TrimRight(s[..|s| - 1]) else s
  }

  datatype Colon = Entered(cmd: string, writeOk: bool, rest: seq<Event>) | Cancelled(rest: seq<Event>) | Unfinished

  /** Reads keys into the command until Enter or Escape. */
  function ReadColon(cmd: string, es: seq<Event>): (r: Colon)
    ensures !r.Unfinished? ==> |r.rest| < |es|
    decreases |es|
  {
    if es == [] then Unfinished
    else
      var c, rest := es[0].key, es[1..];
      if c == NUL then ReadColon(cmd, rest)
      else if c == '\n' || c == '\r' then Entered(TrimRight(cmd), es[0].writeOk, rest)
      else if c == ESC then Cancelled(rest)
      else if c == BACKSPACE then ReadColon(if cmd != "" then cmd[..|cmd| - 1] else cmd, rest)
      else if |cmd| + 1 < COLON && Printable(c) then ReadColon(cmd + [c], rest)
      else ReadColon(cmd, rest)
  }

  function Command(ed: Ed, cmd: string, ok: bool): Outcome
  {
    if cmd == "w" then Outcome(Save(ed, ok), Waiting)
    else if cmd == "q" then Outcome(ed, if ed.dirty then Waiting else Quit)
    else if cmd == "q!" then Outcome(ed, Forced)
    else if cmd == "wq" || cmd == "x" then if ok then Outcome(ed.(saved := ed.text), Written) else Outcome(ed, Waiting)
    else Outcome(ed, Waiting)
  }

  // ---------- whole sessions ----------

  function Edit(ed: Ed, es: seq<Event>): Outcome
    requires ed.cursor <= |ed.text|
    decreases |es|
  {
    if es == [] then Outcome(ed, Waiting)
    else if ed.insert then
      Edit(InsertKey(ed, es[0]), es[1..])
    else if es[0].key == ':' then
      match ReadColon("", es[1..])
      case Unfinished => Outcome(ed, Waiting)
      case Cancelled(rest) => Edit(ed, rest)
      case Entered(cmd, ok, rest) =>
        var o := Command(ed, cmd, ok);
        if o.end.Waiting? then Edit(o.ed, rest) else o
    else
      Edit(NormalKey(ed, es[0]), es[1..])
  }

  lemma KeysKeepInv(ed: Ed, ev: Event)
    requires Inv(ed)
    ensures Inv(InsertKey(ed, ev)) && Inv(NormalKey(ed, ev))
  {
  }

  /** Whatever is typed, the cursor stays in a text that fits, and an exit by `:q` or `:wq` leaves nothing unsaved. */
  lemma {:induction false} EditInv(ed: Ed, es: seq<Event>)
    requires Inv(ed)
    ensures var o := Edit(ed, es);
      && o.ed.cursor <= |o.ed.text| < CAPACITY
      && (o.end.Waiting? ==> Inv(o.ed))
      && (o.end.Quit? || o.end.Written? ==> o.ed.text == o.ed.saved)
    decreases |es|
  {
    hide InsertKey, NormalKey, ReadColon;
    if es != [] {
      KeysKeepInv(ed, es[0]);
      if ed.insert {
        EditInv(InsertKey(ed, es[0]), es[1..]);
      } else if es[0].key == ':' {
        match ReadColon("", es[1..])
        case Unfinished =>
        case Cancelled(rest) => EditInv(ed, rest);
        case Entered(cmd, ok, rest) =>
          var o := Command(ed, cmd, ok);
          if o.end.Waiting? {
            EditInv(o.ed, rest);
          }
      } else {
        EditInv(NormalKey(ed, es[0]), es[1..]);
      }
    }
  }

  /** From opening the file on. */
  lemma SessionInv(t: Text, es: seq<Event>)
    requires |t| < CAPACITY
    ensures var o := Edit(Open(t), es);
      o.ed.cursor <= |o.ed.text| < CAPACITY && (o.end.Quit? || o.end.Written? ==> o.ed.text == o.ed.saved)
  {
    hide Edit;
    EditInv(Open(t), es);
  }

  // ---------- what the dirty flag means ----------

  /** The key asks for a file write, and the write succeeds. */
  predicate Saves(ev: Event) { ev.key == CTRL_S && ev.writeOk }

  /** The text differs from what was last loaded or written in that it was edited since: `pending` says so of the start,
      every key that changes the text sets it, and every successful write clears it. */
  function EditedSince(ed: Ed, es: seq<Event>, pending: bool): bool
    requires ed.cursor <= |ed.text|
    decreases |es|
  {
    if es == [] then pending
    else if !ed.insert && es[0].key == ':' then
      match ReadColon("", es[1..])
      case Unfinished => pending
      case Cancelled(rest) => EditedSince(ed, rest, pending)
      case Entered(cmd, ok, rest) =>
        var o := Command(ed, cmd, ok);
        if o.end.Waiting? then EditedSince(o.ed, rest, pending && !(cmd == "w" && ok))
        else pending && !o.end.Written?
    else
      var next := if ed.insert then InsertKey(ed, es[0]) else NormalKey(ed, es[0]);
      EditedSince(next, es[1..], (pending && !Saves(es[0])) || next.text != ed.text)
  }

  lemma KeyDirty(ed: Ed, ev: Event)
    requires ed.cursor <= |ed.text|
    ensures InsertKey(ed, ev).dirty <==> (ed.dirty && !Saves(ev)) || InsertKey(ed, ev).text != ed.text
    ensures NormalKey(ed, ev).dirty <==> (ed.dirty && !Saves(ev)) || NormalKey(ed, ev).text != ed.text
  {
    hide Up, Down;
    if ed.cursor < |ed.text| {
      assert |RemoveAt(ed.text, ed.cursor)| != |ed.text|;
    }
    if ed.cursor > 0 {
      assert |RemoveAt(ed.text, ed.cursor - 1)| != |ed.text|;
    }
    assert |InsertAt(ed.text, ed.cursor, ev.key)| != |ed.text| && |InsertAt(ed.text, ed.cursor, '\n')| != |ed.text|;
  }

  /** After every key sequence but one ending in `:wq` the flag is set exactly when the text was edited since the last load or
      successful write; `:wq` leaves nothing edited since. */
  lemma {:induction false} DirtyExact(ed: Ed, es: seq<Event>)
    requires Inv(ed)
    ensures !Edit(ed, es).end.Written? ==> (Edit(ed, es).ed.dirty <==> EditedSince(ed, es, ed.dirty))
    ensures Edit(ed, es).end.Written? ==> !EditedSince(ed, es, ed.dirty)
    decreases |es|
  {
    hide InsertKey, NormalKey, ReadColon;
    if es != [] {
      KeysKeepInv(ed, es[0]);
      KeyDirty(ed, es[0]);
      if ed.insert {
        DirtyExact(InsertKey(ed, es[0]), es[1..]);
      } else if es[0].key == ':' {
        match ReadColon("", es[1..])
        case Unfinished =>
        case Cancelled(rest) => DirtyExact(ed, rest);
        case Entered(cmd, ok, rest) =>
          var o := Command(ed, cmd, ok);
          if o.end.Waiting? {
            DirtyExact(o.ed, rest);
          }
      } else {
        DirtyExact(NormalKey(ed, es[0]), es[1..]);
      }
    }
  }

  /** A session that ends by `:q` has no edit since the last load or successful write. */
  lemma QuitUnedited(t: Text, es: seq<Event>)
    requires |t| < CAPACITY && Edit(Open(t), es).end == Quit
    ensures !EditedSince(Open(t), es, false)
  {
    hide Edit, EditedSince;
    DirtyExact(Open(t), es);
    QuitClean(Open(t), es);
  }

  lemma {:induction false} QuitClean(ed: Ed, es: seq<Event>)
    requires Inv(ed) && Edit(ed, es).end == Quit
    ensures !Edit(ed, es).ed.dirty
    decreases |es|
  {
    hide InsertKey, NormalKey, ReadColon;
    if es != [] {
      KeysKeepInv(ed, es[0]);
      if ed.insert {
        QuitClean(InsertKey(ed, es[0]), es[1..]);
      } else if es[0].key == ':' {
        match ReadColon("", es[1..])
        case Unfinished =>
        case Cancelled(rest) => QuitClean(ed, rest);
        case Entered(cmd, ok, rest) =>
          var o := Command(ed, cmd, ok);
          if o.end.Waiting? {
            QuitClean(o.ed, rest);
          }
      } else {
        QuitClean(NormalKey(ed, es[0]), es[1..]);
      }
    }
  }

  /** The keys of `:q` and Enter leave the editor exactly when the dirty flag is clear. */
  lemma QuitExact(ed: Ed, a: bool, b: bool, c: bool, es: seq<Event>)
    requires ed.cursor <= |ed.text| && !ed.insert
    ensures var keys := [Event(':', a), Event('q', b), Event('\n', c)];
      Edit(ed, keys + es) == if ed.dirty then Edit(ed, es) else Outcome(ed, Quit)
  {
    hide NormalKey, InsertKey;
    var keys := [Event(':', a), Event('q', b), Event('\n', c)] + es;
    var k1, k2, k3 := keys[1..], keys[1..][1..], keys[1..][1..][1..];
    assert k1[0].key == 'q' && k2[0].key == '\n' && k3 == es;
    assert ReadColon("q", k2) == Entered(TrimRight("q"), c, es);
    assert "" + ['q'] == "q";
    assert ReadColon("", k1) == ReadColon("q", k2);
  }

  /** A buffer that holds `t` and its terminating NUL. */
  ghost predicate HoldsText(b: string, t: Text)
  {
    |t| < |b| && b[..|t|] == t && b[|t|] == NUL
  }

  /** The editor's buffer can hold a text with its NUL if and only if the text is shorter than FS_MAX_FILE_SIZE; a file may be
      exactly that long. */
  lemma OpenFits(t: Text)
    ensures (exists b: string :: |b| == CAPACITY && HoldsText(b, t)) <==> |t| < CAPACITY
  {
    if |t| < CAPACITY {
      var b := t + seq(CAPACITY - |t|, _ => NUL);
      assert HoldsText(b, t) && |b| == CAPACITY;
    }
  }

  /** A typed and erased character leaves the text as saved, but `:q` is still refused. */
  lemma ErasedStillDirty(ed: Ed, c: char, a: bool, b: bool)
    requires Inv(ed) && ed.insert && Printable(c) && |ed.text| + 1 < CAPACITY
    ensures var r := InsertKey(InsertKey(ed, Event(c, a)), Event(BACKSPACE, b));
      r.text == ed.text && r.cursor == ed.cursor && r.dirty && Command(r, "q", a).end == Waiting
  {
    InsertRemove(ed.text, ed.cursor, c);
  }
}
