/** The editor's keys, one by one, over rows, columns and characters. */
module EditorLaws {
  import opened EditorText
  import opened EditorSpec

  // ---------- moving ----------

  /** A session starts on the first character, not inserting, with nothing unsaved. */
  lemma Opened(t: Text)
    ensures var e := Open(t);
      e.cursor == 0 && !e.insert && !e.dirty && e.text == t && e.saved == t
  {
  }

  /** `j` or the down arrow: the next row, at the same column or that row's end; on the last row nothing. */
  lemma KeyDown(ed: Ed, key: char, ok: bool, r: nat, c: nat)
    requires ed.cursor <= |ed.text| && At(ed.text, ed.cursor, r, c) && (key == 'j' || key == 0x81 as char)
    ensures var q, ls := NormalKey(ed, Event(key, ok)), Lines(ed.text);
      && q == ed.(cursor := q.cursor)
      && if r + 1 < |ls| then At(ed.text, q.cursor, r + 1, if c < |ls[r + 1]| then c else |ls[r + 1]|) else q == ed
  {
    hide Down, Lines, RowStart;
    DownRow(ed.text, ed.cursor, r, c);
  }

  /** `k` or the up arrow: the row above. */
  lemma KeyUp(ed: Ed, key: char, ok: bool, r: nat, c: nat)
    requires ed.cursor <= |ed.text| && At(ed.text, ed.cursor, r, c) && (key == 'k' || key == 0x80 as char)
    ensures var q, ls := NormalKey(ed, Event(key, ok)), Lines(ed.text);
      && q == ed.(cursor := q.cursor)
      && if r > 0 then At(ed.text, q.cursor, r - 1, if c < |ls[r - 1]| then c else |ls[r - 1]|) else q == ed
  {
    hide Up, Down, Lines, RowStart;
    UpRow(ed.text, ed.cursor, r, c);
  }

  /** `h` and `l`, or the arrows, in both modes: one place back, one place on, never out of the text. */
  lemma KeySideways(ed: Ed, ok: bool)
    requires ed.cursor <= |ed.text|
    ensures var back := ed.(cursor := if ed.cursor == 0 then 0 else ed.cursor - 1);
      && NormalKey(ed, Event('h', ok)) == back && NormalKey(ed, Event(0x82 as char, ok)) == back
      && InsertKey(ed, Event(0x82 as char, ok)) == back
    ensures var on := ed.(cursor := if ed.cursor == |ed.text| then ed.cursor else ed.cursor + 1);
      && NormalKey(ed, Event('l', ok)) == on && NormalKey(ed, Event(0x83 as char, ok)) == on
      && InsertKey(ed, Event(0x83 as char, ok)) == on
  {
  }

  // ---------- changing modes, saving ----------

  /** `i` starts inserting, Escape stops it, and Ctrl+S saves in both modes when the file can be written. */
  lemma KeyModes(ed: Ed, ok: bool)
    requires ed.cursor <= |ed.text|
    ensures NormalKey(ed, Event('i', ok)) == ed.(insert := true)
    ensures InsertKey(ed, Event(27 as char, ok)) == ed.(insert := false)
    ensures var saved := if ok then ed.(dirty := false, saved := ed.text) else ed;
      NormalKey(ed, Event(19 as char, ok)) == saved && InsertKey(ed, Event(19 as char, ok)) == saved
  {
  }

  // ---------- editing ----------

  /** `t` is `s` without its character at `i`. */
  predicate Without(s: Text, i: nat, t: Text)
  {
    && i < |s| && |t| == |s| - 1
    && forall k :: 0 <= k < |t| ==> t[k] == if k < i then s[k] else s[k + 1]
  }

  /** `x` or Delete takes out the character under the cursor; at the end of the text there is none. */
  lemma KeyDelete(ed: Ed, key: char, ok: bool)
    requires ed.cursor <= |ed.text| && (key == 'x' || key == 0x88 as char)
    ensures var q := NormalKey(ed, Event(key, ok));
      if ed.cursor == |ed.text| then q == ed
      else Without(ed.text, ed.cursor, q.text) && q == ed.(text := q.text, dirty := true)
  {
  }

  /** Backspace, when inserting, takes out the character before the cursor. */
  lemma KeyBackspace(ed: Ed, ok: bool)
    requires ed.cursor <= |ed.text|
    ensures var q := InsertKey(ed, Event(8 as char, ok));
      if ed.cursor == 0 then q == ed
      else Without(ed.text, ed.cursor - 1, q.text) && q == ed.(text := q.text, cursor := ed.cursor - 1, dirty := true)
  {
  }

  /** A printable character, when inserting, goes in before the cursor, and Enter a newline, as long as the text is shorter than
      4095. */
  lemma KeyTyped(ed: Ed, key: char, ok: bool)
    requires ed.cursor <= |ed.text| && (' ' <= key <= '~' || key == '\n' || key == '\r')
    ensures var q, c := InsertKey(ed, Event(key, ok)), if key == '\r' then '\n' else key;
      if |ed.text| >= 4095 then q == ed
      else
        && q.cursor == ed.cursor + 1 && q.text[ed.cursor] == c && Without(q.text, ed.cursor, ed.text)
        && q == ed.(text := q.text, cursor := q.cursor, dirty := true)
  {
    hide Type;
    TypeLaw(ed, if key == '\r' then '\n' else key);
  }

  lemma TypeLaw(ed: Ed, c: char)
    requires ed.cursor <= |ed.text|
    ensures var q := Type(ed, c);
      if |ed.text| >= 4095 then q == ed
      else
        && q.cursor == ed.cursor + 1 && |q.text| == |ed.text| + 1 && q.text[ed.cursor] == c && Without(q.text, ed.cursor, ed.text)
        && q == ed.(text := q.text, cursor := q.cursor, dirty := true)
  {
  }

  /** All other keys do nothing. */
  lemma OtherKeys(ed: Ed, key: char, ok: bool)
    requires ed.cursor <= |ed.text|
    ensures key !in "hjklix" && key !in [19 as char, 0x80 as char, 0x81 as char, 0x82 as char, 0x83 as char, 0x88 as char] ==>
      NormalKey(ed, Event(key, ok)) == ed
    ensures !(' ' <= key <= '~') && key !in [8 as char, 10 as char, 13 as char, 19 as char, 27 as char, 0x82 as char, 0x83 as char] ==>
      InsertKey(ed, Event(key, ok)) == ed
  {
  }

  // ---------- the `:` line ----------

  /** The keys of a word. */
  function Keys(word: string): (es: seq<Event>)
    ensures |es| == |word| && forall i :: 0 <= i < |es| ==> es[i].key == word[i]
  {
    seq(|word|, i requires 0 <= i < |word| => Event(word[i], false))
  }

  predicate Word(word: string)
  {
    forall i :: 0 <= i < |word| ==> '!' <= word[i] <= '~'
  }

  /** Typing a word and Enter enters it. */
  lemma {:induction false} WordEntered(cmd: string, word: string, ok: bool, es: seq<Event>)
    requires |cmd| + |word| <= 15 && Word(cmd) && Word(word)
    ensures ReadColon(cmd, Keys(word) + [Event('\n', ok)] + es) == Entered(cmd + word, ok, es)
    decreases |word|
  {
    var keys := Keys(word) + [Event('\n', ok)] + es;
    if word == "" {
      assert keys[0] == Event('\n', ok) && keys[1..] == es;
      assert cmd + word == cmd && TrimRight(cmd) == cmd;
    } else {
      assert keys[0].key == word[0];
      assert keys[1..] == Keys(word[1..]) + [Event('\n', ok)] + es;
      WordEntered(cmd + [word[0]], word[1..], ok, es);
      assert cmd + [word[0]] + word[1..] == cmd + word;
    }
  }

  /** A colon, a word of at most 15 characters and Enter, and keys after them. */
  lemma ColonWord(ed: Ed, word: string, a: bool, ok: bool, es: seq<Event>)
    requires ed.cursor <= |ed.text| && !ed.insert && |word| <= 15 && Word(word)
    ensures Edit(ed, [Event(':', a)] + (Keys(word) + [Event('\n', ok)] + es)) ==
      var o := Command(ed, word, ok);
      if o.end.Waiting? then Edit(o.ed, es) else o
  {
    hide ReadColon, Command, NormalKey, InsertKey;
    var rest := Keys(word) + [Event('\n', ok)] + es;
    var keys := [Event(':', a)] + rest;
    assert keys[0].key == ':' && keys[1..] == rest;
    WordEntered("", word, ok, es);
    assert "" + word == word;
    CommandText(ed, word, ok);
  }

  lemma CommandText(ed: Ed, word: string, ok: bool)
    ensures Command(ed, word, ok).ed.text == ed.text && Command(ed, word, ok).ed.cursor == ed.cursor
  {
  }

  /** `:w` saves, `:q!` leaves, `:wq` and `:x` do both, provided the file can be written; any other word but `q` does nothing. */
  lemma ColonCommands(ed: Ed, ok: bool, word: string)
    ensures Command(ed, "w", ok) == Outcome(if ok then ed.(dirty := false, saved := ed.text) else ed, Waiting)
    ensures Command(ed, "q!", ok) == Outcome(ed, Forced)
    ensures Command(ed, "wq", ok) == if ok then Outcome(ed.(saved := ed.text), Written) else Outcome(ed, Waiting)
    ensures Command(ed, "x", ok) == Command(ed, "wq", ok)
    ensures Command(ed, "q", ok) == Outcome(ed, if ed.dirty then Waiting else Quit)
    ensures word !in ["w", "q", "q!", "wq", "x"] ==> Command(ed, word, ok) == Outcome(ed, Waiting)
  {
  }

  /** Escape gives the line up, backspace takes back its last character, and keys beyond the fifteenth are dropped. */
  lemma ColonEditing(cmd: string, es: seq<Event>, a: bool, c: char)
    requires |cmd| <= 15
    ensures ReadColon(cmd, [Event(27 as char, a)] + es) == Cancelled(es)
    ensures ReadColon(cmd, [Event(8 as char, a)] + es) == ReadColon(if cmd == "" then "" else cmd[..|cmd| - 1], es)
    ensures ' ' <= c <= '~' ==> ReadColon(cmd, [Event(c, a)] + es) == ReadColon(if |cmd| < 15 then cmd + [c] else cmd, es)
  {
    assert forall e: Event :: ([e] + es)[1..] == es;
  }
}
