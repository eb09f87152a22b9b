/** The current-path string: a NUL-terminated buffer edited as directories are entered and left. */
module Paths {
  import opened Bytes
  import opened FatNames

  const SLASH: byte := 0x2F
  const PATH_CAP := 128

  /** The slash-join of the printable names from the root down. */
  function Join(names: seq<seq<byte>>): (r: seq<byte>)
    requires forall k :: 0 <= k < |names| ==> |names[k]| == 11
    ensures |r| >= 1 && r[0] == SLASH
  {
    if names == [] then [SLASH]
    else Under(Join(names[..|names| - 1]), Printable(names[|names| - 1]))
  }

  /** A component below a path; the root's own slash is not doubled. */
  function Under(p: seq<byte>, name: seq<byte>): seq<byte>
  {
    (if |p| > 1 then p + [SLASH] else p) + name
  }

  /** Last slash in a string, or 0 when there is none. */
  function LastSlash(p: seq<byte>): (k: nat)
    ensures p == [] ==> k == 0
    ensures p != [] ==> k < |p|
  {
    if p == [] then 0
    else if p[|p| - 1] == SLASH then |p| - 1
    else LastSlash(p[..|p| - 1])
  }

  /** Every name is a stored name. */
  ghost predicate AllNames(names: seq<seq<byte>>)
  {
    forall k :: 0 <= k < |names| ==> ValidName(names[k])
  }

  lemma {:induction false} JoinNoNul(names: seq<seq<byte>>)
    requires AllNames(names)
    ensures forall k :: 0 <= k < |names| ==> |names[k]| == 11
    ensures 0 !in Join(names)
  {
    hide ValidName, Printable;
    forall k | 0 <= k < |names| ensures |names[k]| == 11 {
      NameLen(names[k]);
    }
    if names != [] {
      JoinNoNul(names[..|names| - 1]);
      PrintableShape(names[|names| - 1]);
    }
  }

  lemma NameLen(n: seq<byte>)
    requires ValidName(n)
    ensures |n| == 11
  {
  }

  lemma {:induction false} LastSlashOf(p: seq<byte>, name: seq<byte>)
    requires SLASH !in name
    ensures LastSlash(p + [SLASH] + name) == |p|
    decreases |name|
  {
    var q := p + [SLASH] + name;
    if name != [] {
      var m := name[..|name| - 1];
      assert q[..|q| - 1] == p + [SLASH] + m;
      assert name[|name| - 1] != SLASH;
      LastSlashOf(p, m);
    }
  }

  // ---------- the buffer edits ----------

  /** The buffer after an absolute path resets it to "/". */
  function RootPath(buf: seq<byte>): (r: seq<byte>)
    requires |buf| == PATH_CAP
    ensures |r| == PATH_CAP
  {
    Splice(buf, 0, [SLASH, 0])
  }

  /** The buffer after entering a directory with printable name `name`. */
  function PushPath(buf: seq<byte>, name: seq<byte>): (r: seq<byte>)
    requires |buf| == PATH_CAP && |name| <= 12
    ensures |r| == PATH_CAP
  {
    var n := |CStr(buf)|;
    var slash := 1 < n < PATH_CAP - 1;
    var b := if slash then buf[n := SLASH] else buf;
    var m := if slash then n + 1 else n;
    if m + |name| < PATH_CAP then Splice(b, m, name + [0]) else b
  }

  /** The buffer after leaving a directory. */
  function PopPath(buf: seq<byte>): (r: seq<byte>)
    requires |buf| == PATH_CAP
    ensures |r| == PATH_CAP
  {
    var k := LastSlash(CStr(buf));
    if k == 0 then buf[1 := 0] else buf[k := 0]
  }

  /** The last byte of the buffer is never anything but NUL, whatever is entered or left. */
  lemma LastByteStaysNul(buf: seq<byte>, name: seq<byte>)
    requires |buf| == PATH_CAP && buf[PATH_CAP - 1] == 0 && |name| <= 12
    ensures RootPath(buf)[PATH_CAP - 1] == 0
    ensures PushPath(buf, name)[PATH_CAP - 1] == 0
    ensures PopPath(buf)[PATH_CAP - 1] == 0
  {
    hide RootPath, PushPath, PopPath;
    RootKeepsNul(buf);
    PushKeepsNul(buf, name);
    PopKeepsNul(buf);
  }

  lemma RootKeepsNul(buf: seq<byte>)
    requires |buf| == PATH_CAP && buf[PATH_CAP - 1] == 0
    ensures RootPath(buf)[PATH_CAP - 1] == 0
  {
    hide Splice;
  }

  lemma PushKeepsNul(buf: seq<byte>, name: seq<byte>)
    requires |buf| == PATH_CAP && buf[PATH_CAP - 1] == 0 && |name| <= 12
    ensures PushPath(buf, name)[PATH_CAP - 1] == 0
  {
    hide CStr, Splice;
    CStrLen(buf);
    assert (name + [0])[|name|] == 0;
  }

  lemma PopKeepsNul(buf: seq<byte>)
    requires |buf| == PATH_CAP && buf[PATH_CAP - 1] == 0
    ensures PopPath(buf)[PATH_CAP - 1] == 0
  {
    hide CStr, LastSlash;
    CStrLen(buf);
  }

  lemma CStrLen(buf: seq<byte>)
    requires |buf| == PATH_CAP && buf[PATH_CAP - 1] == 0
    ensures |CStr(buf)| < PATH_CAP
  {
    hide CStr;
    var p := CStr(buf);
    assert forall k :: 0 <= k < |p| ==> p[k] == buf[k] && p[k] != 0;
  }

  lemma RootPathText(buf: seq<byte>)
    requires |buf| == PATH_CAP
    ensures CStr(RootPath(buf)) == [SLASH]
  {
    CStrIs(RootPath(buf), [SLASH]);
  }

  lemma SpliceText(b: seq<byte>, u: seq<byte>, name: seq<byte>)
    requires u <= b && |u| + |name| < |b|
    ensures u + name <= Splice(b, |u|, name + [0]) && Splice(b, |u|, name + [0])[|u| + |name|] == 0
  {
  }

  lemma PushPathBytes(buf: seq<byte>, name: seq<byte>)
    requires |buf| == PATH_CAP && CStr(buf) != [] && |name| <= 12
    requires |Under(CStr(buf), name)| < PATH_CAP
    ensures var u := Under(CStr(buf), name);
      u <= PushPath(buf, name) && PushPath(buf, name)[|u|] == 0
  {
    hide CStr, Splice;
    var p := CStr(buf);
    var b := if 1 < |p| then buf[|p| := SLASH] else buf;
    var u := if 1 < |p| then p + [SLASH] else p;
    assert PushPath(buf, name) == Splice(b, |u|, name + [0]);
    assert u == b[..|u|];
    SpliceText(b, u, name);
  }

  /** Entering a directory appends its name exactly when the longer path still fits. */
  lemma PushPathText(buf: seq<byte>, name: seq<byte>)
    requires |buf| == PATH_CAP && buf[PATH_CAP - 1] == 0 && CStr(buf) != []
    requires 1 <= |name| <= 12 && 0 !in name
    ensures CStr(PushPath(buf, name)) == Under(CStr(buf), name) <==> |Under(CStr(buf), name)| < PATH_CAP
  {
    hide CStr;
    var p := CStr(buf);
    var u := Under(p, name);
    CStrLen(buf);
    LastByteStaysNul(buf, name);
    CStrLen(PushPath(buf, name));
    if |u| < PATH_CAP {
      var r := PushPath(buf, name);
      PushPathBytes(buf, name);
      CStrIs(r, u);
    }
  }

  /** Leaving a directory removes the last component. */
  lemma PopPathText(buf: seq<byte>, p: seq<byte>, name: seq<byte>)
    requires |buf| == PATH_CAP && buf[PATH_CAP - 1] == 0
    requires p != [] && p[0] == SLASH && SLASH !in name && CStr(buf) == Under(p, name)
    ensures CStr(PopPath(buf)) == p
  {
    hide CStr;
    var u := CStr(buf);
    CStrLen(buf);
    assert forall i :: 0 <= i < |u| ==> u[i] == buf[i];
    if |p| > 1 {
      assert u == p + [SLASH] + name;
      LastSlashOf(p, name);
      assert PopPath(buf)[..|p|] == u[..|p|] == p;
      assert 0 !in u;
      assert forall i :: 0 <= i < |p| ==> p[i] == u[i];
      CStrIs(PopPath(buf), p);
    } else {
      assert u == [] + [SLASH] + name;
      LastSlashOf([], name);
      assert PopPath(buf)[..1] == u[..1] == p;
      CStrIs(PopPath(buf), p);
    }
  }
}
