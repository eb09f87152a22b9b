/** Bytes, little-endian words and the flat-buffer operations shared by the models. */
module Bytes {

  type byte = x: int | 0 <= x < 256
  type Word = x: int | 0 <= x < 0x1_0000

  /** A C string: its characters, without the terminating NUL. */
  type CString = s: seq<byte> | 0 !in s

  datatype Option<+T> = None | Some(value: T)

  function Word16(lo: byte, hi: byte): (w: Word)
  {
    lo + 256 * hi
  }

  function Lo(w: Word): byte { w % 256 }

  function Hi(w: Word): byte { w / 256 }

  lemma WordParts(w: Word)
    ensures Word16(Lo(w), Hi(w)) == w
  {
  }

  function Zeros(n: nat): (z: seq<byte>)
    ensures |z| == n
  {
    seq(n, _ => 0)
  }

  /** `t` with the bytes from `at` on replaced by `piece`. */
  function Splice(t: seq<byte>, at: nat, piece: seq<byte>): (r: seq<byte>)
    requires at + |piece| <= |t|
    ensures |r| == |t|
    ensures forall i :: 0 <= i < |t| ==> r[i] == if at <= i < at + |piece| then piece[i - at] else t[i]
  {
    t[..at] + piece + t[at + |piece|..]
  }

  lemma Assoc(a: seq<byte>, b: seq<byte>, c: seq<byte>)
    ensures (a + b) + c == a + (b + c)
  {
  }

  /** The C string held by a NUL-terminated buffer. */
  function CStr(buf: seq<byte>): (s: CString)
    ensures s <= buf
    ensures |s| < |buf| ==> buf[|s|] == 0
  {
    if buf == [] || buf[0] == 0 then [] else [buf[0]] + CStr(buf[1..])
  }

  /** A buffer that starts with `s` and a NUL holds exactly the string `s`. */
  lemma {:induction false} CStrIs(buf: seq<byte>, s: seq<byte>)
    requires 0 !in s && s <= buf && |s| < |buf| && buf[|s|] == 0
    ensures CStr(buf) == s
  {
    if s != [] {
      assert buf[0] == s[0];
      CStrIs(buf[1..], s[1..]);
    }
  }

  /** The string ends at the first NUL, or at the end of the buffer. */
  lemma {:induction false} CStrUpTo(buf: seq<byte>, n: nat)
    requires n <= |buf| && 0 !in buf[..n] && (n < |buf| ==> buf[n] == 0)
    ensures CStr(buf) == buf[..n]
  {
    if n > 0 {
      assert buf[0] == buf[..n][0];
      assert buf[1..][..n - 1] == buf[..n][1..];
      CStrUpTo(buf[1..], n - 1);
      assert buf[..n] == [buf[0]] + buf[1..][..n - 1];
    }
  }

  /** Copies `piece` into the buffer at `at` (the kernel's memcpy). */
  method Blit(a: array<byte>, at: nat, piece: seq<byte>)
    requires at + |piece| <= a.Length
    modifies a
    ensures a[..] == Splice(old(a[..]), at, piece)
  {
    for k := 0 to |piece|
      invariant a[..] == Splice(old(a[..]), at, piece[..k])
    {
      a[at + k] := piece[k];
    }
    assert piece[..|piece|] == piece;
  }
}
