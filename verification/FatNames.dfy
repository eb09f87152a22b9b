/** Conversion between typed file names and the 8.3 names stored in directory entries. */
module FatNames {
  import opened Bytes

  const SPACE: byte := 0x20
  const DOT: byte := 0x2E
  const MAX_NAME := 23

  function Upper(c: byte): byte
  {
    if 0x61 <= c <= 0x7A then c - 32 else c
  }

  predicate ValidChar(c: byte)
  {
    0x41 <= c <= 0x5A || 0x30 <= c <= 0x39 || c == 0x5F || c == 0x2D || c == 0x24
  }

  function UpperAll(s: seq<byte>): (r: seq<byte>)
    ensures |r| == |s| && forall i :: 0 <= i < |s| ==> r[i] == Upper(s[i])
  {
    seq(|s|, i requires 0 <= i < |s| => Upper(s[i]))
  }

  ghost predicate AllValid(s: seq<byte>) { forall i :: 0 <= i < |s| ==> ValidChar(s[i]) }

  /** Index of the first `c`, or the length when there is none. */
  function Until(s: seq<byte>, c: byte): (k: nat)
    ensures k <= |s|
    ensures forall i :: 0 <= i < k ==> s[i] != c
    ensures k < |s| ==> s[k] == c
  {
    if s == [] || s[0] == c then 0 else 1 + Until(s[1..], c)
  }

  lemma {:induction false} UntilIs(s: seq<byte>, c: byte, k: nat)
    requires k <= |s| && (forall i :: 0 <= i < k ==> s[i] != c) && (k < |s| ==> s[k] == c)
    ensures Until(s, c) == k
  {
    if k > 0 {
      UntilIs(s[1..], c, k - 1);
    }
  }

  function Pad(s: seq<byte>, n: nat): (r: seq<byte>)
    requires |s| <= n
    ensures |r| == n
    ensures forall i :: 0 <= i < n ==> r[i] == if i < |s| then s[i] else SPACE
  {
    s + seq(n - |s|, _ => SPACE)
  }

  /** The stored form of a typed name: base and extension, upper-cased and space-padded. */
  ghost function FatName(name: CString): (r: Option<seq<byte>>)
    ensures r.Some? ==> |r.value| == 11
  {
    var k := Until(name, DOT);
    var base := UpperAll(name[..k]);
    var ext := UpperAll(name[if k < |name| then k + 1 else k..]);
    if 1 <= |base| <= 8 && |ext| <= 3 && AllValid(base) && AllValid(ext) then
      Some(Pad(base, 8) + Pad(ext, 3))
    else
      None
  }

  /** A field holds valid characters followed only by spaces. */
  ghost predicate FieldOK(s: seq<byte>)
  {
    var k := Until(s, SPACE);
    AllValid(s[..k]) && forall i :: k <= i < |s| ==> s[i] == SPACE
  }

  /** The names the file system stores. */
  ghost predicate ValidName(n: seq<byte>)
  {
    |n| == 11 && n[0] != SPACE && FieldOK(n[..8]) && FieldOK(n[8..])
  }

  /** The text form of a stored name. */
  function Printable(n: seq<byte>): (r: seq<byte>)
    requires |n| == 11
    ensures |r| <= 12
  {
    var base := n[..Until(n[..8], SPACE)];
    var ext := n[8..][..Until(n[8..], SPACE)];
    if ext == [] then base else base + [DOT] + ext
  }

  lemma PadFieldOK(s: seq<byte>, n: nat)
    requires |s| <= n && AllValid(s)
    ensures FieldOK(Pad(s, n)) && Until(Pad(s, n), SPACE) == |s|
  {
    UntilIs(Pad(s, n), SPACE, |s|);
  }

  lemma FatNameValid(name: CString)
    requires FatName(name).Some?
    ensures ValidName(FatName(name).value)
  {
    var k := Until(name, DOT);
    var base := UpperAll(name[..k]);
    var ext := UpperAll(name[if k < |name| then k + 1 else k..]);
    var n := FatName(name).value;
    PadFieldOK(base, 8);
    PadFieldOK(ext, 3);
    assert n[..8] == Pad(base, 8) && n[8..] == Pad(ext, 3);
    assert n[0] == base[0];
  }

  lemma UpperAllId(s: seq<byte>)
    requires AllValid(s)
    ensures UpperAll(s) == s
  {
  }

  lemma PrintableShape(n: seq<byte>)
    requires ValidName(n)
    ensures 1 <= |Printable(n)| && 0 !in Printable(n) && 0x2F !in Printable(n)
  {
    var p := Printable(n);
    forall i | 0 <= i < |p| ensures ValidChar(p[i]) || p[i] == DOT {
      var k := Until(n[..8], SPACE);
      if i < k {
        assert p[i] == n[..8][..k][i];
      } else if i > k {
        var j := Until(n[8..], SPACE);
        assert p[i] == n[8..][..j][i - k - 1];
      }
    }
  }

  /** Typing a stored name back finds that same name. */
  lemma PrintableRoundTrip(n: seq<byte>)
    requires ValidName(n)
    ensures 0 !in Printable(n) && FatName(Printable(n)) == Some(n)
  {
    PrintableShape(n);
    var p := Printable(n);
    var k, j := Until(n[..8], SPACE), Until(n[8..], SPACE);
    var base, ext := n[..8][..k], n[8..][..j];
    assert base == n[..k];
    assert AllValid(base) && AllValid(ext);
    assert forall i :: 0 <= i < |base| ==> base[i] != DOT;
    UntilIs(p, DOT, k);
    assert p[..k] == base;
    assert p[if k < |p| then k + 1 else k..] == ext;
    UpperAllId(base);
    UpperAllId(ext);
    assert Pad(base, 8) == n[..8];
    assert Pad(ext, 3) == n[8..];
    assert 1 <= |base|;
    assert n == n[..8] + n[8..];
  }

  /** Lookup does not depend on the case of the typed name. */
  lemma FatNameCaseInsensitive(a: CString, b: CString)
    requires UpperAll(a) == UpperAll(b)
    ensures FatName(a) == FatName(b)
  {
    var k := Until(a, DOT);
    forall i | 0 <= i < |a| ensures (a[i] == DOT) == (b[i] == DOT) {
      assert UpperAll(a)[i] == UpperAll(b)[i];
    }
    UntilIs(b, DOT, k);
    var m := if k < |a| then k + 1 else k;
    assert UpperAll(a[..k]) == UpperAll(a)[..k] == UpperAll(b[..k]);
    assert UpperAll(a[m..]) == UpperAll(a)[m..] == UpperAll(b[m..]);
  }

  lemma UpperAllPush(s: seq<byte>, i: nat)
    requires i < |s|
    ensures UpperAll(s[..i + 1]) == UpperAll(s[..i]) + [Upper(s[i])]
  {
  }

  /** Upper-cases `part` into the field of `width` spaces at `at`, refusing bad or surplus characters. */
  method ConvertField(part: seq<byte>, out: array<byte>, at: nat, width: nat) returns (ok: bool)
    requires at + width <= out.Length
    requires out[at..at + width] == Pad([], width)
    modifies out
    ensures ok <==> |part| <= width && AllValid(UpperAll(part))
    ensures ok ==> out[..] == Splice(old(out[..]), at, Pad(UpperAll(part), width))
  {
    var i := 0;
    assert out[..] == Splice(old(out[..]), at, out[at..at + width]);
    while i < |part|
      invariant i <= |part| && i <= width
      invariant AllValid(UpperAll(part[..i]))
      invariant out[..] == Splice(old(out[..]), at, Pad(UpperAll(part[..i]), width))
    {
      var c := Upper(part[i]);
      if !ValidChar(c) || i >= width {
        assert UpperAll(part)[i] == c;
        return false;
      }
      UpperAllPush(part, i);
      out[at + i] := c;
      i := i + 1;
    }
    assert part[..i] == part;
    return true;
  }

  /** Converts a typed name; the buffer is meaningful only on success. */
  method FatNameFromInput(name: CString, out: array<byte>) returns (rc: int)
    requires out.Length == 11
    modifies out
    ensures rc == 0 || rc == -1
    ensures rc == 0 <==> FatName(name).Some?
    ensures rc == 0 ==> out[..] == FatName(name).value
  {
    Blit(out, 0, seq(11, _ => SPACE));
    var d := Until(name, DOT);
    var ok := ConvertField(name[..d], out, 0, 8);
    if !ok || d == 0 {
      return -1;
    }
    if d < |name| {
      ok := ConvertField(name[d + 1..], out, 8, 3);
      if !ok {
        return -1;
      }
    } else {
      assert UpperAll(name[d..]) == [];
    }
    return 0;
  }

  /** Writes the text form into a 24-byte buffer; no stored name is long enough to be cut. */
  method FatNameToPrintable(n: seq<byte>, out: array<byte>) returns (p: nat)
    requires |n| == 11 && out.Length == MAX_NAME + 1
    modifies out
    ensures p == |Printable(n)| <= 12
    ensures out[..p] == Printable(n) && out[p] == 0
  {
    ghost var k, j := Until(n[..8], SPACE), Until(n[8..], SPACE);
    p := 0;
    var i := 0;
    while i < 8 && n[i] != SPACE
      invariant 0 <= i <= 8 && p == i <= k
      invariant out[..p] == n[..i]
    {
      if p < MAX_NAME {
        out[p] := n[i];
        p := p + 1;
      }
      i := i + 1;
    }
    assert p == k;
    if n[8] != SPACE {
      if p < MAX_NAME {
        out[p] := DOT;
        p := p + 1;
      }
      i := 0;
      while i < 3 && n[8 + i] != SPACE
        invariant 0 <= i <= 3 && p == k + 1 + i && i <= j
        invariant out[..p] == n[..k] + [DOT] + n[8..8 + i]
      {
        if p < MAX_NAME {
          out[p] := n[8 + i];
          p := p + 1;
        }
        i := i + 1;
      }
      assert i == j && n[8..8 + i] == n[8..][..j];
    }
    out[p] := 0;
  }
}
