/** File names in literal characters: which are accepted, what is stored of them, and what is shown. */
module NameLaws {
  import opened Bytes
  import opened FatNames

  /** a-z, A-Z, 0-9, `_`, `-` and `$`. */
  predicate Allowed(c: byte)
  {
    || 0x61 <= c <= 0x7A
    || 0x41 <= c <= 0x5A
    || 0x30 <= c <= 0x39
    || c == 0x5F || c == 0x2D || c == 0x24
  }

  predicate AllAllowed(s: seq<byte>) { forall i :: 0 <= i < |s| ==> Allowed(s[i]) }

  /** A field of a stored name: small letters 32 lower, everything else as typed, blanks behind. */
  predicate FieldHolds(f: seq<byte>, s: seq<byte>)
  {
    && |s| <= |f|
    && (forall i :: 0 <= i < |s| ==> f[i] == if 0x61 <= s[i] <= 0x7A then s[i] - 32 else s[i])
    && (forall i :: |s| <= i < |f| ==> f[i] == 0x20)
  }

  lemma AllowedIs(s: seq<byte>)
    ensures AllValid(UpperAll(s)) <==> AllAllowed(s)
  {
    forall i | 0 <= i < |s| ensures ValidChar(UpperAll(s)[i]) <==> Allowed(s[i]) {
    }
    if AllValid(UpperAll(s)) {
      forall i | 0 <= i < |s| ensures Allowed(s[i]) {
        assert ValidChar(UpperAll(s)[i]);
      }
    }
  }

  lemma PadHolds(base: seq<byte>, ext: seq<byte>)
    requires |base| <= 8 && |ext| <= 3
    ensures var n := Pad(UpperAll(base), 8) + Pad(UpperAll(ext), 3);
      FieldHolds(n[..8], base) && FieldHolds(n[8..], ext)
  {
    var n := Pad(UpperAll(base), 8) + Pad(UpperAll(ext), 3);
    assert n[..8] == Pad(UpperAll(base), 8) && n[8..] == Pad(UpperAll(ext), 3);
  }

  /** What a name cut at its first dot converts to. */
  lemma Cut(name: CString, base: seq<byte>, ext: seq<byte>)
    requires 0x2E !in base && ((name == base && ext == []) || name == base + [0x2E] + ext)
    ensures FatName(name) ==
      if 1 <= |base| <= 8 && |ext| <= 3 && AllAllowed(base) && AllAllowed(ext) then
        Some(Pad(UpperAll(base), 8) + Pad(UpperAll(ext), 3))
      else None
  {
    hide AllAllowed, AllValid, Pad;
    UntilIs(name, DOT, |base|);
    var k := |base|;
    assert name[..k] == base && name[if k < |name| then k + 1 else k..] == ext;
    AllowedIs(base);
    AllowedIs(ext);
  }

  /** A name without a dot is accepted if and only if it has 1 to 8 characters, all allowed. */
  lemma PlainName(name: CString)
    requires 0x2E !in name
    ensures FatName(name).Some? <==> 1 <= |name| <= 8 && AllAllowed(name)
    ensures FatName(name).Some? ==> FieldHolds(FatName(name).value[..8], name) && FieldHolds(FatName(name).value[8..], [])
  {
    hide FatName, AllAllowed, FieldHolds, Pad;
    Cut(name, name, []);
    NoneAllowed();
    if |name| <= 8 {
      PadHolds(name, []);
    }
  }

  lemma NoneAllowed()
    ensures AllAllowed([])
  {
  }

  /** A base, a dot and an extension are accepted if and only if the base has 1 to 8 and the extension at most 3 characters, all
      allowed; a second dot is none of them. */
  lemma DottedName(base: CString, ext: CString)
    requires 0x2E !in base
    ensures var name: CString := base + [0x2E] + ext;
      && (FatName(name).Some? <==> 1 <= |base| <= 8 && |ext| <= 3 && AllAllowed(base) && AllAllowed(ext))
      && (FatName(name).Some? ==> FieldHolds(FatName(name).value[..8], base) && FieldHolds(FatName(name).value[8..], ext))
  {
    hide FatName, AllAllowed, FieldHolds, Pad;
    Cut(base + [0x2E] + ext, base, ext);
    if |base| <= 8 && |ext| <= 3 {
      PadHolds(base, ext);
    }
  }

  /** The same letter, small or capital, 32 apart. */
  predicate SameLetter(a: byte, b: byte)
  {
    a == b || (0x61 <= a <= 0x7A && b == a - 32) || (0x61 <= b <= 0x7A && a == b - 32)
  }

  /** Names that differ only in case convert alike. */
  lemma CaseDoesNotMatter(a: CString, b: CString)
    requires |a| == |b| && forall i :: 0 <= i < |a| ==> SameLetter(a[i], b[i])
    ensures FatName(a) == FatName(b)
  {
    assert UpperAll(a) == UpperAll(b);
    FatNameCaseInsensitive(a, b);
  }

  /** A stored name is shown as its base, and a dot and its extension if it has one. */
  lemma Shown(base: seq<byte>, ext: seq<byte>)
    requires |base| <= 8 && |ext| <= 3 && 0x20 !in base && 0x20 !in ext
    ensures var n := base + seq(8 - |base|, _ => 0x20) + ext + seq(3 - |ext|, _ => 0x20);
      Printable(n) == base + if ext == [] then [] else [0x2E] + ext
  {
    var n := base + seq(8 - |base|, _ => 0x20) + ext + seq(3 - |ext|, _ => 0x20);
    assert n[..8] == Pad(base, 8) && n[8..] == Pad(ext, 3);
    UntilIs(n[..8], SPACE, |base|);
    UntilIs(n[8..], SPACE, |ext|);
    assert n[..|base|] == base && n[8..][..|ext|] == ext;
  }
}
