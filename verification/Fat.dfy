/** The file allocation table: its byte encoding, cluster chains, and freeing on arbitrary tables. */
module Fat {
  import opened Bytes
  import opened Disk

  const ENTRIES := 8192
  const FIRST_CLUSTER := 2
  const LAST_CLUSTER := 8152
  const CLUSTERS := 8151
  const EOC := 0xFFFF

  predicate InRange(c: int) { FIRST_CLUSTER <= c <= LAST_CLUSTER }

  /** A link value at which every chain walk stops. */
  predicate Stops(v: Word) { v >= 0xFFF8 || v == 0 }

  /** Sector of a cluster; 32-bit wrap-around makes this hold for the values 0 and 1 as well. */
  function Lba(c: Word): nat { DATA_LBA - FIRST_CLUSTER + c }

  // ---------- byte encoding ----------

  /** The table of 16-bit links held little-endian in a byte buffer. */
  function Decode(b: seq<byte>): (f: seq<Word>)
    requires |b| == 2 * ENTRIES
    ensures |f| == ENTRIES
    ensures forall c :: 0 <= c < ENTRIES ==> f[c] == Word16(b[2 * c], b[2 * c + 1])
  {
    seq(ENTRIES, c requires 0 <= c < ENTRIES => Word16(b[2 * c], b[2 * c + 1]))
  }

  function Encode(f: seq<Word>): (b: seq<byte>)
    requires |f| == ENTRIES
    ensures |b| == 2 * ENTRIES
    ensures forall i :: 0 <= i < 2 * ENTRIES ==> b[i] == if i % 2 == 0 then Lo(f[i / 2]) else Hi(f[i / 2])
  {
    seq(2 * ENTRIES, i requires 0 <= i < 2 * ENTRIES => if i % 2 == 0 then Lo(f[i / 2]) else Hi(f[i / 2]))
  }

  lemma DecodeEncode(f: seq<Word>)
    requires |f| == ENTRIES
    ensures Decode(Encode(f)) == f
  {
    forall c | 0 <= c < ENTRIES
      ensures Decode(Encode(f))[c] == f[c]
    {
      WordParts(f[c]);
      assert 2 * c % 2 == 0 && 2 * c / 2 == c && (2 * c + 1) % 2 == 1 && (2 * c + 1) / 2 == c;
    }
  }

  lemma EncodeDecode(b: seq<byte>)
    requires |b| == 2 * ENTRIES
    ensures Encode(Decode(b)) == b
  {
    forall i | 0 <= i < 2 * ENTRIES
      ensures Encode(Decode(b))[i] == b[i]
    {
      var c := i / 2;
      assert Decode(b)[c] == Word16(b[2 * c], b[2 * c + 1]);
    }
  }

  /** Storing one link's two bytes changes that link and no other. */
  lemma DecodeSet(b: seq<byte>, c: Word, v: Word)
    requires |b| == 2 * ENTRIES && c < ENTRIES
    ensures Decode(b[2 * c := Lo(v)][2 * c + 1 := Hi(v)]) == Decode(b)[c := v]
  {
  }

  // ---------- chains ----------

  /** The link stored in the k-th cluster of a chain: the next cluster, or the end mark. */
  function Succ(chain: seq<Word>, k: nat): Word
    requires k < |chain|
  {
    if k + 1 < |chain| then chain[k + 1] else EOC
  }

  /** `chain` lists clusters linked one to the next and ended by the end-of-chain mark. */
  ghost predicate Linked(f: seq<Word>, chain: seq<Word>)
    requires |f| == ENTRIES
  {
    && (forall k :: 0 <= k < |chain| ==> InRange(chain[k]))
    && (forall k {:trigger Succ(chain, k)} :: 0 <= k < |chain| ==> f[chain[k]] == Succ(chain, k))
  }

  function Head(chain: seq<Word>): Word
  {
    if chain == [] then 0 else chain[0]
  }

  /** Linked chains are acyclic. */
  lemma {:induction false} LinkedDistinct(f: seq<Word>, chain: seq<Word>, i: nat, j: nat)
    requires |f| == ENTRIES && Linked(f, chain)
    requires i < j < |chain|
    ensures chain[i] != chain[j]
    decreases |chain| - j
  {
    assert f[chain[i]] == Succ(chain, i) && f[chain[j]] == Succ(chain, j);
    if j + 1 < |chain| {
      LinkedDistinct(f, chain, i + 1, j + 1);
    }
  }

  /** Two linked chains with the same head are the same chain. */
  lemma {:induction false} LinkedUnique(f: seq<Word>, a: seq<Word>, b: seq<Word>)
    requires |f| == ENTRIES && Linked(f, a) && Linked(f, b)
    requires Head(a) == Head(b)
    ensures a == b
  {
    if a == [] || b == [] {
      assert a == b == [];
    } else {
      LinkedTail(f, a);
      LinkedTail(f, b);
      assert f[a[0]] == Succ(a, 0) && f[b[0]] == Succ(b, 0);
      if |a| > 1 && |b| > 1 {
        LinkedUnique(f, a[1..], b[1..]);
      }
      assert a == [a[0]] + a[1..] && b == [b[0]] + b[1..];
    }
  }

  lemma LinkedTail(f: seq<Word>, chain: seq<Word>)
    requires |f| == ENTRIES && Linked(f, chain) && chain != []
    ensures Linked(f, chain[1..])
  {
    forall k | 0 <= k < |chain[1..]|
      ensures f[chain[1..][k]] == Succ(chain[1..], k)
    {
      assert f[chain[k + 1]] == Succ(chain, k + 1);
    }
  }

  /** `f` with the clusters of `chain` marked free. */
  function Clear(f: seq<Word>, chain: seq<Word>): (g: seq<Word>)
    ensures |g| == |f|
    ensures forall c :: 0 <= c < |f| ==> g[c] == if c in chain then 0 else f[c]
  {
    seq(|f|, c requires 0 <= c < |f| => if c in chain then 0 else f[c])
  }

  // ---------- freeing ----------

  ghost function NonFree(f: seq<Word>): set<int>
  {
    set c | 0 <= c < |f| && f[c] != 0
  }

  /** What the freeing walk leaves, on any table, cyclic or corrupt. */
  ghost function FreeChain(f: seq<Word>, c: Word): (g: seq<Word>)
    requires |f| == ENTRIES
    ensures |g| == ENTRIES
    decreases NonFree(f)
  {
    if !InRange(c) then f
    else if Stops(f[c]) then f[c := 0]
    else
      assert c in NonFree(f) && NonFree(f[c := 0]) <= NonFree(f) - {c};
      FreeChain(f[c := 0], f[c])
  }

  lemma FreeNothing(f: seq<Word>)
    requires |f| == ENTRIES
    ensures FreeChain(f, 0) == f
  {
  }

  /** A walk from `c` to `x` along links of `f`. */
  ghost predicate Walk(f: seq<Word>, c: Word, x: Word, p: seq<Word>)
    requires |f| == ENTRIES
  {
    && |p| > 0 && p[0] == c && p[|p| - 1] == x
    && (forall k :: 0 <= k < |p| ==> InRange(p[k]))
    && (forall k :: 0 <= k < |p| - 1 ==> !Stops(f[p[k]]) && p[k + 1] == f[p[k]])
  }

  ghost predicate Reaches(f: seq<Word>, c: Word, x: Word)
    requires |f| == ENTRIES
  {
    exists p :: Walk(f, c, x, p)
  }

  /** Freeing zeroes exactly the clusters reachable from its argument, on every table. */
  lemma {:induction false} FreeChainExact(f: seq<Word>, c: Word, x: Word)
    requires |f| == ENTRIES && x < ENTRIES
    ensures FreeChain(f, c)[x] == if Reaches(f, c, x) then 0 else f[x]
    decreases NonFree(f)
  {
    if InRange(c) {
      if x == c {
        assert Walk(f, c, x, [c]);
      }
      var g := f[c := 0];
      if Stops(f[c]) {
        if Reaches(f, c, x) {
          var p :| Walk(f, c, x, p);
          assert |p| == 1;
        }
      } else {
        var n := f[c];
        assert c in NonFree(f) && NonFree(g) <= NonFree(f) - {c};
        FreeChainExact(g, n, x);
        if x != c && Reaches(f, c, x) {
          var p :| Walk(f, c, x, p);
          WalkAfterFree(f, c, x, p);
        }
        if x != c && Reaches(g, n, x) {
          var p :| Walk(g, n, x, p);
          assert Walk(f, c, x, [c] + p) by {
            forall k | 0 <= k < |p| - 1
              ensures p[k] != c
            {
              assert !Stops(g[p[k]]);
            }
          }
        }
      }
    }
  }

  /** A walk to another cluster survives, from the successor on, when its first cluster is freed. */
  lemma {:induction false} WalkAfterFree(f: seq<Word>, c: Word, x: Word, p: seq<Word>)
    requires |f| == ENTRIES && InRange(c) && x != c && Walk(f, c, x, p)
    ensures Reaches(f[c := 0], f[c], x)
    decreases |p|
  {
    if k :| 0 < k < |p| && p[k] == c {
      assert Walk(f, c, x, p[k..]);
      WalkAfterFree(f, c, x, p[k..]);
    } else {
      assert Walk(f[c := 0], f[c], x, p[1..]);
    }
  }

  /** On a well-formed chain the walk clears that chain and nothing else. */
  lemma {:induction false} FreeLinked(f: seq<Word>, chain: seq<Word>)
    requires |f| == ENTRIES && Linked(f, chain)
    ensures FreeChain(f, Head(chain)) == Clear(f, chain)
    decreases |chain|
  {
    if chain == [] {
      assert Clear(f, chain) == f;
    } else {
      var c, g := chain[0], f[chain[0] := 0];
      LinkedTail(f, chain);
      forall k | 0 < k < |chain| ensures chain[k] != c {
        LinkedDistinct(f, chain, 0, k);
      }
      assert f[c] == Succ(chain, 0);
      assert Linked(g, chain[1..]) by {
        forall k | 0 <= k < |chain[1..]| ensures g[chain[1..][k]] == Succ(chain[1..], k) {
          assert chain[1..][k] == chain[k + 1];
        }
      }
      FreeLinked(g, chain[1..]);
      assert chain == [c] + chain[1..];
      assert Clear(g, chain[1..]) == Clear(f, chain);
    }
  }

  // ---------- allocation ----------

  /** Clusters needed for a file of `size` bytes. */
  function ClustersFor(size: nat): nat { (size + 511) / 512 }

  /** `g` is `f` with `chain` newly allocated from free clusters, first fit, and linked. */
  ghost predicate Allocated(f: seq<Word>, g: seq<Word>, chain: seq<Word>)
    requires |f| == ENTRIES && |g| == ENTRIES
  {
    && Linked(g, chain)
    && (forall k :: 0 <= k < |chain| ==> f[chain[k]] == 0)
    && (forall c :: 0 <= c < ENTRIES && c !in chain ==> g[c] == f[c])
    && (forall k, c :: 0 <= k < |chain| && FIRST_CLUSTER <= c < chain[k] && c !in chain[..k] ==> f[c] != 0)
  }

  /** Linking one more free cluster to the end of an allocation extends it. */
  lemma ExtendAllocated(f: seq<Word>, g: seq<Word>, chain: seq<Word>, c: Word, h: seq<Word>)
    requires |f| == ENTRIES && |g| == ENTRIES && Allocated(f, g, chain)
    requires InRange(c) && g[c] == 0 && forall b :: FIRST_CLUSTER <= b < c ==> g[b] != 0
    requires h == (if chain == [] then g else g[chain[|chain| - 1] := c])[c := EOC]
    ensures Allocated(f, h, chain + [c])
  {
    var next := chain + [c];
    forall k | 0 <= k < |chain| ensures chain[k] != c && g[chain[k]] == Succ(chain, k) {
      assert g[chain[k]] == Succ(chain, k);
    }
    forall k | 0 <= k < |next| ensures h[next[k]] == Succ(next, k) {
      if k + 1 < |chain| {
        LinkedDistinct(g, chain, k, |chain| - 1);
      }
    }
    forall k, b | 0 <= k < |next| && FIRST_CLUSTER <= b < next[k] && b !in next[..k]
      ensures f[b] != 0
    {
      assert next[..k] == if k < |chain| then chain[..k] else chain;
    }
  }

  /** Freeing a fresh allocation gives the table back entry for entry. */
  lemma FreeAllocated(f: seq<Word>, g: seq<Word>, chain: seq<Word>)
    requires |f| == ENTRIES && |g| == ENTRIES && Allocated(f, g, chain)
    ensures FreeChain(g, Head(chain)) == f
  {
    FreeLinked(g, chain);
    forall c | 0 <= c < ENTRIES ensures Clear(g, chain)[c] == f[c] {
      if c in chain {
        var k :| 0 <= k < |chain| && chain[k] == c;
      }
    }
  }

  // ---------- counting ----------

  ghost function FreeSet(f: seq<Word>): set<int>
    requires |f| == ENTRIES
  {
    set c | FIRST_CLUSTER <= c <= LAST_CLUSTER && f[c] == 0
  }

  ghost function UsedSet(f: seq<Word>): set<int>
    requires |f| == ENTRIES
  {
    set c | FIRST_CLUSTER <= c <= LAST_CLUSTER && f[c] != 0
  }

  ghost function Interval(lo: int, hi: int): set<int>
  {
    set c {:trigger InRange(c)} | lo <= c < hi
  }

  lemma {:induction false} IntervalSize(lo: int, hi: int)
    requires lo <= hi
    ensures |Interval(lo, hi)| == hi - lo
    decreases hi - lo
  {
    if lo < hi {
      IntervalSize(lo, hi - 1);
      assert Interval(lo, hi) == Interval(lo, hi - 1) + {hi - 1};
    } else {
      assert Interval(lo, hi) == {};
    }
  }

  lemma FreePlusUsed(f: seq<Word>)
    requires |f| == ENTRIES
    ensures |FreeSet(f)| + |UsedSet(f)| == CLUSTERS
  {
    IntervalSize(FIRST_CLUSTER, LAST_CLUSTER + 1);
    assert FreeSet(f) + UsedSet(f) == Interval(FIRST_CLUSTER, LAST_CLUSTER + 1);
    assert FreeSet(f) !! UsedSet(f);
  }
}
