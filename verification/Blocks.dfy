/** The block writes of one file: which sectors they change, and when there is room for them. */
module Blocks {
  import opened Bytes
  import opened Disk
  import opened Fat
  import opened FileSteps

  /** Sector `l` belongs to no cluster of `chain`. */
  ghost predicate Elsewhere(l: int, chain: seq<Word>)
  {
    forall k :: 0 <= k < |chain| ==> l != Lba(chain[k])
  }

  /** `b` is `a` with block k of `data` in the k-th cluster of `chain`. */
  ghost predicate DataWritten(a: seq<Sector>, b: seq<Sector>, chain: seq<Word>, data: seq<byte>)
  {
    && |b| == |a| && 512 * |chain| < |data| + 512
    && (forall k :: 0 <= k < |chain| ==> Lba(chain[k]) < |b| && b[Lba(chain[k])] == Block(data, k))
    && (forall l :: 0 <= l < |a| && Elsewhere(l, chain) ==> b[l] == a[l])
  }

  /** Only sectors of clusters free in `f` may differ. */
  ghost predicate OnlyFreeClusters(f: seq<Word>, a: seq<Sector>, b: seq<Sector>)
    requires |f| == ENTRIES
  {
    |b| == |a| && forall l :: 0 <= l < |a| && !(InRange(l - Lba(0)) && f[l - Lba(0)] == 0) ==> b[l] == a[l]
  }

  lemma ExtendDataWritten(a: seq<Sector>, b: seq<Sector>, chain: seq<Word>, data: seq<byte>, c: Word)
    requires DataWritten(a, b, chain, data) && 512 * |chain| < |data|
    requires Lba(c) < |a| && c !in chain
    ensures DataWritten(a, b[Lba(c) := Block(data, |chain|)], chain + [c], data)
  {
    hide Block;
    var next := chain + [c];
    var b' := b[Lba(c) := Block(data, |chain|)];
    forall l | 0 <= l < |a| && Elsewhere(l, next) ensures b'[l] == a[l] {
      assert next[|chain|] == c;
      forall k | 0 <= k < |chain| ensures l != Lba(chain[k]) {
        assert next[k] == chain[k];
      }
    }
  }

  lemma WrittenOnlyFree(f: seq<Word>, g: seq<Word>, a: seq<Sector>, b: seq<Sector>, chain: seq<Word>, data: seq<byte>)
    requires |f| == ENTRIES && |g| == ENTRIES && Allocated(f, g, chain) && DataWritten(a, b, chain, data)
    ensures OnlyFreeClusters(f, a, b)
  {
    hide Block;
    forall l | 0 <= l < |a| && !(InRange(l - Lba(0)) && f[l - Lba(0)] == 0) ensures b[l] == a[l] {
      assert Elsewhere(l, chain);
    }
  }

  lemma FreshNotInChain(f: seq<Word>, chain: seq<Word>, c: Word)
    requires |f| == ENTRIES && Linked(f, chain) && c < ENTRIES && f[c] == 0
    ensures c !in chain
  {
    forall k | 0 <= k < |chain| ensures chain[k] != c {
      assert f[chain[k]] == Succ(chain, k);
    }
  }

  /** A block write that failed has touched at most the sector of a cluster that was free. */
  lemma FailedBlock(f: seq<Word>, g: seq<Word>, a: seq<Sector>, b: seq<Sector>, b': seq<Sector>,
                    chain: seq<Word>, data: seq<byte>, c: Word)
    requires |f| == ENTRIES && |g| == ENTRIES && Allocated(f, g, chain + [c]) && DataWritten(a, b, chain, data)
    requires |b'| == |b| && forall l :: 0 <= l < |b| && l != Lba(c) ==> b'[l] == b[l]
    ensures OnlyFreeClusters(f, a, b')
  {
    hide Block;
    var next := chain + [c];
    assert f[next[|chain|]] == 0;
    forall l | 0 <= l < |a| && !(InRange(l - Lba(0)) && f[l - Lba(0)] == 0) ensures b'[l] == a[l] {
      forall k | 0 <= k < |chain| ensures l != Lba(chain[k]) {
        assert f[next[k]] == 0;
      }
      assert Elsewhere(l, chain);
    }
  }

  lemma NothingWritten(f: seq<Word>, a: seq<Sector>, data: seq<byte>)
    requires |f| == ENTRIES
    ensures Allocated(f, f, []) && DataWritten(a, a, [], data)
  {
  }

  lemma ChainClusters(f: seq<Word>, g: seq<Word>, chain: seq<Word>)
    requires |f| == ENTRIES && |g| == ENTRIES && Allocated(f, g, chain)
    ensures Linked(g, chain) && forall k :: 0 <= k < |chain| ==> InRange(chain[k])
  {
  }

  lemma OneSector(disk: seq<Sector>, lba: nat)
    requires lba < |disk|
    ensures Region(disk, lba, 1) == disk[lba]
  {
  }

  // ---------- room ----------

  lemma {:induction false} SetOfSize(f: seq<Word>, chain: seq<Word>)
    requires |f| == ENTRIES && Linked(f, chain)
    ensures |SetOf(chain)| == |chain|
  {
    if chain != [] {
      LinkedTail(f, chain);
      SetOfSize(f, chain[1..]);
      assert chain == [chain[0]] + chain[1..];
      assert SetOf(chain) == {chain[0]} + SetOf(chain[1..]);
      forall k | 0 <= k < |chain[1..]| ensures chain[1..][k] != chain[0] {
        LinkedDistinct(f, chain, 0, k + 1);
      }
    }
  }

  /** An allocation takes its clusters from the free ones, one each. */
  lemma AllocatedRoom(f: seq<Word>, g: seq<Word>, chain: seq<Word>)
    requires |f| == ENTRIES && |g| == ENTRIES && Allocated(f, g, chain)
    ensures |chain| <= |FreeSet(f)|
    ensures (forall c :: InRange(c) ==> g[c] != 0) ==> |chain| == |FreeSet(f)|
  {
    SetOfSize(g, chain);
    var taken: set<int> := SetOf(chain);
    assert taken <= FreeSet(f);
    SubsetSize(taken, FreeSet(f));
    if forall c :: InRange(c) ==> g[c] != 0 {
      forall c | c in FreeSet(f) ensures c in chain {
        assert InRange(c);
      }
      assert taken == FreeSet(f);
    }
  }

  lemma SubsetSize(a: set<int>, b: set<int>)
    requires a <= b
    ensures |a| <= |b|
  {
    assert b == a + (b - a);
  }

  lemma FreeSmall(f: seq<Word>, c: Word)
    requires |f| == ENTRIES
    ensures c < FIRST_CLUSTER ==> FreeChain(f, c) == f
  {
  }

  lemma FreeSingle(f: seq<Word>, c: Word)
    requires |f| == ENTRIES && InRange(c) && f[c] == 0
    ensures FreeChain(f[c := EOC], c) == f
  {
  }

  /** First fit finds a cluster exactly when one is free. */
  lemma RoomForOne(f: seq<Word>, c: Word)
    requires |f| == ENTRIES
    requires if c == 0 then forall b :: InRange(b) ==> f[b] != 0 else InRange(c) && f[c] == 0
    ensures c == 0 <==> FreeSet(f) == {}
  {
    if c == 0 {
      forall b ensures b !in FreeSet(f) {
        assert InRange(b) ==> f[b] != 0;
      }
    } else {
      assert c in FreeSet(f);
    }
  }
}
