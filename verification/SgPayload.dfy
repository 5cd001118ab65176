/** Reading and writing the payload of a chain in memory, as one run of bytes. */
module SgPayload {
  import opened SgChain

  newtype Byte = b: int | 0 <= b < 256

  /** Pieces one behind the other. */
  function Joined(pieces: seq<seq<Byte>>): seq<Byte> {
    if pieces == [] then [] else Joined(pieces[..|pieces| - 1]) + pieces[|pieces| - 1]
  }

  lemma JoinedNext(pieces: seq<seq<Byte>>, last: seq<Byte>)
    ensures Joined(pieces + [last]) == Joined(pieces) + last
  {
    assert (pieces + [last])[..|pieces|] == pieces;
  }

  /** Bytes s .. s+n of the payload are in memory. */
  ghost predicate Backed(size: nat, c: seq<Desc>, s: nat, n: nat) {
    s + n <= Sum(c) && forall p :: s <= p < s + n ==> Addr(c, p) < size
  }

  /** The bytes s .. s+n of the payload. */
  ghost function Read(m: seq<Byte>, c: seq<Desc>, s: nat, n: nat): (r: seq<Byte>)
    requires Backed(|m|, c, s, n)
    ensures |r| == n && forall i :: 0 <= i < n ==> r[i] == m[Addr(c, s + i)]
  {
    seq(n, i requires 0 <= i < n => m[Addr(c, s + i)])
  }

  /** Address a is one of the payload's bytes d .. d+n. */
  ghost predicate Hit(c: seq<Desc>, d: nat, n: nat, a: nat) {
    exists p :: d <= p < d + n && p < Sum(c) && Addr(c, p) == a
  }

  /** The payload has been changed to bytes from offset d on, and nothing else in memory has. */
  ghost predicate Put(m': seq<Byte>, m: seq<Byte>, c: seq<Desc>, d: nat, bytes: seq<Byte>) {
    && |m'| == |m| && Backed(|m|, c, d, |bytes|)
    && (forall p :: d <= p < d + |bytes| ==> m'[Addr(c, p)] == bytes[p - d])
    && (forall a :: 0 <= a < |m| && !Hit(c, d, |bytes|, a) ==> m'[a] == m[a])
  }

  /** Nothing in memory has changed but bytes d .. d+n of the payload. */
  ghost predicate Only(m': seq<Byte>, m: seq<Byte>, c: seq<Desc>, d: nat, n: nat) {
    |m'| == |m| && forall a :: 0 <= a < |m| && !Hit(c, d, n, a) ==> m'[a] == m[a]
  }

  lemma OnlyAppend(m0: seq<Byte>, m1: seq<Byte>, m2: seq<Byte>, c: seq<Desc>, d: nat, n: nat, b: seq<Byte>)
    requires Only(m1, m0, c, d, n) && Put(m2, m1, c, d + n, b)
    ensures Only(m2, m0, c, d, n + |b|)
  {
    forall a | 0 <= a < |m0| && !Hit(c, d, n + |b|, a)
      ensures m2[a] == m0[a]
    {
      assert !Hit(c, d, n, a) && !Hit(c, d + n, |b|, a);
    }
  }

  lemma OnlyJoin(m0: seq<Byte>, m1: seq<Byte>, m2: seq<Byte>, c: seq<Desc>, d: nat, n: nat, k: nat)
    requires Only(m1, m0, c, d, n) && Only(m2, m1, c, d + n, k)
    ensures Only(m2, m0, c, d, n + k)
  {
    forall a | 0 <= a < |m0| && !Hit(c, d, n + k, a)
      ensures m2[a] == m0[a]
    {
      assert !Hit(c, d, n, a) && !Hit(c, d + n, k, a);
    }
  }

  lemma PutNothing(m: seq<Byte>, c: seq<Desc>, d: nat)
    requires d <= Sum(c)
    ensures Put(m, m, c, d, [])
  {
  }

  /** Two writes one behind the other are one write: so a copy may be split anywhere. */
  lemma PutAppend(m0: seq<Byte>, m1: seq<Byte>, m2: seq<Byte>, c: seq<Desc>, d: nat, a: seq<Byte>, b: seq<Byte>)
    requires Injective(c) && Put(m1, m0, c, d, a) && Put(m2, m1, c, d + |a|, b)
    ensures Put(m2, m0, c, d, a + b)
  {
    forall p | d <= p < d + |a| + |b|
      ensures Addr(c, p) < |m0| && m2[Addr(c, p)] == (a + b)[p - d]
    {
      if p < d + |a| {
        assert forall q :: d + |a| <= q < d + |a| + |b| ==> Addr(c, q) != Addr(c, p);
        assert m2[Addr(c, p)] == m1[Addr(c, p)];
      }
    }
    forall x | 0 <= x < |m0| && !Hit(c, d, |a + b|, x)
      ensures m2[x] == m0[x]
    {
      assert !Hit(c, d, |a|, x) && !Hit(c, d + |a|, |b|, x);
    }
  }

  /** What has been put is what is read back. */
  lemma ReadBack(m': seq<Byte>, m: seq<Byte>, c: seq<Desc>, d: nat, bytes: seq<Byte>)
    requires Put(m', m, c, d, bytes)
    ensures Read(m', c, d, |bytes|) == bytes
  {
  }

  /** Bytes of the payload outside the written range, and other payloads, stay. */
  lemma ReadElsewhere(m': seq<Byte>, m: seq<Byte>, c: seq<Desc>, d: nat, bytes: seq<Byte>, e: seq<Desc>, s: nat, n: nat)
    requires Put(m', m, c, d, bytes) && Backed(|m|, e, s, n)
    requires Apart(c, e) || (e == c && Injective(c) && (s + n <= d || d + |bytes| <= s))
    ensures Read(m', e, s, n) == Read(m, e, s, n)
  {
    forall p | s <= p < s + n
      ensures m'[Addr(e, p)] == m[Addr(e, p)]
    {
      assert forall q :: d <= q < d + |bytes| ==> Addr(c, q) != Addr(e, p);
    }
  }

  /** Putting is slice assignment on the payload. */
  lemma PutIsSlice(m': seq<Byte>, m: seq<Byte>, c: seq<Desc>, d: nat, bytes: seq<Byte>)
    requires Injective(c) && Put(m', m, c, d, bytes) && Backed(|m|, c, 0, Sum(c))
    ensures var old' := Read(m, c, 0, Sum(c));
            Read(m', c, 0, Sum(c)) == old'[..d] + bytes + old'[d + |bytes|..]
  {
    var r := Read(m', c, 0, Sum(c));
    var o := Read(m, c, 0, Sum(c));
    forall p | 0 <= p < Sum(c)
      ensures r[p] == (o[..d] + bytes + o[d + |bytes|..])[p]
    {
      assert r[p] == m'[Addr(c, 0 + p)] && o[p] == m[Addr(c, 0 + p)];
      if p < d || d + |bytes| <= p {
        assert forall q :: d <= q < d + |bytes| ==> Addr(c, q) != Addr(c, p);
      }
    }
  }

  // ---------- one descriptor ----------

  function Blit(m: seq<Byte>, at: nat, bytes: seq<Byte>): (r: seq<Byte>)
    requires at + |bytes| <= |m|
    ensures |r| == |m|
  {
    m[..at] + bytes + m[at + |bytes|..]
  }

  /** Consecutive bytes of one descriptor are consecutive in memory. */
  lemma ChunkAddr(c: seq<Desc>, k: nat, l: nat, n: nat)
    requires k < |c| && l + n <= c[k].length
    ensures Start(c, k) + l + n <= Sum(c)
    ensures forall p :: Start(c, k) + l <= p < Start(c, k) + l + n ==> Addr(c, p) == c[k].address + (p - Start(c, k))
  {
    StartNext(c, k);
    StartMonotone(c, k + 1, |c|);
    forall p | Start(c, k) + l <= p < Start(c, k) + l + n
      ensures Addr(c, p) == c[k].address + (p - Start(c, k))
    {
      AddrAt(c, k, p - Start(c, k));
    }
  }

  lemma ChunkHit(c: seq<Desc>, k: nat, l: nat, n: nat, a: nat)
    requires k < |c| && l + n <= c[k].length && c[k].address + l <= a < c[k].address + l + n
    ensures Hit(c, Start(c, k) + l, n, a)
  {
    ChunkAddr(c, k, l, n);
    assert Addr(c, Start(c, k) + (a - c[k].address)) == a;
  }

  lemma BlitPuts(m: seq<Byte>, c: seq<Desc>, k: nat, l: nat, bytes: seq<Byte>)
    requires k < |c| && l + |bytes| <= c[k].length && c[k].address + l + |bytes| <= |m|
    ensures Put(Blit(m, c[k].address + l, bytes), m, c, Start(c, k) + l, bytes)
  {
    hide Start, Sum, Addr;
    ChunkAddr(c, k, l, |bytes|);
    var m' := Blit(m, c[k].address + l, bytes);
    forall a | 0 <= a < |m| && !Hit(c, Start(c, k) + l, |bytes|, a)
      ensures m'[a] == m[a]
    {
      if c[k].address + l <= a < c[k].address + l + |bytes| { ChunkHit(c, k, l, |bytes|, a); }
    }
  }

  lemma SliceReads(m: seq<Byte>, c: seq<Desc>, k: nat, l: nat, n: nat)
    requires k < |c| && l + n <= c[k].length && c[k].address + l + n <= |m|
    ensures Backed(|m|, c, Start(c, k) + l, n)
    ensures Read(m, c, Start(c, k) + l, n) == m[c[k].address + l..c[k].address + l + n]
  {
    hide Start, Sum, Addr;
    ChunkAddr(c, k, l, n);
  }

  lemma ReadAppend(m: seq<Byte>, c: seq<Desc>, s: nat, a: nat, b: nat)
    requires Backed(|m|, c, s, a) && Backed(|m|, c, s + a, b)
    ensures Backed(|m|, c, s, a + b) && Read(m, c, s, a + b) == Read(m, c, s, a) + Read(m, c, s + a, b)
  {
    var whole, tail := Read(m, c, s, a + b), Read(m, c, s + a, b);
    forall i | a <= i < a + b
      ensures whole[i] == tail[i - a]
    {
      assert whole[i] == m[Addr(c, s + i)] && tail[i - a] == m[Addr(c, s + a + (i - a))];
    }
  }
}
