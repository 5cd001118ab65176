/** Copies between the payloads of two chains, and between a chain and a linear buffer: loops over
    descriptors on both sides that come to one assignment of a run of bytes. */
module SgCopy {
  import opened SgChain
  import opened SgWritten
  import opened SgPayload
  import opened SgBuffer
  import opened SgOutcome

  // ---------- positions ----------

  lemma Forward(c: seq<Desc>, p: Pos, off: nat, n: nat)
    requires Proper(c) && At(c, p.k, p.l, off) && p.k < |c| && p.l + n <= c[p.k].length
    ensures var p' := Skip(c, p, n); p'.k <= |c| && At(c, p'.k, p'.l, off + n)
  {
    StartNext(c, p.k);
  }

  lemma NotAtEnd(c: seq<Desc>, k: nat, l: nat, off: nat)
    requires At(c, k, l, off) && off < Sum(c)
    ensures k < |c|
  {
    StartEnds(c);
  }

  lemma ChunkBacked(c: seq<Desc>, k: nat, l: nat, off: nat, n: nat, size: nat, d: nat, total: nat)
    requires At(c, k, l, off) && k < |c| && l + n <= c[k].length && n > 0
    requires Backed(size, c, d, total) && d <= off && off + n <= d + total
    ensures c[k].address + l + n <= size
  {
    hide Start, Sum, Addr;
    ChunkAddr(c, k, l, n);
    assert Addr(c, off + n - 1) < size;
  }

  /** `check_copy_configuration`, apart from the iterator. */
  function CheckConfig(size: nat, n: nat, off: nat): Errno {
    if size <= off then NoEnt else if size < n then NoMem else if size < off + n then NoMem else None
  }

  /** Which request is turned down for what: one that starts behind the payload, and one that ends
      behind it. An empty one may start right at the end. */
  lemma CheckExact(size: nat, n: nat, off: nat)
    ensures n > 0 ==> Checked(size, n, off) == CheckConfig(size, n, off)
    ensures Checked(size, n, off) == None <==> off + n <= size
    ensures n > 0 ==> (Checked(size, n, off) == NoEnt <==> off >= size)
    ensures n > 0 ==> (Checked(size, n, off) == NoMem <==> off < size < off + n)
    ensures n == 0 && off > size ==> Checked(size, n, off) == NoEnt
  {
  }

  method CheckCopy(b: Buffer, n: nat, off: nat) returns (err: Errno, k: nat, local: nat)
    requires b.Valid()
    ensures err == CheckConfig(b.size, n, off)
    ensures err.None? ==> k < b.active && At(b.Contents(), k, local, off)
  {
    if b.size <= off { return NoEnt, b.active, off; }
    if b.size < n { return NoMem, b.active, off; }
    if b.size < off + n { return NoMem, b.active, off; }
    k, local := b.Find(off);
    return None, k, local;
  }

  // ---------- one chunk ----------

  method BulkCopy(mem: array<Byte>, at: nat, bytes: seq<Byte>)
    requires at + |bytes| <= mem.Length
    modifies mem
    ensures mem[..] == Blit(old(mem[..]), at, bytes)
  {
    forall i | 0 <= i < |bytes| { mem[at + i] := bytes[i]; }
    assert mem[..] == Blit(old(mem[..]), at, bytes);
  }

  /** `copy_between_vqa`: translation of both ends, the move, and the hooks after it. placed: the
      bytes have been moved. */
  method CopyChunk(mem: array<Byte>, to: nat, from: nat, size: nat, fault: Fault) returns (err: Errno, placed: bool)
    modifies mem
    ensures placed <==> to + size <= mem.Length && from + size <= mem.Length && !fault.Before?
    ensures err == if placed && fault.Fine? then None else BadR
    ensures mem[..] == if placed then Blit(old(mem[..]), to, old(mem[from..from + size])) else old(mem[..])
  {
    if to + size > mem.Length || from + size > mem.Length || fault.Before? { return BadR, false; }
    BulkCopy(mem, to, mem[from..from + size]);
    return if fault.After? then BadR else None, true;
  }

  /** One more chunk, read from a source apart from what has been written. */
  lemma ChunkStep(m0: seq<Byte>, m1: seq<Byte>, c: seq<Desc>, e: seq<Desc>, d: nat, s: nat, done: nat,
                  k: nat, l: nat, j: nat, i: nat, n: nat)
    requires Injective(c) && Apart(c, e) && Backed(|m0|, e, s, done) && Put(m1, m0, c, d, Read(m0, e, s, done))
    requires k < |c| && At(c, k, l, d + done) && l + n <= c[k].length && c[k].address + l + n <= |m0|
    requires j < |e| && At(e, j, i, s + done) && i + n <= e[j].length && e[j].address + i + n <= |m0|
    ensures Backed(|m0|, e, s, done + n)
    ensures Put(Blit(m1, c[k].address + l, m1[e[j].address + i..e[j].address + i + n]), m0, c, d,
                Read(m0, e, s, done + n))
  {
    hide Start, Sum, Addr, Injective, Apart, Blit, Put, Backed;
    PutSize(m1, m0, c, d, Read(m0, e, s, done));
    var bytes := m1[e[j].address + i..e[j].address + i + n];
    SliceReads(m0, e, j, i, n);
    SliceReads(m1, e, j, i, n);
    ReadElsewhere(m1, m0, c, d, Read(m0, e, s, done), e, s + done, n);
    BlitPuts(m1, c, k, l, bytes);
    PutAppend(m0, m1, Blit(m1, c[k].address + l, bytes), c, d, Read(m0, e, s, done), bytes);
    ReadAppend(m0, e, s, done, n);
  }

  lemma PutSize(m': seq<Byte>, m: seq<Byte>, c: seq<Desc>, d: nat, bytes: seq<Byte>)
    requires Put(m', m, c, d, bytes)
    ensures |m'| == |m|
  {
  }

  // ---------- chain to chain ----------

  /** Where an iterator is after n more bytes of its descriptor. */
  datatype Pos = Pos(k: nat, l: nat)

  function Skip(c: seq<Desc>, p: Pos, n: nat): Pos
    requires p.k < |c|
  {
    if p.l + n == c[p.k].length then Pos(p.k + 1, 0) else Pos(p.k, p.l + n)
  }

  /** The loop of `try_end_copy_to_sg_impl`, from iterators p into c and q into e. */
  method CopyLoop(c: seq<Desc>, device: bool, e: seq<Desc>, mem: array<Byte>, n: nat, dOff: nat, sOff: nat,
                  p0: Pos, q0: Pos, faults: Faults)
    returns (err: Errno, copied: nat, ghost moved: nat)
    requires Proper(c) && Proper(e) && Injective(c) && Apart(c, e)
    requires dOff + n <= Sum(c) && sOff + n <= Sum(e) && At(c, p0.k, p0.l, dOff) && At(e, q0.k, q0.l, sOff)
    modifies mem
    ensures copied <= moved <= n && (err.None? ==> copied == moved == n)
    ensures Backed(mem.Length, e, sOff, moved)
    ensures Put(mem[..], old(mem[..]), c, dOff, Read(old(mem[..]), e, sOff, moved)) && MayWrite(device, c, dOff, moved)
    ensures err.None? || err.Perm? || err.BadR?
    ensures Unhindered(mem.Length, c, device, e, n, dOff, sOff) && (forall i :: faults(i).Fine?) ==> err.None?
    ensures ComesTo(Job(Sg(c, dOff), Sg(e, sOff), device, n, mem.Length), faults, err, copied, moved)
  {
    hide Proper, FirstWritable, Start, Sum, Addr, Injective, Apart, Put, Backed, Touches, At, Blit, Read, MayWrite;
    hide ComesTo, Through, StopsAt, ReadOnly, Resident, Left, PieceLen, Pieces, Holds;
    ghost var r := Job(Sg(c, dOff), Sg(e, sOff), device, n, mem.Length);
    Placed(r);
    NothingThrough(r, faults);
    copied, moved := 0, 0;
    ghost var m0 := mem[..];
    var rem: nat, chunk: nat, p, q := n, 0, p0, q0;
    NothingMoved(m0, c, e, dOff, sOff);
    NoneTouched(c, dOff);
    AtBound(c, p.k, p.l, dOff);
    AtBound(e, q.k, q.l, sOff);
    while rem != 0 && p.k != |c| && q.k != |e|
      invariant copied == moved && rem == n - copied && p.k <= |c| && q.k <= |e|
      invariant At(c, p.k, p.l, dOff + copied) && At(e, q.k, q.l, sOff + copied)
      invariant Backed(|m0|, e, sOff, copied) && Put(mem[..], m0, c, dOff, Read(m0, e, sOff, copied))
      invariant MayWrite(device, c, dOff, copied)
      invariant Through(r, faults, copied) && chunk == Pieces(r, copied)
      decreases rem
    {
      AtBound(c, p.k, p.l, dOff + copied);
      AtBound(e, q.k, q.l, sOff + copied);
      var size := Min(rem, Min(e[q.k].length - q.l, c[p.k].length - p.l));
      PieceBetween(r, copied, p, q);
      if device && !WriteOnly(c[p.k].flags) {
        FirstTouched(c, p.k, p.l, dOff + copied, dOff, n);
        Stopped(r, faults, copied, Perm, moved);
        return Perm, copied, moved;
      }
      TranslationCause(c, e, p.k, p.l, q.k, q.l, dOff, sOff, copied, size, n, mem.Length);
      ghost var m1 := mem[..];
      var placed;
      err, placed := CopyChunk(mem, c[p.k].address + p.l, e[q.k].address + q.l, size, faults(chunk));
      if !placed {
        Stopped(r, faults, copied, err, moved);
        return err, copied, moved;
      }
      ChunkStep(m0, m1, c, e, dOff, sOff, copied, p.k, p.l, q.k, q.l, size);
      MayWriteMore(device, c, p.k, p.l, dOff, copied, size);
      moved := moved + size;
      if !err.None? {
        Stopped(r, faults, copied, err, moved);
        return err, copied, moved;
      }
      PieceThrough(r, faults, copied);
      chunk := chunk + 1;
      Forward(c, p, dOff + copied, size);
      Forward(e, q, sOff + copied, size);
      rem := rem - size;
      copied := copied + size;
      p, q := Skip(c, p, size), Skip(e, q, size);
    }
    if rem != 0 {
      NotAtEnd(c, p.k, p.l, dOff + copied);
      NotAtEnd(e, q.k, q.l, sOff + copied);
    }
    Finished(r, faults);
    return None, copied, moved;
  }

  lemma Placed(r: Job)
    ensures WellPlaced(r) <==>
            && (r.dst.Sg? ==> Proper(r.dst.chain) && r.dst.off + r.n <= Sum(r.dst.chain))
            && (r.src.Sg? ==> Proper(r.src.chain) && r.src.off + r.n <= Sum(r.src.chain))
  {
  }

  lemma Finished(r: Job, faults: Faults)
    requires WellPlaced(r) && Through(r, faults, r.n)
    ensures ComesTo(r, faults, None, r.n, r.n)
  {
  }

  /** The piece that stops a copy makes its outcome. */
  lemma Stopped(r: Job, faults: Faults, x: nat, err: Errno, moved: nat)
    requires WellPlaced(r) && Through(r, faults, x) && x < r.n && err != None
    requires var p, fault := PieceLen(r, x), faults(Pieces(r, x));
             var there := Resident(r.dst, r.size, x, p) && Resident(r.src, r.size, x, p);
             if ReadOnly(r, x) then err == Perm && moved == x
             else if !there || fault.Before? then err == BadR && moved == x
             else fault.After? && err == BadR && moved == x + p
    ensures ComesTo(r, faults, err, x, moved)
  {
    hide Through, Resident, ReadOnly, PieceLen, Pieces;
  }

  /** What the loops see of a piece from their iterators. */
  lemma PieceBetween(r: Job, x: nat, p: Pos, q: Pos)
    requires WellPlaced(r) && x < r.n
    requires r.dst.Sg? ==> p.k < |r.dst.chain| && At(r.dst.chain, p.k, p.l, r.dst.off + x)
    requires r.src.Sg? ==> q.k < |r.src.chain| && At(r.src.chain, q.k, q.l, r.src.off + x)
    ensures var d := if r.dst.Sg? then Min(r.dst.chain[p.k].length - p.l, r.n - x) else r.n - x;
            var s := if r.src.Sg? then Min(r.src.chain[q.k].length - q.l, r.n - x) else r.n - x;
            PieceLen(r, x) == Min(d, s)
    ensures ReadOnly(r, x) <==> r.device && r.dst.Sg? && !WriteOnly(r.dst.chain[p.k].flags)
    ensures r.dst.Sg? ==> forall n ::
                Resident(r.dst, r.size, x, n) <==> r.dst.chain[p.k].address + p.l + n <= r.size
    ensures r.src.Sg? ==> forall n ::
                Resident(r.src, r.size, x, n) <==> r.src.chain[q.k].address + q.l + n <= r.size
    ensures r.dst.Linear? ==> forall n :: Resident(r.dst, r.size, x, n)
    ensures r.src.Linear? ==> forall n :: Resident(r.src, r.size, x, n)
  {
    hide Start, Sum, At, Locate;
    if r.dst.Sg? { LocateIs(r.dst.chain, p.k, p.l, r.dst.off + x); }
    if r.src.Sg? { LocateIs(r.src.chain, q.k, q.l, r.src.off + x); }
  }

  /** Nothing in the request stands in the way of a copy that passed the checks. */
  ghost predicate Unhindered(size: nat, c: seq<Desc>, device: bool, e: seq<Desc>, n: nat, dOff: nat, sOff: nat) {
    MayWrite(device, c, dOff, n) && Backed(size, c, dOff, n) && Backed(size, e, sOff, n)
  }

  lemma UnhinderedPart(size: nat, c: seq<Desc>, device: bool, e: seq<Desc>, n: nat, dOff: nat, sOff: nat, part: nat)
    requires Unhindered(size, c, device, e, n, dOff, sOff) && part <= n
    ensures Unhindered(size, c, device, e, part, dOff, sOff)
  {
    hide Start, Sum, Addr;
    if device {
      forall k | 0 <= k < |c| && Touches(c, k, dOff, part)
        ensures Touches(c, k, dOff, n)
      {
      }
    }
  }

  ghost function Between(dst: Buffer, src: Buffer, size: nat, n: nat, dOff: nat, sOff: nat): Job
    requires dst.Sized() && src.Sized()
    reads dst, dst.chain, src, src.chain
  {
    Job(Sg(dst.Contents(), dOff), Sg(src.Contents(), sOff), dst.forDevice, n, size)
  }

  ghost function Into(dst: Buffer, size: nat, n: nat, dOff: nat): Job
    requires dst.Sized()
    reads dst, dst.chain
  {
    Job(Sg(dst.Contents(), dOff), Linear, dst.forDevice, n, size)
  }

  ghost function OutOf(src: Buffer, size: nat, n: nat, sOff: nat): Job
    requires src.Sized()
    reads src, src.chain
  {
    Job(Linear, Sg(src.Contents(), sOff), false, n, size)
  }

  /** An empty job is done at once. */
  lemma EmptyTries(r: Job, a: Attempt)
    requires WellPlaced(r) && r.n == 0
    ensures Tries(r, 0, a, None, 0, 0)
  {
    NothingThrough(Rest(r, 0, 0), a.faults);
  }

  /** `try_end_copy_to_sg_impl`. moved: the bytes in place when it returns, which a failure in a
      hook after the move leaves ahead of what it reports. */
  method CopySg(dst: Buffer, src: Buffer, mem: array<Byte>, n: nat, dOff: nat, sOff: nat, a: Attempt)
    returns (err: Errno, copied: nat, ghost moved: nat)
    requires dst.Valid() && src.Valid() && Injective(dst.Contents()) && Apart(dst.Contents(), src.Contents())
    modifies mem
    ensures !err.Exist? && !err.RBusy?
    ensures copied <= moved <= Portion(a, n)
    ensures err.None? || err.Again? ==> err == Ending(a) && copied == moved == Portion(a, n)
    ensures CheckConfig(dst.size, n, dOff) != None ==> err == CheckConfig(dst.size, n, dOff)
    ensures CheckConfig(dst.size, n, dOff) == None && CheckConfig(src.size, n, sOff) != None ==>
              err == CheckConfig(src.size, n, sOff)
    ensures CheckConfig(dst.size, n, dOff) != None || CheckConfig(src.size, n, sOff) != None ==> moved == 0
    ensures moved == 0 ==> mem[..] == old(mem[..])
    ensures CheckConfig(dst.size, n, dOff) == None == CheckConfig(src.size, n, sOff) ==>
              && Backed(mem.Length, src.Contents(), sOff, moved)
              && Put(mem[..], old(mem[..]), dst.Contents(), dOff, Read(old(mem[..]), src.Contents(), sOff, moved))
              && MayWrite(dst.forDevice, dst.Contents(), dOff, moved)
    ensures && CheckConfig(dst.size, n, dOff) == None == CheckConfig(src.size, n, sOff) && Smooth(a)
            && Unhindered(mem.Length, dst.Contents(), dst.forDevice, src.Contents(), n, dOff, sOff)
            ==> err == Ending(a)
    ensures n > 0 && CheckConfig(dst.size, n, dOff) == None == CheckConfig(src.size, n, sOff) ==>
              Tries(Between(dst, src, mem.Length, n, dOff, sOff), 0, a, err, copied, moved)
  {
    hide Proper, FirstWritable, Start, Sum, Addr, Injective, Apart, Put, Backed, Touches, At, Blit, Read;
    hide MayWrite, Unhindered, ComesTo;
    copied, moved := 0, 0;
    var k, l, j, i;
    err, k, l := CheckCopy(dst, n, dOff);
    if !err.None? { return; }
    err, j, i := CheckCopy(src, n, sOff);
    if !err.None? { return; }
    ghost var c, e, m0 := dst.Contents(), src.Contents(), mem[..];
    var part := Portion(a, n);
    if Unhindered(mem.Length, c, dst.forDevice, e, n, dOff, sOff) {
      UnhinderedPart(mem.Length, c, dst.forDevice, e, n, dOff, sOff, part);
    }
    err, copied, moved := CopyLoop(
      dst.chain[..dst.active], dst.forDevice, src.chain[..src.active], mem, part, dOff, sOff, Pos(k, l), Pos(j, i),
      a.faults);
    if moved == 0 { PutNone(mem[..], m0, c, dOff, Read(m0, e, sOff, moved)); }
    if n > 0 { WholePortion(Between(dst, src, mem.Length, n, dOff, sOff), a, err, copied, moved); }
    if err.None? { err := Ending(a); }
  }

  lemma PutNone(m': seq<Byte>, m: seq<Byte>, c: seq<Desc>, d: nat, bytes: seq<Byte>)
    requires Put(m', m, c, d, bytes) && bytes == []
    ensures m' == m
  {
    forall a | 0 <= a < |m|
      ensures m'[a] == m[a]
    {
      assert !Hit(c, d, 0, a);
    }
  }

  lemma NothingMoved(m: seq<Byte>, c: seq<Desc>, e: seq<Desc>, d: nat, s: nat)
    requires d <= Sum(c) && s <= Sum(e)
    ensures Backed(|m|, e, s, 0) && Put(m, m, c, d, Read(m, e, s, 0))
  {
    PutNothing(m, c, d);
  }

  lemma AtBound(c: seq<Desc>, k: nat, l: nat, off: nat)
    requires At(c, k, l, off)
    ensures k <= |c| && (k < |c| ==> l < c[k].length)
  {
  }

  lemma FirstTouched(c: seq<Desc>, k: nat, l: nat, off: nat, d: nat, n: nat)
    requires At(c, k, l, off) && k < |c| && d <= off < d + n && !WriteOnly(c[k].flags)
    ensures !MayWrite(true, c, d, n)
  {
    assert Touches(c, k, d, n);
  }

  lemma TranslationCause(c: seq<Desc>, e: seq<Desc>, k: nat, l: nat, j: nat, i: nat, d: nat, s: nat, done: nat,
                         size: nat, n: nat, length: nat)
    requires At(c, k, l, d + done) && k < |c| && l + size <= c[k].length && At(e, j, i, s + done) && j < |e|
    requires i + size <= e[j].length
    requires 0 < size && done + size <= n
    ensures Backed(length, c, d, n) ==> c[k].address + l + size <= length
    ensures Backed(length, e, s, n) ==> e[j].address + i + size <= length
  {
    hide At, Backed;
    if Backed(length, c, d, n) { ChunkBacked(c, k, l, d + done, size, length, d, n); }
    if Backed(length, e, s, n) { ChunkBacked(e, j, i, s + done, size, length, s, n); }
  }

  // ---------- chain to linear buffer ----------

  /** The loop of `copy_fromto_linear_impl` out of a chain, into dst from index at on. */
  method CopyOutLoop(e: seq<Desc>, mem: array<Byte>, dst: array<Byte>, at: nat, n: nat, sOff: nat, q0: Pos,
                     faults: Faults)
    returns (err: Errno, copied: nat, ghost moved: nat)
    requires Proper(e) && sOff + n <= Sum(e) && At(e, q0.k, q0.l, sOff)
    requires mem != dst && at + n <= dst.Length
    modifies dst
    ensures copied <= moved <= n && (err.None? ==> copied == moved == n)
    ensures Backed(mem.Length, e, sOff, moved) && dst[..] == Blit(old(dst[..]), at, Read(mem[..], e, sOff, moved))
    ensures err.None? || err.Perm? || err.BadR?
    ensures Backed(mem.Length, e, sOff, n) && (forall i :: faults(i).Fine?) ==> err.None?
    ensures ComesTo(Job(Linear, Sg(e, sOff), false, n, mem.Length), faults, err, copied, moved)
  {
    hide Proper, FirstWritable, Start, Sum, Addr, Backed, Touches, At, Blit, Read;
    hide ComesTo, Through, StopsAt, ReadOnly, Resident, Left, PieceLen, Pieces, Holds;
    ghost var r := Job(Linear, Sg(e, sOff), false, n, mem.Length);
    Placed(r);
    NothingThrough(r, faults);
    copied, moved := 0, 0;
    var rem: nat, chunk: nat, q := n, 0, q0;
    ghost var m, d0 := mem[..], dst[..];
    NothingOut(m, e, sOff, d0, at);
    AtBound(e, q.k, q.l, sOff);
    while rem != 0 && q.k != |e|
      invariant copied == moved && rem == n - copied && q.k <= |e| && mem[..] == m && |d0| == dst.Length
      invariant At(e, q.k, q.l, sOff + copied)
      invariant Backed(|m|, e, sOff, copied) && dst[..] == Blit(d0, at, Read(m, e, sOff, copied))
      invariant Through(r, faults, copied) && chunk == Pieces(r, copied)
      decreases rem
    {
      AtBound(e, q.k, q.l, sOff + copied);
      var size := Min(e[q.k].length - q.l, rem);
      PieceBetween(r, copied, q, q);
      var from := e[q.k].address + q.l;
      TranslationNeed(e, q.k, q.l, sOff, copied, size, n, mem.Length);
      if from + size > mem.Length || faults(chunk).Before? {
        Stopped(r, faults, copied, BadR, moved);
        return BadR, copied, moved;
      }
      OutStep(m, e, sOff, copied, q.k, q.l, size, d0, at);
      BulkCopy(dst, at + copied, mem[from..from + size]);
      moved := moved + size;
      if faults(chunk).After? {
        Stopped(r, faults, copied, BadR, moved);
        return BadR, copied, moved;
      }
      PieceThrough(r, faults, copied);
      chunk := chunk + 1;
      Forward(e, q, sOff + copied, size);
      rem := rem - size;
      copied := copied + size;
      q := Skip(e, q, size);
    }
    if rem != 0 { NotAtEnd(e, q.k, q.l, sOff + copied); }
    Finished(r, faults);
    return None, copied, moved;
  }

  lemma NothingOut(m: seq<Byte>, e: seq<Desc>, s: nat, d: seq<Byte>, at: nat)
    requires s <= Sum(e) && at <= |d|
    ensures Backed(|m|, e, s, 0) && Blit(d, at, Read(m, e, s, 0)) == d
  {
  }

  lemma TranslationNeed(e: seq<Desc>, j: nat, i: nat, s: nat, done: nat, size: nat, n: nat, length: nat)
    requires At(e, j, i, s + done) && j < |e| && i + size <= e[j].length && 0 < size && done + size <= n
    ensures Backed(length, e, s, n) ==> e[j].address + i + size <= length
  {
    hide At, Backed;
    if Backed(length, e, s, n) { ChunkBacked(e, j, i, s + done, size, length, s, n); }
  }

  lemma OutStep(m: seq<Byte>, e: seq<Desc>, s: nat, done: nat, j: nat, i: nat, n: nat, d: seq<Byte>, at: nat)
    requires Backed(|m|, e, s, done) && j < |e| && At(e, j, i, s + done) && i + n <= e[j].length
    requires e[j].address + i + n <= |m|
    requires at + done + n <= |d|
    ensures Backed(|m|, e, s, done + n)
    ensures Blit(Blit(d, at, Read(m, e, s, done)), at + done, m[e[j].address + i..e[j].address + i + n]) ==
            Blit(d, at, Read(m, e, s, done + n))
  {
    hide Start, Sum, Addr, Backed;
    SliceReads(m, e, j, i, n);
    ReadAppend(m, e, s, done, n);
  }

  // ---------- linear buffer to chain ----------

  /** The loop of `copy_fromto_linear_impl` into a chain. Whatever the chain, nothing but its bytes
      is written; where it has no byte twice, the write is one assignment. */
  method CopyInLoop(c: seq<Desc>, device: bool, mem: array<Byte>, src: seq<Byte>, dOff: nat, p0: Pos, faults: Faults)
    returns (err: Errno, copied: nat, ghost moved: nat)
    requires Proper(c) && dOff + |src| <= Sum(c) && At(c, p0.k, p0.l, dOff)
    modifies mem
    ensures copied <= moved <= |src| && (err.None? ==> copied == moved == |src|)
    ensures err.None? || err.Perm? || err.BadR?
    ensures Only(mem[..], old(mem[..]), c, dOff, moved) && MayWrite(device, c, dOff, moved)
    ensures Injective(c) ==> Put(mem[..], old(mem[..]), c, dOff, src[..moved])
    ensures MayWrite(device, c, dOff, |src|) && Backed(mem.Length, c, dOff, |src|) && (forall i :: faults(i).Fine?) ==>
              err.None?
    ensures ComesTo(Job(Sg(c, dOff), Linear, device, |src|, mem.Length), faults, err, copied, moved)
  {
    hide Proper, FirstWritable, Start, Sum, Addr, Injective, Put, Backed, Touches, At, Blit, MayWrite, Only;
    hide ComesTo, Through, StopsAt, ReadOnly, Resident, Left, PieceLen, Pieces, Holds;
    ghost var r := Job(Sg(c, dOff), Linear, device, |src|, mem.Length);
    Placed(r);
    NothingThrough(r, faults);
    copied, moved := 0, 0;
    ghost var m0 := mem[..];
    var rem: nat, chunk: nat, p := |src|, 0, p0;
    NothingIn(m0, c, dOff);
    NoneTouched(c, dOff);
    AtBound(c, p.k, p.l, dOff);
    while rem != 0 && p.k != |c|
      invariant copied == moved && rem == |src| - copied && p.k <= |c| && |m0| == mem.Length
      invariant At(c, p.k, p.l, dOff + copied)
      invariant Only(mem[..], m0, c, dOff, copied) && MayWrite(device, c, dOff, copied)
      invariant Injective(c) ==> Put(mem[..], m0, c, dOff, src[..copied])
      invariant Through(r, faults, copied) && chunk == Pieces(r, copied)
      decreases rem
    {
      AtBound(c, p.k, p.l, dOff + copied);
      var size := Min(c[p.k].length - p.l, rem);
      PieceBetween(r, copied, p, p);
      if device && !WriteOnly(c[p.k].flags) {
        FirstTouched(c, p.k, p.l, dOff + copied, dOff, |src|);
        Stopped(r, faults, copied, Perm, moved);
        return Perm, copied, moved;
      }
      var to := c[p.k].address + p.l;
      TranslationNeed(c, p.k, p.l, dOff, copied, size, |src|, mem.Length);
      if to + size > mem.Length || faults(chunk).Before? {
        Stopped(r, faults, copied, BadR, moved);
        return BadR, copied, moved;
      }
      InStep(m0, mem[..], c, dOff, src, copied, p.k, p.l, size);
      MayWriteMore(device, c, p.k, p.l, dOff, copied, size);
      BulkCopy(mem, to, src[copied..copied + size]);
      moved := moved + size;
      if faults(chunk).After? {
        Stopped(r, faults, copied, BadR, moved);
        return BadR, copied, moved;
      }
      PieceThrough(r, faults, copied);
      chunk := chunk + 1;
      Forward(c, p, dOff + copied, size);
      rem := rem - size;
      copied := copied + size;
      p := Skip(c, p, size);
    }
    if rem != 0 { NotAtEnd(c, p.k, p.l, dOff + copied); }
    Finished(r, faults);
    return None, copied, moved;
  }

  lemma NothingIn(m: seq<Byte>, c: seq<Desc>, d: nat)
    requires d <= Sum(c)
    ensures Put(m, m, c, d, []) && Only(m, m, c, d, 0)
  {
  }

  lemma InStep(m0: seq<Byte>, m1: seq<Byte>, c: seq<Desc>, d: nat, src: seq<Byte>, done: nat, k: nat, l: nat, n: nat)
    requires done + n <= |src| && Only(m1, m0, c, d, done) && (Injective(c) ==> Put(m1, m0, c, d, src[..done]))
    requires k < |c| && At(c, k, l, d + done) && l + n <= c[k].length && c[k].address + l + n <= |m1|
    ensures Only(Blit(m1, c[k].address + l, src[done..done + n]), m0, c, d, done + n)
    ensures Injective(c) ==> Put(Blit(m1, c[k].address + l, src[done..done + n]), m0, c, d, src[..done + n])
  {
    hide Start, Sum, Addr, Injective, Put, Blit, Only;
    var m2 := Blit(m1, c[k].address + l, src[done..done + n]);
    BlitPuts(m1, c, k, l, src[done..done + n]);
    OnlyAppend(m0, m1, m2, c, d, done, src[done..done + n]);
    if Injective(c) {
      PutAppend(m0, m1, m2, c, d, src[..done], src[done..done + n]);
      assert src[..done] + src[done..done + n] == src[..done + n];
    }
  }

  // ---------- one attempt at a request ----------

  /** An empty copy is allowed up to the end of the payload, a longer one within it. */
  function Checked(size: nat, n: nat, off: nat): Errno {
    if n == 0 then if off <= size then None else NoEnt else CheckConfig(size, n, off)
  }

  /** The copy of `try_end_copy_from_linear`, with its record of what was written: src is what the
      request still asks for. */
  method TryFromLinear(b: Buffer, mem: array<Byte>, src: seq<Byte>, dOff: nat, a: Attempt)
    returns (err: Errno, copied: nat, ghost moved: nat)
    requires b.Valid()
    modifies mem, b.meta
    ensures b.Valid() && b.Contents() == old(b.Contents())
    ensures forall k :: 0 <= k < b.active ==> b.meta[k].idx == old(b.meta[k].idx)
    ensures !err.Exist? && !err.RBusy?
    ensures copied <= moved <= Portion(a, |src|)
    ensures err.None? ==> copied == moved == |src|
    ensures err.Again? ==> a.again && copied == moved == Portion(a, |src|)
    ensures Checked(b.size, |src|, dOff) != None ==>
              err == Checked(b.size, |src|, dOff) && moved == 0 && mem[..] == old(mem[..])
    ensures Checked(b.size, |src|, dOff) == None ==> err.None? || err.Perm? || err.BadR? || err.Again?
    ensures Checked(b.size, |src|, dOff) == None ==>
              && Only(mem[..], old(mem[..]), b.Contents(), dOff, moved)
              && (Injective(b.Contents()) ==> Put(mem[..], old(mem[..]), b.Contents(), dOff, src[..moved]))
              && MayWrite(b.forDevice, b.Contents(), dOff, moved)
    ensures && Checked(b.size, |src|, dOff) == None && MayWrite(b.forDevice, b.Contents(), dOff, |src|)
            && Backed(mem.Length, b.Contents(), dOff, |src|) && Smooth(a)
            ==> err == if |src| == 0 then None else Ending(a)
    ensures Checked(b.size, |src|, dOff) == None ==>
              Tries(Into(b, mem.Length, |src|, dOff), 0, a, err, copied, moved)
    ensures Fits(b.Contents(), dOff, copied) && b.Written() == Record(b.Contents(), old(b.Written()), dOff, copied)
  {
    hide Proper, FirstWritable, Start, Sum, Addr, Injective, Put, Backed, Touches, At, Blit, MayWrite, Record, Only;
    hide ComesTo, Tries;
    ghost var m0, c := mem[..], b.Contents();
    copied, moved := 0, 0;
    RecordNothing(c, b.Written(), dOff);
    if |src| == 0 {
      err := if dOff <= b.size then None else NoEnt;
      if err.None? {
        NothingIn(m0, c, dOff);
        NoneTouched(c, dOff);
        EmptyTries(Into(b, mem.Length, 0, dOff), a);
      }
      return;
    }
    var k, l;
    err, k, l := CheckCopy(b, |src|, dOff);
    if !err.None? { return; }
    var part := Portion(a, |src|);
    PartAllowed(mem.Length, b.forDevice, c, dOff, |src|, part);
    err, copied, moved := CopyInLoop(b.chain[..b.active], b.forDevice, mem, src[..part], dOff, Pos(k, l), a.faults);
    assert src[..part][..moved] == src[..moved];
    assert b.Contents() == c;
    b.TrackWritten(dOff, copied);
    WholePortion(Into(b, mem.Length, |src|, dOff), a, err, copied, moved);
    if err.None? { err := Ending(a); }
  }

  lemma WholePortion(r: Job, a: Attempt, err: Errno, copied: nat, moved: nat)
    requires r.n > 0 && !err.Again? && ComesTo(r.(n := Portion(a, r.n)), a.faults, err, copied, moved)
    ensures Tries(r, 0, a, if err.None? then Ending(a) else err, copied, moved)
  {
    hide ComesTo;
    assert Rest(r, 0, Portion(a, r.n)) == r.(n := Portion(a, r.n));
  }

  lemma PartAllowed(size: nat, device: bool, c: seq<Desc>, d: nat, n: nat, part: nat)
    requires part <= n
    ensures MayWrite(device, c, d, n) ==> MayWrite(device, c, d, part)
    ensures Backed(size, c, d, n) ==> Backed(size, c, d, part)
  {
    hide Start, Sum, Addr;
    assert forall k :: 0 <= k < |c| && Touches(c, k, d, part) ==> Touches(c, k, d, n);
  }

  /** The copy of `try_end_copy_to_linear`, into dst from index at on. */
  method TryToLinear(b: Buffer, mem: array<Byte>, dst: array<Byte>, at: nat, n: nat, sOff: nat, a: Attempt)
    returns (err: Errno, copied: nat, ghost moved: nat)
    requires b.Valid() && mem != dst && at + n <= dst.Length
    modifies dst
    ensures !err.Exist? && !err.RBusy?
    ensures copied <= moved <= Portion(a, n)
    ensures err.None? ==> copied == moved == n
    ensures err.Again? ==> a.again && copied == moved == Portion(a, n)
    ensures Checked(b.size, n, sOff) != None ==>
              err == Checked(b.size, n, sOff) && moved == 0 && dst[..] == old(dst[..])
    ensures Checked(b.size, n, sOff) == None ==>
              && Backed(mem.Length, b.Contents(), sOff, moved)
              && dst[..] == Blit(old(dst[..]), at, Read(mem[..], b.Contents(), sOff, moved))
    ensures Checked(b.size, n, sOff) == None && Backed(mem.Length, b.Contents(), sOff, n) && Smooth(a) ==>
              err == if n == 0 then None else Ending(a)
    ensures Checked(b.size, n, sOff) == None ==> Tries(OutOf(b, mem.Length, n, sOff), 0, a, err, copied, moved)
  {
    hide Proper, FirstWritable, Start, Sum, Addr, Backed, Touches, At, Blit, Read, ComesTo, Tries;
    ghost var e := b.Contents();
    copied, moved := 0, 0;
    if n == 0 {
      err := if sOff <= b.size then None else NoEnt;
      if err.None? {
        NothingOut(mem[..], e, sOff, dst[..], at);
        EmptyTries(OutOf(b, mem.Length, 0, sOff), a);
      }
      return;
    }
    var k, l;
    err, k, l := CheckCopy(b, n, sOff);
    if !err.None? { return; }
    var part := Portion(a, n);
    PartAllowed(mem.Length, b.forDevice, e, sOff, n, part);
    err, copied, moved := CopyOutLoop(b.chain[..b.active], mem, dst, at, part, sOff, Pos(k, l), a.faults);
    WholePortion(OutOf(b, mem.Length, n, sOff), a, err, copied, moved);
    if err.None? { err := Ending(a); }
  }

  /** The copy of `try_end_copy_to_sg`, with its record of what was written. */
  method TrySg(src: Buffer, dst: Buffer, mem: array<Byte>, n: nat, dOff: nat, sOff: nat, a: Attempt)
    returns (err: Errno, copied: nat, ghost moved: nat)
    requires dst.Valid() && src.Valid() && Injective(dst.Contents()) && Apart(dst.Contents(), src.Contents())
    requires dst.meta != src.meta
    modifies mem, dst.meta
    ensures dst.Valid() && dst.Contents() == old(dst.Contents()) && src.Valid() && src.Contents() == old(src.Contents())
    ensures forall k :: 0 <= k < dst.active ==> dst.meta[k].idx == old(dst.meta[k].idx)
    ensures !err.Exist? && !err.RBusy?
    ensures copied <= moved <= Portion(a, n)
    ensures err.None? ==> copied == moved == n
    ensures err.Again? ==> a.again && copied == moved == Portion(a, n)
    ensures Refusal(dst.size, src.size, n, dOff, sOff) != None ==>
              err == Refusal(dst.size, src.size, n, dOff, sOff) && moved == 0 && mem[..] == old(mem[..])
    ensures Refusal(dst.size, src.size, n, dOff, sOff) == None ==>
              && Backed(mem.Length, src.Contents(), sOff, moved)
              && Put(mem[..], old(mem[..]), dst.Contents(), dOff, Read(old(mem[..]), src.Contents(), sOff, moved))
              && MayWrite(dst.forDevice, dst.Contents(), dOff, moved)
    ensures && Refusal(dst.size, src.size, n, dOff, sOff) == None && Smooth(a)
            && Unhindered(mem.Length, dst.Contents(), dst.forDevice, src.Contents(), n, dOff, sOff)
            ==> err == if n == 0 then None else Ending(a)
    ensures Refusal(dst.size, src.size, n, dOff, sOff) == None ==>
              Tries(Between(dst, src, mem.Length, n, dOff, sOff), 0, a, err, copied, moved)
    ensures Fits(dst.Contents(), dOff, copied)
    ensures dst.Written() == Record(dst.Contents(), old(dst.Written()), dOff, copied)
  {
    hide Proper, FirstWritable, Start, Sum, Addr, Injective, Apart, Put, Backed, Touches, At, Blit, Read;
    hide MayWrite, Unhindered;
    hide Record, ComesTo, Tries;
    ghost var m0, c, e := mem[..], dst.Contents(), src.Contents();
    copied, moved := 0, 0;
    RecordNothing(c, dst.Written(), dOff);
    if n == 0 {
      err := if dOff <= dst.size && sOff <= src.size then None else NoEnt;
      if err.None? {
        NothingMoved(m0, c, e, dOff, sOff);
        NoneTouched(c, dOff);
        EmptyTries(Between(dst, src, mem.Length, 0, dOff, sOff), a);
      }
      return;
    }
    err, copied, moved := CopySg(dst, src, mem, n, dOff, sOff, a);
    assert dst.Contents() == c && src.Contents() == e;
    dst.TrackWritten(dOff, copied);
  }

  /** The check that turns a request between two buffers down, the destination's first. */
  function Refusal(dSize: nat, sSize: nat, n: nat, dOff: nat, sOff: nat): Errno {
    if Checked(dSize, n, dOff) != None then Checked(dSize, n, dOff) else Checked(sSize, n, sOff)
  }

  lemma OneMorePart(m0: seq<Byte>, m1: seq<Byte>, m2: seq<Byte>, c: seq<Desc>, e: seq<Desc>, d: nat, s: nat, a: nat,
                    b: nat)
    requires Injective(c) && Apart(c, e) && Backed(|m0|, e, s, a) && Put(m1, m0, c, d, Read(m0, e, s, a))
    requires Backed(|m1|, e, s + a, b) && Put(m2, m1, c, d + a, Read(m1, e, s + a, b))
    ensures Backed(|m0|, e, s, a + b) && Put(m2, m0, c, d, Read(m0, e, s, a + b))
  {
    hide Injective, Apart, Put, Backed, Sum, Addr;
    PutSize(m1, m0, c, d, Read(m0, e, s, a));
    ReadElsewhere(m1, m0, c, d, Read(m0, e, s, a), e, s + a, b);
    PutAppend(m0, m1, m2, c, d, Read(m0, e, s, a), Read(m1, e, s + a, b));
    ReadAppend(m0, e, s, a, b);
  }
}
