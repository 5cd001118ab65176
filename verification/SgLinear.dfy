/** Copies between a buffer and a linear one, as their callers make them: like those between two
    buffers, with the request in one cookie. */
module SgLinear {
  import opened SgChain
  import opened SgWalk
  import opened SgWritten
  import opened SgPayload
  import opened SgBuffer
  import opened SgOutcome
  import opened SgCopy
  import opened SgCookie
  import opened SgTransfer

  // ---------- into a buffer ----------

  method StartCopyFromLinear(dst: Endpoint, src: array?<Byte>, n: nat, dOff: nat) returns (err: Errno)
    modifies dst.cookie
    ensures err == if src == null then BadR else if IsDst(old(dst.cookie.Value())) then RBusy else Errno.None
    ensures !err.None? ==> dst.cookie.Value() == old(dst.cookie.Value())
    ensures err.None? ==> dst.cookie.Value() == LinearIn(old(dst.cookie.Value()), src, n, dOff)
  {
    if src == null { return BadR; }
    if IsDst(dst.cookie.Value()) { return RBusy; }
    dst.cookie.InitLinearIn(src, n, dOff);
    return Errno.None;
  }

  /** The cookie asks for what is left of a request once done bytes have been copied in. */
  ghost predicate AsksIn(cookie: AsyncCopyCookie, src: array<Byte>, n: nat, dOff: nat, done: nat)
    reads cookie
  {
    && done <= n
    && cookie.Value() == LinearIn(Unused(), src, n, dOff).(size := n - done, dOff := dOff + done, sOff := done)
  }

  /** A copy in progress: of the bytes asked for, done have been moved to their places and recorded
      part by part. */
  ghost predicate UnderWayIn(b: Buffer, m0: seq<Byte>, m: seq<Byte>, w0: seq<nat>, w: seq<nat>,
                             src: seq<Byte>, dOff: nat, done: nat, moved: nat, parts: seq<nat>)
    requires b.Sized()
    reads b, b.chain
  {
    var c := b.Contents();
    && done <= moved <= |src| && Total(parts) == done && Proper(c) && |w0| == |c| && Fits(c, dOff, done)
    && w == RecordParts(c, w0, dOff, parts)
    && Only(m, m0, c, dOff, moved) && (Injective(c) ==> Put(m, m0, c, dOff, src[..moved]))
    && MayWrite(b.forDevice, c, dOff, moved)
  }

  /** The same, or a request that the checks turn down and that has moved nothing. */
  ghost predicate GoingIn(b: Buffer, m0: seq<Byte>, m: seq<Byte>, w0: seq<nat>, w: seq<nat>,
                          src: seq<Byte>, dOff: nat, done: nat, moved: nat, parts: seq<nat>)
    requires b.Sized()
    reads b, b.chain
  {
    if Checked(b.size, |src|, dOff) == Errno.None then UnderWayIn(b, m0, m, w0, w, src, dOff, done, moved, parts)
    else done == moved == 0 && m == m0 && w == w0
  }

  /** How a request may end: by the check that turns it down; or, if nothing stands in its way, with
      success or, at worst, AGAIN. */
  ghost predicate EndsIn(b: Buffer, size: nat, n: nat, dOff: nat, attempts: nat -> Attempt, err: Errno)
    requires b.Sized()
    reads b, b.chain
  {
    if Checked(b.size, n, dOff) != Errno.None then err == Checked(b.size, n, dOff)
    else AllSmooth(attempts) && MayWrite(b.forDevice, b.Contents(), dOff, n) && Backed(size, b.Contents(), dOff, n) ==>
           err.None? || err.Again?
  }

  lemma GoingInFrom(b: Buffer, m: seq<Byte>, w: seq<nat>, src: seq<Byte>, dOff: nat)
    requires b.Valid() && |w| == b.active
    ensures GoingIn(b, m, m, w, w, src, dOff, 0, 0, [])
  {
    if Checked(b.size, |src|, dOff) == Errno.None {
      NothingIn(m, b.Contents(), dOff);
      NoneTouched(b.Contents(), dOff);
    }
  }

  /** The contract of one attempt, as a predicate. */
  ghost predicate TriedIn(b: Buffer, m: seq<Byte>, m': seq<Byte>, src: seq<Byte>, dOff: nat, a: Attempt,
                          err: Errno, copied: nat, moved: nat)
    requires b.Sized()
    reads b, b.chain
  {
    var c := b.Contents();
    && copied <= moved <= |src| && (err.None? ==> copied == moved == |src|)
    && (Checked(b.size, |src|, dOff) != Errno.None ==> err == Checked(b.size, |src|, dOff) && moved == 0 && m' == m)
    && (Checked(b.size, |src|, dOff) == Errno.None ==>
          && Only(m', m, c, dOff, moved) && (Injective(c) ==> Put(m', m, c, dOff, src[..moved]))
          && MayWrite(b.forDevice, c, dOff, moved))
    && (Checked(b.size, |src|, dOff) == Errno.None ==>
          MayWrite(b.forDevice, c, dOff, |src|) && Backed(|m|, c, dOff, |src|) && Smooth(a) ==> err.None? || err.Again?)
    && (Checked(b.size, |src|, dOff) == Errno.None ==> Tries(Into(b, |m|, |src|, dOff), 0, a, err, copied, moved))
  }

  lemma OutcomeIn(b: Buffer, m0: seq<Byte>, m1: seq<Byte>, m2: seq<Byte>, w0: seq<nat>, w1: seq<nat>, w2: seq<nat>,
                  src: seq<Byte>, dOff: nat, done: nat, parts: seq<nat>,
                  attempts: nat -> Attempt, k: nat, err: Errno, copied: nat, moved: nat)
    requires b.Valid() && done <= |src| && |w1| == b.active
    requires GoingIn(b, m0, m1, w0, w1, src, dOff, done, done, parts)
    requires TriedIn(b, m1, m2, src[done..], dOff + done, attempts(k), err, copied, moved)
    requires Fits(b.Contents(), dOff + done, copied) && w2 == Record(b.Contents(), w1, dOff + done, copied)
    ensures GoingIn(b, m0, m2, w0, w2, src, dOff, done + copied, done + moved, parts + [copied])
    ensures EndsIn(b, |m0|, |src|, dOff, attempts, err)
    ensures copied <= moved <= |src| - done && (err.None? ==> done + copied == done + moved == |src|)
    ensures Checked(b.size, |src|, dOff) == Errno.None ==>
              Total(parts) == done && Tries(Into(b, |m0|, |src|, dOff), done, attempts(k), err, copied, moved)
  {
    hide Proper, Start, Sum, Addr, Injective, Put, Only, Backed, MayWrite, Record, RecordParts, Total, Tries;
    var c := b.Contents();
    if Checked(b.size, |src|, dOff) == Errno.None {
      CheckedLater(b.size, |src|, dOff, done);
      OnlySize(m1, m0, c, dOff, done);
      OnlyJoin(m0, m1, m2, c, dOff, done, moved);
      if Injective(c) {
        PutAppend(m0, m1, m2, c, dOff, src[..done], src[done..][..moved]);
        assert src[..done] + src[done..][..moved] == src[..done + moved];
      }
      MayWriteAppend(b.forDevice, c, dOff, done, moved);
      RecordPartsAppend(c, w0, dOff, parts, copied);
      RangeLater(|m0|, b.forDevice, c, dOff, |src|, done);
      TriesRest(Into(b, |m0|, |src|, dOff), done, attempts(k), err, copied, moved);
    } else {
      RecordNothing(c, w1, dOff);
    }
  }

  lemma OnlySize(m': seq<Byte>, m: seq<Byte>, c: seq<Desc>, d: nat, n: nat)
    requires Only(m', m, c, d, n)
    ensures |m'| == |m|
  {
  }

  method TryEndCopyFromLinear(dst: Endpoint, mem: array<Byte>, ghost src: array<Byte>, ghost n: nat, ghost dOff: nat,
                              ghost done: nat, a: Attempt)
    returns (err: Errno, copied: nat, ghost moved: nat)
    requires dst.buffer.Valid() && src != mem && n <= src.Length && AsksIn(dst.cookie, src, n, dOff, done)
    modifies mem, dst.buffer.meta, dst.cookie
    ensures dst.buffer.Valid() && dst.buffer.Contents() == old(dst.buffer.Contents())
    ensures forall k :: 0 <= k < dst.buffer.active ==> dst.buffer.meta[k].idx == old(dst.buffer.meta[k].idx)
    ensures !err.RBusy?
    ensures TriedIn(dst.buffer, old(mem[..]), mem[..], src[..n][done..], dOff + done, a, err, copied, moved)
    ensures err.Again? ==> a.again && moved == copied && AsksIn(dst.cookie, src, n, dOff, done + copied)
    ensures !err.Again? ==> dst.cookie.Value() == Unused()
    ensures Fits(dst.buffer.Contents(), dOff + done, copied)
    ensures dst.buffer.Written() == Record(dst.buffer.Contents(), old(dst.buffer.Written()), dOff + done, copied)
  {
    hide Proper, FirstWritable, Start, Sum, Addr, Injective, Put, Only, Backed, MayWrite, Record, Tries;
    assert IsDstFromLinear(dst.cookie.Value());
    var from := dst.cookie.linearSrc;
    assert from == src;
    var bytes := from[dst.cookie.sOff..dst.cookie.sOff + dst.cookie.size];
    assert bytes == src[..n][done..];
    err, copied, moved := TryFromLinear(dst.buffer, mem, bytes, dst.cookie.dOff, a);
    if err.Again? {
      dst.cookie.RecordBytes(copied);
    } else {
      dst.cookie.ConcludeDst();
    }
  }

  /** `copy_from_linear`. Afterwards the cookie is as before; a request that passes the checks
      comes to one assignment of a run of bytes, however often it was resumed. */
  method CopyFromLinear(dst: Endpoint, mem: array<Byte>, src: array?<Byte>, n: nat, dOff: nat, attempts: nat -> Attempt)
    returns (err: Errno, copied: nat, ghost moved: nat, ghost parts: seq<nat>)
    requires dst.buffer.Valid() && (src != null ==> src != mem && n <= src.Length)
    requires IsDst(dst.cookie.Value()) || dst.cookie.Value() == Unused()
    modifies mem, dst.buffer.meta, dst.cookie
    ensures dst.buffer.Valid() && dst.buffer.Contents() == old(dst.buffer.Contents())
    ensures forall k :: 0 <= k < dst.buffer.active ==> dst.buffer.meta[k].idx == old(dst.buffer.meta[k].idx)
    ensures dst.cookie.Value() == old(dst.cookie.Value())
    ensures src == null ==> err == BadR
    ensures src != null && IsDst(old(dst.cookie.Value())) ==> err == RBusy
    ensures src == null || IsDst(old(dst.cookie.Value())) ==>
              copied == moved == 0 && mem[..] == old(mem[..]) && dst.buffer.Written() == old(dst.buffer.Written())
    ensures err.None? ==> copied == moved == n
    ensures err.Again? ==> forall k :: 0 <= k <= 10 ==> attempts(k).again
    ensures src != null && !IsDst(old(dst.cookie.Value())) ==>
              && GoingIn(dst.buffer, old(mem[..]), mem[..], old(dst.buffer.Written()), dst.buffer.Written(),
                         src[..n], dOff, copied, moved, parts)
              && EndsIn(dst.buffer, mem.Length, n, dOff, attempts, err)
    ensures src != null && !IsDst(old(dst.cookie.Value())) && Checked(dst.buffer.size, n, dOff) == Errno.None ==>
              Runs(Into(dst.buffer, mem.Length, n, dOff), attempts, parts, err, copied, moved)
  {
    hide Proper, FirstWritable, Start, Sum, Addr, Injective, Put, Only, Backed, MayWrite, Record, RecordParts;
    hide GoingIn, EndsIn, Fits, AllSmooth, IsDstFromSg, Runs;
    copied, moved, parts := 0, 0, [];
    err := StartCopyFromLinear(dst, src, n, dOff);
    if !err.None? { return; }
    GoingInFrom(dst.buffer, mem[..], dst.buffer.Written(), src[..n], dOff);
    err, copied, moved, parts := RetryIn(dst, mem, src, n, dOff, attempts);
    if err.Again? { dst.cookie.ConcludeDst(); }
  }

  /** The loop of `copy_from_linear`. */
  method RetryIn(dst: Endpoint, mem: array<Byte>, ghost src: array<Byte>, ghost n: nat, ghost dOff: nat,
                 attempts: nat -> Attempt)
    returns (err: Errno, copied: nat, ghost moved: nat, ghost parts: seq<nat>)
    requires dst.buffer.Valid() && src != mem && n <= src.Length && AsksIn(dst.cookie, src, n, dOff, 0)
    requires var m, w := mem[..], dst.buffer.Written(); GoingIn(dst.buffer, m, m, w, w, src[..n], dOff, 0, 0, [])
    modifies mem, dst.buffer.meta, dst.cookie
    ensures dst.buffer.Valid() && dst.buffer.Contents() == old(dst.buffer.Contents())
    ensures forall k :: 0 <= k < dst.buffer.active ==> dst.buffer.meta[k].idx == old(dst.buffer.meta[k].idx)
    ensures !err.RBusy? && (err.None? ==> copied == moved == n)
    ensures err.Again? ==> forall k :: 0 <= k <= 10 ==> attempts(k).again
    ensures if err.Again? then dst.cookie.started && !dst.cookie.isSrc else dst.cookie.Value() == Unused()
    ensures GoingIn(dst.buffer, old(mem[..]), mem[..], old(dst.buffer.Written()), dst.buffer.Written(),
                    src[..n], dOff, copied, moved, parts)
    ensures EndsIn(dst.buffer, mem.Length, n, dOff, attempts, err)
    ensures Checked(dst.buffer.size, n, dOff) == Errno.None ==>
              Runs(Into(dst.buffer, mem.Length, n, dOff), attempts, parts, err, copied, moved)
  {
    hide Proper, FirstWritable, Start, Sum, Addr, Injective, Put, Only, Backed, MayWrite, Record, RecordParts;
    hide GoingIn, EndsIn, TriedIn, Fits, AllSmooth, Tries, Resumes, Runs, Checked;
    ghost var r, passes := Into(dst.buffer, mem.Length, n, dOff), Checked(dst.buffer.size, n, dOff) == Errno.None;
    NoneResumed(r, attempts);
    copied, moved, parts := 0, 0, [];
    ghost var m0, w0, c := mem[..], dst.buffer.Written(), dst.buffer.Contents();
    var k: nat := 0;
    while true
      invariant dst.buffer.Valid() && dst.buffer.Contents() == c
      invariant forall k :: 0 <= k < dst.buffer.active ==> dst.buffer.meta[k].idx == old(dst.buffer.meta[k].idx)
      invariant k <= RETRIES && copied <= n && moved == copied && AsksIn(dst.cookie, src, n, dOff, copied)
      invariant GoingIn(dst.buffer, m0, mem[..], w0, dst.buffer.Written(), src[..n], dOff, copied, copied, parts)
      invariant forall j :: 0 <= j < k ==> attempts(j).again
      invariant |parts| == k && (passes ==> Resumes(r, attempts, parts))
      decreases RETRIES - k
    {
      ghost var m1, w1 := mem[..], dst.buffer.Written();
      var part;
      ghost var placed;
      err, part, placed := TryEndCopyFromLinear(dst, mem, src, n, dOff, copied, attempts(k));
      OutcomeIn(dst.buffer, m0, m1, mem[..], w0, w1, dst.buffer.Written(), src[..n], dOff, copied, parts,
                attempts, k, err, part, placed);
      if passes {
        if err.Again? { ResumesMore(r, attempts, parts, part); }
        if k == RETRIES || !err.Again? { RunsNow(r, attempts, parts, err, part, placed); }
      }
      copied, moved, parts := copied + part, copied + placed, parts + [part];
      if k == RETRIES || !err.Again? { break; }
      k := k + 1;
    }
  }

  // ---------- out of a buffer ----------

  method StartCopyToLinear(src: Endpoint, dst: array?<Byte>, n: nat, sOff: nat) returns (err: Errno)
    modifies src.cookie
    ensures err == if dst == null then BadR else if IsDst(old(src.cookie.Value())) then RBusy else Errno.None
    ensures !err.None? ==> src.cookie.Value() == old(src.cookie.Value())
    ensures err.None? ==> src.cookie.Value() == LinearOut(old(src.cookie.Value()), dst, n, sOff)
  {
    if dst == null { return BadR; }
    if IsDst(src.cookie.Value()) { return RBusy; }
    src.cookie.InitLinearOut(dst, n, sOff);
    return Errno.None;
  }

  ghost predicate AsksOut(cookie: AsyncCopyCookie, dst: array<Byte>, n: nat, sOff: nat, done: nat)
    reads cookie
  {
    && done <= n
    && cookie.Value() == LinearOut(Unused(), dst, n, sOff).(size := n - done, dOff := done, sOff := sOff + done)
  }

  /** A copy in progress, or a request that the checks turn down: the bytes moved so far stand at
      the start of the linear buffer. */
  ghost predicate GoingOut(b: Buffer, m: seq<Byte>, d0: seq<Byte>, d: seq<Byte>, n: nat, sOff: nat, done: nat,
                           moved: nat)
    requires b.Sized()
    reads b, b.chain
  {
    if Checked(b.size, n, sOff) == Errno.None then
      && done <= moved <= n <= |d0| && Backed(|m|, b.Contents(), sOff, moved)
      && d == Blit(d0, 0, Read(m, b.Contents(), sOff, moved))
    else done == moved == 0 && d == d0
  }

  ghost predicate EndsOut(b: Buffer, size: nat, n: nat, sOff: nat, attempts: nat -> Attempt, err: Errno)
    requires b.Sized()
    reads b, b.chain
  {
    if Checked(b.size, n, sOff) != Errno.None then err == Checked(b.size, n, sOff)
    else AllSmooth(attempts) && Backed(size, b.Contents(), sOff, n) ==> err.None? || err.Again?
  }

  ghost predicate TriedOut(b: Buffer, m: seq<Byte>, d: seq<Byte>, d': seq<Byte>, at: nat, n: nat, sOff: nat, a: Attempt,
                           err: Errno, copied: nat, moved: nat)
    requires b.Sized() && at + n <= |d|
    reads b, b.chain
  {
    var e := b.Contents();
    && copied <= moved <= n && (err.None? ==> copied == moved == n)
    && (Checked(b.size, n, sOff) != Errno.None ==> err == Checked(b.size, n, sOff) && moved == 0 && d' == d)
    && (Checked(b.size, n, sOff) == Errno.None ==>
          Backed(|m|, e, sOff, moved) && d' == Blit(d, at, Read(m, e, sOff, moved)))
    && (Checked(b.size, n, sOff) == Errno.None && Backed(|m|, e, sOff, n) ==> Smooth(a) ==> err.None? || err.Again?)
    && (Checked(b.size, n, sOff) == Errno.None ==> Tries(OutOf(b, |m|, n, sOff), 0, a, err, copied, moved))
  }

  lemma GoingOutFrom(b: Buffer, m: seq<Byte>, d: seq<Byte>, n: nat, sOff: nat)
    requires b.Valid() && n <= |d|
    ensures GoingOut(b, m, d, d, n, sOff, 0, 0)
  {
    if Checked(b.size, n, sOff) == Errno.None { NothingOut(m, b.Contents(), sOff, d, 0); }
  }

  lemma OutcomeOut(b: Buffer, m: seq<Byte>, d0: seq<Byte>, d1: seq<Byte>, d2: seq<Byte>, n: nat, sOff: nat, done: nat,
                   attempts: nat -> Attempt, k: nat, err: Errno, copied: nat, moved: nat)
    requires b.Valid() && done <= n <= |d0| == |d1| && GoingOut(b, m, d0, d1, n, sOff, done, done)
    requires TriedOut(b, m, d1, d2, done, n - done, sOff + done, attempts(k), err, copied, moved)
    ensures GoingOut(b, m, d0, d2, n, sOff, done + copied, done + moved)
    ensures EndsOut(b, |m|, n, sOff, attempts, err)
    ensures copied <= moved <= n - done && (err.None? ==> done + copied == done + moved == n)
    ensures Checked(b.size, n, sOff) == Errno.None ==>
              Tries(OutOf(b, |m|, n, sOff), done, attempts(k), err, copied, moved)
  {
    hide Start, Sum, Addr, Backed, Tries;
    var e := b.Contents();
    if Checked(b.size, n, sOff) == Errno.None {
      CheckedLater(b.size, n, sOff, done);
      ReadAppend(m, e, sOff, done, moved);
      BlitAppend(d0, Read(m, e, sOff, done), Read(m, e, sOff + done, moved));
      RangeLater(|m|, false, e, sOff, n, done);
      TriesRest(OutOf(b, |m|, n, sOff), done, attempts(k), err, copied, moved);
    }
  }

  lemma BlitAppend(d: seq<Byte>, a: seq<Byte>, b: seq<Byte>)
    requires |a| + |b| <= |d|
    ensures Blit(Blit(d, 0, a), |a|, b) == Blit(d, 0, a + b)
  {
  }

  method TryEndCopyToLinear(src: Endpoint, mem: array<Byte>, dst: array<Byte>, ghost n: nat, ghost sOff: nat,
                            ghost done: nat, a: Attempt)
    returns (err: Errno, copied: nat, ghost moved: nat)
    requires src.buffer.Valid() && mem != dst && n <= dst.Length && AsksOut(src.cookie, dst, n, sOff, done)
    modifies dst, src.cookie
    ensures !err.RBusy?
    ensures TriedOut(src.buffer, mem[..], old(dst[..]), dst[..], done, n - done, sOff + done, a, err, copied, moved)
    ensures err.Again? ==> a.again && moved == copied && AsksOut(src.cookie, dst, n, sOff, done + copied)
    ensures !err.Again? ==> src.cookie.Value() == Unused()
  {
    hide Proper, FirstWritable, Start, Sum, Addr, Backed, Blit, Read, Tries;
    assert IsSrcToLinear(src.cookie.Value());
    var to := src.cookie.linearDst;
    assert to == dst;
    err, copied, moved := TryToLinear(src.buffer, mem, to, src.cookie.dOff, src.cookie.size, src.cookie.sOff, a);
    if err.Again? {
      src.cookie.RecordBytes(copied);
    } else {
      src.cookie.ConcludeSrc();
    }
  }

  /** `copy_to_linear`. */
  method CopyToLinear(src: Endpoint, mem: array<Byte>, dst: array?<Byte>, n: nat, sOff: nat, attempts: nat -> Attempt)
    returns (err: Errno, copied: nat, ghost moved: nat, ghost parts: seq<nat>)
    requires src.buffer.Valid() && (dst != null ==> dst != mem && n <= dst.Length)
    requires IsDst(src.cookie.Value()) || src.cookie.Value() == Unused()
    modifies dst, src.cookie
    ensures src.cookie.Value() == old(src.cookie.Value())
    ensures dst == null ==> err == BadR
    ensures dst != null && IsDst(old(src.cookie.Value())) ==> err == RBusy
    ensures dst == null || IsDst(old(src.cookie.Value())) ==> copied == moved == 0
    ensures dst != null && IsDst(old(src.cookie.Value())) ==> dst[..] == old(dst[..])
    ensures err.None? ==> copied == moved == n
    ensures err.Again? ==> forall k :: 0 <= k <= 10 ==> attempts(k).again
    ensures dst != null && !IsDst(old(src.cookie.Value())) ==>
              && GoingOut(src.buffer, mem[..], old(dst[..]), dst[..], n, sOff, copied, moved)
              && EndsOut(src.buffer, mem.Length, n, sOff, attempts, err)
    ensures dst != null && !IsDst(old(src.cookie.Value())) && Checked(src.buffer.size, n, sOff) == Errno.None ==>
              Runs(OutOf(src.buffer, mem.Length, n, sOff), attempts, parts, err, copied, moved)
  {
    hide Proper, FirstWritable, Start, Sum, Addr, Backed, Blit, Read, GoingOut, EndsOut, AllSmooth, Runs;
    copied, moved, parts := 0, 0, [];
    err := StartCopyToLinear(src, dst, n, sOff);
    if !err.None? { return; }
    GoingOutFrom(src.buffer, mem[..], dst[..], n, sOff);
    err, copied, moved, parts := RetryOut(src, mem, dst, n, sOff, attempts);
    if err.Again? { src.cookie.ConcludeSrc(); }
  }

  /** The loop of `copy_to_linear`. */
  method RetryOut(src: Endpoint, mem: array<Byte>, dst: array<Byte>, ghost n: nat, ghost sOff: nat,
                  attempts: nat -> Attempt)
    returns (err: Errno, copied: nat, ghost moved: nat, ghost parts: seq<nat>)
    requires src.buffer.Valid() && mem != dst && n <= dst.Length && AsksOut(src.cookie, dst, n, sOff, 0)
    requires GoingOut(src.buffer, mem[..], dst[..], dst[..], n, sOff, 0, 0)
    modifies dst, src.cookie
    ensures !err.RBusy? && (err.None? ==> copied == moved == n)
    ensures err.Again? ==> forall k :: 0 <= k <= 10 ==> attempts(k).again
    ensures if err.Again? then src.cookie.started && src.cookie.isSrc && src.cookie.pending == 1
            else src.cookie.Value() == Unused()
    ensures GoingOut(src.buffer, mem[..], old(dst[..]), dst[..], n, sOff, copied, moved)
    ensures EndsOut(src.buffer, mem.Length, n, sOff, attempts, err)
    ensures Checked(src.buffer.size, n, sOff) == Errno.None ==>
              Runs(OutOf(src.buffer, mem.Length, n, sOff), attempts, parts, err, copied, moved)
  {
    hide Proper, FirstWritable, Start, Sum, Addr, Backed, Blit, Read, GoingOut, EndsOut, TriedOut, AllSmooth;
    hide Tries, Resumes, Runs, Checked;
    ghost var r, passes := OutOf(src.buffer, mem.Length, n, sOff), Checked(src.buffer.size, n, sOff) == Errno.None;
    NoneResumed(r, attempts);
    copied, moved, parts := 0, 0, [];
    ghost var m, d0, e := mem[..], dst[..], src.buffer.Contents();
    var k: nat := 0;
    while true
      invariant src.buffer.Valid() && src.buffer.Contents() == e && mem[..] == m
      invariant k <= RETRIES && copied <= n && moved == copied && AsksOut(src.cookie, dst, n, sOff, copied)
      invariant GoingOut(src.buffer, m, d0, dst[..], n, sOff, copied, copied)
      invariant forall j :: 0 <= j < k ==> attempts(j).again
      invariant |parts| == k && Total(parts) == copied && (passes ==> Resumes(r, attempts, parts))
      decreases RETRIES - k
    {
      ghost var d1 := dst[..];
      var part;
      ghost var placed;
      err, part, placed := TryEndCopyToLinear(src, mem, dst, n, sOff, copied, attempts(k));
      OutcomeOut(src.buffer, m, d0, d1, dst[..], n, sOff, copied, attempts, k, err, part, placed);
      if passes {
        if err.Again? { ResumesMore(r, attempts, parts, part); }
        if k == RETRIES || !err.Again? { RunsNow(r, attempts, parts, err, part, placed); }
      }
      TotalLast(parts + [part]);
      assert (parts + [part])[..|parts|] == parts;
      copied, moved, parts := copied + part, copied + placed, parts + [part];
      if k == RETRIES || !err.Again? { break; }
      k := k + 1;
    }
  }

  // ---------- there and back ----------

  /** What goes in comes out: whatever the shape of the chain, a linear buffer copied into it and
      back out at the same offset is what it was. Both copies succeed if the run lies in the
      payload and in memory, the descriptors may be written, no hook fails, and the copier does not
      put either of them off for ever. */
  method RoundTrip(b: Endpoint, mem: array<Byte>, src: array<Byte>, dst: array<Byte>, off: nat,
                   attempts: nat -> Attempt)
    returns (written: Errno, read: Errno)
    requires b.buffer.Valid() && Injective(b.buffer.Contents()) && b.cookie.Value() == Unused()
    requires mem != dst && mem != src && dst != src && src.Length <= dst.Length
    modifies mem, b.buffer.meta, b.cookie, dst
    ensures written.None? && read.None? ==> dst[..src.Length] == src[..]
    ensures && Checked(old(b.buffer.size), src.Length, off) == Errno.None
            && AllSmooth(attempts) && !attempts(10).again
            && MayWrite(b.buffer.forDevice, old(b.buffer.Contents()), off, src.Length)
            && Backed(mem.Length, old(b.buffer.Contents()), off, src.Length)
            ==> written.None? && read.None?
  {
    hide Proper, FirstWritable, Start, Sum, Addr, Injective, Put, Only, Backed, MayWrite, Record, RecordParts;
    hide AllSmooth, Read, Fits, IsDst;
    NotDst(b.cookie);
    var copied;
    ghost var moved, parts;
    ghost var m0, c := mem[..], b.buffer.Contents();
    written, copied, moved, parts := CopyFromLinear(b, mem, src, src.Length, off, attempts);
    assert src[..src.Length] == src[..] && src[..][..src.Length] == src[..];
    if written.None? { ReadBack(mem[..], m0, c, off, src[..]); }
    read, copied, moved, parts := CopyToLinear(b, mem, dst, src.Length, off, attempts);
  }

  lemma NotDst(c: AsyncCopyCookie)
    requires c.Value() == Unused()
    ensures !IsDst(c.Value())
  {
  }

  // ---------- a device's answer, from walk to conclusion ----------

  /** Nothing keeps an answer of n bytes from being written to the chain. */
  ghost predicate Room(c: seq<Desc>, size: nat, n: nat) {
    FirstWritable(c) < |c| && n <= Writable(c) && Backed(size, c, FirstByte(c), n)
  }

  /** Every attempt at every piece goes smoothly, and none is put off for ever. */
  ghost predicate Served(attempts: nat -> nat -> Attempt) {
    forall i :: AllSmooth(attempts(i)) && !attempts(i)(10).again
  }

  ghost function Contents(arrays: seq<array<Byte>>): (r: seq<seq<Byte>>)
    reads arrays
    ensures |r| == |arrays| && forall i :: 0 <= i < |arrays| ==> r[i] == arrays[i][..]
  {
    seq(|arrays|, i requires 0 <= i < |arrays| reads arrays => arrays[i][..])
  }

  lemma {:induction false} JoinedPrefix(pieces: seq<seq<Byte>>, i: nat)
    requires i <= |pieces|
    ensures Joined(pieces[..i]) <= Joined(pieces)
  {
    if i < |pieces| {
      var init := pieces[..|pieces| - 1];
      assert init[..i] == pieces[..i];
      JoinedPrefix(init, i);
    } else {
      assert pieces[..i] == pieces;
    }
  }

  /** k bytes of piece i, behind all the pieces before it, are the beginning of the whole. */
  lemma PieceOf(pieces: seq<seq<Byte>>, i: nat, k: nat)
    requires i < |pieces| && k <= |pieces[i]|
    ensures Joined(pieces[..i + 1]) == Joined(pieces[..i]) + pieces[i]
    ensures var before, all := Joined(pieces[..i]), Joined(pieces);
            |before| + k <= |all| && all[..|before| + k] == before + pieces[i][..k]
  {
    assert pieces[..i + 1] == pieces[..i] + [pieces[i]];
    JoinedNext(pieces[..i], pieces[i]);
    JoinedPrefix(pieces, i + 1);
  }

  lemma NothingWritten(m: seq<Byte>, c: seq<Desc>, all: seq<Byte>)
    ensures FirstByte(c) + Writable(c) == Sum(c) && Put(m, m, c, FirstByte(c), all[..0])
  {
    StartMonotone(c, FirstWritable(c), |c|);
    NothingIn(m, c, FirstByte(c));
  }

  /** One more piece, as far as it got. */
  lemma WrittenOn(b: Buffer, m0: seq<Byte>, m1: seq<Byte>, m2: seq<Byte>, w1: seq<nat>, w2: seq<nat>,
                  before: seq<Byte>, piece: seq<Byte>, done: nat, moved: nat, parts: seq<nat>)
    requires b.Valid() && InOrder(b.Contents(), w1, |before|) && |before| <= Writable(b.Contents())
    requires Injective(b.Contents()) ==> Put(m1, m0, b.Contents(), FirstByte(b.Contents()), before)
    requires GoingIn(b, m1, m2, w1, w2, piece, FirstByte(b.Contents()) + |before|, done, moved, parts)
    ensures InOrder(b.Contents(), w2, |before| + done) && |before| + done <= Writable(b.Contents())
    ensures done <= moved <= |piece|
    ensures Checked(b.size, |piece|, FirstByte(b.Contents()) + |before|) != Errno.None ==> done == moved == 0
    ensures Injective(b.Contents()) ==>
              Put(m2, m0, b.Contents(), FirstByte(b.Contents()), before + piece[..moved])
  {
    hide Sum, Start, Record, RecordParts, InOrder, FirstWritable, Only, Put, MayWrite, Injective;
    var c := b.Contents();
    if Checked(b.size, |piece|, FirstByte(c) + |before|) == Errno.None {
      PartsInOrder(c, w1, |before|, parts);
      if Injective(c) { PutAppend(m0, m1, m2, c, FirstByte(c), before, piece[..moved]); }
    } else {
      assert before + piece[..moved] == before;
    }
  }

  /** Nothing stops a piece of an answer there is room for. */
  lemma PieceGoes(b: Buffer, size: nat, n: nat, total: nat, k: nat, attempts: nat -> nat -> Attempt, i: nat, err: Errno)
    requires b.Valid() && Room(b.Contents(), size, n) && Served(attempts) && total + k <= n
    requires EndsIn(b, size, k, FirstByte(b.Contents()) + total, attempts(i), err)
    requires err.Again? ==> forall j :: 0 <= j <= 10 ==> attempts(i)(j).again
    ensures err.None?
  {
    hide Sum, Addr, AllSmooth;
    var c := b.Contents();
    var off := FirstByte(c) + total;
    StartMonotone(c, FirstWritable(c), |c|);
    FirstInside(c);
    forall j | 0 <= j < |c| && Touches(c, j, off, k)
      ensures WriteOnly(c[j].flags)
    {
      if j < FirstWritable(c) {
        StartNext(c, j);
        StartMonotone(c, j + 1, FirstWritable(c));
      }
    }
  }

  lemma FirstInside(c: seq<Desc>)
    requires Proper(c) && FirstWritable(c) < |c|
    ensures FirstByte(c) < Sum(c)
  {
    StartNext(c, FirstWritable(c));
    StartMonotone(c, FirstWritable(c) + 1, |c|);
  }

  lemma PieceFails(b: Buffer, size: nat, pieces: seq<seq<Byte>>, attempts: nat -> nat -> Attempt, err: Errno,
                   at: nat, done: nat, moved: nat, parts: seq<nat>)
    requires b.Valid() && at < |pieces| && done <= moved
    requires var off, n := FirstByte(b.Contents()) + |Joined(pieces[..at])|, |pieces[at]|;
             && EndsIn(b, size, n, off, attempts(at), err)
             && if Checked(b.size, n, off) == Errno.None then
                  Runs(Into(b, size, n, off), attempts(at), parts, err, done, moved)
                else done == moved == 0
    ensures var before := |Joined(pieces[..at])|;
            FailsAt(b.Contents(), b.forDevice, size, pieces, attempts, err, before + done, before + moved, at, parts)
  {
    hide Runs, Joined, Checked;
  }

  /** The pieces, one behind the other from the first writable byte on. */
  method WriteAll(b: Endpoint, mem: array<Byte>, pieces: seq<array<Byte>>, start: nat,
                  attempts: nat -> nat -> Attempt)
    returns (err: Errno, total: nat, ghost moved: nat, ghost at: nat, ghost parts: seq<nat>)
    requires b.buffer.Valid() && b.cookie.Value() == Unused() && mem !in pieces
    requires start == FirstByte(b.buffer.Contents()) && InOrder(b.buffer.Contents(), b.buffer.Written(), 0)
    modifies b.buffer.meta, b.cookie, mem
    ensures b.buffer.Valid() && b.buffer.Contents() == old(b.buffer.Contents())
    ensures forall k :: 0 <= k < b.buffer.active ==> b.buffer.meta[k].idx == old(b.buffer.meta[k].idx)
    ensures total <= Writable(b.buffer.Contents()) && InOrder(b.buffer.Contents(), b.buffer.Written(), total)
    ensures var c, all := b.buffer.Contents(), Joined(old(Contents(pieces)));
            && total <= moved <= |all| && (err.None? ==> total == moved == |all|)
            && (Injective(c) ==> Put(mem[..], old(mem[..]), c, start, all[..moved]))
            && (Room(c, mem.Length, |all|) && Served(attempts) ==> err.None?)
            && (!err.None? ==> FailsAt(c, b.buffer.forDevice, mem.Length, old(Contents(pieces)), attempts, err, total,
                                       moved, at, parts))
  {
    hide Proper, FirstWritable, Sum, Start, Record, RecordParts, InOrder, FirstByte, Writable, Room, Served;
    hide EndsIn, GoingIn, IsDst, Joined, Put, Injective, Contents, Runs, Checked;
    ghost var c, all, m0 := b.buffer.Contents(), Contents(pieces), mem[..];
    NotDst(b.cookie);
    NothingWritten(m0, c, Joined(all));
    NoPieces(all);
    err, total, moved, at, parts := Errno.None, 0, 0, 0, [];
    var i := 0;
    while i < |pieces|
      invariant b.buffer.Valid() && b.buffer.Contents() == c && b.cookie.Value() == Unused()
      invariant forall k :: 0 <= k < b.buffer.active ==> b.buffer.meta[k].idx == old(b.buffer.meta[k].idx)
      invariant i <= |pieces| && err.None? && Contents(pieces) == all && total == moved == |Joined(all[..i])|
      invariant total <= Writable(c) && InOrder(c, b.buffer.Written(), total)
      invariant Injective(c) ==> Put(mem[..], m0, c, start, Joined(all[..i]))
    {
      ghost var m1, w1, before := mem[..], b.buffer.Written(), Joined(all[..i]);
      var copied;
      ghost var placed;
      assert pieces[i][..pieces[i].Length] == all[i];
      NotDst(b.cookie);
      err, copied, placed, parts := CopyFromLinear(b, mem, pieces[i], pieces[i].Length, start + total, attempts(i));
      WrittenOn(b.buffer, m0, m1, mem[..], w1, b.buffer.Written(), before, all[i], copied, placed, parts);
      PieceOf(all, i, placed);
      PieceOf(all, i, |all[i]|);
      if !err.None? {
        if Room(c, mem.Length, |Joined(all)|) && Served(attempts) {
          PieceGoes(b.buffer, mem.Length, |Joined(all)|, total, |all[i]|, attempts, i, err);
        }
        PieceFails(b.buffer, mem.Length, all, attempts, err, i, copied, placed, parts);
        return err, total + copied, total + placed, i, parts;
      }
      total, moved, i := total + copied, total + placed, i + 1;
    }
    assert all[..i] == all && Joined(all)[..moved] == Joined(all);
  }

  lemma NoPieces(all: seq<seq<Byte>>)
    ensures Joined(all[..0]) == [] && Joined(all)[..0] == []
  {
  }

  /** Where an answer that fails does so: the pieces before `at` are written and counted in full, and
      of that piece exactly what its attempts copied before the first failure, with that error. */
  ghost predicate FailsAt(c: seq<Desc>, device: bool, size: nat, pieces: seq<seq<Byte>>,
                          attempts: nat -> nat -> Attempt, err: Errno, total: nat, moved: nat, at: nat,
                          parts: seq<nat>) {
    && at < |pieces|
    && var before, n := |Joined(pieces[..at])|, |pieces[at]|;
       && before <= total <= moved
       && if Checked(Sum(c), n, FirstByte(c) + before) != Errno.None then
            err == Checked(Sum(c), n, FirstByte(c) + before) && before == total == moved
          else
            Runs(Job(Sg(c, FirstByte(c) + before), Linear, device, n, size), attempts(at), parts, err, total - before,
                 moved - before)
  }

  /** A device that receives a chain, writes its answer to it in any number of pieces, each where
      the one before stopped and however the copier goes about it, and hands the chain back. The
      answer stands at the start of the writable part, whole if nothing goes wrong and otherwise
      up to the piece of memory that could not be written; the length reported is the number of
      bytes before that. */
  method Answer(b: Endpoint, q: Queue, table: Memory, mem: array<Byte>, pieces: seq<array<Byte>>,
                attempts: nat -> nat -> Attempt)
    returns (err: Errno, total: nat, ghost moved: nat, ghost at: nat, ghost parts: seq<nat>)
    requires b.buffer.Valid() && b.buffer.Clear() && 0 < q.size <= b.buffer.max && b.cookie.Value() == Unused()
    requires q.waiting != [] && q.waiting[0] < q.size && mem !in pieces
    modifies b.buffer, b.buffer.chain, b.buffer.meta, b.cookie, q`waiting, q`sent, mem
    ensures b.buffer.Valid() && b.buffer.Clear() && q.waiting == old(q.waiting)[1..]
    ensures q.sent == old(q.sent) + [Return(old(q.waiting)[0], total)]
    ensures var o, all := WalkFrom(table, q.size, b.buffer.max, [], old(q.waiting)[0]), Joined(old(Contents(pieces)));
            && total <= moved <= |all| && (err.None? ==> total == moved == |all|)
            && (o.Reject? ==> !err.None? && moved == 0 && mem[..] == old(mem[..]))
            && (o.Accept? && Injective(Cache(o.nodes)) ==>
                  Put(mem[..], old(mem[..]), Cache(o.nodes), FirstByte(Cache(o.nodes)), all[..moved]))
            && (o.Accept? && Room(Cache(o.nodes), mem.Length, |all|) && Served(attempts) ==> err.None?)
    ensures var o := WalkFrom(table, q.size, b.buffer.max, [], old(q.waiting)[0]);
            o.Accept? && !err.None? ==>
              if FirstWritable(Cache(o.nodes)) == |o.nodes| then err == Perm && total == moved == 0
              else FailsAt(Cache(o.nodes), q.device, mem.Length, old(Contents(pieces)), attempts, err, total, moved, at,
                           parts)
  {
    hide Proper, FirstWritable, Sum, Start, WalkFrom, Cache, Record, RecordParts, InOrder, Lower, Fits, Put, Backed;
    hide Writable, Joined, Injective, Served, Contents, FailsAt;
    total, moved, at, parts := 0, 0, 0, [];
    err := b.buffer.WalkChain(q, table);
    if !err.None? { return; }
    ghost var h := old(q.waiting)[0];
    ghost var c := b.buffer.Contents();
    AcceptedSum(table, q.size, b.buffer.max, h, WalkFrom(table, q.size, b.buffer.max, [], h).nodes);
    assert b.buffer.meta[0].idx == h;
    FreshInOrder(c, b.buffer.Written());
    assert Contents(pieces) == old(Contents(pieces));
    NothingWritten(mem[..], c, Joined(Contents(pieces)));
    var off;
    err, off := b.buffer.FirstWritableByte();
    if err.None? {
      err, total, moved, at, parts := WriteAll(b, mem, pieces, off, attempts);
    }
    ReportIs(b.buffer);
    ReportInOrder(c, b.buffer.Written(), total);
    b.buffer.Conclude(q, false);
  }
}
