/** Copies as the callers of `Sg::Buffer` make them: a request is put into the cookies, tried,
    resumed where it stopped as long as it says AGAIN, and taken out again. */
module SgTransfer {
  import opened SgChain
  import opened SgWalk
  import opened SgWritten
  import opened SgPayload
  import opened SgBuffer
  import opened SgOutcome
  import opened SgCopy
  import opened SgCookie

  /** A buffer and its cookie. */
  class Endpoint {
    const buffer: Buffer
    const cookie: AsyncCopyCookie

    constructor (buffer: Buffer)
      ensures this.buffer == buffer && fresh(cookie) && cookie.Value() == Unused()
    {
      this.buffer := buffer;
      cookie := new AsyncCopyCookie();
    }
  }

  /** How often a copy is tried again after AGAIN. */
  const RETRIES: nat := 10

  ghost predicate AllSmooth(attempts: nat -> Attempt) { forall k :: Smooth(attempts(k)) }

  // ---------- requests in parts ----------

  lemma CheckedLater(size: nat, n: nat, off: nat, done: nat)
    requires Checked(size, n, off) == Errno.None && done <= n
    ensures Checked(size, n - done, off + done) == Errno.None
  {
  }

  lemma RefusalLater(dSize: nat, sSize: nat, n: nat, dOff: nat, sOff: nat, done: nat)
    requires Refusal(dSize, sSize, n, dOff, sOff) == Errno.None && done <= n
    ensures Refusal(dSize, sSize, n - done, dOff + done, sOff + done) == Errno.None
  {
    CheckedLater(dSize, n, dOff, done);
    CheckedLater(sSize, n, sOff, done);
  }

  lemma RangeLater(size: nat, device: bool, c: seq<Desc>, d: nat, n: nat, done: nat)
    requires done <= n
    ensures MayWrite(device, c, d, n) ==> MayWrite(device, c, d + done, n - done)
    ensures Backed(size, c, d, n) ==> Backed(size, c, d + done, n - done)
  {
    hide Start, Sum, Addr;
    assert forall k :: 0 <= k < |c| && Touches(c, k, d + done, n - done) ==> Touches(c, k, d, n);
  }

  lemma MayWriteAppend(device: bool, c: seq<Desc>, d: nat, a: nat, b: nat)
    requires Proper(c) && MayWrite(device, c, d, a) && MayWrite(device, c, d + a, b)
    ensures MayWrite(device, c, d, a + b)
  {
    hide Start, Sum;
    if device {
      forall k | 0 <= k < |c| && Touches(c, k, d, a + b)
        ensures Touches(c, k, d, a) || Touches(c, k, d + a, b)
      {
      }
    }
  }

  // ---------- a run of attempts ----------

  /** All but the last attempt say AGAIN, each having copied exactly the portion it handles. */
  ghost predicate Resumes(r: Job, attempts: nat -> Attempt, parts: seq<nat>) {
    forall i :: 0 <= i < |parts| ==> Tries(r, Total(parts[..i]), attempts(i), Again, parts[i], parts[i])
  }

  /** How a job ends that is resumed as long as it says AGAIN, ten times at most: what has been
      copied is what the attempts have, and the last of them gives the error. */
  ghost predicate Runs(r: Job, attempts: nat -> Attempt, parts: seq<nat>, err: Errno, copied: nat, moved: nat) {
    && 0 < |parts| <= 11 && copied == Total(parts) && (err.Again? ==> |parts| == 11)
    && var i := |parts| - 1;
       && Resumes(r, attempts, parts[..i]) && Total(parts[..i]) <= moved
       && Tries(r, Total(parts[..i]), attempts(i), err, parts[i], moved - Total(parts[..i]))
  }

  lemma ResumesMore(r: Job, attempts: nat -> Attempt, parts: seq<nat>, part: nat)
    requires Resumes(r, attempts, parts) && Tries(r, Total(parts), attempts(|parts|), Again, part, part)
    ensures Resumes(r, attempts, parts + [part])
  {
    hide Tries, Total;
    var all := parts + [part];
    forall i | 0 <= i < |all|
      ensures Tries(r, Total(all[..i]), attempts(i), Again, all[i], all[i])
    {
      assert all[..i] == parts[..i];
      if i == |parts| { assert parts[..i] == parts; }
    }
  }

  lemma RunsNow(r: Job, attempts: nat -> Attempt, parts: seq<nat>, err: Errno, part: nat, placed: nat)
    requires Resumes(r, attempts, parts) && Tries(r, Total(parts), attempts(|parts|), err, part, placed)
    requires |parts| <= RETRIES && (err.Again? ==> |parts| == RETRIES)
    ensures Runs(r, attempts, parts + [part], err, Total(parts) + part, Total(parts) + placed)
  {
    hide Tries, Resumes, Total;
    var all := parts + [part];
    TotalLast(all);
    assert all[..|all| - 1] == parts;
  }

  /** An attempt at the rest of a job, seen as a job of its own. */
  lemma TriesRest(r: Job, done: nat, a: Attempt, err: Errno, part: nat, placed: nat)
    requires done <= r.n
    ensures Tries(Rest(r, done, r.n - done), 0, a, err, part, placed) <==> Tries(r, done, a, err, part, placed)
  {
    hide ComesTo;
    var m := Portion(a, r.n - done);
    assert Rest(Rest(r, done, r.n - done), 0, m) == Rest(r, done, m);
  }

  // ---------- buffer to buffer ----------

  method StartCopyToSg(src: Endpoint, dst: Endpoint, size: nat, dOff: nat, sOff: nat) returns (err: Errno)
    requires src.cookie != dst.cookie
    modifies src.cookie, dst.cookie
    ensures err == if IsDst(old(src.cookie.Value())) || old(dst.cookie.started) then RBusy else Errno.None
    ensures err.RBusy? ==>
              src.cookie.Value() == old(src.cookie.Value()) && dst.cookie.Value() == old(dst.cookie.Value())
    ensures err.None? ==> src.cookie.Value() == SgSrc(old(src.cookie.Value()))
    ensures err.None? ==> dst.cookie.Value() == SgDst(old(dst.cookie.Value()), src.cookie, size, dOff, sOff)
  {
    if IsDst(src.cookie.Value()) || dst.cookie.started { return RBusy; }
    src.cookie.Init(true, true);
    dst.cookie.InitSgDst(src.cookie, size, dOff, sOff);
    return Errno.None;
  }

  method TryEndCopyToSg(src: Endpoint, dst: Endpoint, mem: array<Byte>, a: Attempt)
    returns (err: Errno, copied: nat, ghost moved: nat)
    requires dst.buffer.Valid() && src.buffer.Valid() && src.cookie != dst.cookie && dst.buffer.meta != src.buffer.meta
    requires Injective(dst.buffer.Contents()) && Apart(dst.buffer.Contents(), src.buffer.Contents())
    modifies mem, dst.buffer.meta, src.cookie, dst.cookie
    ensures dst.buffer.Valid() && dst.buffer.Contents() == old(dst.buffer.Contents())
    ensures src.buffer.Valid() && src.buffer.Contents() == old(src.buffer.Contents())
    ensures !err.RBusy? && (err.Exist? <==> !old(dst.cookie.IsDstOf(src.cookie)))
    ensures err.Exist? ==>
              src.cookie.Value() == old(src.cookie.Value()) && dst.cookie.Value() == old(dst.cookie.Value())
    ensures err.Exist? ==> copied == moved == 0
    ensures err.Again? ==> a.again && copied == moved <= old(dst.cookie.size)
    ensures err.Again? ==> src.cookie.Value() == old(src.cookie.Value())
    ensures err.Again? ==> dst.cookie.Value() == Advanced(old(dst.cookie.Value()), copied)
    ensures !err.Exist? && !err.Again? ==> dst.cookie.Value() == Unused()
    ensures !err.Exist? && !err.Again? ==> src.cookie.Value() == ConcludedSrc(old(src.cookie.Value()))
    ensures var n, dOff, sOff := old(dst.cookie.size), old(dst.cookie.dOff), old(dst.cookie.sOff);
            Tried(src.buffer, dst.buffer, old(mem[..]), mem[..], n, dOff, sOff, a, err, copied, moved)
    ensures Fits(dst.buffer.Contents(), old(dst.cookie.dOff), copied)
    ensures dst.buffer.Written() ==
            Record(dst.buffer.Contents(), old(dst.buffer.Written()), old(dst.cookie.dOff), copied)
  {
    hide Proper, FirstWritable, Start, Sum, Addr, Injective, Apart, Put, Backed, Read, MayWrite, Unhindered, Record;
    copied, moved := 0, 0;
    RecordNothing(dst.buffer.Contents(), dst.buffer.Written(), dst.cookie.dOff);
    if !dst.cookie.IsDstOf(src.cookie) { return Exist, 0, 0; }
    err, copied, moved := TrySg(
      src.buffer, dst.buffer, mem, dst.cookie.size, dst.cookie.dOff, dst.cookie.sOff, a);
    if err.Again? {
      dst.cookie.RecordBytes(copied);
    } else {
      dst.cookie.ConcludeDst();
      src.cookie.ConcludeSrc();
    }
  }

  /** What one attempt at a request of n bytes may come to, and what it does to memory. */
  ghost predicate Tried(src: Buffer, dst: Buffer, m: seq<Byte>, m': seq<Byte>, n: nat, dOff: nat, sOff: nat, a: Attempt,
                        err: Errno, copied: nat, moved: nat)
    requires dst.Sized() && src.Sized()
    reads dst, dst.chain, src, src.chain
  {
    var c, e := dst.Contents(), src.Contents();
    !err.Exist? ==>
      && copied <= moved <= n && (err.None? ==> copied == moved == n)
      && (Refusal(dst.size, src.size, n, dOff, sOff) != Errno.None ==>
            err == Refusal(dst.size, src.size, n, dOff, sOff) && moved == 0 && m' == m)
      && (Refusal(dst.size, src.size, n, dOff, sOff) == Errno.None ==>
            && Backed(|m|, e, sOff, moved) && Put(m', m, c, dOff, Read(m, e, sOff, moved))
            && MayWrite(dst.forDevice, c, dOff, moved))
      && (Refusal(dst.size, src.size, n, dOff, sOff) == Errno.None ==>
            Unhindered(|m|, c, dst.forDevice, e, n, dOff, sOff) && Smooth(a) ==> err.None? || err.Again?)
      && (Refusal(dst.size, src.size, n, dOff, sOff) == Errno.None ==>
            Tries(Between(dst, src, |m|, n, dOff, sOff), 0, a, err, copied, moved))
  }

  /** A copy in progress: of the n bytes asked for, done have been moved to their places in dst and
      recorded part by part. */
  ghost predicate UnderWay(src: Buffer, dst: Buffer, m0: seq<Byte>, m: seq<Byte>, w0: seq<nat>, w: seq<nat>,
                           n: nat, dOff: nat, sOff: nat, done: nat, moved: nat, parts: seq<nat>)
    requires dst.Sized() && src.Sized()
    reads dst, dst.chain, src, src.chain
  {
    var c, e := dst.Contents(), src.Contents();
    && done <= moved <= n && Total(parts) == done && Proper(c) && |w0| == |c| && Fits(c, dOff, done)
    && w == RecordParts(c, w0, dOff, parts)
    && Backed(|m0|, e, sOff, moved) && Put(m, m0, c, dOff, Read(m0, e, sOff, moved))
    && MayWrite(dst.forDevice, c, dOff, moved)
  }

  lemma NotYet(src: Buffer, dst: Buffer, m: seq<Byte>, w: seq<nat>, n: nat, dOff: nat, sOff: nat)
    requires dst.Valid() && src.Valid() && |w| == dst.active && dOff <= dst.size && sOff <= src.size
    ensures UnderWay(src, dst, m, m, w, w, n, dOff, sOff, 0, 0, [])
  {
    NothingMoved(m, dst.Contents(), src.Contents(), dOff, sOff);
    NoneTouched(dst.Contents(), dOff);
  }

  /** One more attempt at the rest of the request. */
  lemma OneMoreAttempt(src: Buffer, dst: Buffer, m0: seq<Byte>, m1: seq<Byte>, m2: seq<Byte>,
                       w0: seq<nat>, w1: seq<nat>, w2: seq<nat>, n: nat, dOff: nat, sOff: nat, done: nat,
                       parts: seq<nat>, a: Attempt, err: Errno, copied: nat, moved: nat)
    requires dst.Valid() && src.Valid() && Injective(dst.Contents()) && Apart(dst.Contents(), src.Contents())
    requires Refusal(dst.size, src.size, n, dOff, sOff) == Errno.None && !err.Exist?
    requires UnderWay(src, dst, m0, m1, w0, w1, n, dOff, sOff, done, done, parts)
    requires Tried(src, dst, m1, m2, n - done, dOff + done, sOff + done, a, err, copied, moved)
    requires Fits(dst.Contents(), dOff + done, copied) && |w1| == dst.active
    requires w2 == Record(dst.Contents(), w1, dOff + done, copied)
    ensures UnderWay(src, dst, m0, m2, w0, w2, n, dOff, sOff, done + copied, done + moved, parts + [copied])
  {
    hide Proper, Start, Sum, Addr, Injective, Apart, Put, Backed, Read, MayWrite, Unhindered, Record;
    hide RecordParts, Total;
    var c, e := dst.Contents(), src.Contents();
    RefusalLater(dst.size, src.size, n, dOff, sOff, done);
    PutSize(m1, m0, c, dOff, Read(m0, e, sOff, done));
    OneMorePart(m0, m1, m2, c, e, dOff, sOff, done, moved);
    MayWriteAppend(dst.forDevice, c, dOff, done, moved);
    RecordPartsAppend(c, w0, dOff, parts, copied);
  }

  /** `copy_to_sg`. Whatever the attempts do, the cookies are afterwards as before. A request that
      passes the checks comes to one assignment of a run of bytes, however often it was resumed,
      and is recorded part by part; it succeeds if nothing stands in its way and not all of the
      eleven attempts say AGAIN. */
  method CopyToSg(src: Endpoint, dst: Endpoint, mem: array<Byte>, n: nat, dOff: nat, sOff: nat,
                  attempts: nat -> Attempt)
    returns (err: Errno, copied: nat, ghost moved: nat, ghost parts: seq<nat>)
    requires dst.buffer.Valid() && src.buffer.Valid() && src.cookie != dst.cookie && dst.buffer.meta != src.buffer.meta
    requires Injective(dst.buffer.Contents()) && Apart(dst.buffer.Contents(), src.buffer.Contents())
    requires !dst.cookie.started ==> dst.cookie.Value() == Unused()
    requires IsDst(src.cookie.Value()) || IsSrcToSg(src.cookie.Value()) || src.cookie.Value() == Unused()
    modifies mem, dst.buffer.meta, src.cookie, dst.cookie
    ensures dst.buffer.Valid() && dst.buffer.Contents() == old(dst.buffer.Contents())
    ensures src.cookie.Value() == old(src.cookie.Value()) && dst.cookie.Value() == old(dst.cookie.Value())
    ensures err.RBusy? <==> IsDst(old(src.cookie.Value())) || old(dst.cookie.started)
    ensures err.None? ==> copied == moved == n
    ensures err.RBusy? ==>
              copied == moved == 0 && mem[..] == old(mem[..]) && dst.buffer.Written() == old(dst.buffer.Written())
    ensures err.Again? ==> forall k :: 0 <= k <= 10 ==> attempts(k).again
    ensures !err.RBusy? ==>
              && Going(src.buffer, dst.buffer, old(mem[..]), mem[..], old(dst.buffer.Written()), dst.buffer.Written(),
                       n, dOff, sOff, copied, moved, parts)
              && Ends(src.buffer, dst.buffer, mem.Length, n, dOff, sOff, attempts, err)
    ensures !err.RBusy? && Refusal(dst.buffer.size, src.buffer.size, n, dOff, sOff) == Errno.None ==>
              Runs(Between(dst.buffer, src.buffer, mem.Length, n, dOff, sOff), attempts, parts, err, copied, moved)
  {
    hide Proper, FirstWritable, Start, Sum, Addr, Injective, Apart, Put, Backed, Read, MayWrite, Unhindered, Record;
    hide RecordParts, Tried, Going, UnderWay, Fits, AllSmooth, Advanced, Ends, Refusal, Runs;
    hide SgDst, SgSrc, ConcludedSrc, InitStatus, IsSrcToSg, IsDst;
    copied, moved, parts := 0, 0, [];
    ghost var m0, w0 := mem[..], dst.buffer.Written();
    err := StartCopyToSg(src, dst, n, dOff, sOff);
    if !err.None? { return; }
    StartUndone(old(src.cookie.Value()));
    GoingFrom(src.buffer, dst.buffer, m0, w0, n, dOff, sOff);
    err, copied, moved, parts := Attempts(src, dst, mem, n, dOff, sOff, attempts, old(src.cookie.Value()));
  }

  /** The loop and what is cleared up behind it: the request is out of the cookies in any case. */
  method Attempts(src: Endpoint, dst: Endpoint, mem: array<Byte>, n: nat, dOff: nat, sOff: nat,
                  attempts: nat -> Attempt, ghost sv: Cookie<AsyncCopyCookie, array<Byte>>)
    returns (err: Errno, copied: nat, ghost moved: nat, ghost parts: seq<nat>)
    requires dst.buffer.Valid() && src.buffer.Valid() && src.cookie != dst.cookie && dst.buffer.meta != src.buffer.meta
    requires Injective(dst.buffer.Contents()) && Apart(dst.buffer.Contents(), src.buffer.Contents())
    requires Asks(dst.cookie, src.cookie, n, dOff, sOff, 0) && src.cookie.Value() == SgSrc(sv)
    requires var m, w := mem[..], dst.buffer.Written();
             Going(src.buffer, dst.buffer, m, m, w, w, n, dOff, sOff, 0, 0, [])
    modifies mem, dst.buffer.meta, src.cookie, dst.cookie
    ensures dst.buffer.Valid() && dst.buffer.Contents() == old(dst.buffer.Contents())
    ensures src.buffer.Valid() && src.buffer.Contents() == old(src.buffer.Contents())
    ensures dst.cookie.Value() == Unused() && src.cookie.Value() == ConcludedSrc(SgSrc(sv))
    ensures !err.RBusy? && (err.None? ==> copied == moved == n)
    ensures err.Again? ==> forall k :: 0 <= k <= 10 ==> attempts(k).again
    ensures Going(src.buffer, dst.buffer, old(mem[..]), mem[..], old(dst.buffer.Written()), dst.buffer.Written(),
                  n, dOff, sOff, copied, moved, parts)
    ensures Ends(src.buffer, dst.buffer, mem.Length, n, dOff, sOff, attempts, err)
    ensures Refusal(dst.buffer.size, src.buffer.size, n, dOff, sOff) == Errno.None ==>
              Runs(Between(dst.buffer, src.buffer, mem.Length, n, dOff, sOff), attempts, parts, err, copied, moved)
  {
    hide Proper, FirstWritable, Start, Sum, Addr, Injective, Apart, Put, Backed, Read, MayWrite, Unhindered, Record;
    hide RecordParts, Going, Ends, Refusal, Runs, Asks, Fits, AllSmooth;
    err, copied, moved, parts := Retry(src, dst, mem, n, dOff, sOff, attempts, sv);
    if err.Again? {
      dst.cookie.ConcludeDst();
      src.cookie.ConcludeSrc();
    }
  }

  /** The loop of `copy_to_sg`: at most eleven attempts, each at what the one before has left. */
  method Retry(src: Endpoint, dst: Endpoint, mem: array<Byte>, n: nat, dOff: nat, sOff: nat, attempts: nat -> Attempt,
               ghost sv: Cookie<AsyncCopyCookie, array<Byte>>)
    returns (err: Errno, copied: nat, ghost moved: nat, ghost parts: seq<nat>)
    requires dst.buffer.Valid() && src.buffer.Valid() && src.cookie != dst.cookie && dst.buffer.meta != src.buffer.meta
    requires Injective(dst.buffer.Contents()) && Apart(dst.buffer.Contents(), src.buffer.Contents())
    requires Asks(dst.cookie, src.cookie, n, dOff, sOff, 0) && src.cookie.Value() == SgSrc(sv)
    requires var m, w := mem[..], dst.buffer.Written();
             Going(src.buffer, dst.buffer, m, m, w, w, n, dOff, sOff, 0, 0, [])
    modifies mem, dst.buffer.meta, src.cookie, dst.cookie
    ensures dst.buffer.Valid() && dst.buffer.Contents() == old(dst.buffer.Contents())
    ensures src.buffer.Valid() && src.buffer.Contents() == old(src.buffer.Contents())
    ensures !err.RBusy? && copied <= moved <= n && (err.None? ==> copied == moved == n)
    ensures err.Again? ==> src.cookie.Value() == SgSrc(sv) && IsDstFromSg(dst.cookie.Value())
    ensures err.Again? ==> forall k :: 0 <= k <= 10 ==> attempts(k).again
    ensures !err.Again? ==> dst.cookie.Value() == Unused() && src.cookie.Value() == ConcludedSrc(SgSrc(sv))
    ensures Going(src.buffer, dst.buffer, old(mem[..]), mem[..], old(dst.buffer.Written()), dst.buffer.Written(),
                  n, dOff, sOff, copied, moved, parts)
    ensures Ends(src.buffer, dst.buffer, mem.Length, n, dOff, sOff, attempts, err)
    ensures Refusal(dst.buffer.size, src.buffer.size, n, dOff, sOff) == Errno.None ==>
              Runs(Between(dst.buffer, src.buffer, mem.Length, n, dOff, sOff), attempts, parts, err, copied, moved)
  {
    hide Proper, FirstWritable, Start, Sum, Addr, Injective, Apart, Put, Backed, Read, MayWrite, Unhindered, Record;
    hide RecordParts, Tried, Going, UnderWay, Fits, AllSmooth, Advanced, IsSrcToSg, Ends, Refusal;
    hide Tries, Resumes, Runs, SgSrc, ConcludedSrc;
    ghost var r := Between(dst.buffer, src.buffer, mem.Length, n, dOff, sOff);
    ghost var passes := Refusal(dst.buffer.size, src.buffer.size, n, dOff, sOff) == Errno.None;
    NoneResumed(r, attempts);
    copied, moved, parts := 0, 0, [];
    ghost var m0, w0, c, e := mem[..], dst.buffer.Written(), dst.buffer.Contents(), src.buffer.Contents();
    var k: nat := 0;
    while true
      invariant dst.buffer.Valid() && src.buffer.Valid() && dst.buffer.Contents() == c && src.buffer.Contents() == e
      invariant k <= RETRIES && copied <= n && moved == copied
      invariant Asks(dst.cookie, src.cookie, n, dOff, sOff, copied) && src.cookie.Value() == SgSrc(sv)
      invariant Going(src.buffer, dst.buffer, m0, mem[..], w0, dst.buffer.Written(), n, dOff, sOff, copied, copied,
                      parts)
      invariant forall j :: 0 <= j < k ==> attempts(j).again
      invariant |parts| == k && (passes ==> Resumes(r, attempts, parts))
      decreases RETRIES - k
    {
      var part;
      ghost var placed;
      err, part, placed := Turn(src, dst, mem, n, dOff, sOff, attempts, k, sv, m0, w0, copied, parts);
      if passes {
        if err.Again? { ResumesMore(r, attempts, parts, part); }
        if k == RETRIES || !err.Again? { RunsNow(r, attempts, parts, err, part, placed); }
      }
      copied, moved, parts := copied + part, copied + placed, parts + [part];
      if k == RETRIES || !err.Again? { break; }
      k := k + 1;
    }
  }

  lemma NoneResumed(r: Job, attempts: nat -> Attempt)
    ensures Resumes(r, attempts, [])
  {
  }

  /** One turn of the loop. */
  method Turn(src: Endpoint, dst: Endpoint, mem: array<Byte>, n: nat, dOff: nat, sOff: nat, attempts: nat -> Attempt,
              k: nat, ghost sv: Cookie<AsyncCopyCookie, array<Byte>>, ghost m0: seq<Byte>, ghost w0: seq<nat>,
              ghost done: nat, ghost parts: seq<nat>)
    returns (err: Errno, part: nat, ghost placed: nat)
    requires dst.buffer.Valid() && src.buffer.Valid() && src.cookie != dst.cookie && dst.buffer.meta != src.buffer.meta
    requires Injective(dst.buffer.Contents()) && Apart(dst.buffer.Contents(), src.buffer.Contents())
    requires Asks(dst.cookie, src.cookie, n, dOff, sOff, done) && src.cookie.Value() == SgSrc(sv)
    requires Going(src.buffer, dst.buffer, m0, mem[..], w0, dst.buffer.Written(), n, dOff, sOff, done, done, parts)
    modifies mem, dst.buffer.meta, src.cookie, dst.cookie
    ensures dst.buffer.Valid() && dst.buffer.Contents() == old(dst.buffer.Contents())
    ensures src.buffer.Valid() && src.buffer.Contents() == old(src.buffer.Contents())
    ensures !err.RBusy? && done + part <= done + placed <= n && (err.None? ==> done + part == done + placed == n)
    ensures err.Again? ==> placed == part && attempts(k).again
    ensures err.Again? ==> Asks(dst.cookie, src.cookie, n, dOff, sOff, done + part) && src.cookie.Value() == SgSrc(sv)
    ensures !err.Again? ==> dst.cookie.Value() == Unused() && src.cookie.Value() == ConcludedSrc(SgSrc(sv))
    ensures Going(src.buffer, dst.buffer, m0, mem[..], w0, dst.buffer.Written(),
                  n, dOff, sOff, done + part, done + placed, parts + [part])
    ensures Ends(src.buffer, dst.buffer, |m0|, n, dOff, sOff, attempts, err)
    ensures Refusal(dst.buffer.size, src.buffer.size, n, dOff, sOff) == Errno.None ==>
              Total(parts) == done &&
              Tries(Between(dst.buffer, src.buffer, |m0|, n, dOff, sOff), done, attempts(k), err, part, placed)
  {
    hide Proper, FirstWritable, Start, Sum, Addr, Injective, Apart, Put, Backed, Read, MayWrite, Unhindered, Record;
    hide RecordParts, Tried, Going, UnderWay, Fits, AllSmooth, Advanced, IsSrcToSg, Ends, Refusal, Tries;
    AskedMatches(dst.cookie, src.cookie, n, dOff, sOff, done, sv);
    ghost var m1, w1 := mem[..], dst.buffer.Written();
    err, part, placed := TryEndCopyToSg(src, dst, mem, attempts(k));
    TurnComes(src.buffer, dst.buffer, m0, m1, mem[..], w0, w1, dst.buffer.Written(), n, dOff, sOff, done, parts,
            attempts, k, err, part, placed);
  }

  /** A request in progress; one that the checks turn down has moved nothing. */
  ghost predicate Going(src: Buffer, dst: Buffer, m0: seq<Byte>, m: seq<Byte>, w0: seq<nat>, w: seq<nat>,
                        n: nat, dOff: nat, sOff: nat, done: nat, moved: nat, parts: seq<nat>)
    requires dst.Sized() && src.Sized()
    reads dst, dst.chain, src, src.chain
  {
    if Refusal(dst.size, src.size, n, dOff, sOff) == Errno.None then
      UnderWay(src, dst, m0, m, w0, w, n, dOff, sOff, done, moved, parts)
    else done == moved == 0 && m == m0 && w == w0
  }

  lemma GoingFrom(src: Buffer, dst: Buffer, m: seq<Byte>, w: seq<nat>, n: nat, dOff: nat, sOff: nat)
    requires dst.Valid() && src.Valid() && |w| == dst.active
    ensures Going(src, dst, m, m, w, w, n, dOff, sOff, 0, 0, [])
  {
    hide UnderWay;
    if Refusal(dst.size, src.size, n, dOff, sOff) == Errno.None { NotYet(src, dst, m, w, n, dOff, sOff); }
  }

  /** How a request may end: by the check that turns it down; or, if nothing stands in its way, with
      success or, at worst, AGAIN. */
  ghost predicate Ends(src: Buffer, dst: Buffer, size: nat, n: nat, dOff: nat, sOff: nat, attempts: nat -> Attempt,
                       err: Errno)
    requires dst.Sized() && src.Sized()
    reads dst, dst.chain, src, src.chain
  {
    var refusal := Refusal(dst.size, src.size, n, dOff, sOff);
    if refusal != Errno.None then err == refusal
    else AllSmooth(attempts) && Unhindered(size, dst.Contents(), dst.forDevice, src.Contents(), n, dOff, sOff) ==>
           err.None? || err.Again?
  }

  /** dst's cookie asks for what is left of a request once done bytes have been copied. */
  ghost predicate Asks(dst: AsyncCopyCookie, src: AsyncCopyCookie, n: nat, dOff: nat, sOff: nat, done: nat)
    reads dst
  {
    done <= n && dst.Value() == SgDst(Unused(), src, n - done, dOff + done, sOff + done)
  }

  lemma AskedMatches(dst: AsyncCopyCookie, src: AsyncCopyCookie, n: nat, dOff: nat, sOff: nat, done: nat,
                     sv: Cookie<AsyncCopyCookie, array<Byte>>)
    requires Asks(dst, src, n, dOff, sOff, done) && src.Value() == SgSrc(sv)
    ensures dst.IsDstOf(src) && dst.size == n - done && dst.dOff == dOff + done && dst.sOff == sOff + done
    ensures forall part: nat :: part <= n - done ==>
              Advanced(dst.Value(), part) == SgDst(Unused(), src, n - (done + part), dOff + (done + part),
                                                   sOff + (done + part))
  {
  }

  /** What an attempt comes to, for a request that passes the checks and for one that does not. */
  lemma TurnComes(src: Buffer, dst: Buffer, m0: seq<Byte>, m1: seq<Byte>, m2: seq<Byte>,
                w0: seq<nat>, w1: seq<nat>, w2: seq<nat>, n: nat, dOff: nat, sOff: nat, done: nat,
                parts: seq<nat>, attempts: nat -> Attempt, k: nat, err: Errno, copied: nat, moved: nat)
    requires dst.Valid() && src.Valid() && Injective(dst.Contents()) && Apart(dst.Contents(), src.Contents())
    requires !err.Exist? && done <= n && |w1| == dst.active
    requires Tried(src, dst, m1, m2, n - done, dOff + done, sOff + done, attempts(k), err, copied, moved)
    requires Fits(dst.Contents(), dOff + done, copied) && w2 == Record(dst.Contents(), w1, dOff + done, copied)
    requires Going(src, dst, m0, m1, w0, w1, n, dOff, sOff, done, done, parts)
    ensures Going(src, dst, m0, m2, w0, w2, n, dOff, sOff, done + copied, done + moved, parts + [copied])
    ensures Ends(src, dst, |m0|, n, dOff, sOff, attempts, err)
    ensures copied <= moved <= n - done && (err.None? ==> done + copied == done + moved == n)
    ensures Refusal(dst.size, src.size, n, dOff, sOff) == Errno.None ==>
              Total(parts) == done &&
              Tries(Between(dst, src, |m0|, n, dOff, sOff), done, attempts(k), err, copied, moved)
  {
    hide Proper, Start, Sum, Addr, Injective, Apart, Put, Backed, Read, MayWrite, RecordParts, Total, Tries;
    if Refusal(dst.size, src.size, n, dOff, sOff) == Errno.None {
      OneMoreAttempt(src, dst, m0, m1, m2, w0, w1, w2, n, dOff, sOff, done, parts, attempts(k), err, copied, moved);
      RefusalLater(dst.size, src.size, n, dOff, sOff, done);
      RangeLater(|m0|, dst.forDevice, dst.Contents(), dOff, n, done);
      RangeLater(|m0|, false, src.Contents(), sOff, n, done);
      SameMemory(src, dst, m0, m1, w0, w1, n, dOff, sOff, done, parts);
      TriesRest(Between(dst, src, |m0|, n, dOff, sOff), done, attempts(k), err, copied, moved);
    } else {
      RecordNothing(dst.Contents(), w1, dOff);
    }
  }

  lemma SameMemory(src: Buffer, dst: Buffer, m0: seq<Byte>, m1: seq<Byte>, w0: seq<nat>, w1: seq<nat>,
                   n: nat, dOff: nat, sOff: nat, done: nat, parts: seq<nat>)
    requires dst.Sized() && src.Sized() && UnderWay(src, dst, m0, m1, w0, w1, n, dOff, sOff, done, done, parts)
    ensures |m1| == |m0|
  {
  }
}
