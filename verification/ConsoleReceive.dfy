/** The receiving side of the console device (`to_guest` in virtio_console.cpp), for any chains the
    guest may offer and any copies that may fail. */
module ConsoleReceive {
  import opened MachineWords
  import opened SgChain
  import opened SgWalk
  import opened SgWritten
  import opened SgPayload
  import opened SgBuffer
  import opened SgOutcome
  import opened SgCopy
  import opened Console

  // ---------- shares ----------

  /** How many bytes the first k chains hold. */
  function Offset(cs: seq<seq<Desc>>, k: nat): nat
    requires k <= |cs|
  {
    if k == 0 then 0 else Offset(cs, k - 1) + Sum(cs[k - 1])
  }

  /** What chain i gets of a total: all it holds, or what is left. */
  function Share(cs: seq<seq<Desc>>, total: nat, i: nat): nat
    requires i < |cs|
  {
    if total <= Offset(cs, i) then 0 else Min(total - Offset(cs, i), Sum(cs[i]))
  }

  /** The first k chains hold src, one after the other, each from its start. */
  ghost predicate Laid(m: seq<Byte>, cs: seq<seq<Desc>>, src: seq<Byte>, k: nat)
    requires k <= |cs|
  {
    forall i :: 0 <= i < k ==> LaidAt(m, cs, src, i)
  }

  ghost predicate LaidAt(m: seq<Byte>, cs: seq<seq<Desc>>, src: seq<Byte>, i: nat)
    requires i < |cs|
  {
    && Offset(cs, i) < |src| && Backed(|m|, cs[i], 0, Share(cs, |src|, i))
    && Read(m, cs[i], 0, Share(cs, |src|, i)) == src[Offset(cs, i)..Offset(cs, i) + Share(cs, |src|, i)]
  }

  /** The first k heads, each handed back with the number of bytes it got. */
  function Returned(hs: seq<nat>, cs: seq<seq<Desc>>, total: nat, k: nat): seq<Return>
    requires k <= |hs| == |cs|
  {
    seq(k, i requires 0 <= i < k => Return(hs[i], Share(cs, total, i)))
  }

  /** The chains share no byte, and none has a byte twice. */
  ghost predicate Neat(cs: seq<seq<Desc>>) {
    && (forall i :: 0 <= i < |cs| ==> Injective(cs[i]))
    && forall i, j :: 0 <= i < |cs| && 0 <= j < |cs| && i != j ==> Apart(cs[i], cs[j])
  }

  lemma NothingLaid(m: seq<Byte>, hs: seq<nat>, cs: seq<seq<Desc>>, src: seq<Byte>)
    requires |hs| == |cs|
    ensures Laid(m, cs, src, 0) && Returned(hs, cs, |src|, 0) == [] && Offset(cs, 0) == 0
  {
  }

  lemma {:induction false} OffsetMonotone(cs: seq<seq<Desc>>, j: nat, k: nat)
    requires j <= k <= |cs|
    ensures Offset(cs, j) <= Offset(cs, k)
  {
    if j < k { OffsetMonotone(cs, j, k - 1); }
  }

  /** A write to chain k leaves what lies in the chains before it. */
  lemma LaidStays(m: seq<Byte>, m': seq<Byte>, cs: seq<seq<Desc>>, src: seq<Byte>, k: nat, n: nat)
    requires k < |cs| && Neat(cs) && Laid(m, cs, src, k) && Only(m', m, cs[k], 0, n) && n <= Sum(cs[k])
    ensures Laid(m', cs, src, k)
  {
    hide Only, Backed, Sum, Read, Apart, Injective, Offset, Share;
    forall i | 0 <= i < k
      ensures LaidAt(m', cs, src, i)
    {
      assert LaidAt(m, cs, src, i);
      ReadApart(m', m, cs[k], n, cs[i], Share(cs, |src|, i));
    }
  }

  lemma ReadApart(m': seq<Byte>, m: seq<Byte>, c: seq<Desc>, k: nat, e: seq<Desc>, n: nat)
    requires Only(m', m, c, 0, k) && k <= Sum(c) && Apart(c, e) && Backed(|m|, e, 0, n)
    ensures |m'| == |m| && Read(m', e, 0, n) == Read(m, e, 0, n)
  {
    forall p | 0 <= p < n
      ensures m'[Addr(e, p)] == m[Addr(e, p)]
    {
      assert !Hit(c, 0, k, Addr(e, p));
    }
  }

  /** Its share put into chain k, k + 1 chains are laid. */
  lemma LaidMore(m: seq<Byte>, m': seq<Byte>, cs: seq<seq<Desc>>, src: seq<Byte>, k: nat, n: nat)
    requires k < |cs| && Neat(cs) && Laid(m, cs, src, k) && Offset(cs, k) < |src|
    requires Only(m', m, cs[k], 0, n) && n == Min(|src| - Offset(cs, k), Sum(cs[k]))
    requires Put(m', m, cs[k], 0, src[Offset(cs, k)..Offset(cs, k) + n])
    ensures Laid(m', cs, src, k + 1)
  {
    hide Put, Only, Backed, Sum, Read, Apart, Injective, Offset;
    var bytes := src[Offset(cs, k)..Offset(cs, k) + n];
    LaidStays(m, m', cs, src, k, n);
    PutSize(m', m, cs[k], 0, bytes);
    PutBacked(m', m, cs[k], 0, bytes);
    ReadBack(m', m, cs[k], 0, bytes);
    assert LaidAt(m', cs, src, k);
  }

  lemma PutBacked(m': seq<Byte>, m: seq<Byte>, c: seq<Desc>, d: nat, bytes: seq<Byte>)
    requires Put(m', m, c, d, bytes)
    ensures Backed(|m|, c, d, |bytes|)
  {
  }

  function SumLens(rs: seq<Return>): nat { if rs == [] then 0 else SumLens(rs[..|rs| - 1]) + rs[|rs| - 1].len }

  /** The lengths reported add up to the bytes delivered. */
  lemma {:induction false} LensAddUp(hs: seq<nat>, cs: seq<seq<Desc>>, total: nat, k: nat)
    requires k <= |hs| == |cs|
    ensures SumLens(Returned(hs, cs, total, k)) == Min(total, Offset(cs, k))
  {
    if k > 0 {
      LensAddUp(hs, cs, total, k - 1);
      assert Returned(hs, cs, total, k)[..k - 1] == Returned(hs, cs, total, k - 1);
    }
  }

  // ---------- the device ----------

  class Receive {
    const buffer: Buffer
    const queue: Queue
    const table: seq<Raw>

    constructor (queue: Queue, entries: nat, table: seq<Raw>)
      requires entries <= U16_MAX && 0 < queue.size <= entries && queue.device
      ensures Valid() && this.queue == queue && this.table == table && fresh(buffer)
    {
      this.queue, this.table := queue, table;
      buffer := new Buffer(entries);
    }

    /** Between calls, and between turns of the loop, the buffer is clear. */
    ghost predicate Valid()
      reads this, buffer, buffer.chain
    {
      buffer.Valid() && buffer.Clear() && 0 < queue.size <= buffer.max && queue.device
    }

    ghost function Outcome(h: nat): SgWalk.Outcome
      reads this
    {
      ChainAt(table, queue.size, buffer.max, h)
    }

    ghost function Chain(h: nat): seq<Desc>
      reads this
    {
      Descs(Outcome(h))
    }

    /** One turn of the loop of `to_guest`: as much of src as the next chain takes. */
    method FillOne(mem: array<Byte>, src: seq<Byte>, faults: Faults)
      returns (err: Errno, n: nat, ghost moved: nat)
      requires Valid() && src != []
      modifies buffer, buffer.chain, buffer.meta, queue`waiting, queue`sent, mem
      ensures Valid()
      ensures err.NoEnt? <==> old(queue.waiting) == []
      ensures err.NoEnt? ==> queue.waiting == old(queue.waiting) && queue.sent == old(queue.sent)
      ensures err.NoEnt? ==> n == moved == 0 && mem[..] == old(mem[..])
      ensures !err.NoEnt? ==> queue.waiting == old(queue.waiting)[1..]
      ensures !err.NoEnt? ==>
                Handled(Outcome(old(queue.waiting)[0]), old(queue.waiting)[0], queue.size, old(queue.sent),
                                      queue.sent, old(mem[..]), mem[..], src, faults, err, n, moved)
    {
      hide Proper, FirstWritable, Sum, Start, Addr, Backed, Put, Only, WalkFrom, Cache, Injective, ComesTo;
      n, moved := 0, 0;
      err := buffer.WalkChain(queue, Static(table));
      if !err.None? { return; }
      ghost var h := old(queue.waiting)[0];
      AcceptedSum(Static(table), queue.size, buffer.max, h, Outcome(h).nodes);
      assert buffer.Contents() == Chain(h) && buffer.meta[0].idx == h;
      err, n, moved := Serve(mem, src, faults);
    }

    /** The chain in the buffer gets as much of src as it takes, and goes back. */
    method Serve(mem: array<Byte>, src: seq<Byte>, faults: Faults) returns (err: Errno, n: nat, ghost moved: nat)
      requires buffer.Valid() && 0 < queue.size <= buffer.max && queue.device && src != []
      requires buffer.complete && buffer.forDevice && buffer.size > 0
      requires forall k :: 0 <= k < buffer.active ==> buffer.meta[k].written == 0
      modifies buffer, buffer.meta, queue`sent, mem
      ensures Valid() && (err.None? || err.Perm? || err.BadR?)
      ensures queue.sent == old(queue.sent) + [Return(old(buffer.meta[0].idx), n)]
      ensures var c := old(buffer.Contents());
              var want := Min(|src|, Sum(c));
              && want > 0 && n <= moved <= want && (err.None? ==> n == want)
              && Only(mem[..], old(mem[..]), c, 0, moved)
              && (Injective(c) ==> Put(mem[..], old(mem[..]), c, 0, src[..moved]))
              && (FirstWritable(c) == 0 && Backed(mem.Length, c, 0, want) && (forall i :: faults(i).Fine?) ==>
                    err.None?)
              && ComesTo(Job(Sg(c, 0), Linear, true, want, mem.Length), faults, err, n, moved)
    {
      hide Proper, FirstWritable, Sum, Start, Addr, Backed, Put, Only, Injective, MayWrite, Record, Lower;
      hide ComesTo, Tries;
      ghost var c, w, h := buffer.Contents(), buffer.Written(), buffer.meta[0].idx;
      NotEmpty(c);
      var want := Min(|src|, buffer.size);
      WholeAllowed(buffer.forDevice, c, want);
      err, n, moved := TryFromLinear(buffer, mem, src[..want], 0, Attempt(false, 0, faults));
      assert src[..want][..moved] == src[..moved];
      OnlyTry(Into(buffer, mem.Length, want, 0), faults, err, n, moved);
      FirstReport(c, w, buffer.Written(), n, moved);
      ReportIs(buffer);
      assert buffer.meta[0].idx == h;
      buffer.Conclude(queue, false);
    }

    ghost function Chains(hs: seq<nat>): (cs: seq<seq<Desc>>)
      reads this
      ensures |cs| == |hs| && forall i :: 0 <= i < |hs| ==> cs[i] == Chain(hs[i])
    {
      seq(|hs|, i requires 0 <= i < |hs| reads this => Chain(hs[i]))
    }

    /** Nothing about the waiting chains that would be needed keeps total bytes from being written. */
    ghost predicate AllTake(hs: seq<nat>, size: nat, total: nat)
      reads this
    {
      forall i :: 0 <= i < |hs| && Offset(Chains(hs), i) < total ==>
                    Takes(Outcome(hs[i]), size, Share(Chains(hs), total, i))
    }

    /** `to_guest`. The first `done` chains get their shares in full and go back with them; the call
        succeeds exactly if that is all there is to deliver. Otherwise the chains have run out, or
        the next one goes back too (unless its head is out of range), with exactly what was copied
        before the first piece of memory that could not be written, and with that in place. */
    method ToGuest(mem: array<Byte>, src: seq<Byte>, faults: nat -> Faults) returns (ok: bool, ghost done: nat)
      requires Valid()
      modifies buffer, buffer.chain, buffer.meta, queue`waiting, queue`sent, mem
      ensures Valid() && done <= |old(queue.waiting)|
      ensures var hs, cs := old(queue.waiting), Chains(old(queue.waiting));
              && (ok <==> |src| <= Offset(cs, done)) && (done > 0 ==> Offset(cs, done - 1) < |src|)
              && (Neat(cs) ==> Laid(mem[..], cs, src, done))
              && (ok || done == |hs| ==>
                    queue.waiting == hs[done..] && queue.sent == old(queue.sent) + Returned(hs, cs, |src|, done))
              && (!ok && done < |hs| ==>
                    && queue.waiting == hs[done + 1..]
                    && Failed(Outcome(hs[done]), queue.sent, old(queue.sent), hs, cs, mem.Length, mem[..], src, done,
                              queue.size, faults(done)))
              && (AllTake(hs, mem.Length, |src|) && Flawless(faults) ==> (ok <==> |src| <= Offset(cs, |cs|)))
    {
      hide Valid, Laid, Neat, Returned, Offset, Share, Handled, Flawless, Failed, AllTake, Outcome, Descs;
      ghost var hs, cs, sent0 := queue.waiting, Chains(queue.waiting), queue.sent;
      var idx, k: nat := 0, 0;
      done := 0;
      NothingLaid(mem[..], hs, cs, src);
      while idx != |src|
        invariant Valid() && idx <= |src| && done <= |hs| && queue.waiting == hs[done..]
        invariant k == done && idx == Min(|src|, Offset(cs, done))
        invariant done > 0 ==> Offset(cs, done - 1) < |src|
        invariant queue.sent == sent0 + Returned(hs, cs, |src|, done)
        invariant Neat(cs) ==> Laid(mem[..], cs, src, done)
        decreases |src| - idx
      {
        ghost var m := mem[..];
        if done < |hs| { assert hs[done..][0] == hs[done] && hs[done..][1..] == hs[done + 1..]; }
        var err, n;
        ghost var moved;
        err, n, moved := FillOne(mem, src[idx..], faults(k));
        if !err.None? {
          OffsetMonotone(cs, done, |cs|);
          if done < |hs| {
            FailedOne(Outcome(hs[done]), hs, cs, queue.size, sent0, queue.sent, m, mem[..], src, done, faults(k), err,
                      n, moved);
            if AllTake(hs, mem.Length, |src|) && Flawless(faults) {
              NoFlaw(faults, k);
              TakesShare(hs, mem.Length, |src|, done);
            }
          }
          return false, done;
        }
        ServedOne(Outcome(hs[done]), hs, cs, queue.size, sent0, queue.sent, m, mem[..], src, done, faults(k), err, n,
                  moved);
        done, idx, k := done + 1, idx + n, k + 1;
      }
      OffsetMonotone(cs, done, |cs|);
      return true, done;
    }

    lemma TakesShare(hs: seq<nat>, size: nat, total: nat, k: nat)
      requires AllTake(hs, size, total) && k < |hs| && Offset(Chains(hs), k) < total
      ensures Takes(Outcome(hs[k]), size, Share(Chains(hs), total, k))
    {
      hide Takes, Offset, Sum, Chain, Outcome, Share;
    }
  }

  /** Nothing about a chain keeps n bytes from being written to its start. */
  ghost predicate Takes(o: SgWalk.Outcome, size: nat, n: nat) {
    o.Accept? && FirstWritable(Descs(o)) == 0 && Backed(size, Descs(o), 0, n)
  }

  /** A chain received and given back, with the number of bytes it got (unless its head is out of
      range): nothing if it is refused, and otherwise as much of src as it takes, or the part that
      went before a copy failed. */
  ghost predicate Handled(o: SgWalk.Outcome, h: nat, qsize: nat, before: seq<Return>, sent: seq<Return>,
                          m: seq<Byte>, m': seq<Byte>, src: seq<Byte>, faults: Faults, err: Errno, n: nat, moved: nat) {
    var c := Descs(o);
    var want := Min(|src|, Sum(c));
    && sent == before + (if h < qsize then [Return(h, n)] else [])
    && (err.None? ==> o.Accept? && h < qsize && n == want)
    && (o.Reject? ==> n == moved == 0 && m' == m)
    && (o.Accept? ==> ComesTo(Job(Sg(c, 0), Linear, true, want, |m|), faults, err, n, moved))
    && (o.Accept? ==>
          && want > 0 && n <= moved <= want && Only(m', m, c, 0, moved)
          && (Injective(c) ==> Put(m', m, c, 0, src[..moved])))
    && (Takes(o, |m|, want) && (forall i :: faults(i).Fine?) ==> err.None?)
  }

  /** A chain served: what it got is its share, and one more is laid and returned. */
  lemma ServedOne(o: SgWalk.Outcome, hs: seq<nat>, cs: seq<seq<Desc>>, qsize: nat, before: seq<Return>,
                  sent: seq<Return>,
                  m: seq<Byte>, m': seq<Byte>, src: seq<Byte>, k: nat, faults: Faults, err: Errno, n: nat, moved: nat)
    requires k < |hs| == |cs| && Offset(cs, k) < |src| && Descs(o) == cs[k] && (Neat(cs) ==> Laid(m, cs, src, k))
    requires Handled(o, hs[k], qsize, before + Returned(hs, cs, |src|, k), sent, m, m', src[Offset(cs, k)..], faults,
                     err, n, moved)
    requires err.None?
    ensures Neat(cs) ==> Laid(m', cs, src, k + 1)
    ensures sent == before + Returned(hs, cs, |src|, k + 1)
    ensures n > 0 && Offset(cs, k) + n == Min(|src|, Offset(cs, k + 1))
  {
    hide Only, Put, Injective, Laid, Apart, Sum;
    assert src[Offset(cs, k)..][..n] == src[Offset(cs, k)..Offset(cs, k) + n];
    assert Returned(hs, cs, |src|, k + 1) == Returned(hs, cs, |src|, k) + [Return(hs[k], n)];
    if Neat(cs) { LaidMore(m, m', cs, src, k, n); }
  }

  /** A chain that failed: what lies in those before it stays. It cannot fail if it takes its share
      and no copy fails. */
  lemma FailedOne(o: SgWalk.Outcome, hs: seq<nat>, cs: seq<seq<Desc>>, qsize: nat, before: seq<Return>,
                  sent: seq<Return>,
                  m: seq<Byte>, m': seq<Byte>, src: seq<Byte>, k: nat, faults: Faults, err: Errno, n: nat, moved: nat)
    requires k < |hs| == |cs| && Offset(cs, k) < |src| && Descs(o) == cs[k] && (Neat(cs) ==> Laid(m, cs, src, k))
    requires Handled(o, hs[k], qsize, before + Returned(hs, cs, |src|, k), sent, m, m', src[Offset(cs, k)..], faults,
                     err, n, moved)
    requires !err.None?
    ensures Neat(cs) ==> Laid(m', cs, src, k)
    ensures Failed(o, sent, before, hs, cs, |m|, m', src, k, qsize, faults)
    ensures (forall i :: faults(i).Fine?) ==> !Takes(o, |m|, Share(cs, |src|, k))
  {
    hide Only, Laid, Neat, Injective, Put, Sum, Takes, ComesTo, Begun, Returned, Descs;
    if o.Accept? {
      assert PartOf(cs[k], |m|, Share(cs, |src|, k), faults, n);
      if Neat(cs) {
        NeatInjective(cs, k);
        LaidStays(m, m', cs, src, k, moved);
        BegunBy(m', m, cs, src, k, n, moved);
      }
    }
  }

  lemma NeatInjective(cs: seq<seq<Desc>>, k: nat)
    requires Neat(cs) && k < |cs|
    ensures Injective(cs[k])
  {
  }

  lemma NoFlaw(faults: nat -> Faults, k: nat)
    requires Flawless(faults)
    ensures forall i :: faults(k)(i).Fine?
  {
  }

  /** Chain k has failed: k have had their shares, and it has gone back with what was copied of its
      own before the first piece that failed; with nothing if it was refused. */
  ghost predicate Failed(o: SgWalk.Outcome, sent: seq<Return>, before: seq<Return>, hs: seq<nat>, cs: seq<seq<Desc>>,
                         size: nat, m: seq<Byte>, src: seq<Byte>, k: nat, qsize: nat, faults: Faults)
    requires k < |hs| == |cs|
  {
    if hs[k] >= qsize then sent == before + Returned(hs, cs, |src|, k)
    else
      exists n: nat ::
        && sent == before + Returned(hs, cs, |src|, k) + [Return(hs[k], n)]
        && if o.Reject? then n == 0
           else PartOf(cs[k], size, Share(cs, |src|, k), faults, n) && (Neat(cs) ==> Begun(m, cs, src, k, n))
  }

  /** A write of `want` bytes to a device's chain that fails comes to n bytes. */
  ghost predicate PartOf(c: seq<Desc>, size: nat, want: nat, faults: Faults, n: nat) {
    exists err, moved :: err != Errno.None && ComesTo(Job(Sg(c, 0), Linear, true, want, size), faults, err, n, moved)
  }

  /** The first n bytes of chain k are those of its share. */
  ghost predicate Begun(m: seq<Byte>, cs: seq<seq<Desc>>, src: seq<Byte>, k: nat, n: nat)
    requires k < |cs|
  {
    && Backed(|m|, cs[k], 0, n) && Offset(cs, k) + n <= |src|
    && Read(m, cs[k], 0, n) == src[Offset(cs, k)..Offset(cs, k) + n]
  }

  lemma BegunBy(m': seq<Byte>, m: seq<Byte>, cs: seq<seq<Desc>>, src: seq<Byte>, k: nat, n: nat, moved: nat)
    requires k < |cs| && n <= moved && Offset(cs, k) + moved <= |src|
    requires Put(m', m, cs[k], 0, src[Offset(cs, k)..][..moved])
    ensures Begun(m', cs, src, k, n)
  {
    hide Sum, Addr, Offset;
    var bytes := src[Offset(cs, k)..][..moved];
    ReadBack(m', m, cs[k], 0, bytes);
    forall i | 0 <= i < n
      ensures Read(m', cs[k], 0, n)[i] == src[Offset(cs, k)..Offset(cs, k) + n][i]
    {
      assert Read(m', cs[k], 0, moved)[i] == bytes[i];
    }
  }

  lemma NotEmpty(c: seq<Desc>)
    requires Sum(c) > 0
    ensures c != []
  {
  }

  lemma WholeAllowed(device: bool, c: seq<Desc>, n: nat)
    requires Proper(c)
    ensures FirstWritable(c) == 0 ==> MayWrite(device, c, 0, n)
  {
  }

  /** The report after one write from the start of a fresh chain, as far as it was allowed to go. */
  lemma FirstReport(c: seq<Desc>, w: seq<nat>, w': seq<nat>, n: nat, moved: nat)
    requires Proper(c) && c != [] && |w| == |c| && (forall k :: 0 <= k < |w| ==> w[k] == 0) && n <= moved
    requires Fits(c, 0, n) && w' == Record(c, w, 0, n) && MayWrite(true, c, 0, moved)
    ensures Reported(c, w') == n
  {
    hide Record, Sum;
    FreshInOrder(c, w);
    StartEnds(c);
    if n > 0 {
      FirstWritten(c, moved);
      RecordInOrder(c, w, 0, n);
      ReportInOrder(c, w', n);
    } else {
      RecordNothing(c, w, 0);
      ReportInOrder(c, w, 0);
    }
  }

  lemma FirstWritten(c: seq<Desc>, n: nat)
    requires Proper(c) && c != [] && n > 0 && MayWrite(true, c, 0, n)
    ensures FirstWritable(c) == 0
  {
    StartEnds(c);
    FirstWritableIs(c);
    assert Touches(c, 0, 0, n);
  }
}
