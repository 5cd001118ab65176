/** What a copy comes to, for any faults: it is made piece by piece, and the first piece that cannot
    be moved ends it. A piece is a run of bytes that is consecutive in memory on both sides. */
module SgOutcome {
  import opened Counting
  import opened SgChain
  import opened SgPayload
  import opened SgBuffer

  /** What the address translation of a piece does besides refusing addresses outside memory: fail
      before the bytes are moved, or in the hook after. */
  datatype Fault = Fine | Before | After

  type Faults = nat -> Fault

  /** What an implementation of a copy does with a request, apart from what the request itself
      calls for: it handles all of it, or a part from its start on and then says AGAIN. The
      default implementation always handles all of it; an overriding one may not. */
  datatype Attempt = Attempt(again: bool, limit: nat, faults: Faults)

  function Min(a: nat, b: nat): nat { if a < b then a else b }

  function Portion(a: Attempt, n: nat): nat { if a.again then Min(a.limit, n) else n }

  ghost predicate Smooth(a: Attempt) { forall i :: a.faults(i).Fine? }

  /** How an attempt ends when nothing goes wrong. */
  function Ending(a: Attempt): Errno { if a.again then Again else None }

  // ---------- positions ----------

  /** (k, l) is where an iterator with its local offset stands at payload offset off. */
  ghost predicate At(c: seq<Desc>, k: nat, l: nat, off: nat) {
    k <= |c| && (if k < |c| then l < c[k].length else l == 0) && Start(c, k) + l == off
  }

  /** Descriptor k holds some of the payload bytes d .. d+n. */
  ghost predicate Touches(c: seq<Desc>, k: nat, d: nat, n: nat)
    requires k < |c|
  {
    n > 0 && Start(c, k) < d + n && d < Start(c, k) + c[k].length
  }

  lemma TouchesMore(c: seq<Desc>, j: nat, d: nat, k: nat, l: nat, off: nat, n: nat)
    requires Proper(c) && j < |c| && k < |c| && At(c, k, l, off) && l + n <= c[k].length && d <= off && j != k
    requires Touches(c, j, d, off + n - d)
    ensures Touches(c, j, d, off - d)
  {
    hide Start, Sum;
    StartNext(c, k);
    StartNext(c, j);
    if k < j { StartMonotone(c, k + 1, j); }
    if j < k { StartMonotone(c, j + 1, k); }
  }

  /** A device writes those bytes only in write-only descriptors. */
  ghost predicate MayWrite(device: bool, c: seq<Desc>, d: nat, n: nat) {
    device ==> forall k :: 0 <= k < |c| && Touches(c, k, d, n) ==> WriteOnly(c[k].flags)
  }

  lemma NoneTouched(c: seq<Desc>, d: nat)
    ensures forall device :: MayWrite(device, c, d, 0)
  {
  }

  lemma MayWriteMore(device: bool, c: seq<Desc>, k: nat, l: nat, d: nat, done: nat, size: nat)
    requires Proper(c) && MayWrite(device, c, d, done) && k < |c| && At(c, k, l, d + done) && l + size <= c[k].length
    requires device ==> WriteOnly(c[k].flags)
    ensures MayWrite(device, c, d, done + size)
  {
    hide At, Touches;
    forall j | 0 <= j < |c| && Touches(c, j, d, done + size) && j != k
      ensures Touches(c, j, d, done)
    {
      TouchesMore(c, j, d, k, l, d + done, size);
    }
  }

  // ---------- jobs ----------

  /** One end of a copy: a linear buffer, or a chain from a payload offset on. */
  datatype Side = Linear | Sg(chain: seq<Desc>, off: nat)

  /** A copy of n bytes; device: the destination's chain is for a device; size: that of memory. */
  datatype Job = Job(dst: Side, src: Side, device: bool, n: nat, size: nat)

  /** n bytes from here on are within the payload. */
  ghost predicate Holds(side: Side, n: nat) {
    side.Sg? ==> Proper(side.chain) && side.off + n <= Sum(side.chain)
  }

  ghost predicate WellPlaced(r: Job) { Holds(r.dst, r.n) && Holds(r.src, r.n) }

  /** A descriptor starts x bytes on. */
  ghost predicate Begins(side: Side, x: nat) {
    side.Sg? && exists k :: 0 <= k < |side.chain| && Start(side.chain, k) == side.off + x
  }

  /** A piece starts x bytes on. */
  ghost predicate Cut(r: Job, x: nat) { x == 0 || Begins(r.dst, x) || Begins(r.src, x) }

  /** How many pieces start in the first x bytes. */
  ghost function Pieces(r: Job, x: nat): nat {
    if x == 0 then 0 else Pieces(r, x - 1) + One(Cut(r, x - 1))
  }

  /** What is left of the descriptor x bytes on, of n at most. */
  ghost function Left(side: Side, x: nat, n: nat): nat
    requires Holds(side, x + n) && n > 0
  {
    if side.Linear? then n
    else var (k, l) := Locate(side.chain, side.off + x); Min(side.chain[k].length - l, n)
  }

  /** The length of the piece x bytes on. */
  ghost function PieceLen(r: Job, x: nat): nat
    requires WellPlaced(r) && x < r.n
  {
    Min(Left(r.dst, x, r.n - x), Left(r.src, x, r.n - x))
  }

  /** p bytes of the descriptor x bytes on are in memory. */
  ghost predicate Resident(side: Side, size: nat, x: nat, p: nat)
    requires Holds(side, x + 1)
  {
    side.Sg? ==> var (k, l) := Locate(side.chain, side.off + x); side.chain[k].address + l + p <= size
  }

  /** The descriptor to be written x bytes on is one a device may not write. */
  ghost predicate ReadOnly(r: Job, x: nat)
    requires Holds(r.dst, x + 1)
  {
    r.device && r.dst.Sg? && !WriteOnly(r.dst.chain[Locate(r.dst.chain, r.dst.off + x).0].flags)
  }

  /** The piece x bytes on ends the copy: PERM if it is read-only; and otherwise BADR, if it is not
      in memory or its translation fails. Only a hook that fails after the move leaves it moved. */
  ghost predicate StopsAt(r: Job, x: nat, fault: Fault, err: Errno, moved: nat)
    requires WellPlaced(r) && x < r.n
  {
    var p := PieceLen(r, x);
    if ReadOnly(r, x) then err == Perm && moved == x
    else if !Resident(r.dst, r.size, x, p) || !Resident(r.src, r.size, x, p) || fault.Before? then
      err == BadR && moved == x
    else fault.After? && err == BadR && moved == x + p
  }

  /** The first x bytes may be written, and are in memory at both ends. */
  ghost predicate Allowed(r: Job, x: nat) {
    && (r.dst.Sg? ==> MayWrite(r.device, r.dst.chain, r.dst.off, x) && Backed(r.size, r.dst.chain, r.dst.off, x))
    && (r.src.Sg? ==> Backed(r.size, r.src.chain, r.src.off, x))
  }

  /** The pieces in the first x bytes have gone through; a piece starts there, or all is done. */
  ghost predicate Through(r: Job, faults: Faults, x: nat) {
    && x <= r.n && (Cut(r, x) || x == r.n) && Allowed(r, x)
    && forall j :: 0 <= j < Pieces(r, x) ==> faults(j).Fine?
  }

  /** What a copy returns: all of it is copied; or exactly the pieces before the first that stops
      it, and the error is that piece's. */
  ghost predicate ComesTo(r: Job, faults: Faults, err: Errno, copied: nat, moved: nat) {
    && WellPlaced(r) && Through(r, faults, copied)
    && if err.None? then copied == moved == r.n
       else copied < r.n && StopsAt(r, copied, faults(Pieces(r, copied)), err, moved)
  }

  function Later(side: Side, done: nat): Side { if side.Linear? then side else side.(off := side.off + done) }

  /** m bytes of the job, once done bytes are copied. */
  function Rest(r: Job, done: nat, m: nat): Job { r.(dst := Later(r.dst, done), src := Later(r.src, done), n := m) }

  function Plain(err: Errno): Errno { if err.Again? then None else err }

  /** One attempt at what is left of a job: the outcome of the portion it handles, and AGAIN if that
      is how the attempt ends. */
  ghost predicate Tries(r: Job, done: nat, a: Attempt, err: Errno, part: nat, placed: nat) {
    && done <= r.n && ComesTo(Rest(r, done, Portion(a, r.n - done)), a.faults, Plain(err), part, placed)
    && (Plain(err).None? ==> err == if done == r.n then None else Ending(a))
  }

  // ---------- one piece after the other ----------

  lemma NothingThrough(r: Job, faults: Faults)
    requires WellPlaced(r)
    ensures Through(r, faults, 0) && Pieces(r, 0) == 0
  {
    if r.dst.Sg? { NoneTouched(r.dst.chain, r.dst.off); }
  }

  lemma LocateIs(c: seq<Desc>, k: nat, l: nat, off: nat)
    requires At(c, k, l, off) && k < |c|
    ensures off < Sum(c) && Locate(c, off) == (k, l)
  {
    StartNext(c, k);
    StartMonotone(c, k + 1, |c|);
    LocateUnique(c, off, k, l, Locate(c, off).0, Locate(c, off).1);
  }

  /** Within a descriptor none starts; behind it the next does, unless the payload ends. */
  lemma BeginsBetween(side: Side, x: nat, p: nat, n: nat)
    requires n > 0 && Holds(side, x + n) && 0 < p <= Left(side, x, n)
    ensures forall y :: x < y < x + p ==> !Begins(side, y)
    ensures side.Sg? && p < n && p == Left(side, x, n) ==> Begins(side, x + p)
  {
    hide Start, Sum, Locate;
    if side.Sg? {
      var c := side.chain;
      var (k, l) := Locate(c, side.off + x);
      StartNext(c, k);
      StartEnds(c);
      forall y | x < y < x + p
        ensures !Begins(side, y)
      {
        forall j | 0 <= j < |c|
          ensures Start(c, j) != side.off + y
        {
          if j <= k { StartMonotone(c, j, k); } else { StartMonotone(c, k + 1, j); }
        }
      }
      if p < n && p == Left(side, x, n) {
        assert Start(c, k + 1) == side.off + x + p;
      }
    }
  }

  lemma {:induction false} PiecesSkip(r: Job, x: nat, p: nat)
    requires p > 0 && Cut(r, x) && forall y :: x < y < x + p ==> !Cut(r, y)
    ensures Pieces(r, x + p) == Pieces(r, x) + 1
  {
    if p > 1 { PiecesSkip(r, x, p - 1); }
  }

  lemma SideAllowed(side: Side, size: nat, x: nat, p: nat, n: nat)
    requires n > 0 && Holds(side, x + n) && 0 < p <= Left(side, x, n) && Resident(side, size, x, p)
    requires side.Sg? ==> Backed(size, side.chain, side.off, x)
    ensures side.Sg? ==> Backed(size, side.chain, side.off, x + p)
  {
    hide Start, Sum, Addr, Locate;
    if side.Sg? {
      var (k, l) := Locate(side.chain, side.off + x);
      ChunkAddr(side.chain, k, l, p);
    }
  }

  /** A piece that nothing stops goes through, and the next one starts behind it. */
  lemma PieceThrough(r: Job, faults: Faults, x: nat)
    requires WellPlaced(r) && Through(r, faults, x) && x < r.n && !ReadOnly(r, x)
    requires Resident(r.dst, r.size, x, PieceLen(r, x)) && Resident(r.src, r.size, x, PieceLen(r, x))
    requires faults(Pieces(r, x)).Fine?
    ensures PieceLen(r, x) > 0 && x + PieceLen(r, x) <= r.n && Through(r, faults, x + PieceLen(r, x))
    ensures Pieces(r, x + PieceLen(r, x)) == Pieces(r, x) + 1
  {
    hide Start, Sum, Addr, Locate, Begins, MayWrite, Backed, Pieces;
    var p, rest := PieceLen(r, x), r.n - x;
    BeginsBetween(r.dst, x, p, rest);
    BeginsBetween(r.src, x, p, rest);
    PiecesSkip(r, x, p);
    SideAllowed(r.dst, r.size, x, p, rest);
    SideAllowed(r.src, r.size, x, p, rest);
    if r.dst.Sg? {
      var (k, l) := Locate(r.dst.chain, r.dst.off + x);
      MayWriteMore(r.device, r.dst.chain, k, l, r.dst.off, x, p);
    }
  }

  lemma {:induction false} PiecesGrow(r: Job, x: nat, y: nat)
    requires x <= y
    ensures Pieces(r, x) <= Pieces(r, y)
  {
    if x < y { PiecesGrow(r, x, y - 1); }
  }

  /** Nothing that has gone through stops at any of its pieces. */
  lemma ThroughPast(r: Job, faults: Faults, x: nat, y: nat, err: Errno, moved: nat)
    requires WellPlaced(r) && Through(r, faults, x) && Through(r, faults, y) && x < y
    ensures Cut(r, x) && !StopsAt(r, x, faults(Pieces(r, x)), err, moved)
  {
    hide Start, Sum, Addr, Locate, Begins, Backed, Pieces, MayWrite;
    var p, rest := PieceLen(r, x), r.n - x;
    BeginsBetween(r.dst, x, p, rest);
    BeginsBetween(r.src, x, p, rest);
    assert x + p <= y;
    PiecesSkip(r, x, p);
    PiecesGrow(r, x + p, y);
    SideWithin(r.dst, r.size, x, p, rest, y);
    SideWithin(r.src, r.size, x, p, rest, y);
    if ReadOnly(r, x) { Forbidden(r, x, y); }
  }

  lemma SideWithin(side: Side, size: nat, x: nat, p: nat, n: nat, y: nat)
    requires n > 0 && Holds(side, x + n) && 0 < p <= Left(side, x, n) && x + p <= y
    requires side.Sg? ==> Backed(size, side.chain, side.off, y)
    ensures Resident(side, size, x, p)
  {
    hide Start, Sum, Addr, Locate;
    if side.Sg? {
      var (k, l) := Locate(side.chain, side.off + x);
      ChunkAddr(side.chain, k, l, p);
      assert Addr(side.chain, side.off + x + p - 1) < size;
    }
  }

  lemma Forbidden(r: Job, x: nat, y: nat)
    requires WellPlaced(r) && x < y <= r.n && ReadOnly(r, x)
    ensures !Allowed(r, y)
  {
    hide Start, Sum, Locate;
    var c := r.dst.chain;
    var k := Locate(c, r.dst.off + x).0;
    assert Touches(c, k, r.dst.off, y);
  }

  /** A job has one outcome: the error, the bytes reported and the bytes moved are determined. */
  lemma OneOutcome(r: Job, faults: Faults, err: Errno, copied: nat, moved: nat,
                      err': Errno, copied': nat, moved': nat)
    requires ComesTo(r, faults, err, copied, moved) && ComesTo(r, faults, err', copied', moved')
    ensures err' == err && copied' == copied && moved' == moved
  {
    hide Through, StopsAt;
    if copied < copied' {
      ThroughPast(r, faults, copied, copied', err, moved);
    } else if copied' < copied {
      ThroughPast(r, faults, copied', copied, err', moved');
    } else if copied < r.n {
      StopsOnce(r, copied, faults(Pieces(r, copied)), err, moved, err', moved');
    }
  }

  lemma StopsOnce(r: Job, x: nat, fault: Fault, err: Errno, moved: nat, err': Errno, moved': nat)
    requires WellPlaced(r) && x < r.n && StopsAt(r, x, fault, err, moved) && StopsAt(r, x, fault, err', moved')
    ensures err' == err && moved' == moved && err != None
  {
  }

  /** A job without AGAIN is its one attempt. */
  lemma OnlyTry(r: Job, faults: Faults, err: Errno, copied: nat, moved: nat)
    requires Tries(r, 0, Attempt(false, 0, faults), err, copied, moved)
    ensures ComesTo(r, faults, err, copied, moved) && !err.Again?
  {
    hide ComesTo;
    assert Rest(r, 0, r.n) == r;
  }

  // ---------- two descriptors ----------

  /** Nothing stops a write to this descriptor. */
  predicate Open(d: Desc, device: bool, size: nat, fault: Fault) {
    (device ==> WriteOnly(d.flags)) && d.address + d.length <= size && fault.Fine?
  }

  function ErrorOf(d: Desc, device: bool): Errno { if device && !WriteOnly(d.flags) then Perm else BadR }

  /** The bytes moved although the piece failed. */
  function Stray(d: Desc, device: bool, size: nat, fault: Fault): nat {
    if (device ==> WriteOnly(d.flags)) && d.address + d.length <= size && fault.After? then d.length else 0
  }

  /** A write to all of a chain of two. */
  ghost function Pair(a: Desc, b: Desc, device: bool, size: nat): Job {
    Job(Sg([a, b], 0), Linear, device, a.length + b.length, size)
  }

  /** Worked out: what is reported ends with the first descriptor
      that fails, and the error is that descriptor's. */
  lemma TwoPieces(a: Desc, b: Desc, device: bool, size: nat, faults: Faults, err: Errno, copied: nat, moved: nat)
    requires Proper([a, b])
    requires ComesTo(Pair(a, b, device, size), faults, err, copied, moved)
    ensures if !Open(a, device, size, faults(0)) then
              err == ErrorOf(a, device) && copied == 0 && moved == Stray(a, device, size, faults(0))
            else if !Open(b, device, size, faults(1)) then
              err == ErrorOf(b, device) && copied == a.length && moved == copied + Stray(b, device, size, faults(1))
            else err == None && copied == moved == a.length + b.length
  {
    hide ComesTo, Through;
    var r := Pair(a, b, device, size);
    if !Open(a, device, size, faults(0)) {
      FirstFails(a, b, device, size, faults);
      OneOutcome(r, faults, err, copied, moved, ErrorOf(a, device), 0, Stray(a, device, size, faults(0)));
    } else if !Open(b, device, size, faults(1)) {
      SecondFails(a, b, device, size, faults);
      OneOutcome(r, faults, err, copied, moved, ErrorOf(b, device), a.length,
                 a.length + Stray(b, device, size, faults(1)));
    } else {
      NoneFails(a, b, device, size, faults);
      OneOutcome(r, faults, err, copied, moved, None, r.n, r.n);
    }
  }

  lemma PairAt(a: Desc, b: Desc, device: bool, size: nat)
    requires Proper([a, b])
    ensures var r := Pair(a, b, device, size);
            && WellPlaced(r) && Sum([a, b]) == r.n && a.length > 0 && b.length > 0
            && PieceLen(r, 0) == a.length && PieceLen(r, a.length) == b.length
            && (ReadOnly(r, 0) <==> device && !WriteOnly(a.flags))
            && (ReadOnly(r, a.length) <==> device && !WriteOnly(b.flags))
            && (Resident(r.dst, size, 0, a.length) <==> a.address + a.length <= size)
            && (Resident(r.dst, size, a.length, b.length) <==> b.address + b.length <= size)
  {
    var c := [a, b];
    assert c[..1] == [a] && c[..0] == [] && c[..2] == c && [a][..0] == [];
    assert c[0].length > 0 && c[1].length > 0;
    LocateIs(c, 0, 0, 0);
    LocateIs(c, 1, 0, a.length);
  }

  lemma FirstFails(a: Desc, b: Desc, device: bool, size: nat, faults: Faults)
    requires Proper([a, b]) && !Open(a, device, size, faults(0))
    ensures ComesTo(Pair(a, b, device, size), faults, ErrorOf(a, device), 0, Stray(a, device, size, faults(0)))
  {
    hide Proper, Through, PieceLen, ReadOnly, Resident;
    PairAt(a, b, device, size);
    LinearThere(Pair(a, b, device, size), 0, a.length);
    NothingThrough(Pair(a, b, device, size), faults);
  }

  lemma FirstThrough(a: Desc, b: Desc, device: bool, size: nat, faults: Faults)
    requires Proper([a, b]) && Open(a, device, size, faults(0))
    ensures var r := Pair(a, b, device, size);
            WellPlaced(r) && Through(r, faults, a.length) && Pieces(r, a.length) == 1
  {
    hide Proper, Through, PieceLen, ReadOnly, Resident, Pieces;
    var r := Pair(a, b, device, size);
    PairAt(a, b, device, size);
    NothingThrough(r, faults);
    LinearThere(r, 0, a.length);
    PieceThrough(r, faults, 0);
  }

  lemma LinearThere(r: Job, x: nat, p: nat)
    requires r.src.Linear?
    ensures Resident(r.src, r.size, x, p)
  {
  }

  lemma SecondFails(a: Desc, b: Desc, device: bool, size: nat, faults: Faults)
    requires Proper([a, b]) && Open(a, device, size, faults(0)) && !Open(b, device, size, faults(1))
    ensures ComesTo(Pair(a, b, device, size), faults, ErrorOf(b, device), a.length,
                    a.length + Stray(b, device, size, faults(1)))
  {
    hide Proper, Through, PieceLen, ReadOnly, Resident, Pieces;
    PairAt(a, b, device, size);
    FirstThrough(a, b, device, size, faults);
    LinearThere(Pair(a, b, device, size), a.length, b.length);
  }

  lemma NoneFails(a: Desc, b: Desc, device: bool, size: nat, faults: Faults)
    requires Proper([a, b]) && Open(a, device, size, faults(0)) && Open(b, device, size, faults(1))
    ensures ComesTo(Pair(a, b, device, size), faults, None, a.length + b.length, a.length + b.length)
  {
    hide Proper, Through, PieceLen, ReadOnly, Resident, Pieces;
    var r := Pair(a, b, device, size);
    PairAt(a, b, device, size);
    FirstThrough(a, b, device, size, faults);
    LinearThere(r, a.length, b.length);
    PieceThrough(r, faults, a.length);
  }
}
