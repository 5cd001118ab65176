/** The console device (virtio_console.cpp), on a guest memory whose descriptor tables do not
    change during a call: the bytes of the transmit chains come out as one stream, in ring order,
    whatever sizes the reader asks for; and what is sent to the guest fills its receive chains in
    order. */
module Console {
  import opened MachineWords
  import opened SgChain
  import opened SgWalk
  import opened SgWritten
  import opened SgPayload
  import opened SgBuffer
  import opened SgOutcome
  import opened SgCopy

  /** The chain that starts at head h, if the device accepts it. */
  function ChainAt(table: seq<Raw>, qsize: nat, max: nat, h: nat): Outcome {
    if h < qsize then WalkFrom(Static(table), qsize, max, [], h) else Reject
  }

  function Descs(o: Outcome): seq<Desc> { if o.Accept? then Cache(o.nodes) else [] }

  /** The payload of the chain at head h; nothing for a chain that is refused. */
  ghost function PayloadAt(m: seq<Byte>, table: seq<Raw>, qsize: nat, max: nat, h: nat): seq<Byte> {
    var c := Descs(ChainAt(table, qsize, max, h));
    if Backed(|m|, c, 0, Sum(c)) then Read(m, c, 0, Sum(c)) else []
  }

  /** The bytes of the chains that wait, in ring order. */
  ghost function Pending(m: seq<Byte>, table: seq<Raw>, qsize: nat, max: nat, waiting: seq<nat>): seq<Byte> {
    if waiting == [] then []
    else PayloadAt(m, table, qsize, max, waiting[0]) + Pending(m, table, qsize, max, waiting[1..])
  }

  /** The bytes of the chains that wait, up to the first that is refused. */
  ghost function Readable(m: seq<Byte>, table: seq<Raw>, qsize: nat, max: nat, waiting: seq<nat>): seq<Byte> {
    if waiting == [] || ChainAt(table, qsize, max, waiting[0]).Reject? then []
    else PayloadAt(m, table, qsize, max, waiting[0]) + Readable(m, table, qsize, max, waiting[1..])
  }

  /** Where no chain is refused that is all of them. */
  lemma {:induction false} AllReadable(m: seq<Byte>, table: seq<Raw>, qsize: nat, max: nat, waiting: seq<nat>)
    requires forall i :: 0 <= i < |waiting| ==> ChainAt(table, qsize, max, waiting[i]).Accept?
    ensures Readable(m, table, qsize, max, waiting) == Pending(m, table, qsize, max, waiting)
  {
    if waiting != [] { AllReadable(m, table, qsize, max, waiting[1..]); }
  }

  /** What waits behind the first chain that is refused. */
  function Behind(table: seq<Raw>, qsize: nat, max: nat, waiting: seq<nat>): seq<nat> {
    if waiting == [] then []
    else if ChainAt(table, qsize, max, waiting[0]).Reject? then waiting[1..]
    else Behind(table, qsize, max, waiting[1..])
  }

  /** More heads have been handed back, each with length 0: nothing was written to their chains. */
  ghost predicate Unwritten(before: seq<Return>, after: seq<Return>) {
    before <= after && forall i :: |before| <= i < |after| ==> after[i].len == 0
  }

  function Heads(rs: seq<Return>): (hs: seq<nat>)
    ensures |hs| == |rs| && forall i :: 0 <= i < |rs| ==> hs[i] == rs[i].head
  {
    seq(|rs|, i requires 0 <= i < |rs| => rs[i].head)
  }

  class Transmit {
    const buffer: Buffer
    const queue: Queue
    var table: seq<Raw>   // the descriptor table in guest memory
    var progress: nat

    constructor (queue: Queue, entries: nat, table: seq<Raw>)
      requires entries <= U16_MAX && 0 < queue.size <= entries
      ensures Valid() && this.queue == queue && this.table == table && fresh(buffer)
      ensures buffer.size == 0
    {
      this.queue, this.table := queue, table;
      buffer := new Buffer(entries);
      progress := 0;
    }

    ghost predicate Valid()
      reads this, buffer, buffer.chain, buffer.meta
    {
      && buffer.Valid() && 0 < queue.size <= buffer.max
      && (forall k :: 0 <= k < buffer.active ==> buffer.meta[k].written == 0)
      && (if buffer.size == 0 then buffer.Clear() else buffer.complete && progress <= buffer.size)
    }

    /** All that has been transmitted and not yet read: the rest of the chain in the buffer, and
        the chains that wait. */
    ghost function Stream(m: seq<Byte>): seq<Byte>
      requires Valid()
      reads this, buffer, buffer.chain, buffer.meta, queue
    {
      Rest(m) + Pending(m, table, queue.size, buffer.max, queue.waiting)
    }

    /** How much of it a call can get at before it meets a chain that is refused. */
    ghost function Ready(m: seq<Byte>): nat
      requires Valid()
      reads this, buffer, buffer.chain, buffer.meta, queue
    {
      |Rest(m)| + |Readable(m, table, queue.size, buffer.max, queue.waiting)|
    }

    ghost function Rest(m: seq<Byte>): seq<Byte>
      requires Valid()
      reads this, buffer, buffer.chain, buffer.meta
    {
      if buffer.size > 0 && Backed(|m|, buffer.Contents(), progress, buffer.size - progress)
      then Read(m, buffer.Contents(), progress, buffer.size - progress) else []
    }

    /** What has been transmitted lies in guest memory. */
    ghost predicate Present(size: nat)
      requires Valid()
      reads this, buffer, buffer.chain, buffer.meta, queue
    {
      && Backed(size, buffer.Contents(), 0, Sum(buffer.Contents()))
      && forall i :: 0 <= i < |queue.waiting| ==> InMemory(size, table, queue.size, buffer.max, queue.waiting[i])
    }

    /** The heads handed back, the one in the buffer, and those that wait. */
    ghost function Ledger(): seq<nat>
      requires Valid()
      reads this, buffer, buffer.chain, buffer.meta, queue
    {
      Heads(queue.sent) + (if buffer.size > 0 && buffer.active > 0 then [buffer.meta[0].idx] else []) + queue.waiting
    }

    /** The walk at the top of the loop of `from_guest`. */
    method Refill(ghost m: seq<Byte>) returns (err: Errno)
      requires Valid() && buffer.size == 0 && Present(|m|)
      modifies this`progress, buffer, buffer.chain, buffer.meta, queue`waiting, queue`sent
      ensures Valid() && Present(|m|) && Stream(m) == old(Stream(m)) && progress == 0
      ensures err.None? <==> buffer.size > 0
      ensures err.NoEnt? <==> old(queue.waiting) == []
      ensures err.NoEnt? ==> queue.waiting == []
      ensures !err.NoEnt? ==> queue.waiting == old(queue.waiting)[1..]
      ensures !err.None? && !err.NoEnt? ==> ChainAt(table, queue.size, buffer.max, old(queue.waiting)[0]).Reject?
      ensures (old(queue.waiting) != [] ==> old(queue.waiting)[0] < queue.size) ==> Ledger() == old(Ledger())
      ensures Unwritten(old(queue.sent), queue.sent)
      ensures err.None? ==> ChainAt(table, queue.size, buffer.max, old(queue.waiting)[0]).Accept?
      ensures if err.None? then Ready(m) == old(Ready(m)) else old(Ready(m)) == 0
    {
      hide Proper, FirstWritable, Sum, Start, Addr, Backed, Read, WalkFrom, Cache;
      progress := 0;
      err := buffer.WalkChain(queue, Static(table));
      if err.None? {
        var o := ChainAt(table, queue.size, buffer.max, old(queue.waiting)[0]);
        AcceptedSum(Static(table), queue.size, buffer.max, old(queue.waiting)[0], o.nodes);
        assert buffer.Contents() == Descs(o);
        assert Present(|m|);
      }
      if !err.NoEnt? {
        assert old(queue.waiting) == [old(queue.waiting)[0]] + queue.waiting;
        ghost var h := old(queue.waiting)[0];
        assert Heads(old(queue.sent) + [Return(h, 0)]) == Heads(old(queue.sent)) + [h];
      }
    }

    /** Concludes the chain in the buffer. */
    method HandBack(ghost size: nat)
      requires Valid() && buffer.size > 0 && Present(size)
      modifies buffer, queue`sent
      ensures Valid() && Present(size) && buffer.size == 0 && queue.waiting == old(queue.waiting)
      ensures Ledger() == old(Ledger()) && queue.sent == old(queue.sent) + [Return(old(buffer.meta[0].idx), 0)]
    {
      hide Proper, FirstWritable, Sum, Start, Addr, Backed, WalkFrom, Cache;
      LowerZero(buffer.Contents(), buffer.Written(), buffer.firstWritable);
      EmptyContents(buffer);
      ConcludeLedger(queue.sent, buffer.meta[0].idx, queue.waiting);
      buffer.Conclude(queue, false);
      EmptyChain(size);
    }

    /** Copies what is wanted of the chain in the buffer. */
    method Fetch(mem: array<Byte>, out: array<Byte>, at: nat, want: nat, faults: Faults) returns (err: Errno, n: nat)
      requires buffer.Valid() && progress <= buffer.size && mem != out && at + want <= out.Length
      requires Backed(mem.Length, buffer.Contents(), 0, Sum(buffer.Contents()))
      modifies out
      ensures n <= want && out[..at] == old(out[..at]) && progress + n <= buffer.size
      ensures Backed(mem.Length, buffer.Contents(), progress, n)
      ensures err.None? ==> n == Min(want, buffer.size - progress)
      ensures err.None? ==> out[at..at + n] == Read(mem[..], buffer.Contents(), progress, n)
      ensures !err.None? ==> n == 0 && !forall i :: faults(i).Fine?
    {
      hide Proper, FirstWritable, Sum, Start, Addr, Backed, Read, Blit;
      n := Min(want, buffer.size - progress);
      err := None;
      ghost var m, c, d0 := mem[..], buffer.Contents(), out[..];
      RestBacked(mem.Length, c, progress, buffer.size - progress);
      BackedPart(mem.Length, c, progress, buffer.size - progress, n);
      if n > 0 {
        var copied;
        ghost var moved;
        err, copied, moved := TryToLinear(buffer, mem, out, at, n, progress, Attempt(false, 0, faults));
        BlitKeeps(d0, at, Read(m, c, progress, moved));
      } else {
        NoBytes(m, c, progress);
      }
      if !err.None? {
        n := 0;
        NoBytes(m, c, progress);
      }
    }

    /** The rest of the loop body: copies what is wanted of the chain in the buffer, or hands the
        chain back when nothing of it is left or the copy fails. */
    method Deliver(mem: array<Byte>, out: array<Byte>, at: nat, want: nat, faults: Faults) returns (err: Errno, n: nat)
      requires Valid() && buffer.size > 0 && Present(mem.Length) && mem != out && want > 0 && at + want <= out.Length
      modifies this`progress, buffer, queue`sent, out
      ensures Valid() && Present(mem.Length) && queue.waiting == old(queue.waiting) && Ledger() == old(Ledger())
      ensures n <= want && out[..at] == old(out[..at])
      ensures err.None? ==> old(Stream(mem[..])) == out[at..at + n] + Stream(mem[..])
      ensures !err.None? ==> n == 0 && !forall i :: faults(i).Fine?
      ensures !err.None? ==> old(Stream(mem[..])) == old(Rest(mem[..])) + Stream(mem[..])
      ensures if n == 0 then buffer.size == 0 else buffer.size > 0 && progress > 0
      ensures Unwritten(old(queue.sent), queue.sent) && (err.None? ==> old(Ready(mem[..])) == n + Ready(mem[..]))
    {
      hide Proper, FirstWritable, Sum, Start, Addr, Backed, Read, WalkFrom, Cache, Pending, Heads, InMemory, Readable;
      ghost var m := mem[..];
      err, n := Fetch(mem, out, at, want, faults);
      if n == 0 {
        if err.None? { NoBytes(m, buffer.Contents(), progress); }
        HandBack(mem.Length);
      } else {
        RestAfter(m, n);
        progress := progress + n;
      }
    }

    /** What is left once n more bytes are out. */
    lemma RestAfter(m: seq<Byte>, n: nat)
      requires Valid() && Present(|m|) && 0 < n <= buffer.size - progress
      ensures Backed(|m|, buffer.Contents(), progress, n)
      ensures Backed(|m|, buffer.Contents(), progress + n, buffer.size - progress - n)
      ensures Rest(m) == Read(m, buffer.Contents(), progress, n) +
                         Read(m, buffer.Contents(), progress + n, buffer.size - progress - n)
    {
      hide Proper, FirstWritable, Sum, Start, Addr, Backed, Read, WalkFrom, Cache, InMemory;
      var c := buffer.Contents();
      RestBacked(|m|, c, progress, buffer.size - progress);
      BackedPart(|m|, c, progress, buffer.size - progress, n);
      RestSplit(m, c, progress, n, buffer.size - progress - n);
    }

    /** One turn of the loop of `from_guest`; NOENT when there is nothing left. */
    method NextPiece(mem: array<Byte>, out: array<Byte>, at: nat, want: nat, faults: Faults)
      returns (err: Errno, n: nat, stop: bool, ghost lost: seq<Byte>)
      requires Valid() && Present(mem.Length) && mem != out && want > 0 && at + want <= out.Length
      modifies this`progress, buffer, buffer.chain, buffer.meta, queue`waiting, queue`sent, out
      ensures Valid() && Present(mem.Length) && n <= want && out[..at] == old(out[..at])
      ensures queue.waiting == old(queue.waiting) ||
              (old(queue.waiting) != [] && old(buffer.size) == 0 && queue.waiting == old(queue.waiting)[1..])
      ensures old(Stream(mem[..])) == out[at..at + n] + lost + Stream(mem[..]) && (err.None? ==> lost == [])
      ensures !err.None? ==> stop && n == 0 && !forall i :: faults(i).Fine?
      ensures err.None? && stop ==> n == 0 && old(Ready(mem[..])) == 0
      ensures err.None? && !stop ==> old(Ready(mem[..])) == n + Ready(mem[..])
      ensures stop ==> buffer.size == 0
      ensures var next := Behind(table, queue.size, buffer.max, old(queue.waiting));
              if stop && err.None? then queue.waiting == next
              else Behind(table, queue.size, buffer.max, queue.waiting) == next
      ensures !stop && n > 0 ==> buffer.size > 0 && progress > 0
      ensures !stop && n == 0 ==> buffer.size == 0 && (old(buffer.size) > 0 || |queue.waiting| < |old(queue.waiting)|)
      ensures (old(queue.waiting) != [] ==> old(queue.waiting)[0] < queue.size) ==> Ledger() == old(Ledger())
      ensures Unwritten(old(queue.sent), queue.sent)
    {
      hide Valid, Stream, Ledger, Present, ChainAt, Rest, Ready;
      BehindNext(table, queue.size, buffer.max, queue.waiting);
      ghost var m := mem[..];
      lost := [];
      if buffer.size == 0 {
        err := Refill(m);
        if !err.None? { return None, 0, true, []; }
      }
      ghost var rest := Rest(m);
      err, n := Deliver(mem, out, at, want, faults);
      stop := !err.None?;
      if stop { lost := rest; }
    }

    function Next(waiting: seq<nat>): seq<nat>
      reads this
    {
      Behind(table, queue.size, buffer.max, waiting)
    }

    /** Where a call has got to: front is out, and nothing is lost. all, ready, waiting, sent and
        ledger are from the call's beginning. */
    ghost predicate Along(m: seq<Byte>, all: seq<Byte>, ready: nat, waiting: seq<nat>, sent: seq<Return>,
                          ledger: seq<nat>, front: seq<Byte>, taken: nat)
      reads this, buffer, buffer.chain, buffer.meta, queue
    {
      && Next(queue.waiting) == Next(waiting)
      && Valid() && Present(|m|) && all == front + Stream(m) && ready == |front| + Ready(m)
      && taken <= |waiting| && queue.waiting == waiting[taken..] && Unwritten(sent, queue.sent)
      && (InRange(queue.size, waiting) ==> Ledger() == ledger)
    }

    /** One turn, as part of a call. */
    method OneTurn(mem: array<Byte>, out: array<Byte>, at: nat, want: nat, faults: Faults, ghost all: seq<Byte>,
                   ghost ready: nat, ghost waiting: seq<nat>, ghost sent: seq<Return>, ghost ledger: seq<nat>,
                   ghost taken: nat)
      returns (err: Errno, n: nat, stop: bool, ghost lost: seq<Byte>, ghost now: nat)
      requires mem != out && want > 0 && at + want <= out.Length
      requires Along(mem[..], all, ready, waiting, sent, ledger, out[..at], taken)
      modifies this`progress, buffer, buffer.chain, buffer.meta, queue`waiting, queue`sent, out
      ensures n <= want && mem[..] == old(mem[..]) && Valid() && Present(mem.Length)
      ensures |queue.waiting| <= |old(queue.waiting)|
      ensures !stop ==> lost == [] && Along(mem[..], all, ready, waiting, sent, ledger, out[..at + n], now)
      ensures !stop && n > 0 ==> buffer.size > 0 && progress > 0
      ensures !stop && n == 0 ==> buffer.size == 0 && (old(buffer.size) > 0 || |queue.waiting| < |old(queue.waiting)|)
      ensures stop ==> n == 0 && buffer.size == 0 && all == out[..at] + lost + Stream(mem[..])
      ensures stop ==> Unwritten(sent, queue.sent) && (InRange(queue.size, waiting) ==> Ledger() == ledger)
      ensures stop ==> if err.None? then lost == [] && ready == at else !forall i :: faults(i).Fine?
      ensures stop && err.None? ==> queue.waiting == Next(waiting)
    {
      hide Valid, Stream, Ledger, Present, InRange, ChainAt, Ready, Unwritten, Behind;
      ghost var m, sent1, before, front := mem[..], queue.sent, Stream(mem[..]), out[..at];
      Waiting(queue.size, waiting, taken);
      err, n, stop, lost := NextPiece(mem, out, at, want, faults);
      UnwrittenMore(sent, sent1, queue.sent);
      now := if queue.waiting == waiting[taken..] then taken else taken + 1;
      FrontGrows(front, before, out[..], at, n, lost, Stream(m));
    }

    /** `from_guest`. What it returns is the front of the stream, as much as was asked for and can be
        got at; where the chain just read ends it stays in the buffer, and only the next turn hands it
        back. A copy that fails loses what is left of its chain. */
    method FromGuest(mem: array<Byte>, out: array<Byte>, size: nat, faults: nat -> Faults)
      returns (wasRead: nat, ghost lost: seq<Byte>)
      requires Valid() && Present(mem.Length) && mem != out && size <= out.Length
      modifies this`progress, buffer, buffer.chain, buffer.meta, queue`waiting, queue`sent, out
      ensures Valid() && Present(mem.Length) && wasRead <= size
      ensures old(Stream(mem[..])) == out[..wasRead] + lost + Stream(mem[..])
      ensures Flawless(faults) ==> lost == [] && wasRead == Min(size, old(Ready(mem[..])))
      ensures wasRead == size > 0 ==> buffer.size > 0 && progress > 0
      ensures wasRead < size ==> buffer.size == 0 && (Flawless(faults) ==> queue.waiting == Next(old(queue.waiting)))
      ensures size == 0 ==> queue.waiting == old(queue.waiting) && queue.sent == old(queue.sent)
      ensures InRange(queue.size, old(queue.waiting)) ==> Ledger() == old(Ledger())
      ensures Unwritten(old(queue.sent), queue.sent)
    {
      hide Valid, Stream, Ledger, Present, Flawless, InRange, Ready, Unwritten, Along, Behind;
      wasRead, lost := 0, [];
      var left, k: nat := size, 0;
      ghost var taken: nat := 0;
      ghost var m, all, ready, ledger := mem[..], Stream(mem[..]), Ready(mem[..]), Ledger();
      ghost var waiting, sent := queue.waiting, queue.sent;
      Starts(m, out[..]);
      while left != 0
        invariant mem[..] == m && wasRead + left == size && lost == []
        invariant Along(m, all, ready, waiting, sent, ledger, out[..wasRead], taken)
        invariant size > 0 && left == 0 ==> buffer.size > 0 && progress > 0
        invariant size == 0 ==> queue.waiting == waiting && queue.sent == sent
        decreases left, 2 * |queue.waiting| + if buffer.size > 0 then 1 else 0
      {
        var err, n, stop;
        err, n, stop, lost, taken := OneTurn(mem, out, wasRead, left, faults(k), all, ready, waiting, sent, ledger,
                                             taken);
        if stop {
          if !err.None? { Flaw(faults, k); }
          return;
        }
        left := left - n;
        wasRead := wasRead + n;
        k := k + 1;
      }
      Arrived(m, all, ready, waiting, sent, ledger, out[..wasRead], taken);
    }

    lemma Starts(m: seq<Byte>, out: seq<Byte>)
      requires Valid() && Present(|m|)
      ensures Along(m, Stream(m), Ready(m), queue.waiting, queue.sent, Ledger(), out[..0], 0)
    {
      hide Valid, Stream, Ledger, Present, Ready;
      NoneSent(queue.sent);
    }

    lemma Arrived(m: seq<Byte>, all: seq<Byte>, ready: nat, waiting: seq<nat>, sent: seq<Return>, ledger: seq<nat>,
                  front: seq<Byte>, taken: nat)
      requires Along(m, all, ready, waiting, sent, ledger, front, taken)
      ensures Valid() && Present(|m|) && all == front + [] + Stream(m) && |front| <= ready
      ensures Unwritten(sent, queue.sent)
      ensures InRange(queue.size, waiting) ==> Ledger() == ledger
    {
      hide Valid, Stream, Ledger, Present, Ready;
    }
  }

  lemma BehindNext(table: seq<Raw>, qsize: nat, max: nat, hs: seq<nat>)
    ensures hs == [] ==> Behind(table, qsize, max, hs) == []
    ensures hs != [] && ChainAt(table, qsize, max, hs[0]).Reject? ==> Behind(table, qsize, max, hs) == hs[1..]
    ensures hs != [] && ChainAt(table, qsize, max, hs[0]).Accept? ==>
              Behind(table, qsize, max, hs) == Behind(table, qsize, max, hs[1..])
  {
  }

  lemma FrontGrows(front: seq<Byte>, before: seq<Byte>, out: seq<Byte>, at: nat, n: nat, lost: seq<Byte>,
                   after: seq<Byte>)
    requires at + n <= |out| && front == out[..at] && before == out[at..at + n] + lost + after
    ensures front + before == out[..at + n] + lost + after
  {
  }

  lemma NoneSent(rs: seq<Return>)
    ensures Unwritten(rs, rs)
  {
  }

  lemma UnwrittenMore(a: seq<Return>, b: seq<Return>, c: seq<Return>)
    requires Unwritten(a, b) && Unwritten(b, c)
    ensures Unwritten(a, c)
  {
  }

  lemma EmptyContents(b: Buffer)
    requires b.Valid() && b.size > 0
    ensures b.active > 0
  {
    StartEnds(b.Contents());
  }

  ghost predicate Flawless(faults: nat -> Faults) { forall k, i :: faults(k)(i).Fine? }

  ghost predicate InRange(qsize: nat, hs: seq<nat>) { forall i :: 0 <= i < |hs| ==> hs[i] < qsize }

  lemma Waiting(qsize: nat, hs: seq<nat>, k: nat)
    requires k <= |hs|
    ensures InRange(qsize, hs) && hs[k..] != [] ==> hs[k..][0] < qsize
    ensures hs[k..] != [] ==> hs[k..][1..] == hs[k + 1..]
  {
  }

  lemma Flaw(faults: nat -> Faults, k: nat)
    requires !forall i :: faults(k)(i).Fine?
    ensures !Flawless(faults)
  {
  }

  lemma RestBacked(size: nat, c: seq<Desc>, from: nat, n: nat)
    requires Backed(size, c, 0, Sum(c)) && from + n == Sum(c)
    ensures Backed(size, c, from, n)
  {
  }

  lemma BackedPart(size: nat, c: seq<Desc>, from: nat, n: nat, k: nat)
    requires Backed(size, c, from, n) && k <= n
    ensures Backed(size, c, from, k) && Backed(size, c, from + k, n - k)
  {
  }

  lemma NoBytes(m: seq<Byte>, c: seq<Desc>, from: nat)
    requires from <= Sum(c)
    ensures Backed(|m|, c, from, 0) && Read(m, c, from, 0) == []
  {
  }

  lemma EmptyChain(size: nat)
    ensures Sum([]) == 0 && Backed(size, [], 0, 0)
  {
  }

  lemma RestSplit(m: seq<Byte>, c: seq<Desc>, from: nat, a: nat, b: nat)
    requires Backed(|m|, c, from, a) && Backed(|m|, c, from + a, b)
    ensures Backed(|m|, c, from, a + b) && Read(m, c, from, a + b) == Read(m, c, from, a) + Read(m, c, from + a, b)
  {
    ReadAppend(m, c, from, a, b);
  }

  lemma BlitKeeps(d: seq<Byte>, at: nat, bytes: seq<Byte>)
    requires at + |bytes| <= |d|
    ensures Blit(d, at, bytes)[..at] == d[..at] && Blit(d, at, bytes)[at..at + |bytes|] == bytes
  {
  }

  lemma ConcludeLedger(sent: seq<Return>, h: nat, waiting: seq<nat>)
    ensures forall len: nat :: Heads(sent + [Return(h, len)]) == Heads(sent) + [h]
  {
  }

  ghost predicate InMemory(size: nat, table: seq<Raw>, qsize: nat, max: nat, h: nat) {
    var c := Descs(ChainAt(table, qsize, max, h));
    Backed(size, c, 0, Sum(c))
  }

  // ---------- any number of calls, and the guest in between ----------

  /** What the guest can see between calls, and where the device is. */
  datatype View = View(table: seq<Raw>, memory: seq<Byte>, waiting: seq<nat>, chain: seq<Desc>, progress: nat)

  /** What the guest does next: a new descriptor table, new memory contents, and more heads on the
      transmit ring; and how much the reader then asks for. */
  datatype Turn = Turn(table: seq<Raw>, memory: seq<Byte>, heads: seq<nat>, size: nat)

  ghost function RestOf(m: seq<Byte>, chain: seq<Desc>, progress: nat): seq<Byte> {
    if progress < Sum(chain) && Backed(|m|, chain, progress, Sum(chain) - progress)
    then Read(m, chain, progress, Sum(chain) - progress) else []
  }

  /** The guest leaves alone what it has handed over and the device has not read: the rest of the
      chain the device is in, and the chains that wait. What it adds lies in memory. */
  ghost predicate Obeys(qsize: nat, max: nat, v: View, t: Turn) {
    && |t.memory| == |v.memory|
    && RestOf(t.memory, v.chain, v.progress) == RestOf(v.memory, v.chain, v.progress)
    && (forall i :: 0 <= i < |v.waiting| ==> KeptAt(qsize, max, v, t, v.waiting[i]))
    && forall i :: 0 <= i < |t.heads| ==> InMemory(|t.memory|, t.table, qsize, max, t.heads[i])
  }

  ghost predicate KeptAt(qsize: nat, max: nat, v: View, t: Turn, h: nat) {
    && PayloadAt(t.memory, t.table, qsize, max, h) == PayloadAt(v.memory, v.table, qsize, max, h)
    && (InMemory(|v.memory|, v.table, qsize, max, h) ==> InMemory(|t.memory|, t.table, qsize, max, h))
  }

  lemma {:induction false} PendingKept(qsize: nat, max: nat, v: View, t: Turn, hs: seq<nat>)
    requires forall i :: 0 <= i < |hs| ==> KeptAt(qsize, max, v, t, hs[i])
    ensures Pending(t.memory, t.table, qsize, max, hs) == Pending(v.memory, v.table, qsize, max, hs)
  {
    if hs != [] {
      assert KeptAt(qsize, max, v, t, hs[0]);
      PendingKept(qsize, max, v, t, hs[1..]);
    }
  }

  lemma {:induction false} PendingAppend(m: seq<Byte>, table: seq<Raw>, qsize: nat, max: nat, a: seq<nat>, b: seq<nat>)
    ensures Pending(m, table, qsize, max, a + b) == Pending(m, table, qsize, max, a) + Pending(m, table, qsize, max, b)
  {
    hide PayloadAt;
    if a == [] {
      assert a + b == b;
    } else {
      assert (a + b)[0] == a[0] && (a + b)[1..] == a[1..] + b;
      PendingAppend(m, table, qsize, max, a[1..], b);
      Associate(PayloadAt(m, table, qsize, max, a[0]), Pending(m, table, qsize, max, a[1..]),
                Pending(m, table, qsize, max, b));
    }
  }

  lemma Associate(x: seq<Byte>, y: seq<Byte>, z: seq<Byte>)
    ensures x + (y + z) == (x + y) + z
  {
  }

  /** The guest's turn adds the payload of the new chains to the stream, and nothing else. */
  lemma TurnAdds(qsize: nat, max: nat, v: View, t: Turn)
    requires Obeys(qsize, max, v, t)
    ensures RestOf(t.memory, v.chain, v.progress) + Pending(t.memory, t.table, qsize, max, v.waiting + t.heads) ==
            RestOf(v.memory, v.chain, v.progress) + Pending(v.memory, v.table, qsize, max, v.waiting) +
            Pending(t.memory, t.table, qsize, max, t.heads)
  {
    hide InMemory, PayloadAt;
    PendingKept(qsize, max, v, t, v.waiting);
    PendingAppend(t.memory, t.table, qsize, max, v.waiting, t.heads);
  }

  /** What the turns add to the stream. */
  ghost function Added(qsize: nat, max: nat, turns: seq<Turn>): seq<Byte> {
    if turns == [] then []
    else
      var t := turns[|turns| - 1];
      Added(qsize, max, turns[..|turns| - 1]) + Pending(t.memory, t.table, qsize, max, t.heads)
  }

  lemma OneMoreOut(qsize: nat, max: nat, outs: seq<seq<Byte>>, out: seq<Byte>, turns: seq<Turn>, t: Turn,
                   start: seq<Byte>, before: seq<Byte>, after: seq<Byte>)
    requires Joined(outs) + before == start + Added(qsize, max, turns)
    requires before + Pending(t.memory, t.table, qsize, max, t.heads) == out + after
    ensures Joined(outs + [out]) + after == start + Added(qsize, max, turns + [t])
  {
    hide Pending;
    var added, more := Added(qsize, max, turns), Pending(t.memory, t.table, qsize, max, t.heads);
    JoinedNext(outs, out);
    assert (turns + [t])[..|turns|] == turns;
    assert Joined(outs + [out]) + after == Joined(outs) + (out + after);
    Associate(Joined(outs), before, more);
    Associate(start, added, more);
  }

  lemma StreamIs(t: Transmit, m: seq<Byte>)
    requires t.Valid()
    ensures t.Stream(m) == RestOf(m, t.buffer.Contents(), t.progress) +
                           Pending(m, t.table, t.queue.size, t.buffer.max, t.queue.waiting)
  {
    hide Proper;
    StartEnds(t.buffer.Contents());
  }

  lemma ReadyIs(t: Transmit, m: seq<Byte>)
    requires t.Valid()
    ensures t.Ready(m) == |RestOf(m, t.buffer.Contents(), t.progress)| +
                          |Readable(m, t.table, t.queue.size, t.buffer.max, t.queue.waiting)|
  {
    hide Proper;
    StartEnds(t.buffer.Contents());
  }

  /** The guest takes its turn: it may write anything in its memory, and adds to the ring. */
  method GuestTurn(t: Transmit, mem: array<Byte>, turn: Turn)
    requires t.Valid() && t.Present(mem.Length)
    requires Obeys(t.queue.size, t.buffer.max,
                   View(t.table, mem[..], t.queue.waiting, t.buffer.Contents(), t.progress), turn)
    modifies t`table, t.queue`waiting, mem
    ensures t.Valid() && t.Present(mem.Length) && t.table == turn.table
    ensures mem[..] == turn.memory && t.queue.waiting == old(t.queue.waiting) + turn.heads
    ensures t.Stream(mem[..]) == old(t.Stream(mem[..])) +
            Pending(turn.memory, turn.table, t.queue.size, t.buffer.max, turn.heads)
  {
    hide Proper, Pending, RestOf, InMemory, Backed, Sum, FirstWritable, PayloadAt;
    ghost var v := View(t.table, mem[..], t.queue.waiting, t.buffer.Contents(), t.progress);
    StreamIs(t, mem[..]);
    TurnAdds(t.queue.size, t.buffer.max, v, turn);
    forall i | 0 <= i < mem.Length { mem[i] := turn.memory[i]; }
    assert mem[..] == turn.memory;
    t.table := turn.table;
    t.queue.waiting := t.queue.waiting + turn.heads;
    assert forall i :: 0 <= i < |v.waiting| ==> KeptAt(t.queue.size, t.buffer.max, v, turn, v.waiting[i]);
    StreamIs(t, mem[..]);
  }

  /** The stream when a call begins: what was left, and what the guest has added since. */
  ghost function StreamAt(qsize: nat, max: nat, v: View, t: Turn): seq<Byte> {
    RestOf(v.memory, v.chain, v.progress) + Pending(v.memory, v.table, qsize, max, v.waiting) +
    Pending(t.memory, t.table, qsize, max, t.heads)
  }

  /** How much of it a call can get at. */
  ghost function ReadyAt(qsize: nat, max: nat, v: View, t: Turn): nat {
    |RestOf(t.memory, v.chain, v.progress)| + |Readable(t.memory, t.table, qsize, max, v.waiting + t.heads)|
  }

  /** What a call returns: the front of the stream, as much as was asked for and can be got at. */
  ghost predicate Reads(qsize: nat, max: nat, v: View, t: Turn, out: seq<Byte>) {
    out <= StreamAt(qsize, max, v, t) && |out| == Min(t.size, ReadyAt(qsize, max, v, t))
  }

  /** The guest's turn and the call that follows it. */
  method OneCall(t: Transmit, mem: array<Byte>, out: array<Byte>, k: nat, guest: (nat, View) -> Turn,
                 faults: nat -> Faults)
    returns (n: nat, ghost v: View)
    requires t.Valid() && t.Present(mem.Length) && mem != out && Flawless(faults)
    requires Rule(t.queue.size, t.buffer.max, guest, out.Length)
    modifies t`table, t`progress, t.buffer, t.buffer.chain, t.buffer.meta, t.queue`waiting, t.queue`sent, mem, out
    ensures t.Valid() && t.Present(mem.Length) && n <= out.Length
    ensures v == old(ViewOf(t, mem))
    ensures Reads(t.queue.size, t.buffer.max, v, guest(k, v), out[..n])
    ensures StreamAt(t.queue.size, t.buffer.max, v, guest(k, v)) == out[..n] + t.Stream(mem[..])
    ensures old(t.Stream(mem[..])) +
            Pending(guest(k, v).memory, guest(k, v).table, t.queue.size, t.buffer.max, guest(k, v).heads) ==
            StreamAt(t.queue.size, t.buffer.max, v, guest(k, v))
  {
    hide Obeys, Flawless, Pending, Readable, Behind, InRange, Proper, RestOf, Unwritten, Transmit.Stream,
      Transmit.Present, Transmit.Ledger, Transmit.Ready, Transmit.Next;
    var view := View(t.table, mem[..], t.queue.waiting, t.buffer.chain[..t.buffer.active], t.progress);
    v := view;
    StreamIs(t, mem[..]);
    var turn := guest(k, view);
    GuestTurn(t, mem, turn);
    ReadyIs(t, mem[..]);
    ghost var lost;
    n, lost := t.FromGuest(mem, out, turn.size, faults);
  }

  ghost function ViewOf(t: Transmit, mem: array<Byte>): View
    requires t.Valid()
    reads t, t.buffer, t.buffer.chain, t.buffer.meta, t.queue, mem
  {
    View(t.table, mem[..], t.queue.waiting, t.buffer.Contents(), t.progress)
  }

  /** The guest keeps to the rule in every situation, and no reader asks for more than fits. */
  ghost predicate Rule(qsize: nat, max: nat, guest: (nat, View) -> Turn, most: nat) {
    forall k, v :: Obeys(qsize, max, v, guest(k, v)) && guest(k, v).size <= most
  }

  ghost function Turns(guest: (nat, View) -> Turn, views: seq<View>): (r: seq<Turn>)
    ensures |r| == |views|
  {
    seq(|views|, i requires 0 <= i < |views| => guest(i, views[i]))
  }

  /** Any number of calls, with any sizes, between which the guest does as it likes within the
      rule; views[k] is what the guest saw before call k. Each call reads from the front of the
      stream as it then is, and everything read, one call after the other, followed by what is left
      in the end, is what there was followed by all that has been added. */
  method Session(t: Transmit, mem: array<Byte>, out: array<Byte>, calls: nat, guest: (nat, View) -> Turn,
                 faults: nat -> nat -> Faults)
    returns (outs: seq<seq<Byte>>, ghost views: seq<View>)
    requires t.Valid() && t.Present(mem.Length) && mem != out && forall k :: Flawless(faults(k))
    requires Rule(t.queue.size, t.buffer.max, guest, out.Length)
    modifies t`table, t`progress, t.buffer, t.buffer.chain, t.buffer.meta, t.queue`waiting, t.queue`sent, mem, out
    ensures t.Valid() && |outs| == |views| == calls && (calls > 0 ==> views[0] == old(ViewOf(t, mem)))
    ensures forall k :: 0 <= k < calls ==> Reads(t.queue.size, t.buffer.max, views[k], guest(k, views[k]), outs[k])
    ensures Joined(outs) + t.Stream(mem[..]) ==
            old(t.Stream(mem[..])) + Added(t.queue.size, t.buffer.max, Turns(guest, views))
  {
    hide Rule, Flawless, Reads, Pending, StreamAt, ViewOf, Transmit.Valid, Transmit.Stream, Transmit.Present;
    outs, views := [], [];
    ghost var start := t.Stream(mem[..]);
    assert Joined(outs) + start == start + Added(t.queue.size, t.buffer.max, Turns(guest, views));
    var k: nat := 0;
    while k < calls
      invariant k == |outs| == |views| <= calls && t.Valid() && t.Present(mem.Length)
      invariant if k > 0 then views[0] == old(ViewOf(t, mem)) else ViewOf(t, mem) == old(ViewOf(t, mem))
      invariant forall i :: 0 <= i < k ==> Reads(t.queue.size, t.buffer.max, views[i], guest(i, views[i]), outs[i])
      invariant Joined(outs) + t.Stream(mem[..]) ==
                start + Added(t.queue.size, t.buffer.max, Turns(guest, views))
    {
      ghost var before := t.Stream(mem[..]);
      var n;
      ghost var v;
      n, v := OneCall(t, mem, out, k, guest, faults(k));
      OneMoreOut(t.queue.size, t.buffer.max, outs, out[..n], Turns(guest, views), guest(k, v), start, before,
                 t.Stream(mem[..]));
      assert Turns(guest, views + [v]) == Turns(guest, views) + [guest(k, v)];
      outs, views, k := outs + [out[..n]], views + [v], k + 1;
    }
  }
}
