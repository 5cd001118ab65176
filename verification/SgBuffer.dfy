/** `Virtio::Sg::Buffer`: the object that caches one descriptor chain, in two arrays that are as
    long as the longest chain it takes. */
module SgBuffer {
  import opened MachineWords
  import opened SgChain
  import opened SgWalk
  import opened SgWritten

  datatype Errno = None | NoEnt | NoMem | NotRecoverable | Perm | BadR | Again | RBusy | Exist

  /** `DescMetadata`: the descriptor's index in the queue, its `next` there, and the prefix
      written so far. */
  datatype Meta = Meta(idx: nat, originalNext: nat, written: nat)

  /** A head handed back, with the length reported. */
  datatype Return = Return(head: nat, len: nat)

  /** The queue as the buffer sees it: its size, which side it belongs to, the heads that wait to
      be received, and what has been sent. */
  class Queue {
    const size: nat
    const device: bool
    var waiting: seq<nat>
    var sent: seq<Return>

    constructor (size: nat, device: bool, waiting: seq<nat>)
      ensures this.size == size && this.device == device && this.waiting == waiting && sent == []
    {
      this.size, this.device, this.waiting := size, device, waiting;
      sent := [];
    }

    method Send(head: nat, len: nat)
      modifies this`sent
      ensures sent == old(sent) + [Return(head, len)]
    {
      sent := sent + [Return(head, len)];
    }

    method Recv() returns (err: Errno, head: nat)
      modifies this`waiting
      ensures err.NoEnt? <==> old(waiting) == []
      ensures err.NoEnt? ==> waiting == old(waiting)
      ensures !err.NoEnt? ==>
                && head == old(waiting)[0] && waiting == old(waiting)[1..]
                && err == if head < size then None else NotRecoverable
    {
      if waiting == [] { return NoEnt, 0; }
      head := waiting[0];
      waiting := waiting[1..];
      err := if head < size then None else NotRecoverable;
    }
  }

  /** The index a default descriptor has. */
  const NULL_META := Meta(U16_MAX, 0, 0)

  class Buffer {
    const max: nat
    const chain: array<Desc>
    const meta: array<Meta>
    var active: nat
    var size: nat
    var complete: bool
    var forDevice: bool
    var seenReadable: bool
    var seenWritable: bool
    var firstWritable: nat

    constructor (max: nat)
      requires max <= U16_MAX
      ensures Valid() && Clear() && this.max == max && fresh(chain) && fresh(meta)
    {
      this.max := max;
      chain := new Desc[max](_ => Desc(0, 0, 0, 0));
      meta := new Meta[max](_ => NULL_META);
      active, size := 0, 0;
      complete, forDevice, seenReadable, seenWritable := false, false, false, false;
      firstWritable := U16_MAX;
    }

    // ---------- abstraction and invariant ----------

    ghost predicate Sized()
      reads this
    {
      chain.Length == meta.Length == max <= U16_MAX && active <= max && (complete ==> active > 0)
    }

    /** The cached chain. */
    ghost function Contents(): seq<Desc>
      requires Sized()
      reads this, chain
    {
      chain[..active]
    }

    /** The prefixes recorded as written. */
    ghost function Written(): (w: seq<nat>)
      requires Sized()
      reads this, meta
      ensures |w| == active
    {
      seq(active, k requires 0 <= k < active reads this, meta => if k < meta.Length then meta[k].written else 0)
    }

    /** Everything but the byte count: the chain is proper, and the flags say where its writable
        part begins. */
    ghost predicate Shaped()
      reads this, chain
    {
      && Sized() && Proper(Contents())
      && (seenReadable <==> FirstWritable(Contents()) > 0)
      && (seenWritable <==> FirstWritable(Contents()) < active)
      && (seenWritable ==> firstWritable == FirstWritable(Contents()))
    }

    ghost predicate Valid()
      reads this, chain
    {
      Shaped() && size == Sum(Contents())
    }

    /** As after `reset`. */
    ghost predicate Clear()
      reads this
    {
      && active == 0 && size == 0 && !complete && !forDevice && !seenReadable && !seenWritable
      && firstWritable == U16_MAX
    }

    // ---------- reset, conclude ----------

    method Reset()
      requires Sized()
      modifies this
      ensures Valid() && Clear()
    {
      active, size := 0, 0;
      complete, forDevice, seenReadable, seenWritable := false, false, false, false;
      firstWritable := U16_MAX;
    }

    /** The length `conclude_chain_use` reports. */
    ghost function Report(): nat
      requires Sized()
      reads this, chain, meta
    {
      if seenWritable then Lower(Contents(), Written(), firstWritable) % U32 else 0
    }

    /** The loop of `written_bytes_lowerbound_heuristic`, with its 32-bit sum. */
    method WrittenLowerBound() returns (lb: nat)
      requires Sized()
      ensures lb == Report()
      ensures Shaped() ==> lb == Reported(Contents(), Written())
    {
      hide Proper;
      lb := 0;
      ghost var c, w := Contents(), Written();
      ghost var total: nat := 0;
      if seenWritable {
        var idx := firstWritable;
        while idx < active
          invariant lb == total % U32
          invariant total + Lower(c, w, idx) == Lower(c, w, firstWritable)
          decreases active - idx
        {
          var written := meta[idx].written;
          assert written == w[idx];
          AddMod(total, written);
          lb := (lb + written) % U32;
          total := total + written;
          if written != chain[idx].length { break; }
          idx := idx + 1;
        }
      }
    }

    /** Hands the head back at most once: when the chain is complete, or incomplete and the caller
        insists. What is left is a cleared buffer, so that concluding again sends nothing. */
    method Conclude(q: Queue, sendIncomplete: bool)
      requires Sized() && (sendIncomplete ==> max > 0)
      modifies this, q`sent
      ensures Valid() && Clear()
      ensures q.sent == old(q.sent) +
              if old(complete) || sendIncomplete then [Return(old(meta[0].idx), old(Report()))] else []
    {
      if complete || sendIncomplete {
        var lb := WrittenLowerBound();
        q.Send(meta[0].idx, lb);
      }
      Reset();
    }

    // ---------- walking ----------

    /** What is known of the buffer after walking these nodes, whether or not the last is refused. */
    ghost predicate Holds(nodes: seq<Node>)
      reads this, chain, meta
    {
      && Sized() && active == |nodes| && Contents() == Cache(nodes) && size == Sum(Cache(nodes))
      && forall k :: 0 <= k < active ==>
           && meta[k].idx == nodes[k].idx && meta[k].written == 0
           && (HasNext(nodes[k].raw.flags) ==> meta[k].originalNext == nodes[k].raw.next)
    }

    /** The body of the loop of `walk_chain_callback`: caches the descriptor at idx, as memory
        shows it now, and validates the chain so far. */
    method WalkOne(qsize: nat, idx: nat, raw: Raw, ghost nodes: seq<Node>) returns (err: Errno)
      requires Valid() && Holds(nodes) && active < max
      modifies this`active, this`size, this`seenReadable, this`seenWritable, this`firstWritable, chain, meta
      ensures err == (if Refused(nodes + [Node(idx, raw)], qsize) then NotRecoverable else None)
      ensures Holds(nodes + [Node(idx, raw)])
      ensures err.None? ==> Valid()
    {
      hide Proper, Refused, Sum, FirstWritable, Cache;
      WalkOneFacts(nodes, Node(idx, raw), qsize);
      var i := active;
      active := active + 1;
      var desc := Desc(raw.address, raw.length, raw.flags, active);
      chain[i] := desc;
      assert Contents() == old(Contents()) + [desc];
      size := size + raw.length;
      err := None;
      var originalNext := meta[i].originalNext;
      if HasNext(raw.flags) {
        originalNext := raw.next;
        if raw.next >= qsize { err := NotRecoverable; }
      }
      meta[i] := Meta(idx, originalNext, 0);
      if err.None? && !WriteOnly(raw.flags) {
        if seenWritable { err := NotRecoverable; } else { seenReadable := true; }
      } else if err.None? {
        if !seenWritable { firstWritable := i; }
        seenWritable := true;
      }
      if raw.length == 0 || size > U32_MAX { err := NotRecoverable; }
    }

    /** Whatever memory answers, the walk ends, and does one of two things: it hands the head back
        once, with length 0, and leaves a cleared buffer; or it caches the chain it has read, and
        hands nothing back. */
    method Walk(q: Queue, head: nat, mem: Memory) returns (err: Errno)
      requires Valid() && Clear() && 0 < q.size && head < q.size
      modifies this, chain, meta, q`sent
      ensures Valid()
      ensures max < q.size ==> err == NoMem
      ensures max >= q.size ==> err == if WalkFrom(mem, q.size, max, [], head).Accept? then None else NotRecoverable
      ensures err.None? ==>
                && Holds(WalkFrom(mem, q.size, max, [], head).nodes) && complete && forDevice == q.device
                && q.sent == old(q.sent)
      ensures !err.None? ==> Clear() && q.sent == old(q.sent) + [Return(head, 0)]
    {
      hide Proper, Refused, Sum, FirstWritable, Cache, Lower;
      if max < q.size {
        q.Send(head, 0);
        return NoMem;
      }
      EmptyCache();
      forDevice := q.device;
      var tmp, more := head, true;
      ghost var nodes: seq<Node> := [];
      while more
        invariant Valid() && Holds(nodes) && !complete && forDevice == q.device && q.sent == old(q.sent)
        invariant nodes != [] ==> nodes[0].idx == head
        invariant nodes == [] ==> tmp == head && more
        invariant more ==> WalkFrom(mem, q.size, max, nodes, tmp) == WalkFrom(mem, q.size, max, [], head)
        invariant !more ==> WalkFrom(mem, q.size, max, [], head) == Accept(nodes)
        decreases more, max - active
      {
        if active == max {
          LowerZero(Contents(), Written(), firstWritable);
          Conclude(q, true);
          return NotRecoverable;
        }
        var raw := mem(active, tmp);
        err := WalkOne(q.size, tmp, raw, nodes);
        nodes := nodes + [Node(tmp, raw)];
        if !err.None? {
          LowerZero(Contents(), Written(), firstWritable);
          Conclude(q, true);
          return err;
        }
        more := HasNext(raw.flags);
        if more { tmp := raw.next; }
      }
      complete := true;
      return None;
    }

    /** `walk_chain`: receives the next head and walks from there. */
    method WalkChain(q: Queue, mem: Memory) returns (err: Errno)
      requires Valid() && Clear() && 0 < q.size
      modifies this, chain, meta, q`waiting, q`sent
      ensures Valid()
      ensures err.NoEnt? <==> old(q.waiting) == []
      ensures err.NoEnt? ==> q.waiting == old(q.waiting) && q.sent == old(q.sent)
      ensures !err.NoEnt? ==> q.waiting == old(q.waiting)[1..]
      ensures !err.NoEnt? && old(q.waiting)[0] >= q.size ==> err.NotRecoverable? && q.sent == old(q.sent)
      ensures err.None? ==>
                old(q.waiting)[0] < q.size <= max && complete && forDevice == q.device && q.sent == old(q.sent)
      ensures !err.NoEnt? && old(q.waiting)[0] < q.size <= max ==>
                var o := WalkFrom(mem, q.size, max, [], old(q.waiting)[0]);
                (err.None? <==> o.Accept?) && (o.Accept? ==> Holds(o.nodes))
      ensures !err.None? ==> Clear()
      ensures !err.None? && !err.NoEnt? && old(q.waiting)[0] < q.size ==>
                q.sent == old(q.sent) + [Return(old(q.waiting)[0], 0)]
    {
      var head;
      err, head := q.Recv();
      if !err.None? { return; }
      err := Walk(q, head, mem);
    }

    // ---------- building ----------

    /** `add_descriptor`; the caller has left room. The descriptor table in shared memory gets
        what the cache gets. */
    method AddDescriptor(table: array<Raw>, idx: nat, address: nat, length: nat, flags: bv16,
                         next: nat) returns (err: Errno)
      requires Valid() && active < max && idx < table.Length
      modifies this`active, this`size, this`seenReadable, this`seenWritable, this`firstWritable, chain, meta, table
      ensures Valid()
      ensures var d := Desc(address, length, flags, old(active) + 1);
              && (err.None? <==> Proper(old(Contents()) + [d]))
              && (err.None? ==> Contents() == old(Contents()) + [d])
              && (err == BadR <==> length == 0 || Sum(old(Contents())) + length > U32_MAX)
              && (!err.None? && err != BadR ==> err == Perm)
      ensures err.None? ==> table[..] == old(table[..])[idx := Raw(address, length, flags, next)]
      ensures err.None? ==> meta[..] == old(meta[..])[old(active) := Meta(idx, next, old(meta[active].written))]
      ensures !err.None? ==> table[..] == old(table[..]) && meta[..] == old(meta[..]) && Contents() == old(Contents())
    {
      hide Proper, Sum, FirstWritable;
      AppendFacts(Contents(), Desc(address, length, flags, active + 1));
      if length == 0 { return BadR; }
      if size > U32_MAX || size + length > U32_MAX { return BadR; }
      var readable := !WriteOnly(flags);
      if seenWritable && readable { return Perm; }
      size := size + length;
      if readable {
        seenReadable := true;
      } else {
        if !seenWritable { firstWritable := active; }
        seenWritable := true;
      }
      var i := active;
      active := active + 1;
      chain[i] := Desc(address, length, flags, active);
      table[idx] := Raw(address, length, flags, next);
      meta[i] := Meta(idx, next, meta[i].written);
      assert Contents() == old(Contents()) + [chain[i]];
      return None;
    }

    method AddLink(table: array<Raw>, idx: nat, address: nat, length: nat, flags: bv16, next: nat) returns (err: Errno)
      requires Valid() && active < max && idx < table.Length
      modifies this`active, this`size, this`seenReadable, this`seenWritable, this`firstWritable, chain, meta, table
      ensures Valid()
      ensures var d := Desc(address, length, flags, old(active) + 1);
              && (err.None? <==> HasNext(flags) && Proper(old(Contents()) + [d]))
              && (err.None? ==> Contents() == old(Contents()) + [d])
              && (err.None? ==> table[..] == old(table[..])[idx := Raw(address, length, flags, next)])
              && (!err.None? ==> Contents() == old(Contents()) && table[..] == old(table[..]))
      ensures err.None? ==> meta[..] == old(meta[..])[old(active) := Meta(idx, next, old(meta[active].written))]
    {
      hide Proper, Sum, FirstWritable;
      if !HasNext(flags) { return Perm; }
      err := AddDescriptor(table, idx, address, length, flags, next);
    }

    method AddFinalLink(table: array<Raw>, idx: nat, address: nat, length: nat, flags: bv16) returns (err: Errno)
      requires Valid() && active < max && idx < table.Length
      modifies this`active, this`size, this`seenReadable, this`seenWritable, this`firstWritable, this`complete
      modifies chain, meta, table
      ensures Valid()
      ensures var d := Desc(address, length, flags, old(active) + 1);
              && (err.None? <==> !HasNext(flags) && Proper(old(Contents()) + [d]))
              && (err.None? ==> Contents() == old(Contents()) + [d] && complete)
              && (err.None? ==> table[..] == old(table[..])[idx := Raw(address, length, flags, 0)])
              && (!err.None? ==>
                    Contents() == old(Contents()) && complete == old(complete) && table[..] == old(table[..]))
      ensures err.None? ==> meta[..] == old(meta[..])[old(active) := Meta(idx, 0, old(meta[active].written))]
    {
      hide Proper, Sum, FirstWritable;
      if HasNext(flags) { return Perm; }
      err := AddDescriptor(table, idx, address, length, flags, 0);
      if err.None? { complete := true; }
    }

    /** `modify_link`. The byte count is taken down before the test that can fail, and not put
        back: after that failure, and only then, it no longer matches the chain. */
    method ModifyLink(table: array<Raw>, k: nat, address: nat, length: nat) returns (err: Errno)
      requires Valid() && (k < active ==> meta[k].idx < table.Length)
      modifies this`size, chain, table
      ensures Shaped() && (Valid() <==> !(err == BadR && length > 0))
      ensures var c := old(Contents());
              err == if k >= |c| then NoEnt
                     else if length == 0 || Sum(c) - c[k].length + length > U32_MAX then BadR
                     else None
      ensures err == BadR && length > 0 ==> size + old(Contents())[k].length == old(size)
      ensures err.None? ==>
                Contents() == old(Contents())[k := old(Contents())[k].(address := address, length := length)]
      ensures err.None? ==>
                var raw := old(table[meta[k].idx]);
                table[..] == old(table[..])[meta[k].idx := raw.(address := address, length := length)]
      ensures !err.None? ==> Contents() == old(Contents()) && table[..] == old(table[..])
    {
      hide FirstWritable;
      if k >= active { return NoEnt; }
      if length == 0 { return BadR; }
      ghost var c, d := Contents(), chain[k].(address := address, length := length);
      ReplaceDesc(c, k, d);
      SumBound(c, k);
      size := size - chain[k].length;
      if size > U32_MAX || size + length > U32_MAX { return BadR; }
      size := size + length;
      chain[k] := chain[k].(address := address, length := length);
      assert Contents() == c[k := d];
      table[meta[k].idx] := table[meta[k].idx].(address := address, length := length);
      return None;
    }

    // ---------- offsets ----------

    /** `find`: the descriptor that holds payload byte off, and the offset there; past the end,
        the end iterator. */
    method Find(off: nat) returns (k: nat, local: nat)
      requires Valid()
      ensures k <= active
      ensures k < active <==> off < size
      ensures off < size ==> Locates(Contents(), off, k, local)
      ensures off >= size ==> local == off
    {
      hide Proper, FirstWritable, Sum, Start;
      ghost var c := Contents();
      StartEnds(c);
      if off > size { return active, off; }
      if off == 0 {
        FirstLocates(c);
        return 0, 0;
      }
      var cur := 0;
      k := 0;
      while k < active
        invariant k <= active && cur == Start(c, k) && cur <= off
      {
        StartNext(c, k);
        if cur + chain[k].length > off {
          StartMonotone(c, k + 1, |c|);
          return k, off - cur;
        }
        cur := cur + chain[k].length;
        k := k + 1;
      }
      return active, off;
    }

    /** `first_writable_byte`. */
    method FirstWritableByte() returns (err: Errno, off: nat)
      requires Shaped()
      ensures err == if FirstWritable(Contents()) < active then None else Perm
      ensures err.None? ==> off == Start(Contents(), FirstWritable(Contents()))
    {
      hide Proper, FirstWritable, Sum, Start;
      off := 0;
      if !seenWritable { return Perm, 0; }
      StartEnds(Contents());
      var i := 0;
      while i < firstWritable
        invariant i <= firstWritable && off == Start(Contents(), i)
      {
        StartNext(Contents(), i);
        off := off + chain[i].length;
        i := i + 1;
      }
      return None, off;
    }

    // ---------- recording writes ----------

    /** `heuristically_track_written_bytes` for a write that fits in the chain. */
    method TrackWritten(off: nat, n: nat)
      requires Valid() && Fits(Contents(), off, n)
      modifies meta
      ensures Valid() && Fits(Contents(), off, n) && Written() == Record(Contents(), old(Written()), off, n)
      ensures forall k :: 0 <= k < active ==> meta[k].idx == old(meta[k].idx)
    {
      hide Proper, FirstWritable, Sum, Start, TrackFrom, Record, Locates;
      var k: nat, local: nat := Find(off);
      var rest: nat := n;
      ghost var c := Contents();
      if n > 0 { RecordStarts(c, Written(), off, n, k, local); }
      while rest != 0
        invariant Valid() && Contents() == c
        invariant InChain(c, k, local, rest)
        invariant n > 0 ==> TrackFrom(c, Written(), k, local, rest) == Record(c, old(Written()), off, n)
        invariant n == 0 ==> Written() == old(Written())
        invariant forall k :: 0 <= k < active ==> meta[k].idx == old(meta[k].idx)
        decreases rest
      {
        ghost var w := Written();
        NextInChain(c, k, local, rest);
        TrackUnfold(c, w, k, local, rest);
        var size := chain[k].length - local;
        if size > rest { size := rest; }
        meta[k] := meta[k].(written := Track(meta[k].written, local, size));
        assert Written() == w[k := Track(w[k], local, size)];
        rest := rest - size;
        k := k + 1;
        local := 0;
      }
      TrackDone(c, Written(), k, local);
      RecordNothing(c, Written(), off);
    }
  }

  lemma RecordStarts(c: seq<Desc>, w: seq<nat>, off: nat, n: nat, k: nat, local: nat)
    requires Proper(c) && |w| == |c| && n > 0 && off + n <= Sum(c) && Locates(c, off, k, local)
    ensures InChain(c, k, local, n) && TrackFrom(c, w, k, local, n) == Record(c, w, off, n)
  {
    LocateUnique(c, off, k, local, Locate(c, off).0, Locate(c, off).1);
  }

  lemma RecordNothing(c: seq<Desc>, w: seq<nat>, off: nat)
    requires Proper(c) && |w| == |c|
    ensures Record(c, w, off, 0) == w
  {
  }

  lemma TrackUnfold(c: seq<Desc>, w: seq<nat>, k: nat, off: nat, n: nat)
    requires Proper(c) && |w| == |c| && InChain(c, k, off, n) && n > 0
    ensures var m := Piece(c, k, off, n);
            && InChain(c, k + 1, 0, n - m)
            && TrackFrom(c, w, k, off, n) == TrackFrom(c, w[k := Track(w[k], off, m)], k + 1, 0, n - m)
  {
    NextInChain(c, k, off, n);
  }

  lemma TrackDone(c: seq<Desc>, w: seq<nat>, k: nat, off: nat)
    requires Proper(c) && |w| == |c|
    ensures TrackFrom(c, w, k, off, 0) == w
  {
  }

  lemma FirstLocates(c: seq<Desc>)
    requires Proper(c)
    ensures |c| > 0 ==> Locates(c, 0, 0, 0) && Sum(c) > 0
    ensures |c| == 0 ==> Sum(c) == 0
  {
    StartEnds(c);
    if |c| > 0 {
      StartNext(c, 0);
      StartMonotone(c, 1, |c|);
    }
  }

  lemma SumBound(c: seq<Desc>, k: nat)
    requires k < |c|
    ensures c[k].length <= Sum(c)
  {
    StartNext(c, k);
    StartMonotone(c, k + 1, |c|);
  }

  /** Whether a chain may be extended by d, in terms of what the flags remember. */
  lemma AppendFacts(c: seq<Desc>, d: Desc)
    requires Proper(c) && d.linearNext == |c| + 1
    ensures Sum(c + [d]) == Sum(c) + d.length
    ensures Proper(c + [d]) <==>
              d.length > 0 && Sum(c) + d.length <= U32_MAX && (WriteOnly(d.flags) || FirstWritable(c) == |c|)
    ensures Proper(c + [d]) ==> FirstWritable(c + [d]) == if WriteOnly(d.flags) then FirstWritable(c) else |c| + 1
  {
    assert (c + [d])[..|c|] == c;
    assert (c + [d])[|c|] == d;
    if d.length > 0 && Sum(c) + d.length <= U32_MAX && (WriteOnly(d.flags) || FirstWritable(c) == |c|) {
      ProperAppend(c, d);
    }
  }

  /** The tests of the loop body in terms of what the flags remember. */
  lemma WalkOneFacts(nodes: seq<Node>, n: Node, qsize: nat)
    requires Proper(Cache(nodes))
    ensures var c, d := Cache(nodes), Desc(n.raw.address, n.raw.length, n.raw.flags, |nodes| + 1);
            && Cache(nodes + [n]) == c + [d] && Sum(c + [d]) == Sum(c) + d.length
            && (Refused(nodes + [n], qsize) <==>
                  || (HasNext(n.raw.flags) && n.raw.next >= qsize)
                  || (!WriteOnly(n.raw.flags) && FirstWritable(c) < |c|)
                  || n.raw.length == 0 || Sum(c) + n.raw.length > U32_MAX)
            && (!Refused(nodes + [n], qsize) ==>
                  && Proper(c + [d])
                  && FirstWritable(c + [d]) == if WriteOnly(n.raw.flags) then FirstWritable(c) else |c| + 1)
  {
    var c, d := Cache(nodes), Desc(n.raw.address, n.raw.length, n.raw.flags, |nodes| + 1);
    CacheAppend(nodes, n);
    assert (nodes + [n])[..|nodes|] == nodes;
    assert (c + [d])[..|c|] == c;
    if !Refused(nodes + [n], qsize) { ProperAppend(c, d); }
  }

  lemma EmptyCache()
    ensures Cache([]) == [] && Sum(Cache([])) == 0
  {
  }

  lemma AddMod(a: nat, b: nat)
    ensures (a % U32 + b) % U32 == (a + b) % U32
  {
  }

  lemma {:induction false} LowerZero(c: seq<Desc>, w: seq<nat>, k: nat)
    requires |w| == |c| && forall j :: 0 <= j < |w| ==> w[j] == 0
    ensures Lower(c, w, k) == 0
    decreases |c| - k
  {
    if k < |c| { LowerZero(c, w, k + 1); }
  }

  /** `conclude_chain_use` is idempotent: the second of two calls sends nothing. */
  method ConcludeTwice(b: Buffer, q: Queue)
    requires b.Sized()
    modifies b, q
    ensures |q.sent| == |old(q.sent)| + if old(b.complete) then 1 else 0
  {
    b.Conclude(q, false);
    b.Conclude(q, false);
  }

  lemma ReportIs(b: Buffer)
    requires b.Shaped()
    ensures b.Report() == Reported(b.Contents(), b.Written())
  {
    hide Proper;
    if !b.seenWritable { assert Lower(b.Contents(), b.Written(), b.active) == 0; }
  }

  /** An accepted chain is not empty, and starts at its head. */
  lemma AcceptedSum(mem: Memory, qsize: nat, max: nat, h: nat, nodes: seq<Node>)
    requires h < qsize && WalkFrom(mem, qsize, max, [], h) == Accept(nodes)
    ensures |nodes| > 0 && nodes[0].idx == h && Sum(Cache(nodes)) > 0
  {
    WalkExact(mem, qsize, max, h, nodes);
    SumBound(Cache(nodes), 0);
  }

  /** `modify_link` out of room: a chain of two links, and the first made so long that the total
      no longer fits. The call fails, and the byte count is that of the second link alone. */
  method ModifyOutOfRoom(table: array<Raw>) returns (b: Buffer)
    requires table.Length >= 2
    modifies table
    ensures b.Shaped() && Sum(b.Contents()) == 30 && b.size == 20 && !b.Valid()
  {
    hide Proper, FirstWritable, Sum, HasNext, WriteOnly;
    TwoLinks();
    b := TwoLinkBuffer(table);
    ghost var d := b.Contents();
    var err := b.ModifyLink(table, 0, 0, U32_MAX);
    assert err == BadR && b.Contents() == d;
  }

  method TwoLinkBuffer(table: array<Raw>) returns (b: Buffer)
    requires table.Length >= 2
    modifies table
    ensures b.Valid() && b.active == 2 && fresh(b) && fresh(b.chain) && fresh(b.meta)
    ensures b.Contents() == [Desc(0, 10, 3, 1)] + [Desc(10, 20, 2, 2)] && b.meta[0].idx == 0
  {
    hide Proper, FirstWritable, Sum, HasNext, WriteOnly;
    TwoLinks();
    b := new Buffer(2);
    ghost var c := b.Contents();
    assert c == [];
    var err := b.AddLink(table, 0, 0, 10, 3, 1);
    assert b.Contents() == c + [Desc(0, 10, 3, 1)];
    err := b.AddFinalLink(table, 1, 10, 20, 2);
    assert b.Contents() == [Desc(0, 10, 3, 1)] + [Desc(10, 20, 2, 2)];
  }

  lemma EmptyProper()
    ensures Proper([]) && FirstWritable([]) == 0 && Sum([]) == 0
  {
  }

  lemma TwoLinks()
    ensures var a, b := Desc(0, 10, 3, 1), Desc(10, 20, 2, 2);
            && HasNext(3) && !HasNext(2) && Proper([] + [a]) && [] + [a] == [a] && Sum([a]) == 10
            && Proper([a] + [b]) && Sum([a] + [b]) == 30
  {
    var a, b := Desc(0, 10, 3, 1), Desc(10, 20, 2, 2);
    EmptyProper();
    ProperAppend([], a);
    assert [] + [a] == [a];
    ProperAppend([a], b);
    assert [a] + [b] == [a, b];
  }
}
