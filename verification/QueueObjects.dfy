/** The queue objects of virtqueue.cpp: each method is the sequence of steps that the model of the
    virtqueue interleaves, on the same words. */
module QueueObjects {
  import opened MachineWords
  import opened SplitRing
  import opened Virtqueue

  datatype Received = Got(head: nat) | NoEntry | NotRecoverable

  /** A ring in shared memory, with its index and the event field behind the ring. */
  class Ring<T> {
    const slots: array<T>
    var index: nat
    var event: nat

    constructor (slots: array<T>)
      ensures this.slots == slots && index == 0 && event == 0
    {
      this.slots := slots;
      index := 0;
      event := 0;
    }
  }

  class DeviceQueue {
    const available: Ring<nat>
    const used: Ring<Used>
    const size: nat
    var idx: nat
    var prev: nat
    var driven: nat

    constructor (available: Ring<nat>, used: Ring<Used>, size: bv16)
      requires IsSizeValid(size) && available.slots.Length == used.slots.Length == size as nat
      requires available.index < U16 && used.index < U16 && available.event < U16 && used.event < U16
      ensures Valid() && this.available == available && this.used == used && this.size == size as nat
      ensures idx == prev == driven == 0
    {
      ValidDivides(size);
      this.available := available;
      this.used := used;
      this.size := size as nat;
      idx, prev, driven := 0, 0, 0;
    }

    ghost predicate Valid()
      reads this, available, used
    {
      && Divides(size) && available.slots.Length == used.slots.Length == size
      && idx < U16 && prev < U16 && driven < U16
      && available.index < U16 && used.index < U16 && available.event < U16 && used.event < U16
    }

    /** The channel this party receives from; the cursors of the other party do not show. */
    ghost function Incoming(): Chan<nat>
      reads this, available, available.slots
    {
      Chan(available.slots[..], available.index, 0, 0, idx)
    }

    /** The channel this party sends on. */
    ghost function Outgoing(): Chan<Used>
      reads this, used, used.slots
    {
      Chan(used.slots[..], used.index, prev, driven, 0)
    }

    method Send(head: nat, len: nat)
      requires Valid()
      modifies this`prev, this`driven, used`index, used.slots
      ensures Valid() && Words(old(Outgoing()))
      ensures Outgoing() == Publish(WriteSlot(old(Outgoing()), Used(head, len)))
      ensures Incoming() == old(Incoming())
      ensures prev == old(driven) && driven == used.index == (if old(driven) == U16_MAX then 0 else old(driven) + 1)
      ensures used.slots[..] == old(used.slots[..])[old(driven) % size := Used(head, len)]
    {
      prev := driven;
      driven := (driven + 1) % U16;
      used.slots[prev % size] := Used(head, len);
      used.index := driven;
    }

    method Recv() returns (r: Received)
      requires Valid()
      modifies this`idx, used`event
      ensures Valid() && Outgoing() == old(Outgoing()) && Words(old(Incoming()))
      ensures r.NoEntry? <==> CountAvailable(old(idx), available.index) == 0
      ensures r.NoEntry? ==> Incoming() == old(Incoming()) && used.event == old(used.event)
      ensures !r.NoEntry? ==> Incoming() == Advance(old(Incoming())) && used.event == available.index
      ensures !r.NoEntry? ==>
                var head := ReadSlot(old(Incoming())); r == if head < size then Got(head) else NotRecoverable
      ensures r.NoEntry? <==> old(idx) == available.index
      ensures idx == if r.NoEntry? then old(idx) else if old(idx) == U16_MAX then 0 else old(idx) + 1
      ensures !r.NoEntry? ==>
                var head := available.slots[old(idx) % size]; r == if head < size then Got(head) else NotRecoverable
    {
      var i := available.index;
      if CountAvailable(idx, i) == 0 {
        return NoEntry;
      }
      used.event := i;
      var head := available.slots[idx % size];
      idx := (idx + 1) % U16;
      if head >= size {
        return NotRecoverable;
      }
      return Got(head);
    }

    /** The one number of chains that takes this party's cursor to the driver's index, whatever the
        two are; with unbounded counters behind them, `SplitRing.CountIsExact` says which. */
    method GetAvailable() returns (n: nat)
      requires Valid()
      ensures n < U16 && (idx + n) % U16 == available.index
    {
      n := CountAvailable(idx, available.index);
      CountReaches(idx, available.index);
    }

    /** And the one number that is left of the ring's size, in 16 bits. */
    method GetFree() returns (n: nat)
      requires Valid()
      ensures n < U16 && (idx + size + U16 - n) % U16 == available.index
    {
      n := CountFree(size, idx, available.index);
      FreeReaches(size, idx, available.index);
    }

    /** An interrupt is due when the driver has asked for one at an index this party has moved past
        with its last send; before the first send it has moved past none. */
    method EventNotify() returns (due: bool)
      requires Valid()
      ensures due <==> exists i: nat :: prev <= i < prev + (driven - prev) % U16 && i % U16 == available.event
    {
      due := UsedEventNotify(available.event, driven, prev);
      MovedTo(prev, driven);
      NotifyExact(available.event, prev, prev + (driven - prev) % U16);
    }
  }

  lemma CountReaches(idx: nat, i: nat)
    requires idx < U16 && i < U16
    ensures CountAvailable(idx, i) < U16 && (idx + CountAvailable(idx, i)) % U16 == i
  {
  }

  lemma FreeReaches(size: nat, idx: nat, i: nat)
    requires idx < U16 && i < U16 && size <= 32768
    ensures (idx + size + U16 - CountFree(size, idx, i)) % U16 == i
  {
  }

  lemma MovedTo(prev: nat, driven: nat)
    requires prev < U16 && driven < U16
    ensures (prev + (driven - prev) % U16) % U16 == driven && prev % U16 == prev
  {
  }

  // ---------- as lists ----------

  /** With history h on the ring it receives from, a device queue holds these heads for the device. */
  ghost predicate Offers(q: DeviceQueue, h: History<nat>, waiting: seq<nat>)
    reads q, q.available, q.available.slots
  {
    && Agrees(q.Incoming().(driven := |h.sent| % U16), h) && waiting == h.sent[h.received..h.published]
  }

  /** Receiving takes the first of them, as from a list. */
  method RecvFirst(q: DeviceQueue, ghost h: History<nat>, ghost waiting: seq<nat>)
    returns (r: Received, ghost h': History<nat>)
    requires q.Valid() && Offers(q, h, waiting)
    modifies q`idx, q.used`event
    ensures q.Valid() && (r.NoEntry? <==> waiting == [])
    ensures r.NoEntry? ==> Offers(q, h', waiting)
    ensures !r.NoEntry? ==> Offers(q, h', waiting[1..])
    ensures !r.NoEntry? ==> r == if waiting[0] < q.size then Got(waiting[0]) else NotRecoverable
  {
    hide Divides, Agrees, CountAvailable;
    ghost var c := q.Incoming().(driven := |h.sent| % U16);
    ghost var h1 := h.(loaded := h.published);
    AgreesBounds(c, h);
    LoadAgrees(c, h);
    if h.received < h.published { ReadAgrees(c, h1); }
    r := q.Recv();
    h' := if h.received < h.published then h1.(received := h.received + 1) else h1;
  }

  /** Sending appends to what the driver will receive, as to a list. */
  method SendLast(q: DeviceQueue, head: nat, len: nat, ghost h: History<Used>)
    requires q.Valid() && Agrees(q.Outgoing().(idx := h.received % U16), h)
    requires h.published == |h.sent| < h.received + q.size
    modifies q`prev, q`driven, q.used`index, q.used.slots
    ensures q.Valid()
    ensures var h' := h.(sent := h.sent + [Used(head, len)], published := h.published + 1);
            Agrees(q.Outgoing().(idx := h.received % U16), h')
  {
    hide Divides;
    ghost var c := q.Outgoing().(idx := h.received % U16);
    WriteAgrees(c, h, Used(head, len));
    PublishAgrees(WriteSlot(c, Used(head, len)), h.(sent := h.sent + [Used(head, len)]));
    q.Send(head, len);
  }

  /** Right after a send an interrupt is due exactly when the driver has asked for one at the index
      that the send has used, whatever was sent before. */
  method SendAndNotify(q: DeviceQueue, head: nat, len: nat) returns (due: bool)
    requires q.Valid()
    modifies q`prev, q`driven, q.used`index, q.used.slots
    ensures q.Valid() && (due <==> q.available.event == old(q.driven))
    ensures q.driven == (old(q.driven) + 1) % U16
  {
    q.Send(head, len);
    due := q.EventNotify();
    OneMoved(q.prev, q.driven, q.available.event);
  }

  lemma OneMoved(prev: nat, driven: nat, event: nat)
    requires prev < U16 && driven == (if prev == U16_MAX then 0 else prev + 1) && event < U16
    ensures (exists i: nat :: prev <= i < prev + (driven - prev) % U16 && i % U16 == event) <==> event == prev
  {
    assert (driven - prev) % U16 == 1;
    if event == prev { assert prev % U16 == event; }
  }

  /** Over any number of sends from one index on, an interrupt is due after exactly those whose
      index the driver has asked for. */
  method SendAll(q: DeviceQueue, entries: seq<Used>) returns (due: seq<bool>)
    requires q.Valid()
    modifies q`prev, q`driven, q.used`index, q.used.slots
    ensures q.Valid() && |due| == |entries| && q.driven == (old(q.driven) + |entries|) % U16
    ensures forall k :: 0 <= k < |due| ==> (due[k] <==> q.available.event == (old(q.driven) + k) % U16)
  {
    due := [];
    var k := 0;
    while k < |entries|
      invariant q.Valid() && k == |due| <= |entries| && q.driven == (old(q.driven) + k) % U16
      invariant forall i :: 0 <= i < k ==> (due[i] <==> q.available.event == (old(q.driven) + i) % U16)
    {
      var now := SendAndNotify(q, entries[k].id, entries[k].len);
      due := due + [now];
      k := k + 1;
    }
  }

  class DriverQueue {
    const available: Ring<nat>
    const used: Ring<Used>
    const size: nat
    var idx: nat
    var prev: nat
    var driven: nat

    constructor (available: Ring<nat>, used: Ring<Used>, size: bv16)
      requires IsSizeValid(size) && available.slots.Length == used.slots.Length == size as nat
      requires available.index < U16 && used.index < U16 && available.event < U16 && used.event < U16
      ensures Valid() && this.available == available && this.used == used && this.size == size as nat
      ensures idx == prev == driven == 0
    {
      ValidDivides(size);
      this.available := available;
      this.used := used;
      this.size := size as nat;
      idx, prev, driven := 0, 0, 0;
    }

    ghost predicate Valid()
      reads this, available, used
    {
      && Divides(size) && available.slots.Length == used.slots.Length == size
      && idx < U16 && prev < U16 && driven < U16
      && available.index < U16 && used.index < U16 && available.event < U16 && used.event < U16
    }

    ghost function Incoming(): Chan<Used>
      reads this, used, used.slots
    {
      Chan(used.slots[..], used.index, 0, 0, idx)
    }

    ghost function Outgoing(): Chan<nat>
      reads this, available, available.slots
    {
      Chan(available.slots[..], available.index, prev, driven, 0)
    }

    method Send(head: nat)
      requires Valid()
      modifies this`prev, this`driven, available`index, available.slots
      ensures Valid() && Words(old(Outgoing()))
      ensures Outgoing() == Publish(WriteSlot(old(Outgoing()), head))
      ensures Incoming() == old(Incoming())
      ensures prev == old(driven) && driven == available.index
      ensures driven == if old(driven) == U16_MAX then 0 else old(driven) + 1
      ensures available.slots[..] == old(available.slots[..])[old(driven) % size := head]
    {
      prev := driven;
      driven := (driven + 1) % U16;
      available.slots[prev % size] := head;
      available.index := driven;
    }

    method Recv() returns (r: Received)
      requires Valid()
      modifies this`idx, available`event
      ensures Valid() && Outgoing() == old(Outgoing()) && Words(old(Incoming()))
      ensures r.NoEntry? <==> CountAvailable(old(idx), used.index) == 0
      ensures r.NoEntry? ==> Incoming() == old(Incoming()) && available.event == old(available.event)
      ensures !r.NoEntry? ==> Incoming() == Advance(old(Incoming())) && available.event == used.index
      ensures !r.NoEntry? ==> r == Got(ReadSlot(old(Incoming())).id % size)
      ensures r.NoEntry? <==> old(idx) == used.index
      ensures idx == if r.NoEntry? then old(idx) else if old(idx) == U16_MAX then 0 else old(idx) + 1
      ensures !r.NoEntry? ==> r == Got(used.slots[old(idx) % size].id % size)
    {
      var i := used.index;
      if CountAvailable(idx, i) == 0 {
        return NoEntry;
      }
      available.event := i;
      var head := used.slots[idx % size].id % size;
      idx := (idx + 1) % U16;
      return Got(head);
    }
  }
}
