/** The two parties of a split virtqueue: a driver that sends the heads of descriptor chains on
    the available ring and a device that hands them back, in any order, on the used ring. Every
    access to shared memory is a step of its own, and the steps interleave in any way. */
module Virtqueue {
  import opened MachineWords
  import opened Counting
  import opened SplitRing

  /** `Virtio::UsedEntry`. */
  datatype Used = Used(id: nat, len: nat)

  /** A party: the heads it holds; whether it has written a slot it has yet to publish, and
      whether it has loaded an index that announces something it has yet to read. */
  datatype Party = Party(held: set<nat>, writing: bool, ready: bool)

  /** got: what the recv calls of each party have returned so far; rejected: how often the device
      found an index out of range. */
  datatype State = State(
    avail: Chan<nat>, sentAvail: History<nat>, used: Chan<Used>, sentUsed: History<Used>,
    driver: Party, device: Party, deviceGot: seq<nat>, driverGot: seq<nat>, rejected: nat)

  datatype Step =
      DriverWrite(head: nat) | DriverPublish | DriverLoad | DriverRead
    | DeviceLoad | DeviceRead | DeviceWrite(head: nat, len: nat) | DevicePublish

  function Size(s: State): nat { |s.avail.slots| }

  function DriverSends(s: State, head: nat): State
    requires Words(s.avail)
  {
    s.(avail := WriteSlot(s.avail, head), sentAvail := s.sentAvail.(sent := s.sentAvail.sent + [head]),
       driver := s.driver.(held := s.driver.held - {head}, writing := true))
  }

  function DeviceSends(s: State, head: nat, len: nat): State
    requires Words(s.used)
  {
    s.(used := WriteSlot(s.used, Used(head, len)), sentUsed := s.sentUsed.(sent := s.sentUsed.sent + [Used(head, len)]),
       device := s.device.(held := s.device.held - {head}, writing := true))
  }

  /** The second half of `DeviceQueue::recv`: an index out of range is not recoverable. */
  function DeviceReads(s: State): State
    requires Words(s.avail)
  {
    var head := ReadSlot(s.avail);
    var s' := s.(avail := Advance(s.avail), sentAvail := s.sentAvail.(received := s.sentAvail.received + 1),
                 device := s.device.(ready := false));
    if head >= Size(s) then s'.(rejected := s.rejected + 1)
    else s'.(device := s'.device.(held := s.device.held + {head}), deviceGot := s.deviceGot + [head])
  }

  /** The second half of `DriverQueue::recv`: the index is reduced to the ring. */
  function DriverReads(s: State): State
    requires Words(s.used) && Size(s) > 0
  {
    var head := ReadSlot(s.used).id % Size(s);
    s.(used := Advance(s.used), sentUsed := s.sentUsed.(received := s.sentUsed.received + 1),
       driver := s.driver.(ready := false, held := s.driver.held + {head}), driverGot := s.driverGot + [head])
  }

  ghost predicate Sane(s: State) { Words(s.avail) && Words(s.used) }

  /** A step that its party may not take now leaves the state. A party sends only heads it holds. */
  function Do(s: State, step: Step): State
    requires Sane(s)
  {
    match step
    case DriverWrite(head) => if !s.driver.writing && head in s.driver.held then DriverSends(s, head) else s
    case DriverPublish =>
      if s.driver.writing then
        s.(avail := Publish(s.avail), sentAvail := s.sentAvail.(published := |s.sentAvail.sent|),
           driver := s.driver.(writing := false))
      else s
    case DeviceLoad =>
      s.(sentAvail := s.sentAvail.(loaded := s.sentAvail.published),
         device := s.device.(ready := CountAvailable(s.avail.idx, s.avail.index) != 0))
    case DeviceRead => if s.device.ready then DeviceReads(s) else s
    case DeviceWrite(head, len) => if !s.device.writing && head in s.device.held then DeviceSends(s, head, len) else s
    case DevicePublish =>
      if s.device.writing then
        s.(used := Publish(s.used), sentUsed := s.sentUsed.(published := |s.sentUsed.sent|),
           device := s.device.(writing := false))
      else s
    case DriverLoad =>
      s.(sentUsed := s.sentUsed.(loaded := s.sentUsed.published),
         driver := s.driver.(ready := CountAvailable(s.used.idx, s.used.index) != 0))
    case DriverRead => if s.driver.ready then DriverReads(s) else s
  }

  ghost predicate IsRun(run: seq<State>) {
    run != [] && Init(run[0]) &&
    forall k :: 0 <= k < |run| - 1 ==> Sane(run[k]) && exists step :: run[k + 1] == Do(run[k], step)
  }

  /** The driver initializes each descriptor once and starts with all of them. */
  ghost predicate Init(s: State) {
    && Divides(Size(s)) && |s.used.slots| == Size(s)
    && s.avail == Chan(s.avail.slots, 0, 0, 0, 0) && s.used == Chan(s.used.slots, 0, 0, 0, 0)
    && s.sentAvail == History([], 0, 0, 0) && s.sentUsed == History([], 0, 0, 0)
    && s.driver == Party(Upto(Size(s)), false, false) && s.device == Party({}, false, false)
    && s.deviceGot == [] && s.driverGot == [] && s.rejected == 0
  }

  // ---------- conservation ----------

  function Ids(us: seq<Used>): (ids: seq<nat>)
    ensures |ids| == |us| && forall i :: 0 <= i < |us| ==> ids[i] == us[i].id
  {
    seq(|us|, i requires 0 <= i < |us| => us[i].id)
  }

  /** Each head below size is in exactly one of: held by one party, held by the other, in one
      ring, in the other; and nothing else is anywhere. */
  ghost predicate Whole(a: set<nat>, toB: seq<nat>, b: set<nat>, toA: seq<nat>, size: nat) {
    multiset(a) + multiset(toB) + multiset(b) + multiset(toA) == multiset(Upto(size))
  }

  lemma OnePlace(a: set<nat>, toB: seq<nat>, b: set<nat>, toA: seq<nat>, size: nat, h: nat)
    requires Whole(a, toB, b, toA, size)
    ensures One(h in a) + multiset(toB)[h] + One(h in b) + multiset(toA)[h] == One(h < size)
    ensures |a| + |toB| + |b| + |toA| == size
  {
    var all := multiset(a) + multiset(toB) + multiset(b) + multiset(toA);
    assert all[h] == multiset(Upto(size))[h];
    assert |all| == |multiset(Upto(size))|;
  }

  lemma WholeSwap(a: set<nat>, toB: seq<nat>, b: set<nat>, toA: seq<nat>, size: nat)
    ensures Whole(a, toB, b, toA, size) == Whole(b, toA, a, toB, size)
  {
    assert multiset(a) + multiset(toB) + multiset(b) + multiset(toA) ==
           multiset(b) + multiset(toA) + multiset(a) + multiset(toB);
  }

  lemma WholeSend(a: set<nat>, toB: seq<nat>, b: set<nat>, toA: seq<nat>, size: nat, h: nat)
    requires Whole(a, toB, b, toA, size) && h in a
    ensures Whole(a - {h}, toB + [h], b, toA, size)
    ensures |toB| < size
  {
    OnePlace(a, toB, b, toA, size, h);
    assert multiset(a - {h}) + multiset(toB + [h]) == multiset(a) + multiset(toB);
  }

  lemma WholeReceive(a: set<nat>, toB: seq<nat>, b: set<nat>, toA: seq<nat>, size: nat, h: nat)
    requires Whole(a, [h] + toB, b, toA, size)
    ensures h < size && h !in b && Whole(a, toB, b + {h}, toA, size)
  {
    OnePlace(a, [h] + toB, b, toA, size, h);
    assert multiset([h] + toB)[h] >= 1;
    assert multiset(b + {h}) + multiset(toB) == multiset(b) + multiset([h] + toB);
    assert multiset(a) + multiset(toB) + multiset(b + {h}) + multiset(toA) ==
           multiset(a) + multiset([h] + toB) + multiset(b) + multiset(toA);
  }

  ghost predicate Conserved(s: State) {
    && s.sentAvail.received <= |s.sentAvail.sent| && s.sentUsed.received <= |s.sentUsed.sent|
    && Whole(s.driver.held, InRing(s.sentAvail), s.device.held, Ids(InRing(s.sentUsed)), Size(s))
  }

  ghost predicate Inv(s: State) {
    && Agrees(s.avail, s.sentAvail) && Agrees(s.used, s.sentUsed) && |s.used.slots| == Size(s)
    && Conserved(s)
    && s.driver.writing == (s.sentAvail.published < |s.sentAvail.sent|)
    && s.device.writing == (s.sentUsed.published < |s.sentUsed.sent|)
    && (s.device.ready ==> s.sentAvail.received < s.sentAvail.loaded)
    && (s.driver.ready ==> s.sentUsed.received < s.sentUsed.loaded)
    && s.deviceGot == s.sentAvail.sent[..s.sentAvail.received]
    && s.driverGot == Ids(s.sentUsed.sent)[..s.sentUsed.received]
    && s.rejected == 0
  }

  lemma IdsSend(us: seq<Used>, u: Used, k: nat)
    requires k <= |us|
    ensures Ids((us + [u])[k..]) == Ids(us[k..]) + [u.id] && Ids(us + [u])[..k] == Ids(us)[..k]
  {
  }

  lemma IdsReceive(us: seq<Used>, k: nat)
    requires k < |us|
    ensures Ids(us[k..]) == [us[k].id] + Ids(us[k + 1..]) && Ids(us)[..k + 1] == Ids(us)[..k] + [us[k].id]
  {
  }

  lemma DriverWriteInv(s: State, head: nat)
    requires Inv(s) && !s.driver.writing && head in s.driver.held
    ensures Inv(DriverSends(s, head))
  {
    hide Agrees, Divides, Whole;
    AgreesBounds(s.avail, s.sentAvail);
    var s' := DriverSends(s, head);
    WholeSend(s.driver.held, InRing(s.sentAvail), s.device.held, Ids(InRing(s.sentUsed)), Size(s), head);
    WriteAgrees(s.avail, s.sentAvail, head);
    assert InRing(s'.sentAvail) == InRing(s.sentAvail) + [head];
  }

  lemma AgreesBounds<T>(c: Chan<T>, h: History<T>)
    requires Agrees(c, h)
    ensures Words(c) && h.received <= h.published <= |h.sent| <= h.received + |c.slots|
  {
  }

  lemma DeviceWriteInv(s: State, head: nat, len: nat)
    requires Inv(s) && !s.device.writing && head in s.device.held
    ensures Inv(DeviceSends(s, head, len))
  {
    hide Agrees, Divides, Whole;
    AgreesBounds(s.used, s.sentUsed);
    var s' := DeviceSends(s, head, len);
    IdsSend(s.sentUsed.sent, Used(head, len), s.sentUsed.received);
    WholeSwap(s.driver.held, InRing(s.sentAvail), s.device.held, Ids(InRing(s.sentUsed)), Size(s));
    WholeSend(s.device.held, Ids(InRing(s.sentUsed)), s.driver.held, InRing(s.sentAvail), Size(s), head);
    WriteAgrees(s.used, s.sentUsed, Used(head, len));
    WholeSwap(s'.driver.held, InRing(s'.sentAvail), s'.device.held, Ids(InRing(s'.sentUsed)), Size(s));
  }

  lemma DeviceReadInv(s: State)
    requires Inv(s) && s.device.ready
    ensures Inv(DeviceReads(s))
  {
    hide Agrees, Divides, Whole;
    AgreesBounds(s.avail, s.sentAvail);
    LoadedBound(s.avail, s.sentAvail);
    var s' := DeviceReads(s);
    var head := s.sentAvail.sent[s.sentAvail.received];
    ReadAgrees(s.avail, s.sentAvail);
    assert InRing(s.sentAvail) == [head] + InRing(s'.sentAvail);
    WholeReceive(s.driver.held, InRing(s'.sentAvail), s.device.held, Ids(InRing(s.sentUsed)), Size(s), head);
  }

  lemma LoadedBound<T>(c: Chan<T>, h: History<T>)
    requires Agrees(c, h)
    ensures h.loaded <= h.published
  {
  }

  /** The reduction modulo the size changes nothing. */
  lemma DriverTakes(s: State, head: nat)
    requires Words(s.used) && head < Size(s) && ReadSlot(s.used).id == head
    ensures DriverReads(s) ==
            s.(used := Advance(s.used), sentUsed := s.sentUsed.(received := s.sentUsed.received + 1),
               driver := s.driver.(ready := false, held := s.driver.held + {head}), driverGot := s.driverGot + [head])
  {
    hide ReadSlot;
    SmallMod(head, Size(s));
  }

  lemma SmallMod(x: nat, size: nat)
    requires x < size
    ensures x % size == x
  {
  }

  lemma DriverReadWhole(a: set<nat>, toB: seq<nat>, b: set<nat>, us: seq<Used>, k: nat, size: nat)
    requires k < |us| && Whole(a, toB, b, Ids(us[k..]), size)
    ensures us[k].id < size && Whole(a + {us[k].id}, toB, b, Ids(us[k + 1..]), size)
  {
    hide Whole;
    var head := us[k].id;
    IdsReceive(us, k);
    WholeSwap(a, toB, b, Ids(us[k..]), size);
    WholeReceive(b, Ids(us[k + 1..]), a, toB, size, head);
    WholeSwap(a + {head}, toB, b, Ids(us[k + 1..]), size);
  }

  lemma DriverReadInv(s: State)
    requires Inv(s) && s.driver.ready
    ensures Inv(DriverReads(s))
  {
    hide Agrees, Divides, Whole, DriverReads, ReadSlot, Ids;
    var k := s.sentUsed.received;
    AgreesBounds(s.used, s.sentUsed);
    LoadedBound(s.used, s.sentUsed);
    AgreesBounds(s.avail, s.sentAvail);
    ReadAgrees(s.used, s.sentUsed);
    DriverReadWhole(s.driver.held, InRing(s.sentAvail), s.device.held, s.sentUsed.sent, k, Size(s));
    IdsReceive(s.sentUsed.sent, k);
    DriverTakes(s, s.sentUsed.sent[k].id);
  }

  lemma DoInv(s: State, step: Step)
    requires Inv(s)
    ensures Inv(Do(s, step))
  {
    match step {
      case DriverWrite(head) => if !s.driver.writing && head in s.driver.held { DriverWriteInv(s, head); }
      case DriverPublish => PublishAgrees(s.avail, s.sentAvail);
      case DeviceLoad => LoadAgrees(s.avail, s.sentAvail);
      case DeviceRead => if s.device.ready { DeviceReadInv(s); }
      case DeviceWrite(head, len) => if !s.device.writing && head in s.device.held { DeviceWriteInv(s, head, len); }
      case DevicePublish => PublishAgrees(s.used, s.sentUsed);
      case DriverLoad => LoadAgrees(s.used, s.sentUsed);
      case DriverRead => if s.driver.ready { DriverReadInv(s); }
    }
  }

  lemma InitInv(s: State)
    requires Init(s)
    ensures Inv(s)
  {
    assert Ids(InRing(s.sentUsed)) == [] && InRing(s.sentAvail) == [];
  }

  lemma {:induction false} RunInv(run: seq<State>, k: nat)
    requires IsRun(run) && k < |run|
    ensures Inv(run[k])
  {
    hide Inv, Do;
    if k == 0 {
      InitInv(run[0]);
    } else {
      RunInv(run, k - 1);
      var step :| run[k] == Do(run[k - 1], step);
      DoInv(run[k - 1], step);
    }
  }

  // ---------- what the queue is for ----------

  /** First in, first out, on both rings and across any number of wraps: what the k-th successful
      receive returns is what the k-th send put in; no receive is ever rejected. */
  lemma Fifo(run: seq<State>, k: nat)
    requires IsRun(run) && k < |run|
    ensures var s := run[k];
            && s.deviceGot <= s.sentAvail.sent && s.driverGot <= Ids(s.sentUsed.sent) && s.rejected == 0
            && |s.deviceGot| == s.sentAvail.received && |s.driverGot| == s.sentUsed.received
  {
    hide IsRun;
    RunInv(run, k);
  }

  /** Each head is always in exactly one of: held by the driver, the available ring, held by the
      device, the used ring. So no ring holds more than it has slots. */
  lemma HeadConservation(run: seq<State>, k: nat, h: nat)
    requires IsRun(run) && k < |run|
    ensures var s := run[k]; s.sentAvail.received <= |s.sentAvail.sent| && s.sentUsed.received <= |s.sentUsed.sent|
    ensures var s := run[k];
            var a, u := InRing(s.sentAvail), Ids(InRing(s.sentUsed));
            && One(h in s.driver.held) + multiset(a)[h] + One(h in s.device.held) + multiset(u)[h] == One(h < Size(s))
            && |s.driver.held| + |a| + |s.device.held| + |u| == Size(s)
  {
    hide IsRun, Agrees, Whole;
    RunInv(run, k);
    var s := run[k];
    OnePlace(s.driver.held, InRing(s.sentAvail), s.device.held, Ids(InRing(s.sentUsed)), Size(s), h);
  }

  // ---------- nothing gets stuck ----------

  /** Both halves of a send go through: a party that holds a head and is not in the middle of a
      send takes two steps, and then the head is the last of what it has published. */
  lemma SendGoesThrough(run: seq<State>, k: nat, head: nat, len: nat)
    requires IsRun(run) && k < |run|
    ensures Sane(run[k])
    ensures !run[k].driver.writing && head in run[k].driver.held ==>
              Sane(Do(run[k], DriverWrite(head))) &&
              var s := Do(Do(run[k], DriverWrite(head)), DriverPublish);
              && s.sentAvail.sent == run[k].sentAvail.sent + [head] && s.sentAvail.published == |s.sentAvail.sent|
              && s.driver.held == run[k].driver.held - {head} && !s.driver.writing
    ensures !run[k].device.writing && head in run[k].device.held ==>
              Sane(Do(run[k], DeviceWrite(head, len))) &&
              var s := Do(Do(run[k], DeviceWrite(head, len)), DevicePublish);
              && s.sentUsed.sent == run[k].sentUsed.sent + [Used(head, len)]
              && s.sentUsed.published == |s.sentUsed.sent|
              && s.device.held == run[k].device.held - {head} && !s.device.writing
  {
    hide IsRun, Agrees, Whole;
    RunInv(run, k);
    AgreesBounds(run[k].avail, run[k].sentAvail);
    AgreesBounds(run[k].used, run[k].sentUsed);
    OnWrite(run[k], head, len);
  }

  lemma OnWrite(s: State, head: nat, len: nat)
    requires Inv(s)
    ensures Sane(s) && Sane(Do(s, DriverWrite(head))) && Sane(Do(s, DeviceWrite(head, len)))
  {
    DoInv(s, DriverWrite(head));
    DoInv(s, DeviceWrite(head, len));
  }

  /** Both halves of a receive go through: whenever something has been published that has not been
      received, a load and a read hand the receiver the next of it. */
  lemma ReceiveGoesThrough(run: seq<State>, k: nat)
    requires IsRun(run) && k < |run|
    ensures Sane(run[k]) && Sane(Do(run[k], DeviceLoad)) && Sane(Do(run[k], DriverLoad))
    ensures var s, h := Do(Do(run[k], DeviceLoad), DeviceRead), run[k].sentAvail;
            if h.received < h.published then
              h.received < |h.sent| && s.deviceGot == run[k].deviceGot + [h.sent[h.received]] &&
              s.device.held == run[k].device.held + {h.sent[h.received]}
            else s.deviceGot == run[k].deviceGot && s.device.held == run[k].device.held
    ensures var s, h := Do(Do(run[k], DriverLoad), DriverRead), run[k].sentUsed;
            if h.received < h.published then
              h.received < |h.sent| && s.driverGot == run[k].driverGot + [h.sent[h.received].id] &&
              s.driver.held == run[k].driver.held + {h.sent[h.received].id}
            else s.driverGot == run[k].driverGot && s.driver.held == run[k].driver.held
  {
    hide IsRun, Inv;
    RunInv(run, k);
    DeviceTakes(run[k]);
    DriverGets(run[k]);
  }

  lemma DeviceTakes(s: State)
    requires Inv(s)
    ensures Sane(s) && Sane(Do(s, DeviceLoad))
    ensures var s', h := Do(Do(s, DeviceLoad), DeviceRead), s.sentAvail;
            if h.received < h.published then
              h.received < |h.sent| && s'.deviceGot == s.deviceGot + [h.sent[h.received]] &&
              s'.device.held == s.device.held + {h.sent[h.received]}
            else s'.deviceGot == s.deviceGot && s'.device.held == s.device.held
  {
    hide Agrees, Whole, Divides, ReadSlot;
    AgreesBounds(s.avail, s.sentAvail);
    AgreesBounds(s.used, s.sentUsed);
    var l := Do(s, DeviceLoad);
    LoadAgrees(s.avail, s.sentAvail);
    if l.device.ready {
      ReadAgrees(l.avail, l.sentAvail);
      var n := s.sentAvail.received;
      var head, rest := s.sentAvail.sent[n], s.sentAvail.sent[n + 1..];
      assert InRing(s.sentAvail) == [head] + rest;
      WholeReceive(s.driver.held, rest, s.device.held, Ids(InRing(s.sentUsed)), Size(s), head);
    }
  }

  lemma DriverGets(s: State)
    requires Inv(s)
    ensures Sane(s) && Sane(Do(s, DriverLoad))
    ensures var s', h := Do(Do(s, DriverLoad), DriverRead), s.sentUsed;
            if h.received < h.published then
              h.received < |h.sent| && s'.driverGot == s.driverGot + [h.sent[h.received].id] &&
              s'.driver.held == s.driver.held + {h.sent[h.received].id}
            else s'.driverGot == s.driverGot && s'.driver.held == s.driver.held
  {
    hide Agrees, Whole, Divides, ReadSlot;
    AgreesBounds(s.avail, s.sentAvail);
    AgreesBounds(s.used, s.sentUsed);
    var l := Do(s, DriverLoad);
    LoadAgrees(s.used, s.sentUsed);
    if l.driver.ready {
      ReadAgrees(l.used, l.sentUsed);
      DriverReadWhole(l.driver.held, InRing(l.sentAvail), l.device.held, l.sentUsed.sent, l.sentUsed.received, Size(l));
      SmallMod(l.sentUsed.sent[l.sentUsed.received].id, Size(l));
    }
  }

  /** No slot is overwritten before it has been read: whenever a party may send, the slot it is
      about to write is none of those that hold what has yet to be received. */
  lemma NothingOverwritten(run: seq<State>, k: nat, head: nat, j: nat)
    requires IsRun(run) && k < |run|
    ensures var s := run[k];
            && (!s.driver.writing && head in s.driver.held && s.sentAvail.received <= j < |s.sentAvail.sent| ==>
                  Size(s) > 0 && s.avail.driven % Size(s) != j % Size(s))
            && (!s.device.writing && head in s.device.held && s.sentUsed.received <= j < |s.sentUsed.sent| ==>
                  Size(s) > 0 && s.used.driven % Size(s) != j % Size(s))
  {
    hide IsRun;
    RunInv(run, k);
    var s := run[k];
    OnePlace(s.driver.held, InRing(s.sentAvail), s.device.held, Ids(InRing(s.sentUsed)), Size(s), head);
    if head in s.driver.held && s.sentAvail.received <= j < |s.sentAvail.sent| { SlotFree(s.avail, s.sentAvail, j); }
    if head in s.device.held && s.sentUsed.received <= j < |s.sentUsed.sent| { SlotFree(s.used, s.sentUsed, j); }
  }

  lemma SlotFree<T>(c: Chan<T>, h: History<T>, j: nat)
    requires Agrees(c, h) && |h.sent| < h.received + |c.slots| && h.received <= j < |h.sent|
    ensures c.driven % |c.slots| != j % |c.slots|
  {
    ModMod(|h.sent|, |c.slots|);
    DifferentSlots(j, |h.sent|, |c.slots|);
  }

  /** `get_available` and `get_free` of either party give the true number of chains published
      and not received, and its complement, in every reachable state. */
  lemma CountsAreExact(run: seq<State>, k: nat)
    requires IsRun(run) && k < |run|
    ensures var s := run[k];
            && Sane(s) && Size(s) <= U16
            && CountAvailable(s.avail.idx, s.avail.index) == s.sentAvail.published - s.sentAvail.received
            && CountAvailable(s.used.idx, s.used.index) == s.sentUsed.published - s.sentUsed.received
            && CountFree(Size(s), s.avail.idx, s.avail.index) + CountAvailable(s.avail.idx, s.avail.index) == Size(s)
            && CountFree(Size(s), s.used.idx, s.used.index) + CountAvailable(s.used.idx, s.used.index) == Size(s)
  {
    hide IsRun;
    RunInv(run, k);
    LoadAgrees(run[k].avail, run[k].sentAvail);
    LoadAgrees(run[k].used, run[k].sentUsed);
  }

  // ---------- notification suppression ----------

  /** `used_event_notify`. */
  predicate UsedEventNotify(usedEvent: nat, driven: nat, prev: nat)
    requires usedEvent < U16 && driven < U16 && prev < U16
  {
    (driven - usedEvent - 1) % U16 < (driven - prev) % U16
  }

  /** The interrupt is due exactly when the index has moved past the event the driver asked for:
      some index from `from` up to, but not including, `to` is the event, modulo the wrap. */
  lemma NotifyExact(event: nat, from: nat, to: nat)
    requires event < U16 && from <= to < from + U16
    ensures UsedEventNotify(event, to % U16, from % U16) <==> exists i: nat :: from <= i < to && i % U16 == event
  {
    var q, r := to / U16, to % U16;
    var d := if r > event then r - event - 1 else r - event - 1 + U16;
    Behind(to, from);
    Wrapped(r, event, d);
    if d < to - from {
      LastEvent(event, to, q, r, d);
      assert (to - 1 - d) % U16 == event;
    }
    forall i: nat | from <= i < to && i % U16 == event
      ensures d < to - from
    {
      EventBehind(event, to, q, r, d, i, i / U16);
    }
  }

  /** The last index before `to` that is the event, if there is one. */
  lemma LastEvent(event: nat, to: nat, q: nat, r: nat, d: nat)
    requires event < U16 && r < U16 && to == q * U16 + r
    requires d == (if r > event then r - event - 1 else r - event - 1 + U16) && d < to
    ensures (to - 1 - d) % U16 == event
  {
    ModUnique(if r > event then q else q - 1, event, U16);
  }

  lemma EventBehind(event: nat, to: nat, q: nat, r: nat, d: nat, i: nat, p: nat)
    requires event < U16 && r < U16 && to == q * U16 + r
    requires d == if r > event then r - event - 1 else r - event - 1 + U16
    requires i < to && i == p * U16 + event
    ensures d <= to - 1 - i
  {
  }

  lemma Wrapped(r: nat, event: nat, d: nat)
    requires event < U16 && r < U16 && d == if r > event then r - event - 1 else r - event - 1 + U16
    ensures (r - event - 1) % U16 == d
  {
  }

  lemma Behind(to: nat, from: nat)
    requires from <= to < from + U16
    ensures (to % U16 - from % U16) % U16 == to - from
  {
    CountIsDifference(to / U16, to % U16, from / U16, from % U16);
  }

  lemma CountIsDifference(q: nat, r: nat, p: nat, m: nat)
    requires r < U16 && m < U16 && 0 <= q * U16 + r - (p * U16 + m) < U16
    ensures (r - m) % U16 == q * U16 + r - (p * U16 + m)
  {
  }
}
