/** The virtual bus (vbus.cpp) over its map of address ranges (rangemap.hpp): a set ordered by a
    comparison that takes overlapping ranges for equal, with a one-entry cache in front. */
module Vbus {
  import opened MachineWords

  datatype Option<T> = None | Some(value: T)

  datatype Range = Range(begin: nat, size: nat) {
    /** `end()`, with the wrap of a machine word. */
    function End(): nat { (begin + size) % U64 }
    predicate Empty() { size == 0 }
    predicate Intersects(r: Range) { !Empty() && !r.Empty() && r.begin < End() && begin < r.End() }
    predicate Has(x: nat) { !Empty() && begin <= x < End() }
    predicate Contains(r: Range) { !r.Empty() && Has(r.begin) && Has((r.begin + r.size - 1) % U64) }
  }

  /** `Range_compare`. */
  predicate Less(a: Range, b: Range) { !a.Intersects(b) && a.End() <= b.begin }

  datatype Entry = Entry(range: Range, device: nat)

  /** A range that `register_device` and `access` let pass: not empty, and no wrap. */
  predicate Regular(r: Range) { r.size > 0 && r.begin + r.size < U64 }

  /** `std::set` orders its elements; the first that is not less than the target is where a search
      ends. */
  function LowerBound(es: seq<Entry>, r: Range): (i: nat)
    ensures i <= |es|
    ensures forall j :: 0 <= j < i ==> Less(es[j].range, r)
    ensures i < |es| ==> !Less(es[i].range, r)
  {
    if es == [] || !Less(es[0].range, r) then 0 else 1 + LowerBound(es[1..], r)
  }

  /** `RangeMap::lookup`. */
  function Find(es: seq<Entry>, r: Range): Option<Entry> {
    var i := LowerBound(es, r);
    if i < |es| && !Less(r, es[i].range) then Some(es[i]) else None
  }

  ghost predicate Disjoint(es: seq<Entry>) {
    && (forall i :: 0 <= i < |es| ==> Regular(es[i].range))
    && forall i, j :: 0 <= i < j < |es| ==> es[i].range.End() <= es[j].range.begin
  }

  /** For a regular target the search finds an entry exactly when one overlaps it: the first. */
  lemma FindExact(es: seq<Entry>, r: Range)
    requires Disjoint(es) && Regular(r)
    ensures Find(es, r).Some? <==> exists i :: 0 <= i < |es| && es[i].range.Intersects(r)
    ensures forall i :: 0 <= i < |es| && es[i].range.Intersects(r) ==>
              (forall j :: 0 <= j < i ==> !es[j].range.Intersects(r)) ==> Find(es, r) == Some(es[i])
  {
    var k := LowerBound(es, r);
    if k < |es| {
      forall i | k < i < |es| && es[i].range.Intersects(r)
        ensures es[k].range.Intersects(r)
      {
      }
    }
  }

  /** Address x is one of the range's. */
  predicate Covers(r: Range, x: nat) { r.begin <= x < r.begin + r.size }

  /** For ranges that do not wrap the tests mean what they say of the addresses. */
  lemma RangeTests(a: Range, b: Range)
    requires Regular(a) && Regular(b)
    ensures a.Intersects(b) <==> exists x :: Covers(a, x) && Covers(b, x)
    ensures a.Contains(b) <==> forall x :: Covers(b, x) ==> Covers(a, x)
    ensures Less(a, b) <==> forall x, y :: Covers(a, x) && Covers(b, y) ==> x < y
  {
    hide Covers, Range.Intersects, Range.Contains, Less;
    IntersectsTest(a, b);
    ContainsTest(a, b);
    LessTest(a, b);
  }

  lemma IntersectsTest(a: Range, b: Range)
    requires Regular(a) && Regular(b)
    ensures a.Intersects(b) <==> exists x :: Covers(a, x) && Covers(b, x)
  {
    if a.Intersects(b) {
      var x := if a.begin < b.begin then b.begin else a.begin;
      assert Covers(a, x) && Covers(b, x);
    }
  }

  lemma ContainsTest(a: Range, b: Range)
    requires Regular(a) && Regular(b)
    ensures a.Contains(b) <==> forall x :: Covers(b, x) ==> Covers(a, x)
  {
    assert Covers(b, b.begin) && Covers(b, b.begin + b.size - 1);
  }

  lemma LessTest(a: Range, b: Range)
    requires Regular(a) && Regular(b)
    ensures Less(a, b) <==> forall x, y :: Covers(a, x) && Covers(b, y) ==> x < y
  {
    assert Covers(a, a.begin + a.size - 1) && Covers(b, b.begin);
  }

  /** An entry that contains the target is the only one that overlaps it. */
  lemma ContainsFinds(es: seq<Entry>, e: Entry, r: Range)
    requires Disjoint(es) && Regular(r) && e in es && e.range.Contains(r)
    ensures Find(es, r) == Some(e)
  {
    var i :| 0 <= i < |es| && es[i] == e;
    assert e.range.Intersects(r);
    forall j | 0 <= j < i
      ensures !es[j].range.Intersects(r)
    {
    }
    FindExact(es, r);
  }

  lemma Wraps(addr: nat, bytes: nat)
    requires addr < U64 && bytes < U64
    ensures (addr + bytes) % U64 <= addr <==> bytes == 0 || addr + bytes >= U64
  {
  }

  lemma FindAny(es: seq<Entry>, r: Range)
    requires Disjoint(es) && Regular(r)
    ensures Find(es, r).Some? <==> exists e :: e in es && e.range.Intersects(r)
    ensures Find(es, r).Some? ==> Find(es, r).value in es
  {
    hide Range.Intersects, Disjoint, Less, Regular;
    FindExact(es, r);
    if e :| e in es && e.range.Intersects(r) {
      var i :| 0 <= i < |es| && es[i] == e;
    }
  }

  class Bus {
    var devices: seq<Entry>
    var last: Option<Entry>

    constructor ()
      ensures Valid() && devices == []
    {
      devices, last := [], None;
    }

    ghost predicate Valid()
      reads this
    {
      Disjoint(devices) && (last.Some? ==> last.value in devices)
    }

    /** A fresh search, as `Bus::lookup` makes it. */
    function Lookup(addr: nat, bytes: nat): Option<Entry>
      reads this
    {
      if (addr + bytes) % U64 <= addr then None else Find(devices, Range(addr, bytes))
    }

    /** Where `access` dispatches: to the cached entry if it contains the target. */
    function Dispatch(addr: nat, bytes: nat): Option<Entry>
      reads this
    {
      if (addr + bytes) % U64 <= addr then None
      else if last.Some? && last.value.range.Contains(Range(addr, bytes)) then last
      else Find(devices, Range(addr, bytes))
    }

    /** The cache makes no difference. */
    ghost predicate CacheIsSound()
      reads this
    {
      forall addr: nat, bytes: nat :: addr < U64 && bytes < U64 ==> Dispatch(addr, bytes) == Lookup(addr, bytes)
    }

    lemma ValidIsSound()
      requires Valid()
      ensures CacheIsSound()
    {
      hide Range.Contains;
      forall addr: nat, bytes: nat | addr < U64 && bytes < U64
        ensures Dispatch(addr, bytes) == Lookup(addr, bytes)
      {
        var r := Range(addr, bytes);
        if (addr + bytes) % U64 > addr && last.Some? && last.value.range.Contains(r) {
          ContainsFinds(devices, last.value, r);
        }
      }
    }

    /** Inserts exactly when the range is regular and overlaps no entry. */
    method Register(device: nat, addr: nat, bytes: nat) returns (ok: bool)
      requires Valid() && addr < U64 && bytes < U64
      modifies this`devices
      ensures Valid()
      ensures ok <==>
              && Regular(Range(addr, bytes))
              && forall e :: e in old(devices) ==> !e.range.Intersects(Range(addr, bytes))
      ensures !ok ==> devices == old(devices)
      ensures ok ==> multiset(devices) == multiset(old(devices)) + multiset{Entry(Range(addr, bytes), device)}
    {
      if (addr + bytes) % U64 <= addr { return false; }
      var r := Range(addr, bytes);
      FindExact(devices, r);
      var i := LowerBound(devices, r);
      if i < |devices| && !Less(r, devices[i].range) { return false; }
      InsertKeeps(devices, i, Entry(r, device));
      devices := devices[..i] + [Entry(r, device)] + devices[i..];
      return true;
    }

    /** Removes what a search for the range finds, and forgets it if it is the cached entry. */
    method Unregister(addr: nat, bytes: nat)
      requires Valid()
      modifies this
      ensures Valid()
      ensures var found := Find(old(devices), Range(addr, bytes));
              if found.None? then devices == old(devices)
              else multiset(devices) == multiset(old(devices)) - multiset{found.value} && last != found
    {
      var r := Range(addr, bytes);
      var i := LowerBound(devices, r);
      if i < |devices| && !Less(r, devices[i].range) {
        var e := devices[i];
        RemoveKeeps(devices, i);
        devices := devices[..i] + devices[i + 1..];
        if last == Some(e) { last := None; }
      } else if last == None {
        last := None;
      }
    }

    lemma LookupExact(addr: nat, bytes: nat)
      requires Valid() && addr < U64 && bytes < U64
      ensures Lookup(addr, bytes).Some? ==> Lookup(addr, bytes).value in devices
      ensures Lookup(addr, bytes).Some? <==>
              && bytes > 0 && addr + bytes < U64
              && exists e :: e in devices && e.range.Intersects(Range(addr, bytes))
    {
      hide Range.Intersects, Find, Disjoint;
      Wraps(addr, bytes);
      if bytes > 0 && addr + bytes < U64 { FindAny(devices, Range(addr, bytes)); }
    }

    /** The dispatch of `access`: whatever has been accessed before, it goes where a fresh search
        would go, at the offset in that entry. */
    method Access(addr: nat, bytes: nat, absolute: bool) returns (entry: Option<Entry>, off: int)
      requires Valid() && addr < U64 && bytes < U64
      modifies this`last
      ensures Valid() && entry == Lookup(addr, bytes) == old(Dispatch(addr, bytes))
      ensures entry.Some? ==> last == entry && off == if absolute then addr else addr - entry.value.range.begin
      ensures entry.None? ==> last == old(last)
      ensures entry.Some? ==> entry.value in devices
      ensures entry.Some? <==>
              && bytes > 0 && addr + bytes < U64
              && exists e :: e in devices && e.range.Intersects(Range(addr, bytes))
    {
      hide Find, Range.Contains, Range.Intersects, Disjoint, Less;
      LookupExact(addr, bytes);
      off := 0;
      if (addr + bytes) % U64 <= addr { return None, 0; }
      var r := Range(addr, bytes);
      entry := last;
      if entry.None? || !entry.value.range.Contains(r) {
        FindExact(devices, r);
        entry := Find(devices, r);
        if entry.None? { return; }
      } else {
        ContainsFinds(devices, entry.value, r);
      }
      if last != entry { last := entry; }
      off := if absolute then addr else addr - entry.value.range.begin;
    }

    /** Empties the map and leaves the cache: from then on the cache makes a difference exactly when
        something was cached. */
    method Deinit()
      requires Valid()
      modifies this`devices
      ensures devices == [] && last == old(last) && (CacheIsSound() <==> last.None?)
    {
      ghost var r := if last.Some? then last.value.range else Range(0, 1);
      devices := [];
      if last.Some? {
        ContainsItself(r);
        assert Dispatch(r.begin, r.size) != Lookup(r.begin, r.size);
      }
    }
  }

  lemma ContainsItself(r: Range)
    requires Regular(r)
    ensures r.Contains(r) && Find([], r).None?
  {
  }

  /** A device that is gone and is still accessed. */
  method StaleAfterDeinit(device: nat) returns (b: Bus)
    ensures b.Lookup(0x1000, 4).None? && b.Dispatch(0x1000, 4) == Some(Entry(Range(0x1000, 0x100), device))
  {
    hide Find, Range.Intersects, Range.Contains, Disjoint;
    b := new Bus();
    var e := Entry(Range(0x1000, 0x100), device);
    Around(e);
    var ok := b.Register(device, 0x1000, 0x100);
    OnlyEntry(b.devices, e);
    var entry, off := b.Access(0x1000, 4, false);
    b.Deinit();
  }

  lemma Around(e: Entry)
    requires e.range == Range(0x1000, 0x100)
    ensures Regular(e.range) && e.range.Contains(Range(0x1000, 4))
    ensures Find([e], Range(0x1000, 4)) == Some(e) && Find([], Range(0x1000, 4)).None?
  {
  }

  lemma OnlyEntry(es: seq<Entry>, e: Entry)
    requires multiset(es) == multiset([]) + multiset{e}
    ensures es == [e]
  {
    assert |es| == |multiset(es)| == 1;
    assert e in multiset(es);
  }

  lemma RegularEnd(r: Range)
    requires Regular(r)
    ensures r.begin < r.End()
  {
  }

  lemma InsertKeeps(es: seq<Entry>, i: nat, e: Entry)
    requires Disjoint(es) && Regular(e.range) && i == LowerBound(es, e.range)
    requires (i < |es| ==> Less(e.range, es[i].range))
    ensures Disjoint(es[..i] + [e] + es[i..])
    ensures multiset(es[..i] + [e] + es[i..]) == multiset(es) + multiset{e}
  {
    hide Disjoint, Regular;
    InsertMembers(es, i, e);
    InsertDisjoint(es, i, e);
  }

  lemma InsertMembers(es: seq<Entry>, i: nat, e: Entry)
    requires i <= |es|
    ensures multiset(es[..i] + [e] + es[i..]) == multiset(es) + multiset{e}
  {
    assert multiset(es) == multiset(es[..i]) + multiset(es[i..]) by { assert es == es[..i] + es[i..]; }
  }

  lemma InsertDisjoint(es: seq<Entry>, i: nat, e: Entry)
    requires Disjoint(es) && Regular(e.range) && i <= |es|
    requires forall j :: 0 <= j < i ==> Less(es[j].range, e.range)
    requires i < |es| ==> Less(e.range, es[i].range)
    ensures Disjoint(es[..i] + [e] + es[i..])
  {
    hide Range.End, Regular, Range.Intersects;
    var r := es[..i] + [e] + es[i..];
    if i < |es| { RegularEnd(es[i].range); }
    assert forall j :: i <= j < |es| ==> e.range.End() <= es[j].range.begin;
    assert forall j :: 0 <= j < |r| ==> r[j] == if j < i then es[j] else if j == i then e else es[j - 1];
  }

  lemma RemoveKeeps(es: seq<Entry>, i: nat)
    requires Disjoint(es) && i < |es|
    ensures var r := es[..i] + es[i + 1..];
            Disjoint(r) && multiset(r) == multiset(es) - multiset{es[i]} && forall e :: e in es && e != es[i] ==> e in r
  {
    hide Disjoint;
    assert multiset(es) == multiset(es[..i] + es[i + 1..]) + multiset{es[i]} by {
      assert es == es[..i] + [es[i]] + es[i + 1..];
    }
    RemoveMembers(es, i);
    RemoveDisjoint(es, i);
  }

  lemma RemoveMembers(es: seq<Entry>, i: nat)
    requires i < |es|
    ensures forall e :: e in es && e != es[i] ==> e in es[..i] + es[i + 1..]
  {
    var r := es[..i] + es[i + 1..];
    forall e | e in es && e != es[i]
      ensures e in r
    {
      var j :| 0 <= j < |es| && es[j] == e;
      assert if j < i then r[j] == e else r[j - 1] == e;
    }
  }

  lemma RemoveDisjoint(es: seq<Entry>, i: nat)
    requires Disjoint(es) && i < |es|
    ensures Disjoint(es[..i] + es[i + 1..])
  {
    hide Range.End, Regular;
    var r := es[..i] + es[i + 1..];
    assert forall j :: 0 <= j < |r| ==> r[j] == if j < i then es[j] else es[j + 1];
  }
}
