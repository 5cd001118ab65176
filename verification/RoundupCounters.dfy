/** What the counters and semaphores of the roundup protocol hold, in every state of every run. */
module RoundupCounters {
  import opened MachineWords
  import opened Counting
  import opened RoundupModel
  import opened RoundupInvariant
  import opened RoundupSteps
  import opened RoundupHolder
  import opened RoundupMutex
  import opened RoundupSafety
  import opened RoundupTheorems

  // ---------- vcpus_progressing ----------

  /** VCPU i has been accounted for in the current phase: its unit of vcpus_progressing has
      been taken off, by itself or on its behalf. */
  predicate Given(s: State, i: nat)
    requires Sized(s) && i < s.n
  {
    var p := s.pc[i];
    Yielded(p) ||
    (Collecting(s) &&
     (s.mutex == By(i) || (Participates(p) && (p.ParWait? ==> TeamRound(s))) ||
      (s.st[i].roundedup && !s.st[i].base.Emulate? && !p.OnNotify? && !HolderOwes(s, i))))
  }

  /** The holder has marked VCPU i and has yet to decrement on its behalf. */
  predicate HolderOwes(s: State, i: nat) { HolderPc(s).RuDec? && HolderPc(s).i == i }

  function GivenUnits(s: State): (a: seq<bool>)
    requires Sized(s)
    ensures |a| == s.n && forall i :: 0 <= i < s.n ==> a[i] == Given(s, i)
  {
    seq(s.n, i requires 0 <= i < s.n => Given(s, i))
  }

  /** vcpus_progressing is the number of VCPUs not yet accounted for, at every step. */
  lemma ExactCounting(run: seq<State>, k: nat)
    requires IsRun(run) && k < |run|
    ensures Sized(run[k]) && run[k].progressing + Count(GivenUnits(run[k]), Id) == run[k].n
  {
    hide IsRun, Inv;
    RunInv(run, k);
    CountedAt(run[k]);
  }

  lemma CountedAt(s: State)
    requires Inv(s)
    ensures Sized(s) && s.progressing + Count(GivenUnits(s), Id) == s.n
    ensures forall i :: 0 <= i < s.n ==> Given(s, i) == Accounted(Now(s), s.mutex, i, ClassOf(s.pc[i]))
  {
    var h := Now(s);
    CoreOf(s, h);
    forall i | 0 <= i < s.n
      ensures GivenUnits(s)[i] == Accounts(s, h)[i]
    {
      GivenIs(s, i);
    }
    CountPointwise(GivenUnits(s), Id, Accounts(s, h), Id);
    StoppedTally(s, h);
  }

  lemma CoreOf(s: State, h: Phase)
    requires Inv(s) && h == Now(s)
    ensures Sized(s) && s.n < U16 && Core(s, h, Tallies(s, h)) && Sane(h)
  {
    hide Core, Tallies, Sane;
    NowSane(s);
  }

  lemma GivenIs(s: State, i: nat)
    requires Inv(s) && i < s.n <= |s.pc|
    ensures Sized(s) && Given(s, i) == Accounted(Now(s), s.mutex, i, ClassOf(s.pc[i]))
  {
    hide Inv, ClassOf, Legal, Participates, Yielded, TeamRound, Collecting, Now;
    Here(s, Now(s), i);
    PhaseIs(s);
    PointIs(s.n, i, s.pc[i]);
    NowPending(s, i);
    GivenIf(s, Now(s), i);
  }

  lemma NowPending(s: State, i: nat)
    requires i < s.n
    ensures Now(s).pending == i <==> HolderOwes(s, i)
  {
  }

  lemma GivenIf(s: State, h: Phase, i: nat)
    requires Sized(s) && i < s.n && Fits(s, h, i)
    requires (h.counting <==> Collecting(s)) && (h.team <==> TeamRound(s)) && (h.pending == i <==> HolderOwes(s, i))
    requires var c, p := ClassOf(s.pc[i]), s.pc[i];
             && (Yielded(p) <==> c.yielded()) && (Participates(p) && !p.ParWait? ==> c.joined())
             && (c.joined() ==> Participates(p) || Yielded(p)) && (c.Parked? <==> p.ParWait?)
             && (c.Notifying? <==> p.OnNotify?)
    ensures Given(s, i) == Accounted(h, s.mutex, i, ClassOf(s.pc[i]))
  {
    hide Legal, ClassOf, Yielded, TeamRound, Collecting;
  }

  /** The decrement of a VCPU that stops, or of the holder on its behalf, is never at zero. */
  lemma NeverBelowZero(run: seq<State>, k: nat, t: nat)
    requires IsRun(run) && k < |run| && t < |run[k].pc|
    requires run[k].pc[t].OnNotify? || run[k].pc[t].YDec? || run[k].pc[t].RuDec?
    ensures run[k].progressing > 0
  {
    hide IsRun, Inv;
    RunInv(run, k);
    OwesOne(run[k], t);
  }

  lemma OwesOne(s: State, t: nat)
    requires Inv(s) && t < |s.pc| && (s.pc[t].OnNotify? || s.pc[t].YDec? || s.pc[t].RuDec?)
    ensures s.progressing > 0
  {
    hide Inv, Now, Accounted, Legal;
    Here(s, Now(s), t);
    if s.pc[t].RuDec? {
      Mine(s, Now(s), t);
      RuDecRoom(s, Now(s), t);
    }
  }

  // ---------- _vcpu_waiters ----------

  /** Between the increment of `yield` and the decrement of `unyield`. */
  predicate InWaiters(p: Pc) {
    p.YDec? || p.YSig? || p.Enter? || p.ParAcquire? || p.ParUnyield? || WaitsAndHolds(p)
  }

  predicate WaitsAndHolds(p: Pc) {
    Gathers(p) || p.Held? || p.ParRead? || p.ParStore? || p.ParRelease? || p.UnYield?
  }

  /** _vcpu_waiters counts the VCPU threads between their increment and their decrement; while
      the mutex is with the team of a parallel roundup, the unit of its first caller is there
      for the last to take off. So it never exceeds the number of VCPUs, and the separate read
      and store of end_roundup_core use a value that is still current. */
  lemma WaitersExact(run: seq<State>, k: nat)
    requires IsRun(run) && k < |run|
    ensures var s := run[k];
            && Sized(s) && s.waiters == Count(s.pc[..s.n], InWaiters) + One(s.mutex.Team?) <= s.n < U16
            && forall t :: 0 <= t < |s.pc| && s.pc[t].EndStore? ==> s.pc[t].w == s.waiters
  {
    hide IsRun, Inv;
    RunInv(run, k);
    WaitersAt(run[k]);
  }

  lemma WaitersAt(s: State)
    requires Inv(s)
    ensures Sized(s) && s.waiters == Count(s.pc[..s.n], InWaiters) + One(s.mutex.Team?) <= s.n < U16
    ensures forall t :: 0 <= t < |s.pc| && s.pc[t].EndStore? ==> s.pc[t].w == s.waiters
  {
    hide Inv, Core, Tallies;
    var h := Now(s);
    CoreOf(s, h);
    WaitingUnits(s, h);
    WaitingTally(s, h);
    WaitersCore(s, h, Tallies(s, h));
    forall t | 0 <= t < |s.pc| && s.pc[t].EndStore?
      ensures s.pc[t].w == s.waiters
    {
      Mine(s, h, t);
      EndStoreWaiters(s, h, t);
    }
  }

  lemma WaitersCore(s: State, h: Phase, k: Tally)
    requires Core(s, h, k)
    ensures s.waiters == k.waiting + One(h.waits) <= s.n
  {
  }

  predicate Waits(s: State, i: nat)
    requires i < |s.pc|
  {
    ClassOf(s.pc[i]).waiting()
  }

  lemma PointWaits(n: nat, t: nat, p: Pc)
    requires Legal(n, t, p) && t < n
    ensures InWaiters(p) <==> ClassOf(p).waiting() || WaitsAndHolds(p)
    ensures WaitsAndHolds(p) ==> ClassOf(p).owner()
    ensures ClassOf(p).owner() ==> !ClassOf(p).waiting()
    ensures PhaseOf(n, true, p).waits <==> WaitsAndHolds(p)
  {
  }

  lemma OutsideWaits(n: nat, t: nat, p: Pc)
    requires Legal(n, t, p) && t >= n
    ensures !PhaseOf(n, false, p).waits
  {
  }

  lemma WaitingUnits(s: State, h: Phase)
    requires Inv(s) && h == Now(s)
    ensures Sized(s) && Num(s, IsWaiting) + One(h.waits) == Count(s.pc[..s.n], InWaiters) + One(s.mutex.Team?)
  {
    hide Inv, ClassOf, PhaseOf, InWaiters, WaitsAndHolds, Count, Accounted, Legal;
    CoreOf(s, h);
    var bs := seq(s.n, i requires 0 <= i < s.n => ClassOf(s.pc[i]).waiting());
    CountPointwise(bs, Id, Classes(s), IsWaiting);
    forall i | 0 <= i < s.n
      ensures InWaiters(s.pc[i]) <==> bs[i] || WaitsAndHolds(s.pc[i])
      ensures WaitsAndHolds(s.pc[i]) ==> s.mutex == By(i)
      ensures s.mutex == By(i) ==> !bs[i] && h.waits == WaitsAndHolds(s.pc[i])
    {
      Here(s, h, i);
      PointWaits(s.n, i, s.pc[i]);
    }
    if s.mutex.By? && s.mutex.holder < s.n {
      var o := s.mutex.holder;
      CountUpdate(bs, o, h.waits, Id);
      CountPointwise(bs[o := h.waits], Id, s.pc[..s.n], InWaiters);
    } else {
      if s.mutex.By? {
        HolderThere(s);
        Here(s, h, s.mutex.holder);
        OutsideWaits(s.n, s.mutex.holder, s.pc[s.mutex.holder]);
      }
      CountPointwise(bs, Id, s.pc[..s.n], InWaiters);
    }
  }

  lemma HolderThere(s: State)
    requires Inv(s) && s.mutex.By?
    ensures s.mutex.holder < |s.pc|
  {
  }
}
