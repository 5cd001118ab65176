/** Parallel roundups do not interfere with each other, over any number of rounds. */
module RoundupParallel {
  import opened Counting
  import opened RoundupModel
  import opened RoundupInvariant
  import opened RoundupSteps
  import opened RoundupHolder
  import opened RoundupMutex
  import opened RoundupSafety
  import opened RoundupTheorems
  import opened RoundupCounters

  /** Between the fetch_add of `roundup_parallel` and the sub_fetch of `resume_parallel`. */
  predicate InRound(p: Pc) {
    ((p.YInc? || p.YDec? || p.YSig? || p.Enter? || Gathers(p)) && !p.kind.Excl?) ||
    p.ParRead? || p.ParStore? || p.ParRelease? || p.ParAcquire? || p.ParUnyield? || p.ParHeld? || p.ParSub?
  }

  /** Waits to be let in, or is about to. */
  predicate AtDoor(p: Pc) { p.ParAcquire? || p == YInc(Later) || p == YDec(Later) || p == YSig(Later) }

  predicate IsParWait(p: Pc) { p.ParWait? }
  predicate IsRelDec(p: Pc) { p.RelDec? }
  predicate Releases(p: Pc) { p.RelCheck? || p.RelSem? || p.RelDec? }

  function Threads(s: State, p: Pc -> bool): nat
    requires s.n <= |s.pc|
  {
    Count(s.pc[..s.n], p)
  }

  /** The participants have been let in, or are being let in. */
  predicate Opened(s: State) { s.mutex.Team? || HolderPc(s).ParRelease? }

  /** The last participant resumes the VM. */
  predicate Closes(p: Pc) {
    (p.UnYield? || p.EndRead? || p.EndStore? || p.ResLoad? || p.ResCas? || p.ResSig? || p.Exit?) && p.par
  }

  function StillToRelease(s: State): nat { if HolderPc(s).ParRelease? then HolderPc(s).left else 0 }

  lemma PointParallel(n: nat, t: nat, p: Pc)
    requires Legal(n, t, p) && t < n
    ensures InRound(p) <==> ClassOf(p).first() || ClassOf(p).later() || ClassOf(p).joined()
    ensures AtDoor(p) <==> ClassOf(p).later()
    ensures p.ParWait? <==> ClassOf(p).Parked?
    ensures p.RelDec? <==> ClassOf(p).Released?
    ensures Releases(p) <==> ClassOf(p).releasing()
  {
  }

  lemma PhaseParallel(s: State)
    ensures Now(s).open <==> Opened(s)
    ensures Now(s).closing <==> Closes(HolderPc(s))
    ensures Now(s).left == StillToRelease(s)
  {
    hide PhaseOf;
    PointOpens(s.n, false, Idle);
    PointCloses(s.n, false, Idle);
    if s.mutex.By? {
      PointOpens(s.n, s.mutex.holder < s.n, HolderPc(s));
      PointCloses(s.n, s.mutex.holder < s.n, HolderPc(s));
    }
  }

  lemma PointOpens(n: nat, vm: bool, p: Pc)
    ensures PhaseOf(n, vm, p).open <==> p.ParRelease?
    ensures PhaseOf(n, vm, p).left == if p.ParRelease? then p.left else 0
  {
  }

  lemma PointCloses(n: nat, vm: bool, p: Pc)
    ensures PhaseOf(n, vm, p).closing <==> Closes(p)
  {
  }

  /** The tally in terms of program points. */
  lemma TallyIs(s: State, h: Phase)
    requires Inv(s) && h == Now(s)
    ensures Sized(s)
    ensures var k := Tallies(s, h);
            && Threads(s, InRound) == k.first + k.later + k.joined && Threads(s, AtDoor) == k.later
            && Threads(s, IsParWait) == k.parked && Threads(s, IsRelDec) == k.released
            && Threads(s, Releases) == k.releasing
  {
    hide Inv, ClassOf, Legal, Accounted, InRound, AtDoor, Releases, Count;
    CoreOf(s, h);
    var ps, cs := s.pc[..s.n], Classes(s);
    forall i | 0 <= i < s.n
      ensures InRound(ps[i]) <==> cs[i].first() || cs[i].later() || cs[i].joined()
      ensures AtDoor(ps[i]) <==> cs[i].later()
      ensures ps[i].ParWait? <==> cs[i].Parked?
      ensures ps[i].RelDec? <==> cs[i].Released?
      ensures Releases(ps[i]) <==> cs[i].releasing()
      ensures !(cs[i].first() && cs[i].later()) && !(cs[i].first() && cs[i].joined())
      ensures !(cs[i].later() && cs[i].joined())
    {
      Here(s, h, i);
      PointParallel(s.n, i, s.pc[i]);
      OneRole(s.pc[i]);
    }
    var some := (c: Class) => c.first() || c.later();
    var all := (c: Class) => some(c) || c.joined();
    CountUnion(cs, IsFirst, IsLater, some);
    CountUnion(cs, some, IsJoined, all);
    CountPointwise(ps, InRound, cs, all);
    CountPointwise(ps, AtDoor, cs, IsLater);
    CountPointwise(ps, IsParWait, cs, IsParked);
    CountPointwise(ps, IsRelDec, cs, IsReleased);
    CountPointwise(ps, Releases, cs, IsReleasing);
  }

  /** Where the tokens and the counters of parallel_info stand, against the threads that are
      in the round, at its door, parked and releasing. */
  ghost predicate Ledger(s: State)
    requires Sized(s)
  {
    var parked := Threads(s, IsParWait);
    && s.count == Threads(s, InRound)
    && s.countSem + StillToRelease(s) == (if Opened(s) then Threads(s, AtDoor) else 0)
    && (if Opened(s) then s.resumeSem == 0 && s.numWaiters + 1 == s.count + parked && Threads(s, Releases) == 0
        else if Closes(HolderPc(s)) then s.resumeSem == 0 && s.numWaiters == parked && Threads(s, Releases) == 0
        else
          && s.resumeSem + s.numWaiters == parked + Threads(s, IsRelDec)
          && Threads(s, Releases) <= 1 && (Threads(s, Releases) == 0 ==> s.numWaiters == 0))
  }

  /** Token conservation: every later caller gets exactly one count_sem token, and of the
      participants that parked each has exactly one resume_waiter_sem token, delivered or still
      counted in num_waiters; no token is left over outside that. */
  lemma TokensConserved(run: seq<State>, k: nat)
    requires IsRun(run) && k < |run|
    ensures Sized(run[k]) && Ledger(run[k])
  {
    hide IsRun, Inv, Ledger;
    RunInv(run, k);
    LedgerAt(run[k]);
  }

  lemma LedgerAt(s: State)
    requires Inv(s)
    ensures Sized(s) && Ledger(s)
  {
    hide Inv, Tallies, Opened, Closes, StillToRelease, Threads;
    var h := Now(s);
    CoreOf(s, h);
    TallyIs(s, h);
    PhaseParallel(s);
    LedgerCore(s, h, Tallies(s, h));
  }

  lemma LedgerCore(s: State, h: Phase, k: Tally)
    requires Core(s, h, k) && Sized(s)
    requires (h.open <==> Opened(s)) && (h.closing <==> Closes(HolderPc(s))) && h.left == StillToRelease(s)
    requires Threads(s, InRound) == k.first + k.later + k.joined && Threads(s, AtDoor) == k.later
    requires Threads(s, IsParWait) == k.parked && Threads(s, IsRelDec) == k.released
    requires Threads(s, Releases) == k.releasing
    ensures Ledger(s)
  {
    hide Opened, Closes, StillToRelease, Threads, PhaseOf, HolderPc;
  }

  /** When a parallel roundup completes (its first caller has everybody stopped), nothing is
      left of earlier ones: no token in either semaphore, nobody parked, nobody in the release
      loop, so num_waiters is not overwritten under a releaser. The count it reads is stable:
      it is this caller plus the later ones, none of which has been let in. */
  lemma CleanStart(run: seq<State>, k: nat, t: nat)
    requires IsRun(run) && k < |run| && t < |run[k].pc| && (run[k].pc[t].ParRead? || run[k].pc[t].ParStore?)
    ensures var s := run[k];
            && Sized(s) && s.countSem == 0 && s.resumeSem == 0 && s.numWaiters == 0
            && s.count == 1 + Threads(s, AtDoor) && Threads(s, IsParWait) == 0
            && (s.pc[t].ParStore? ==> s.pc[t].callers == s.count - 1)
            && forall u :: 0 <= u < |s.pc| ==> !Releases(s.pc[u])
  {
    hide IsRun, Inv;
    RunInv(run, k);
    CleanAt(run[k], t);
  }

  lemma CleanAt(s: State, t: nat)
    requires Inv(s) && t < |s.pc| && (s.pc[t].ParRead? || s.pc[t].ParStore?)
    ensures Sized(s) && s.countSem == 0 && s.resumeSem == 0 && s.numWaiters == 0
    ensures s.count == 1 + Threads(s, AtDoor) && Threads(s, IsParWait) == 0
    ensures s.pc[t].ParStore? ==> s.pc[t].callers == s.count - 1
    ensures forall u :: 0 <= u < |s.pc| ==> !Releases(s.pc[u])
  {
    hide Inv, Tallies, Threads, Accounted, Legal, Releases, PhaseOf, Now;
    var h := Now(s);
    Mine(s, h, t);
    WhereHolder(s, h, t);
    FirstHere(s, h, t);
    OpenAlone(s, h, t);
    TallyIs(s, h);
    CleanCore(s, h, Tallies(s, h), t);
    forall u | 0 <= u < |s.pc|
      ensures !Releases(s.pc[u])
    {
      Here(s, h, u);
      ReleasesClass(s.n, u, s.pc[u]);
    }
  }

  lemma ReleasesClass(n: nat, t: nat, p: Pc)
    requires Legal(n, t, p)
    ensures Releases(p) <==> ClassOf(p).releasing()
    ensures Releases(p) ==> t < n
  {
  }

  lemma CleanCore(s: State, h: Phase, k: Tally, t: nat)
    requires Core(s, h, k) && h == Standing(s.n, true).(callers := h.callers) && k.first > 0 && s.mutex.By?
    requires k.parked == k.releasing == k.released == 0
    ensures s.countSem == 0 && s.resumeSem == 0 && s.numWaiters == 0 && s.count == 1 + k.later
    ensures h.callers >= 0 ==> h.callers == s.count - 1
  {
  }
}
