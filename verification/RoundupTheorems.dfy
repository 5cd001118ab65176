/** What the roundup protocol is for, stated of every state of every run, in terms of the
    program points and the shared words only. */
module RoundupTheorems {
  import opened Counting
  import opened RoundupModel
  import opened RoundupInvariant
  import opened RoundupSteps
  import opened RoundupHolder
  import opened RoundupMutex
  import opened RoundupSafety

  // ---------- vocabulary ----------

  /** In `do_roundup`, after `begin_roundup`. */
  predicate Gathers(p: Pc) {
    p.RuLoad? || p.RuCas? || p.RuDec? || p.RuSig? || p.RuCheck? || p.RuWait?
  }

  /** From the return of `do_roundup` to the store of `end_roundup_core`. */
  predicate Stands(p: Pc) {
    p.Held? || p.ParRead? || p.ParStore? || p.ParRelease? || p.UnYield? || p.EndRead? || p.EndStore?
  }

  /** In `resume_all`, up to the release of the mutex. */
  predicate Resumes(p: Pc) { p.ResLoad? || p.ResCas? || p.ResSig? || p.Exit? }

  predicate Holds(p: Pc) { Gathers(p) || Stands(p) || Resumes(p) }

  /** Has given up its unit of vcpus_progressing in `yield`, and has not been let back in. */
  predicate Yielded(p: Pc) { p.YSig? || p.Enter? || p.ParAcquire? || p.ParUnyield? }

  /** Has been let into a parallel roundup, or has led it as its first caller. */
  predicate Participates(p: Pc) { p.ParHeld? || p.ParSub? || p.ParWait? }

  /** The holder acts for a parallel roundup that has let its participants in. */
  predicate ForTeam(p: Pc) {
    p.ParRelease? || ((p.UnYield? || p.EndRead? || p.EndStore?) && p.par)
  }

  /** Where the holder of the mutex is; `Idle` when there is none. */
  function HolderPc(s: State): Pc {
    if s.mutex.By? && s.mutex.holder < |s.pc| then s.pc[s.mutex.holder] else Idle
  }

  /** Between the return of somebody's `do_roundup` and the matching `end_roundup`. */
  predicate WorldStopped(s: State) { s.mutex.Team? || Stands(HolderPc(s)) }

  predicate Collecting(s: State) { s.mutex.Team? || Gathers(HolderPc(s)) || Stands(HolderPc(s)) }

  predicate TeamRound(s: State) { s.mutex.Team? || ForTeam(HolderPc(s)) }

  /** The vocabulary and the phase say the same. */
  lemma PhaseIs(s: State)
    ensures Now(s).counting <==> Collecting(s)
    ensures Now(s).stopped <==> WorldStopped(s)
    ensures Now(s).team <==> TeamRound(s)
    ensures Now(s).stopped ==> Now(s).lo == 0 && Now(s).hi == s.n
  {
    hide PhaseOf, Gathers, Stands, ForTeam;
    match s.mutex {
      case Free => IdlePoint();
      case Team => IdlePoint();
      case By(o) => PhasePoint(s.n, o < s.n, HolderPc(s));
    }
  }

  lemma IdlePoint()
    ensures !Gathers(Idle) && !Stands(Idle) && !ForTeam(Idle)
  {
  }

  lemma PhasePoint(n: nat, vm: bool, p: Pc)
    ensures var h := PhaseOf(n, vm, p);
            && (h.counting <==> Gathers(p) || Stands(p)) && (h.stopped <==> Stands(p))
            && (h.team <==> ForTeam(p)) && (h.stopped ==> h.lo == 0 && h.hi == n)
  {
    hide PhaseOf, Gathers, Stands, ForTeam;
    CountingPoint(n, vm, p);
    StoppedPoint(n, vm, p);
    TeamPoint(n, vm, p);
  }

  lemma CountingPoint(n: nat, vm: bool, p: Pc)
    ensures PhaseOf(n, vm, p).counting <==> Gathers(p) || Stands(p)
  {
  }

  lemma StoppedPoint(n: nat, vm: bool, p: Pc)
    ensures var h := PhaseOf(n, vm, p); (h.stopped <==> Stands(p)) && (h.stopped ==> h.lo == 0 && h.hi == n)
  {
  }

  lemma TeamPoint(n: nat, vm: bool, p: Pc)
    ensures PhaseOf(n, vm, p).team <==> ForTeam(p)
  {
  }

  lemma PointIs(n: nat, t: nat, p: Pc)
    requires Legal(n, t, p)
    ensures Holds(p) <==> ClassOf(p).owner()
    ensures Yielded(p) <==> ClassOf(p).yielded()
    ensures Participates(p) && !p.ParWait? ==> ClassOf(p).joined()
    ensures ClassOf(p).joined() ==> Participates(p) || Yielded(p)
    ensures ClassOf(p).Parked? <==> p.ParWait?
    ensures ClassOf(p).Notifying? <==> p.OnNotify?
  {
    hide Legal, ClassOf, Holds, Yielded, Participates;
    HoldsPoint(n, t, p);
    YieldedPoint(n, t, p);
    ParticipatesPoint(n, t, p);
  }

  lemma HoldsPoint(n: nat, t: nat, p: Pc)
    requires Legal(n, t, p)
    ensures Holds(p) <==> ClassOf(p).owner()
  {
  }

  lemma YieldedPoint(n: nat, t: nat, p: Pc)
    requires Legal(n, t, p)
    ensures Yielded(p) <==> ClassOf(p).yielded()
  {
  }

  lemma ParticipatesPoint(n: nat, t: nat, p: Pc)
    requires Legal(n, t, p)
    ensures Participates(p) && !p.ParWait? ==> ClassOf(p).joined()
    ensures ClassOf(p).joined() ==> Participates(p) || Yielded(p)
    ensures ClassOf(p).Parked? <==> p.ParWait?
    ensures ClassOf(p).Notifying? <==> p.OnNotify?
  {
  }

  // ---------- the holder is unique, nothing aborts ----------

  /** Mutual exclusion: no two threads are between `begin_roundup` and `signal_next_waiter`. */
  lemma MutualExclusion(run: seq<State>, k: nat, t: nat, u: nat)
    requires IsRun(run) && k < |run| && t < |run[k].pc| && u < |run[k].pc|
    requires Holds(run[k].pc[t]) && Holds(run[k].pc[u])
    ensures t == u && run[k].mutex == By(t)
  {
    hide IsRun, Inv;
    RunInv(run, k);
    HolderOf(run[k], t);
    HolderOf(run[k], u);
  }

  lemma HolderOf(s: State, t: nat)
    requires Inv(s) && t < |s.pc|
    ensures Holds(s.pc[t]) <==> s.mutex == By(t)
  {
    hide Inv, Accounted, Now, ClassOf, Legal, Holds;
    Here(s, Now(s), t);
    PointIs(s.n, t, s.pc[t]);
  }

  /** No `ABORT_WITH` and no failing `ASSERT` in any run: no transition out of place, no
      counter decremented at zero, no more waiters than VCPUs. */
  lemma NothingAborts(run: seq<State>, k: nat, t: nat)
    requires IsRun(run) && k < |run| && t < |run[k].pc|
    ensures !run[k].pc[t].Aborted?
  {
    hide IsRun, Inv;
    RunInv(run, k);
    Bounds(run[k], t);
  }

  // ---------- stop the world ----------

  /** VCPU i makes no progress: it is marked, and if it emulates then its thread is the
      holder, is blocked in (or has just entered) a roundup call, or takes part in the
      parallel roundup. */
  predicate NoProgress(s: State, i: nat)
    requires i < s.n && Sized(s)
  {
    && s.st[i].roundedup
    && (s.st[i].base.Emulate? ==>
          s.mutex == By(i) || Yielded(s.pc[i]) || (TeamRound(s) && Participates(s.pc[i])))
  }

  lemma StopTheWorld(run: seq<State>, k: nat, i: nat)
    requires IsRun(run) && k < |run| && WorldStopped(run[k]) && i < run[k].n <= |run[k].pc|
    ensures Sized(run[k]) && run[k].progressing == 0 && NoProgress(run[k], i)
  {
    hide IsRun, Inv;
    RunInv(run, k);
    StopAt(run[k], i);
  }

  lemma StopAt(s: State, i: nat)
    requires Inv(s) && WorldStopped(s) && i < s.n <= |s.pc|
    ensures Sized(s) && s.progressing == 0 && NoProgress(s, i)
  {
    hide Inv, Accounted, ClassOf, Legal, Participates, Yielded, WorldStopped, TeamRound, Now;
    PhaseIs(s);
    Here(s, Now(s), i);
    NowSane(s);
    PointIs(s.n, i, s.pc[i]);
    Standstill(s, Now(s));
    NoProgressIf(s, Now(s), i);
  }

  lemma NoProgressIf(s: State, h: Phase, i: nat)
    requires Sized(s) && i < s.n && Fits(s, h, i) && Accounted(h, s.mutex, i, ClassOf(s.pc[i]))
    requires h.lo == 0 && h.hi == s.n && (h.team <==> TeamRound(s)) && (h.open ==> h.team)
    requires var c, p := ClassOf(s.pc[i]), s.pc[i];
             && (Yielded(p) <==> c.yielded()) && (c.joined() ==> Participates(p) || Yielded(p))
             && (c.Parked? <==> p.ParWait?)
    ensures NoProgress(s, i)
  {
    hide Legal, ClassOf;
  }

  /** The world stays stopped until the thread that holds the mutex takes the store of
      `end_roundup_core`. */
  lemma StaysStopped(s: State, t: nat, c: Choice)
    requires Inv(s) && WorldStopped(s) && t < |s.pc| && !(s.mutex == By(t) && s.pc[t].EndStore?)
    ensures Sized(s) && WorldStopped(Step(s, t, c))
  {
    hide Inv, Now, Legal, Accounted, Own, Step;
    Bounds(s, t);
    PhaseIs(s);
    HolderOf(s, t);
    if s.mutex == By(t) {
      StepInv(s, t, c);
      StepSteady(s, t, c);
      Bounds(Step(s, t, c), t);
      StandsOn(s, t, c);
    } else if s.pc[t].ParSub? {
      Here(s, Now(s), t);
      Facts(s, Now(s), Tallies(s, Now(s)));
      SomeAt(s, Now(s), t);
      SubTakes(s, t, c);
    } else {
      OthersKeep(s, t, c);
    }
  }

  lemma StandsOn(s: State, t: nat, c: Choice)
    requires Sized(s) && t < |s.pc| && s.mutex == By(t) && Stands(s.pc[t]) && !s.pc[t].EndStore?
    requires |Step(s, t, c).pc| == |s.pc| && !Step(s, t, c).pc[t].Aborted?
    ensures WorldStopped(Step(s, t, c))
  {
  }

  lemma SubTakes(s: State, t: nat, c: Choice)
    requires Sized(s) && t < |s.pc| && s.pc[t].ParSub? && s.mutex != By(t) && WorldStopped(s) && s.count > 0
    requires s.count == 1 ==> s.mutex.Team?
    ensures WorldStopped(Step(s, t, c))
  {
  }

  /** A thread that does not hold the mutex leaves it, and the holder where it is. */
  lemma OthersKeep(s: State, t: nat, c: Choice)
    requires Sized(s) && t < |s.pc| && s.mutex != By(t) && !s.mutex.Free? && !s.pc[t].ParSub? && !Holds(s.pc[t])
    ensures var s' := Step(s, t, c);
            s'.mutex == s.mutex && (WorldStopped(s) ==> WorldStopped(s'))
  {
    hide StepCpu, StepRoundup, StepParallel, StepResume, StepOutside, Holds, WorldStopped;
    NotResuming(s.pc[t]);
    OutsideLeaves(s, t);
    RoundupLeaves(s, t);
    ParallelLeaves(s, t);
    if t < s.n { CpuLeaves(s, t, c); }
    LeavesKeeps(s, Step(s, t, c), t);
  }

  /** The mutex and every other thread's point are as they were. */
  ghost predicate Leaves(s: State, s': State, t: nat) {
    && s'.mutex == s.mutex && |s'.pc| == |s.pc|
    && forall u :: 0 <= u < |s.pc| && u != t ==> s'.pc[u] == s.pc[u]
  }

  lemma NotResuming(p: Pc)
    requires !Holds(p)
    ensures !IsResume(p) && !p.ParRead? && !p.ParStore? && !p.ParRelease?
  {
  }

  lemma OutsideLeaves(s: State, t: nat)
    requires t < |s.pc|
    ensures Leaves(s, StepOutside(s, t), t) && Leaves(s, s, t)
  {
  }

  lemma RoundupLeaves(s: State, t: nat)
    requires Sized(s) && t < |s.pc| && !s.mutex.Free?
    ensures Leaves(s, StepRoundup(s, t), t)
  {
  }

  lemma ParallelLeaves(s: State, t: nat)
    requires t < |s.pc| && !s.pc[t].ParSub? && !s.pc[t].ParRelease?
    ensures Leaves(s, StepParallel(s, t), t)
  {
  }

  lemma CpuLeaves(s: State, t: nat, c: Choice)
    requires Sized(s) && t < s.n
    ensures Leaves(s, StepCpu(s, t, c), t)
  {
    hide Own;
  }

  lemma LeavesKeeps(s: State, s': State, t: nat)
    requires Leaves(s, s', t) && s.mutex != By(t)
    ensures WorldStopped(s) ==> WorldStopped(s')
  {
  }

  /** From any state with the world stopped up to the matching `end_roundup`, no VCPU enters
      emulation, whoever takes steps: a VCPU that emulates did so when the world stopped. */
  lemma {:induction false} NobodyStarts(run: seq<State>, a: nat, b: nat, i: nat)
    requires IsRun(run) && a <= b < |run| && (forall k :: a <= k < b ==> WorldStopped(run[k]))
    requires Sized(run[a]) && i < run[a].n
    ensures Sized(run[b]) && run[b].n == run[a].n
    ensures run[b].st[i].base.Emulate? ==> run[a].st[i].base.Emulate?
  {
    hide Inv, WorldStopped, Step, Init;
    if a < b {
      NobodyStarts(run, a, b - 1, i);
      RunInv(run, b - 1);
      StopAt(run[b - 1], i);
      assert Next(run[b - 1], run[b]);
      var t: nat, c: Choice :| t < |run[b - 1].pc| && run[b] == Step(run[b - 1], t, c);
      StepSteady(run[b - 1], t, c);
    }
  }

  /** No step adds threads or VCPUs, and none takes a marked VCPU into emulation. */
  ghost predicate Steady(s: State, s': State) {
    Sized(s) && Sized(s') && s'.n == s.n && |s'.pc| == |s.pc| &&
    forall i :: 0 <= i < s.n && s.st[i].roundedup && s'.st[i].base.Emulate? ==> s.st[i].base.Emulate?
  }

  lemma StepSteady(s: State, t: nat, c: Choice)
    requires Sized(s) && t < |s.pc|
    ensures Steady(s, Step(s, t, c))
  {
    hide Steady, StepCpu, StepRoundup, StepParallel, StepResume, StepOutside;
    ResumeSteady(s, t);
    OtherSteady(s, t);
    RoundupSteady(s, t);
    if t < s.n { CpuSteady(s, t, c); }
  }

  lemma CpuSteady(s: State, t: nat, c: Choice)
    requires Sized(s) && t < s.n
    ensures Steady(s, StepCpu(s, t, c))
  {
  }

  lemma RoundupSteady(s: State, t: nat)
    requires Sized(s) && t < |s.pc|
    ensures Steady(s, StepRoundup(s, t))
  {
  }

  lemma ResumeSteady(s: State, t: nat)
    requires Sized(s) && t < |s.pc|
    ensures Steady(s, StepResume(s, t))
  {
  }

  lemma OtherSteady(s: State, t: nat)
    requires Sized(s) && t < |s.pc|
    ensures Steady(s, StepParallel(s, t)) && Steady(s, StepOutside(s, t)) && Steady(s, s)
  {
  }

  // ---------- the interval is reached ----------

  /** One VCPU that has not been switched on, and one outside caller. */
  function Small(w: Word, caller: Pc, mutex: Mutex, sig: bool, progressing: nat): State {
    State(1, [w], [false], [OnLoad(PowerOn), caller], mutex, sig, progressing, 0, 0, 0, 0, 0)
  }

  predicate RoundsUp(p: Pc) { p.Enter? || Gathers(p) }

  lemma SmallStep(w: Word, p: Pc, m: Mutex, sig: bool, k: nat, w': Word, p': Pc, m': Mutex, sig': bool, k': nat)
    requires RoundsUp(p) && Small(w', p', m', sig', k') == StepRoundup(Small(w, p, m, sig, k), 1)
    ensures Next(Small(w, p, m, sig, k), Small(w', p', m', sig', k'))
  {
    hide StepRoundup, StepCpu, StepParallel, StepResume;
    assert Step(Small(w, p, m, sig, k), 1, Leave) == Small(w', p', m', sig', k');
  }

  /** A run in which the outside caller rounds up that VCPU: the world does get stopped. */
  lemma Reached() returns (run: seq<State>)
    ensures IsRun(run) && run[|run| - 1] == Small(Word(Off, true), Held, By(1), true, 0) && WorldStopped(run[|run| - 1])
  {
    hide Step, Next;
    var a, b := Word(Off, false), Word(Off, true);
    run := [Small(a, Idle, Free, false, 1), Small(a, Enter(Excl), Free, false, 1),
            Small(a, RuLoad(Excl, 0), By(1), false, 1),
            Small(a, RuCas(Excl, 0, a), By(1), false, 1), Small(b, RuDec(Excl, 0), By(1), false, 1),
            Small(b, RuSig(Excl, 0), By(1), false, 0), Small(b, RuLoad(Excl, 1), By(1), true, 0),
            Small(b, RuCheck(Excl), By(1), true, 0), Small(b, Held, By(1), true, 0)];
    CallerEnters(a);
    CallerMarks(a, b);
    CallerCounts(b);
    CallerReturns(b);
  }

  lemma CallerEnters(a: Word)
    requires a == Word(Off, false)
    ensures Next(Small(a, Idle, Free, false, 1), Small(a, Enter(Excl), Free, false, 1))
    ensures Next(Small(a, Enter(Excl), Free, false, 1), Small(a, RuLoad(Excl, 0), By(1), false, 1))
  {
    hide StepCpu, StepParallel, StepResume;
    assert Step(Small(a, Idle, Free, false, 1), 1, Leave) == Small(a, Enter(Excl), Free, false, 1);
    SmallStep(a, Enter(Excl), Free, false, 1, a, RuLoad(Excl, 0), By(1), false, 1);
  }

  lemma CallerMarks(a: Word, b: Word)
    requires a == Word(Off, false) && b == Word(Off, true)
    ensures Next(Small(a, RuLoad(Excl, 0), By(1), false, 1), Small(a, RuCas(Excl, 0, a), By(1), false, 1))
    ensures Next(Small(a, RuCas(Excl, 0, a), By(1), false, 1), Small(b, RuDec(Excl, 0), By(1), false, 1))
  {
    hide Next, Step;
    SmallStep(a, RuLoad(Excl, 0), By(1), false, 1, a, RuCas(Excl, 0, a), By(1), false, 1);
    SmallStep(a, RuCas(Excl, 0, a), By(1), false, 1, b, RuDec(Excl, 0), By(1), false, 1);
  }

  lemma CallerCounts(b: Word)
    requires b == Word(Off, true)
    ensures Next(Small(b, RuDec(Excl, 0), By(1), false, 1), Small(b, RuSig(Excl, 0), By(1), false, 0))
    ensures Next(Small(b, RuSig(Excl, 0), By(1), false, 0), Small(b, RuLoad(Excl, 1), By(1), true, 0))
  {
    hide Next, Step;
    SmallStep(b, RuDec(Excl, 0), By(1), false, 1, b, RuSig(Excl, 0), By(1), false, 0);
    SmallStep(b, RuSig(Excl, 0), By(1), false, 0, b, RuLoad(Excl, 1), By(1), true, 0);
  }

  lemma CallerReturns(b: Word)
    requires b == Word(Off, true)
    ensures Next(Small(b, RuLoad(Excl, 1), By(1), true, 0), Small(b, RuCheck(Excl), By(1), true, 0))
    ensures Next(Small(b, RuCheck(Excl), By(1), true, 0), Small(b, Held, By(1), true, 0))
  {
    hide Next, Step;
    SmallStep(b, RuLoad(Excl, 1), By(1), true, 0, b, RuCheck(Excl), By(1), true, 0);
    SmallStep(b, RuCheck(Excl), By(1), true, 0, b, Held, By(1), true, 0);
  }
}
