/** The roundup protocol comes to an end: whoever is in it gets through, however the threads are
    scheduled; every VCPU gets back into emulation, and every caller gets the world stopped. */
module RoundupLiveness {
  import opened MachineWords
  import opened Counting
  import opened RoundupModel
  import opened RoundupInvariant
  import opened RoundupSteps
  import opened RoundupHolder
  import opened RoundupMutex
  import opened RoundupSafety
  import opened RoundupTheorems
  import opened RoundupCounters
  import opened RoundupProgress

  // ---------- blocked or moving ----------

  /** A thread whose point is one it can be at. */
  predicate Able(s: State, t: nat)
    requires t < |s.pc|
  {
    !s.pc[t].Aborted? && (IsCpu(s.pc[t]) ==> t < s.n)
  }

  /** A thread that is not blocked moves with every step it takes: to another program point, or, with
      a compare-and-swap that it has lost, to the value it lost to. */
  lemma Moves(s: State, t: nat, c: Choice)
    requires Sized(s) && t < |s.pc| && Able(s, t) && !RoundupProgress.Blocked(s, t)
    ensures var s' := Step(s, t, c); |s'.pc| == |s.pc| && s'.pc[t] != s.pc[t]
  {
    hide StepCpu, StepRoundup, StepParallel, StepResume;
    if s.pc[t].Idle? {
    } else if IsCpu(s.pc[t]) {
      CpuMoves(s, t, c);
    } else if IsResume(s.pc[t]) {
      ResumeMoves(s, t);
    } else if IsParallel(s.pc[t]) {
      ParallelMoves(s, t);
    } else {
      RoundupMoves(s, t);
    }
  }

  lemma CpuMoves(s: State, t: nat, c: Choice)
    requires Sized(s) && t < s.n && IsCpu(s.pc[t]) && !RoundupProgress.Blocked(s, t)
    ensures var s' := StepCpu(s, t, c); |s'.pc| == |s.pc| && s'.pc[t] != s.pc[t]
  {
  }

  lemma ResumeMoves(s: State, t: nat)
    requires Sized(s) && t < |s.pc| && IsResume(s.pc[t])
    ensures var s' := StepResume(s, t); |s'.pc| == |s.pc| && s'.pc[t] != s.pc[t]
  {
  }

  lemma ParallelMoves(s: State, t: nat)
    requires Sized(s) && t < |s.pc| && IsParallel(s.pc[t]) && !RoundupProgress.Blocked(s, t)
    ensures var s' := StepParallel(s, t); |s'.pc| == |s.pc| && s'.pc[t] != s.pc[t]
  {
  }

  lemma RoundupMoves(s: State, t: nat)
    requires Sized(s) && t < |s.pc| && !IsCpu(s.pc[t]) && !IsResume(s.pc[t]) && !IsParallel(s.pc[t])
    requires !s.pc[t].Idle? && !s.pc[t].Aborted? && !RoundupProgress.Blocked(s, t)
    ensures var s' := StepRoundup(s, t); |s'.pc| == |s.pc| && s'.pc[t] != s.pc[t]
  {
  }

  /** A VCPU that sleeps in `wait_for_resume` with its signal set takes the signal and goes on;
      nothing else changes. */
  lemma SleeperTakes(s: State, t: nat, c: Choice)
    requires Sized(s) && t < s.n && s.pc[t].WaitResume? && s.resume[t]
    ensures Step(s, t, c) == s.(resume := s.resume[t := false], pc := s.pc[t := Run])
  {
    assert s.st[t := s.st[t]] == s.st;
  }

  /** A VCPU that wants to emulate and finds itself rounded up, at its load or at its compare-and-swap,
      goes to sleep, and sleeps until it has its signal. */
  lemma GoesToSleep(s: State, t: nat, c: Choice)
    requires Sized(s) && t < s.n && (s.pc[t].EmLoad? || s.pc[t].EmCas?) && s.st[t] == Word(On, true)
    ensures var s' := Step(s, t, c);
            && s' == s.(pc := s.pc[t := WaitResume]) && Sized(s')
            && (!s.resume[t] ==> RoundupProgress.Blocked(s', t) && Step(s', t, c) == s')
  {
    assert s.st[t := s.st[t]] == s.st && s.resume[t := s.resume[t]] == s.resume;
  }

  /** A holder that sleeps on the signal takes it with the step that wakes it. */
  lemma HolderTakes(s: State, t: nat, c: Choice)
    requires Sized(s) && t < |s.pc| && s.pc[t].RuWait? && s.sig
    ensures Step(s, t, c) == s.(sig := false, pc := s.pc[t := RuCheck(s.pc[t].kind)])
  {
  }

  // ---------- a bound on what is left ----------

  /** The VCPUs from i on. */
  function Rem(n: nat, i: nat): nat { if i < n then n - i else 0 }

  /** How much a thread has before it at most, until it is out of the protocol and of emulation. */
  function Ahead(n: nat, p: Pc): nat {
    var reading := 21 + 6 * n + 12 * U16;
    match p
    case OnLoad(why) => if why.EndEmulation? then 8 else 0
    case OnCas(why, _) => if why.EndEmulation? then 6 else 0
    case OnNotify => 4
    case OnSig => 3
    case Emu => 9
    case RelDec => 8
    case RelSem => 9
    case RelCheck => 10
    case ParWait => 10
    case Exit(_) => 11
    case ResLoad(_, i) => 12 + 6 * Rem(n, i)
    case ResCas(_, i, _) => 15 + 6 * Rem(n, i + 1)
    case ResSig(_, i) => 13 + 6 * Rem(n, i + 1)
    case EndStore(_, _) => 13 + 6 * n
    case EndRead(_) => 14 + 6 * n
    case UnYield(_) => 15 + 6 * n
    case Held => 16 + 6 * n
    case ParSub => 17 + 6 * n
    case ParHeld => 18 + 6 * n
    case ParUnyield => 19 + 6 * n
    case ParAcquire => 20 + 6 * n
    case ParRelease(left) => 19 + 6 * n + left
    case ParStore(callers) => 20 + 6 * n + 4 * callers
    case ParRead => reading
    case RuWait(_) => reading + 1
    case RuCheck(_) => reading + 2
    case RuLoad(_, i) => reading + 3 + 10 * Rem(n, i)
    case RuCas(_, i, _) => reading + 9 + 10 * Rem(n, i + 1)
    case RuDec(_, i) => reading + 7 + 10 * Rem(n, i + 1)
    case RuSig(_, i) => reading + 6 + 10 * Rem(n, i + 1)
    case Enter(_) => reading + 4 + 10 * n
    case YSig(_) => reading + 7 + 10 * n
    case YDec(_) => reading + 8 + 10 * n
    case YInc(_) => reading + 9 + 10 * n
    case _ => 0
  }

  /** A VCPU thread is about to lose its compare-and-swap. */
  predicate Loses(p: Pc, w: Word) { p.OnCas? && p.cur != w }

  function Losers(s: State): (b: seq<bool>)
    requires Sized(s)
    ensures |b| == s.n && forall i :: 0 <= i < s.n ==> b[i] == Loses(s.pc[i], s.st[i])
  {
    seq(s.n, i requires 0 <= i < s.n && Sized(s) => Loses(s.pc[i], s.st[i]))
  }

  /** So is the holder. */
  predicate HolderLoses(s: State)
    requires Sized(s)
  {
    var p := HolderPc(s);
    (p.RuCas? || p.ResCas?) && p.i < s.n && p.cur != s.st[p.i]
  }

  /** What lies in the signal and in num_waiters. */
  function Stored(s: State): nat { 2 * One(s.sig) + 3 * s.numWaiters }

  function Extra(s: State): nat
    requires Sized(s)
  {
    One(HolderLoses(s)) + Stored(s)
  }

  function Rank(s: State): nat
    requires Sized(s)
  {
    Weigh(s.pc, p => Ahead(s.n, p)) + Count(Losers(s), Id) + Extra(s)
  }

  /** The step starts no new roundup. */
  predicate GoesOn(p: Pc, c: Choice) { p.Emu? ==> !c.Exclusive? && !c.Parallel? }

  /** Thread t has gone from p to q. */
  ghost predicate Goes(s: State, s': State, t: nat) {
    Sized(s) && Sized(s') && s'.n == s.n && t < |s.pc| == |s'.pc| && s'.pc == s.pc[t := s'.pc[t]]
  }

  /** Whoever is about to compare and swap after a step of its own has seen the word as it is. */
  ghost predicate Fresh(s: State, t: nat)
    requires Sized(s) && t < |s.pc|
  {
    var p := s.pc[t];
    (p.OnCas? && t < s.n ==> p.cur == s.st[t]) && ((p.RuCas? || p.ResCas?) && p.i < s.n ==> p.cur == s.st[p.i])
  }

  /** What a step takes off, with so much to spare. */
  ghost predicate Cheaper(s: State, s': State, t: nat, spare: nat) {
    && Goes(s, s', t) && Fresh(s', t) && (s'.mutex == s.mutex || s'.mutex == By(t) || !s'.mutex.By?)
    && Ahead(s.n, s'.pc[t]) + Stored(s') + spare < Ahead(s.n, s.pc[t]) + Stored(s)
  }

  lemma LosersStay(s: State, s': State, t: nat)
    requires Goes(s, s', t) && s'.st == s.st && Fresh(s', t)
    ensures Count(Losers(s'), Id) + One(t < s.n && Loses(s.pc[t], s.st[t])) == Count(Losers(s), Id)
  {
    if t < s.n {
      assert Losers(s') == Losers(s)[t := false];
      CountUpdate(Losers(s), t, false, Id);
    } else {
      assert Losers(s') == Losers(s);
    }
  }

  /** A step that changes no word makes nobody lose who did not. */
  lemma HolderStays(s: State, s': State, t: nat)
    requires Goes(s, s', t) && s'.st == s.st && Fresh(s', t)
    requires s'.mutex == s.mutex || s'.mutex == By(t) || !s'.mutex.By?
    ensures HolderLoses(s') ==> HolderLoses(s) && s.mutex != By(t)
  {
  }

  /** A step of the holder leaves it not about to lose. */
  lemma HolderFresh(s: State, s': State, t: nat)
    requires Goes(s, s', t) && Fresh(s', t) && s.mutex == By(t)
    requires s'.mutex == s.mutex || s'.mutex == By(t) || !s'.mutex.By?
    ensures !HolderLoses(s')
  {
  }

  lemma LosersMore(s: State, s': State, t: nat, i: nat)
    requires Goes(s, s', t) && i < s.n && s'.st == s.st[i := s'.st[i]] && !s'.pc[t].OnCas?
    ensures Count(Losers(s'), Id) <= Count(Losers(s), Id) + One(i != t)
  {
    var b := if t < s.n then Losers(s)[t := false] else Losers(s);
    if t < s.n { CountUpdate(Losers(s), t, false, Id); }
    assert Losers(s') == b[i := Losers(s')[i]];
    CountUpdate(b, i, Losers(s')[i], Id);
  }

  lemma Weighs(s: State, s': State, t: nat)
    requires Goes(s, s', t)
    ensures Weigh(s'.pc, p => Ahead(s'.n, p)) + Ahead(s.n, s.pc[t]) ==
            Weigh(s.pc, p => Ahead(s.n, p)) + Ahead(s.n, s'.pc[t])
  {
    WeighUpdate(s.pc, t, s'.pc[t], p => Ahead(s.n, p));
    WeighSame(s'.pc, p => Ahead(s.n, p), p => Ahead(s'.n, p));
  }

  lemma {:induction false} WeighSame<T>(xs: seq<T>, v: T -> nat, w: T -> nat)
    requires forall x :: v(x) == w(x)
    ensures Weigh(xs, v) == Weigh(xs, w)
  {
    if xs != [] { WeighSame(xs[..|xs| - 1], v, w); }
  }

  /** The word of VCPU i has changed by a step of t: its own, or that of the holder. */
  ghost predicate Changes(s: State, s': State, t: nat, i: nat) {
    && Goes(s, s', t) && i < s.n && s'.st == s.st[i := s'.st[i]] && !s'.pc[t].OnCas?
    && (i == t || s.mutex == By(t))
  }

  /** A lost compare-and-swap has been taken note of. */
  ghost predicate Notes(s: State, s': State, t: nat) {
    && Goes(s, s', t) && s'.st == s.st && Fresh(s', t) && s'.mutex == s.mutex
    && Ahead(s.n, s'.pc[t]) + Stored(s') == Ahead(s.n, s.pc[t]) + Stored(s)
    && ((t < s.n && Loses(s.pc[t], s.st[t])) || (s.mutex == By(t) && HolderLoses(s)))
  }

  lemma RankDrops(s: State, s': State, t: nat, i: nat)
    requires || (s'.st == s.st && Cheaper(s, s', t, 0)) || Notes(s, s', t)
             || (Changes(s, s', t, i) && Cheaper(s, s', t, 1))
    ensures Sized(s) && Sized(s') && Rank(s') < Rank(s)
  {
    hide Ahead, Loses, HolderLoses, Fresh;
    Weighs(s, s', t);
    if s'.st == s.st {
      LosersStay(s, s', t);
      HolderStays(s, s', t);
    } else {
      LosersMore(s, s', t, i);
      if s.mutex == By(t) { HolderFresh(s, s', t); }
    }
  }

  // ---------- every step of a thread in the protocol ----------

  /** What the invariant says that matters to the count. */
  ghost predicate Ready(s: State, t: nat) {
    && Sized(s) && t < |s.pc| && s.count < 3 * U16
    && (s.pc[t].RuCas? || s.pc[t].ResCas? || s.pc[t].RuDec? || s.pc[t].RuSig? || s.pc[t].ResSig? ==> s.pc[t].i < s.n)
    && (s.pc[t].RelDec? ==> s.numWaiters > 0)
  }

  /** What a step takes off. */
  ghost predicate Takes(s: State, s': State, t: nat) {
    || (s'.st == s.st && Cheaper(s, s', t, 0)) || Notes(s, s', t)
    || (exists i :: Changes(s, s', t, i) && Cheaper(s, s', t, 1))
  }

  lemma YieldDrops(s: State, t: nat)
    requires Ready(s, t) && (s.pc[t].YInc? || s.pc[t].YDec? || s.pc[t].YSig? || s.pc[t].Enter?)
    requires !RoundupProgress.Blocked(s, t)
    ensures var s' := StepRoundup(s, t); s'.st == s.st && Cheaper(s, s', t, 0)
  {
  }

  lemma LookDrops(s: State, t: nat)
    requires Ready(s, t) && s.pc[t].RuLoad?
    ensures var s' := StepRoundup(s, t); s'.st == s.st && Cheaper(s, s', t, 0)
  {
  }

  lemma MarkDrops(s: State, t: nat)
    requires Ready(s, t) && s.mutex == By(t) && s.pc[t].RuCas?
    ensures var s', p := StepRoundup(s, t), s.pc[t];
            if s.st[p.i] == p.cur then Changes(s, s', t, p.i) && Cheaper(s, s', t, 1)
            else s'.st == s.st && (Cheaper(s, s', t, 0) || Notes(s, s', t))
  {
  }

  lemma CountDrops(s: State, t: nat)
    requires Ready(s, t) && (s.pc[t].RuDec? || s.pc[t].RuSig? || s.pc[t].RuCheck? || s.pc[t].RuWait?)
    requires !RoundupProgress.Blocked(s, t)
    ensures var s' := StepRoundup(s, t); s'.st == s.st && Cheaper(s, s', t, 0)
  {
  }

  lemma LetInDrops(s: State, t: nat)
    requires Ready(s, t) && (s.pc[t].ParRead? || s.pc[t].ParStore? || s.pc[t].ParRelease? || s.pc[t].ParAcquire?)
    requires !RoundupProgress.Blocked(s, t)
    ensures var s' := StepParallel(s, t); s'.st == s.st && Cheaper(s, s', t, 0)
  {
  }

  lemma JoinDrops(s: State, t: nat)
    requires Ready(s, t) && (s.pc[t].ParUnyield? || s.pc[t].ParHeld?)
    ensures var s' := StepParallel(s, t); s'.st == s.st && Cheaper(s, s', t, 0)
  {
  }

  lemma LeaveDrops(s: State, t: nat)
    requires Ready(s, t) && (s.pc[t].ParSub? || s.pc[t].ParWait?) && !RoundupProgress.Blocked(s, t)
    ensures var s' := StepParallel(s, t); s'.st == s.st && Cheaper(s, s', t, 0)
  {
  }

  lemma ReleaseDrops(s: State, t: nat)
    requires Ready(s, t) && (s.pc[t].RelCheck? || s.pc[t].RelSem? || s.pc[t].RelDec?)
    ensures var s' := StepParallel(s, t); s'.st == s.st && Cheaper(s, s', t, 0)
  {
  }

  lemma EndDrops(s: State, t: nat)
    requires Ready(s, t) && (s.pc[t].Held? || s.pc[t].UnYield?)
    ensures var s' := StepResume(s, t); s'.st == s.st && Cheaper(s, s', t, 0)
  {
  }

  lemma CoreDrops(s: State, t: nat)
    requires Ready(s, t) && (s.pc[t].EndRead? || s.pc[t].EndStore?)
    ensures var s' := StepResume(s, t); s'.st == s.st && Cheaper(s, s', t, 0)
  {
  }

  lemma ExitDrops(s: State, t: nat)
    requires Ready(s, t) && s.pc[t].Exit?
    ensures var s' := StepResume(s, t); s'.st == s.st && Cheaper(s, s', t, 0)
  {
  }

  lemma ResumeDrops(s: State, t: nat)
    requires Ready(s, t) && (s.pc[t].ResLoad? || s.pc[t].ResSig?)
    ensures var s' := StepResume(s, t); s'.st == s.st && Cheaper(s, s', t, 0)
  {
  }

  lemma UnmarkDrops(s: State, t: nat)
    requires Ready(s, t) && s.mutex == By(t) && s.pc[t].ResCas?
    ensures var s', p := StepResume(s, t), s.pc[t];
            if s.st[p.i] == p.cur then Changes(s, s', t, p.i) && Cheaper(s, s', t, 1)
            else s'.st == s.st && (Cheaper(s, s', t, 0) || Notes(s, s', t))
  {
  }

  lemma CpuDrops(s: State, t: nat, c: Choice)
    requires Ready(s, t) && t < s.n && IsCpu(s.pc[t]) && Engaged(s.pc[t]) && GoesOn(s.pc[t], c)
    ensures var s' := StepCpu(s, t, c);
            || (s'.st == s.st && Cheaper(s, s', t, 0)) || Notes(s, s', t)
            || (Changes(s, s', t, t) && Cheaper(s, s', t, 1))
  {
  }

  /** The invariant gives what the count needs. */
  lemma IsReady(s: State, t: nat)
    requires Inv(s) && t < |s.pc|
    ensures Ready(s, t) && !s.pc[t].Aborted? && (IsCpu(s.pc[t]) ==> t < s.n)
    ensures s.pc[t].RuCas? || s.pc[t].ResCas? ==> s.mutex == By(t)
  {
    hide Inv, Now, Accounted, Count, Core;
    Here(s, Now(s), t);
    Bounds(s, t);
    HolderOf(s, t);
    CountLimit(s);
  }

  lemma CountLimit(s: State)
    requires Inv(s)
    ensures s.count < 3 * U16
  {
    hide Inv, Now, Accounted, Count;
    CoreOf(s, Now(s));
    CountBound(Classes(s), IsFirst);
    CountBound(Classes(s), IsLater);
    CountBound(Classes(s), IsJoined);
  }

  /** Every step of a thread that is in the protocol or in emulation, is not blocked and starts no new
      roundup, brings the end nearer. */
  lemma StepDrops(s: State, t: nat, c: Choice)
    requires Inv(s) && t < |s.pc| && Engaged(s.pc[t]) && Sized(s) && !RoundupProgress.Blocked(s, t)
    requires GoesOn(s.pc[t], c)
    ensures Sized(Step(s, t, c)) && Rank(Step(s, t, c)) < Rank(s)
  {
    hide Inv, Ready, Engaged, RoundupProgress.Blocked, GoesOn, StepCpu, StepRoundup, StepParallel, StepResume;
    hide Cheaper, Notes, Changes;
    IsReady(s, t);
    NotAtRest(s.pc[t]);
    var p, s' := s.pc[t], Step(s, t, c);
    if IsCpu(p) {
      CpuDrops(s, t, c);
    } else if IsResume(p) {
      if p.ResCas? { UnmarkDrops(s, t); }
      else if p.ResLoad? || p.ResSig? { ResumeDrops(s, t); }
      else if p.Exit? { ExitDrops(s, t); }
      else if p.EndRead? || p.EndStore? { CoreDrops(s, t); }
      else { EndDrops(s, t); }
    } else if IsParallel(p) {
      if p.RelCheck? || p.RelSem? || p.RelDec? { ReleaseDrops(s, t); }
      else if p.ParRead? || p.ParStore? || p.ParRelease? || p.ParAcquire? { LetInDrops(s, t); }
      else if p.ParUnyield? || p.ParHeld? { JoinDrops(s, t); }
      else { LeaveDrops(s, t); }
    } else if p.RuCas? {
      MarkDrops(s, t);
    } else if p.RuLoad? {
      LookDrops(s, t);
    } else if p.YInc? || p.YDec? || p.YSig? || p.Enter? {
      YieldDrops(s, t);
    } else {
      CountDrops(s, t);
    }
    RankDrops(s, s', t, if p.RuCas? || p.ResCas? then p.i else t);
  }

  lemma NotAtRest(p: Pc)
    requires Engaged(p)
    ensures !p.Idle?
  {
  }

  // ---------- whoever is in the protocol gets through ----------

  /** A step of a thread that is under way. */
  ghost predicate Winds(s: State, s': State) {
    && Sized(s)
    && exists t: nat, c: Choice ::
         && t < |s.pc| && Engaged(s.pc[t]) && !RoundupProgress.Blocked(s, t) && GoesOn(s.pc[t], c)
         && s' == Step(s, t, c)
  }

  ghost predicate Winding(run: seq<State>) {
    run != [] && forall k :: 0 <= k < |run| - 1 ==> Winds(run[k], run[k + 1])
  }

  lemma WindsDrops(s: State, s': State)
    requires Inv(s) && Winds(s, s')
    ensures Inv(s') && Sized(s) && Sized(s') && Rank(s') < Rank(s)
  {
    hide Inv, Rank, Engaged, RoundupProgress.Blocked, GoesOn, Step;
    var t: nat, c: Choice :| t < |s.pc| && Engaged(s.pc[t]) && !RoundupProgress.Blocked(s, t) && GoesOn(s.pc[t], c) &&
                             s' == Step(s, t, c);
    StepInv(s, t, c);
    StepDrops(s, t, c);
  }

  /** However the threads under way are scheduled, they take no more steps than the rank says. */
  lemma {:induction false} NobodyGoesOnForever(past: seq<State>, k: nat, run: seq<State>)
    requires IsRun(past) && k < |past| && Winding(run) && run[0] == past[k]
    ensures Sized(past[k]) && |run| <= Rank(past[k]) + 1
    ensures Inv(run[|run| - 1]) && Sized(run[|run| - 1]) && |run| - 1 + Rank(run[|run| - 1]) <= Rank(past[k])
    decreases |run|
  {
    hide Inv, Rank, Winds, IsRun;
    RunInv(past, k);
    InvSized(past[k]);
    if |run| > 1 {
      var n := |run| - 2;
      assert Winding(run[..n + 1]);
      NobodyGoesOnForever(past, k, run[..n + 1]);
      assert Winds(run[n], run[n + 1]);
      WindsDrops(run[n], run[n + 1]);
    }
  }

  lemma InvSized(s: State)
    requires Inv(s)
    ensures Sized(s)
  {
  }

  /** Nobody is in the protocol or in emulation. */
  predicate AllOut(s: State) { forall t :: 0 <= t < |s.pc| ==> !Engaged(s.pc[t]) }

  /** As long as anybody is in the protocol or in emulation there is such a step. */
  lemma SomebodyWinds(s: State) returns (s': State)
    requires Inv(s) && !AllOut(s)
    ensures Winds(s, s')
  {
    hide Inv, Engaged, RoundupProgress.Blocked, Step, GoesOn;
    InvSized(s);
    var t :| 0 <= t < |s.pc| && Engaged(s.pc[t]);
    var u := UnderWay(s, t);
    GoOnIs(s.pc[u]);
    s' := Step(s, u, Leave);
  }

  lemma GoOnIs(p: Pc)
    ensures GoesOn(p, Leave)
  {
  }

  /** While somebody is under way, somebody under way is not blocked. */
  lemma UnderWay(s: State, t: nat) returns (u: nat)
    requires Inv(s) && Sized(s) && t < |s.pc| && Engaged(s.pc[t])
    ensures u < |s.pc| && Engaged(s.pc[u]) && !RoundupProgress.Blocked(s, u)
  {
    hide Inv, Engaged, RoundupProgress.Blocked;
    if RoundupProgress.Blocked(s, t) {
      BlockedCan(s, t);
      u :| u < |s.pc| && Engaged(s.pc[u]) && !RoundupProgress.Blocked(s, u);
    } else {
      u := t;
    }
  }

  lemma WindsSteady(s: State, s': State)
    requires Winds(s, s')
    ensures s'.n == s.n && |s'.pc| == |s.pc|
  {
    hide Engaged, RoundupProgress.Blocked, GoesOn, Step;
    var t: nat, c: Choice :| t < |s.pc| && Engaged(s.pc[t]) && !RoundupProgress.Blocked(s, t) && GoesOn(s.pc[t], c) &&
                             s' == Step(s, t, c);
    StepSteady(s, t, c);
  }

  /** Once everybody is out the mutex is free, no VCPU is marked, and none sleeps without its signal. */
  lemma OutIs(s: State)
    requires Inv(s) && Sized(s) && AllOut(s)
    ensures s.mutex.Free? && forall i :: 0 <= i < s.n ==>
              !s.st[i].roundedup && !RoundupProgress.Blocked(s, i) && s.st[i].base == ClassOf(s.pc[i]).base()
  {
    hide Inv, Engaged, ClassOf, Now, Accounted, RoundupProgress.Blocked;
    if !s.mutex.Free? {
      MutexCan(s);
      assert false;
    }
    forall i | 0 <= i < s.n
      ensures !s.st[i].roundedup && !RoundupProgress.Blocked(s, i) && s.st[i].base == ClassOf(s.pc[i]).base()
    {
      Here(s, Now(s), i);
      CalmNow(s);
      if RoundupProgress.Blocked(s, i) { BlockedCan(s, i); }
    }
  }

  lemma CalmNow(s: State)
    requires s.mutex.Free?
    ensures Now(s) == Calm(s.n)
  {
  }

  /** And it can always be brought there. */
  lemma {:induction false} WindsDown(s: State) returns (run: seq<State>)
    requires Inv(s) && Sized(s)
    ensures Winding(run) && run[0] == s && Inv(run[|run| - 1]) && Sized(run[|run| - 1]) && AllOut(run[|run| - 1])
    ensures run[|run| - 1].n == s.n && |run[|run| - 1].pc| == |s.pc|
    decreases Rank(s)
  {
    hide Inv, Rank, AllOut, Winds;
    if AllOut(s) {
      run := [s];
    } else {
      var s' := SomebodyWinds(s);
      WindsDrops(s, s');
      WindsSteady(s, s');
      var rest := WindsDown(s');
      run := [s] + rest;
      forall k | 0 <= k < |run| - 1
        ensures Winds(run[k], run[k + 1])
      {
        if k > 0 { assert run[k] == rest[k - 1] && run[k + 1] == rest[k]; }
      }
    }
  }

  // ---------- every VCPU gets back into emulation ----------

  ghost predicate Steps(run: seq<State>) { run != [] && forall k :: 0 <= k < |run| - 1 ==> Next(run[k], run[k + 1]) }

  function Last(run: seq<State>): State
    requires run != []
  {
    run[|run| - 1]
  }

  lemma WindingSteps(run: seq<State>)
    requires Winding(run)
    ensures Steps(run)
  {
    hide Engaged, RoundupProgress.Blocked, GoesOn, Step;
    forall k | 0 <= k < |run| - 1
      ensures Next(run[k], run[k + 1])
    {
      assert Winds(run[k], run[k + 1]);
    }
  }

  lemma JoinSteps(a: seq<State>, b: seq<State>)
    requires Steps(a) && Steps(b) && Last(a) == b[0]
    ensures Steps(a + b[1..]) && (a + b[1..])[0] == a[0] && Last(a + b[1..]) == Last(b)
  {
    hide Next;
    var run := a + b[1..];
    forall k | 0 <= k < |run| - 1
      ensures Next(run[k], run[k + 1])
    {
      if k >= |a| - 1 { assert run[k] == b[k - (|a| - 1)] && run[k + 1] == b[k + 1 - (|a| - 1)]; }
    }
  }

  lemma OneStep(s: State, t: nat, c: Choice, rest: seq<State>)
    requires Sized(s) && t < |s.pc| && Steps(rest) && rest[0] == Step(s, t, c)
    ensures Steps([s] + rest) && Last([s] + rest) == Last(rest)
  {
    hide Step;
    assert Next(s, rest[0]);
    assert forall k :: 0 < k < |[s] + rest| ==> ([s] + rest)[k] == rest[k - 1];
  }

  /** Where a VCPU thread is between two emulations. */
  predicate Between(p: Pc) {
    p.Run? || p.OffLoad? || p.OffCas? || p.WaitOn? || p.EmLoad? || p.EmCas? || p.WaitResume? ||
    ((p.OnLoad? || p.OnCas?) && p.why.PowerOn?)
  }

  lemma OutBetween(s: State, i: nat)
    requires Inv(s) && Sized(s) && i < |s.pc| && !Engaged(s.pc[i])
    ensures if i < s.n then Between(s.pc[i]) else s.pc[i].Idle?
  {
    hide Inv, Now, Accounted, ClassOf;
    Here(s, Now(s), i);
  }

  /** Steps to the next emulation at most. */
  function ToEmu(p: Pc, w: Word): nat {
    match p
    case OffLoad => 10
    case OffCas(cur) => 8 + One(cur != w)
    case WaitOn => 7
    case OnLoad(_) => 6
    case OnCas(_, cur) => 4 + One(cur != w)
    case WaitResume => 4
    case Run => 3
    case EmLoad => 2
    case EmCas => 1
    case _ => 0
  }

  /** The state after a step of VCPU i that touches only its own. */
  function OwnState(s: State, i: nat, q: Pc, me: Cpu): State
    requires Sized(s) && i < s.n
  {
    s.(st := s.st[i := me.w], resume := s.resume[i := me.signalled], pc := s.pc[i := q])
  }

  lemma OwnIs(s: State, i: nat, c: Choice)
    requires Sized(s) && i < s.n && (Between(s.pc[i]) || s.pc[i].OnLoad? || s.pc[i].OnCas? || s.pc[i].Emu?)
    requires !(s.pc[i].Emu? && c.Parallel?)
    ensures var (q, me) := Own(s.pc[i], Cpu(s.st[i], s.resume[i]), c); Step(s, i, c) == OwnState(s, i, q, me)
  {
    hide Own;
  }

  /** With nobody in a roundup, the step of a thread on its way to emulation. */
  lemma SoloStep(s: State, i: nat)
    requires Inv(s) && Sized(s) && s.mutex.Free? && i < s.n && Between(s.pc[i])
    ensures var s' := Step(s, i, Emulation);
            && Goes(s, s', i) && s'.mutex.Free? && ToEmu(s'.pc[i], s'.st[i]) < ToEmu(s.pc[i], s.st[i])
            && (Between(s'.pc[i]) || (s'.pc[i].Emu? && s'.st[i] == Word(Emulate, false)))
  {
    hide Inv, Now, Accounted, ClassOf, Own, Step, ToEmu, Between;
    Here(s, Now(s), i);
    CalmNow(s);
    if s.pc[i].WaitResume? { FreeSleeper(s, i); }
    SoloWord(s, i);
    OwnIs(s, i, Emulation);
    OwnAlone(s.pc[i], Cpu(s.st[i], s.resume[i]));
  }

  lemma SoloWord(s: State, i: nat)
    requires Sized(s) && i < s.n && s.mutex.Free? && Now(s) == Calm(s.n) && Fits(s, Now(s), i)
    requires Legal(s.n, i, s.pc[i]) && Between(s.pc[i])
    ensures s.st[i] == Word(if ClassOf(s.pc[i]) == Quiet(false) then Off else On, false)
    ensures s.pc[i].OnCas? ==> s.pc[i].cur.base.Off?
  {
    hide Accounted;
  }

  lemma OwnAlone(p: Pc, me: Cpu)
    requires Between(p) && me.w == Word(if ClassOf(p) == Quiet(false) then Off else On, false)
    requires (p.WaitResume? ==> me.signalled) && (p.OnCas? ==> p.cur.base.Off?)
    ensures var (q, me') := Own(p, me, Emulation);
            ToEmu(q, me'.w) < ToEmu(p, me.w) && (Between(q) || (q.Emu? && me'.w == Word(Emulate, false)))
  {
  }

  lemma {:induction false} Solo(s: State, i: nat) returns (run: seq<State>)
    requires Inv(s) && Sized(s) && s.mutex.Free? && i < s.n && Between(s.pc[i])
    ensures Steps(run) && run[0] == s && Inv(Last(run)) && Goes(s, Last(run), i) && Last(run).mutex.Free?
    ensures Last(run).pc[i].Emu? && Last(run).st[i] == Word(Emulate, false)
    decreases ToEmu(s.pc[i], s.st[i])
  {
    hide Inv, Step, ToEmu, Next;
    var s' := Step(s, i, Emulation);
    SoloStep(s, i);
    StepInv(s, i, Emulation);
    NextIs(s, i, Emulation);
    if Between(s'.pc[i]) {
      var rest := Solo(s', i);
      OneStep(s, i, Emulation, rest);
      run := [s] + rest;
    } else {
      run := [s, s'];
    }
  }

  lemma NextIs(s: State, t: nat, c: Choice)
    requires Sized(s) && t < |s.pc|
    ensures Next(s, Step(s, t, c))
  {
  }

  /** From every reachable state each VCPU can get back into emulation: one that sleeps while the world
      is stopped, one that has been switched off, and one that is in a roundup itself. */
  lemma BackInEmulation(past: seq<State>, k: nat, i: nat) returns (run: seq<State>)
    requires IsRun(past) && k < |past| && Sized(past[k]) && i < past[k].n
    ensures Steps(run) && run[0] == past[k] && Sized(Last(run)) && i < Last(run).n && Inv(Last(run))
    ensures Last(run).pc[i].Emu? && Last(run).st[i] == Word(Emulate, false) && Last(run).mutex.Free?
    ensures forall u :: 0 <= u < |Last(run).pc| && u != i ==> !Engaged(Last(run).pc[u])
  {
    hide Inv, IsRun, Engaged, Next;
    RunInv(past, k);
    var a := WindsDown(past[k]);
    WindingSteps(a);
    var s := Last(a);
    OutIs(s);
    OutBetween(s, i);
    var b := Solo(s, i);
    JoinSteps(a, b);
    run := a + b[1..];
  }

  /** And each can be switched off. */
  lemma CanSwitchOff(past: seq<State>, k: nat, i: nat) returns (run: seq<State>)
    requires IsRun(past) && k < |past| && Sized(past[k]) && i < past[k].n
    ensures Steps(run) && run[0] == past[k] && Sized(Last(run)) && i < Last(run).n
    ensures Last(run).pc[i].WaitOn? && Last(run).st[i] == Word(Off, false)
  {
    hide Inv, IsRun, Engaged, Next, Step;
    var a := BackInEmulation(past, k, i);
    var b := LeavesAndStops(Last(a), i);
    JoinSteps(a, b);
    run := a + b[1..];
  }

  lemma LeavesAndStops(s: State, i: nat) returns (run: seq<State>)
    requires Sized(s) && i < s.n && s.pc[i].Emu? && s.st[i] == Word(Emulate, false)
    ensures Steps(run) && run[0] == s && Sized(Last(run)) && i < Last(run).n
    ensures Last(run).pc[i].WaitOn? && Last(run).st[i] == Word(Off, false)
  {
    hide Own, Next, OwnPoint;
    LeavesOwn(s.resume[i]);
    var s1 := Onward(s, i, Leave, OnLoad(EndEmulation), Word(Emulate, false));
    var s2 := Onward(s1, i, Leave, OnCas(EndEmulation, Word(Emulate, false)), Word(Emulate, false));
    var s3 := Onward(s2, i, Leave, Run, Word(On, false));
    assert Steps([s, s1, s2, s3]);
    var b := Stops(s3, i);
    JoinSteps([s, s1, s2, s3], b);
    run := [s, s1, s2, s3] + b[1..];
  }

  lemma Stops(s: State, i: nat) returns (run: seq<State>)
    requires Sized(s) && i < s.n && s.pc[i].Run? && s.st[i] == Word(On, false)
    ensures Steps(run) && run[0] == s && Sized(Last(run)) && i < Last(run).n
    ensures Last(run).pc[i].WaitOn? && Last(run).st[i] == Word(Off, false)
  {
    hide Own, Next, OwnPoint;
    LeavesOwn(s.resume[i]);
    var s1 := Onward(s, i, PowerOff, OffLoad, Word(On, false));
    var s2 := Onward(s1, i, PowerOff, OffCas(Word(On, false)), Word(On, false));
    var s3 := Onward(s2, i, PowerOff, WaitOn, Word(Off, false));
    run := [s, s1, s2, s3];
  }

  predicate OwnPoint(p: Pc) { Between(p) || p.OnLoad? || p.OnCas? || p.Emu? }

  lemma LeavesOwn(signalled: bool)
    ensures var emu, on, off := Cpu(Word(Emulate, false), signalled), Cpu(Word(On, false), signalled),
                                Cpu(Word(Off, false), signalled);
            && Own(Emu, emu, Leave) == (OnLoad(EndEmulation), emu)
            && Own(OnLoad(EndEmulation), emu, Leave) == (OnCas(EndEmulation, emu.w), emu)
            && Own(OnCas(EndEmulation, emu.w), emu, Leave) == (Run, on)
            && Own(Run, on, PowerOff) == (OffLoad, on)
            && Own(OffLoad, on, PowerOff) == (OffCas(on.w), on)
            && Own(OffCas(on.w), on, PowerOff) == (WaitOn, off)
    ensures OwnPoint(Emu) && OwnPoint(OnLoad(EndEmulation)) && OwnPoint(Run) && OwnPoint(OffLoad)
    ensures OwnPoint(OnCas(EndEmulation, Word(Emulate, false))) && OwnPoint(OffCas(Word(On, false)))
  {
  }

  lemma Onward(s: State, i: nat, c: Choice, q: Pc, w: Word) returns (s': State)
    requires Sized(s) && i < s.n && OwnPoint(s.pc[i]) && !(s.pc[i].Emu? && c.Parallel?)
    requires Own(s.pc[i], Cpu(s.st[i], s.resume[i]), c) == (q, Cpu(w, s.resume[i]))
    ensures Next(s, s') && Sized(s') && s'.n == s.n && s'.pc[i] == q && s'.st[i] == w && s'.resume[i] == s.resume[i]
  {
    hide Own, Step;
    s' := Step(s, i, c);
    OwnIs(s, i, c);
    NextIs(s, i, c);
  }

  // ---------- every caller gets the world stopped ----------

  /** On the way from an exclusive call to its return. */
  predicate Toward(p: Pc) {
    (p.YInc? || p.YDec? || p.YSig? || p.Enter? || p.RuLoad? || p.RuCas? || p.RuDec? || p.RuSig? || p.RuCheck? ||
     p.RuWait?) &&
    p.kind.Excl?
  }

  lemma TowardStep(s: State, t: nat)
    requires Sized(s) && t < |s.pc| && Toward(s.pc[t]) && !RoundupProgress.Blocked(s, t)
    ensures var s' := Step(s, t, Leave);
            Goes(s, s', t) && (Toward(s'.pc[t]) || s'.pc[t].Held? || s'.pc[t].Aborted?)
    ensures Engaged(s.pc[t])
  {
    hide StepCpu, StepParallel, StepResume;
  }

  /** A caller with nobody else under way is not blocked, and goes on to the return of its call. */
  lemma {:induction false} Gather(s: State, t: nat) returns (run: seq<State>)
    requires Inv(s) && Sized(s) && t < |s.pc| && Toward(s.pc[t])
    requires forall u :: 0 <= u < |s.pc| && u != t ==> !Engaged(s.pc[u])
    ensures Steps(run) && run[0] == s && Inv(Last(run)) && t < |Last(run).pc| && Last(run).pc[t].Held?
    decreases Rank(s)
  {
    hide Inv, Rank, Engaged, Step, Next, RoundupProgress.Blocked, Toward, GoesOn;
    TowardEngaged(s.pc[t]);
    var u := UnderWay(s, t);
    assert u == t;
    TowardStep(s, t);
    GoOnIs(s.pc[t]);
    StepDrops(s, t, Leave);
    StepInv(s, t, Leave);
    NextIs(s, t, Leave);
    var s' := Step(s, t, Leave);
    Bounds(s', t);
    if s'.pc[t].Held? {
      run := [s, s'];
    } else {
      var rest := Gather(s', t);
      OneStep(s, t, Leave, rest);
      run := [s] + rest;
    }
  }

  lemma TowardEngaged(p: Pc)
    requires Toward(p)
    ensures Engaged(p)
  {
  }

  lemma HeldStops(s: State, t: nat)
    requires Inv(s) && t < |s.pc| && s.pc[t].Held?
    ensures Sized(s) && s.mutex == By(t) && WorldStopped(s)
  {
    hide Inv;
    HolderOf(s, t);
    InvSized(s);
  }

  /** From every reachable state a caller from outside can get its roundup: `roundup` returns to it
      with the world stopped. */
  lemma OutsideGetsHeld(past: seq<State>, k: nat, t: nat) returns (run: seq<State>)
    requires IsRun(past) && k < |past| && Sized(past[k]) && past[k].n <= t < |past[k].pc|
    ensures Steps(run) && run[0] == past[k] && Sized(Last(run)) && t < |Last(run).pc|
    ensures Last(run).pc[t].Held? && Last(run).mutex == By(t) && WorldStopped(Last(run))
  {
    hide Inv, IsRun, Engaged, Next, Step;
    RunInv(past, k);
    var a := WindsDown(past[k]);
    WindingSteps(a);
    var s := Last(a);
    OutBetween(s, t);
    var s' := Step(s, t, Leave);
    CallIs(s, t);
    StepInv(s, t, Leave);
    NextIs(s, t, Leave);
    var b := Gather(s', t);
    OneStep(s, t, Leave, b);
    HeldStops(Last(b), t);
    JoinSteps(a, [s] + b);
    run := a + ([s] + b)[1..];
  }

  lemma CallIs(s: State, t: nat)
    requires Sized(s) && t < |s.pc| && s.pc[t].Idle?
    ensures Goes(s, Step(s, t, Leave), t) && Toward(Step(s, t, Leave).pc[t])
  {
  }

  /** And so can every VCPU, from its emulation. */
  lemma VcpuGetsHeld(past: seq<State>, k: nat, i: nat) returns (run: seq<State>)
    requires IsRun(past) && k < |past| && Sized(past[k]) && i < past[k].n
    ensures Steps(run) && run[0] == past[k] && Sized(Last(run)) && i < |Last(run).pc|
    ensures Last(run).pc[i].Held? && Last(run).mutex == By(i) && WorldStopped(Last(run))
  {
    hide Inv, IsRun, Engaged, Next, Step;
    var a := BackInEmulation(past, k, i);
    var s := Last(a);
    var s' := Step(s, i, Exclusive);
    VcpuCalls(s, i);
    StepInv(s, i, Exclusive);
    NextIs(s, i, Exclusive);
    var b := Gather(s', i);
    OneStep(s, i, Exclusive, b);
    HeldStops(Last(b), i);
    JoinSteps(a, [s] + b);
    run := a + ([s] + b)[1..];
  }

  lemma VcpuCalls(s: State, i: nat)
    requires Sized(s) && i < s.n && s.pc[i].Emu?
    ensures Goes(s, Step(s, i, Exclusive), i) && Toward(Step(s, i, Exclusive).pc[i])
  {
  }

  // ---------- and every caller returns ----------

  /** On the way out of a call that resumes the VM, the release of parked participants included. */
  predicate Leaving(p: Pc) { IsResume(p) || p.RelCheck? || p.RelSem? || p.RelDec? }

  /** A step on that way: nothing blocks it, and where the way ends. */
  ghost predicate OnItsWay(s: State, s': State, t: nat) {
    && Goes(s, s', t)
    && (Leaving(s'.pc[t]) || s'.pc[t].Aborted? || s'.pc[t] == (if t < s.n || s.pc[t].RelCheck? then Emu else Idle))
  }

  lemma LeavingStep(s: State, t: nat, c: Choice)
    requires Sized(s) && t < |s.pc| && Leaving(s.pc[t])
    ensures OnItsWay(s, Step(s, t, c), t)
    ensures Engaged(s.pc[t]) && !RoundupProgress.Blocked(s, t) && GoesOn(s.pc[t], c)
  {
    hide StepCpu, StepRoundup, StepParallel, StepResume, OnItsWay;
    if IsResume(s.pc[t]) { ResumeLeaves(s, t); } else { ReleaseLeaves(s, t); }
  }

  lemma ResumeLeaves(s: State, t: nat)
    requires Sized(s) && t < |s.pc| && IsResume(s.pc[t])
    ensures OnItsWay(s, StepResume(s, t), t)
  {
    hide Goes;
    ResumeGoes(s, t);
  }

  lemma ResumeGoes(s: State, t: nat)
    requires Sized(s) && t < |s.pc|
    ensures Goes(s, StepResume(s, t), t)
  {
  }

  lemma ReleaseLeaves(s: State, t: nat)
    requires Sized(s) && t < |s.pc| && (s.pc[t].RelCheck? || s.pc[t].RelSem? || s.pc[t].RelDec?)
    ensures OnItsWay(s, StepParallel(s, t), t)
  {
  }

  /** Whoever holds the world stopped, or ends a parallel roundup, gets out on its own, without having
      to wait for anybody: a VCPU back into its emulation, a caller from outside to where it was. */
  lemma {:induction false} ResumeReturns(s: State, t: nat) returns (run: seq<State>)
    requires Inv(s) && Sized(s) && t < |s.pc| && Leaving(s.pc[t])
    ensures Alone(run, t) && run[0] == s && Inv(Last(run)) && t < |Last(run).pc|
    ensures Last(run).pc[t] == if t < s.n then Emu else Idle
    ensures Last(run).mutex != By(t)
    decreases Rank(s)
  {
    hide Inv, Rank, Engaged, Step, RoundupProgress.Blocked, Leaving, GoesOn;
    LeavingStep(s, t, Leave);
    StepDrops(s, t, Leave);
    StepInv(s, t, Leave);
    var s' := Step(s, t, Leave);
    Bounds(s', t);
    if Leaving(s'.pc[t]) {
      var rest := ResumeReturns(s', t);
      run := [s] + rest;
      assert forall k :: 0 < k < |run| ==> run[k] == rest[k - 1];
    } else {
      if s.pc[t].RelCheck? { ReleasesVcpu(s, t); }
      HolderOf(s', t);
      NotHolding(s'.pc[t]);
      run := [s, s'];
    }
  }

  /** All the steps are thread t's. */
  ghost predicate Alone(run: seq<State>, t: nat) {
    run != [] && forall k :: 0 <= k < |run| - 1 ==> AloneStep(run[k], run[k + 1], t)
  }

  ghost predicate AloneStep(s: State, s': State, t: nat) {
    Sized(s) && t < |s.pc| && exists c :: s' == Step(s, t, c)
  }

  lemma ReleasesVcpu(s: State, t: nat)
    requires Inv(s) && t < |s.pc| && s.pc[t].RelCheck?
    ensures t < s.n
  {
    hide Inv, Now, Accounted;
    Here(s, Now(s), t);
  }

  lemma NotHolding(p: Pc)
    requires p.Emu? || p.Idle?
    ensures !Holds(p)
  {
  }
}
