/** Every step of the thread that holds, takes or releases the roundup mutex keeps the
    invariant. */
module RoundupHolder {
  import opened MachineWords
  import opened Counting
  import opened RoundupModel
  import opened RoundupInvariant
  import opened RoundupSteps

  /** Only the holder moves, and the phase stays the same for everybody else. */
  predicate Alike(h: Phase, h': Phase) {
    h'.lo == h.lo && h'.hi == h.hi && h'.counting == h.counting && h'.pending == h.pending &&
    h'.open == h.open && h'.closing == h.closing && h'.team == h.team && h'.waking == h.waking
  }

  ghost predicate HolderFrame(s: State, s': State, t: nat) {
    && Sized(s) && Sized(s') && s'.n == s.n && t < |s.pc| == |s'.pc| && s'.pc == s.pc[t := s'.pc[t]]
  }

  ghost predicate Kept(s: State, s': State) {
    && s'.mutex == s.mutex && s'.st == s.st && s'.resume == s.resume
    && s'.numWaiters == s.numWaiters && s'.progressing == s.progressing
  }

  lemma AlikeShape(s: State, s': State, h: Phase, h': Phase, t: nat)
    requires Shape(s, h) && HolderFrame(s, s', t) && Kept(s, s') && s.mutex == By(t) && Alike(h, h')
    requires ThreadOk(s.n, s.mutex, h', s.numWaiters, t, s'.pc[t])
    ensures Shape(s', h')
    ensures Stopped(s', h') == Stopped(s, h)
  {
    assert ThreadOk(s.n, s.mutex, h, s.numWaiters, t, s.pc[t]);
    forall u | 0 <= u < |s.pc|
      ensures ThreadOk(s'.n, s'.mutex, h', s'.numWaiters, u, s'.pc[u])
    {
      assert ThreadOk(s.n, s.mutex, h, s.numWaiters, u, s.pc[u]);
    }
    forall i | 0 <= i < s.n
      ensures VcpuOk(s'.mutex, h', i, ClassOf(s'.pc[i]), s'.st[i], s'.resume[i]) && SameAccount(s, h, s', h', i)
    {
      assert VcpuOk(s.mutex, h, i, ClassOf(s.pc[i]), s.st[i], s.resume[i]);
    }
    SameStopped(s, h, s', h');
  }

  /** All that is left to check is the counters against the unchanged tally. */
  lemma AlikeInv(s: State, s': State, h: Phase, h': Phase, t: nat)
    requires Inv(s) && h == Now(s) && HolderFrame(s, s', t) && Kept(s, s') && s.mutex == By(t) && Alike(h, h')
    requires ThreadOk(s.n, s.mutex, h', s.numWaiters, t, s'.pc[t]) && h' == PhaseOf(s.n, t < s.n, s'.pc[t])
    requires SameClass(ClassOf(s.pc[t]), ClassOf(s'.pc[t])) && (h'.asleep ==> s.progressing > 0)
    requires Core(s', h', Tallies(s, h))
    ensures Inv(s')
  {
    hide Shape, ThreadOk, Core, ClassOf;
    AlikeShape(s, s', h, h', t);
    TalliesMove(s, h, s', h', t);
    SameTally(s.n, t, Tallies(s, h), Tallies(s', h'), ClassOf(s.pc[t]), ClassOf(s'.pc[t]));
    assert Tallies(s', h') == Tallies(s, h);
  }

  /** The holder's view of the invariant. */
  ghost predicate HolderAt(s: State, h: Phase, t: nat) {
    && Sized(s) && t < |s.pc| && s.mutex == By(t) && h == PhaseOf(s.n, t < s.n, s.pc[t])
    && ThreadOk(s.n, s.mutex, h, s.numWaiters, t, s.pc[t])
  }

  lemma Mine(s: State, h: Phase, t: nat)
    requires Inv(s) && h == Now(s) && t < |s.pc| && ClassOf(s.pc[t]).owner()
    ensures HolderAt(s, h, t) && Shape(s, h) && Core(s, h, Tallies(s, h)) && Sane(h) && s.n < U16
    ensures forall i :: 0 <= i < s.n ==> s.st[i] == Word(ClassOf(s.pc[i]).base(), Marked(h, i))
  {
    Here(s, h, t);
    forall i | 0 <= i < s.n
      ensures s.st[i] == Word(ClassOf(s.pc[i]).base(), Marked(h, i))
    {
      assert VcpuOk(s.mutex, h, i, ClassOf(s.pc[i]), s.st[i], s.resume[i]);
    }
  }

  /** The holder moves on within its phase; at most the signal changes. */
  ghost predicate MovesOn(s: State, s': State, h: Phase, h': Phase, t: nat) {
    && HolderFrame(s, s', t) && s' == s.(sig := s'.sig, pc := s'.pc)
    && ThreadOk(s.n, s.mutex, h', s.numWaiters, t, s'.pc[t]) && h' == PhaseOf(s.n, t < s.n, s'.pc[t])
    && SameClass(ClassOf(s.pc[t]), ClassOf(s'.pc[t]))
    && h' == h.(stopped := h'.stopped, asleep := h'.asleep)
    && (h'.asleep ==> s.progressing > 0) && (h'.stopped ==> s.progressing == 0)
  }

  lemma MovesOnInv(s: State, s': State, h: Phase, h': Phase, t: nat)
    requires Inv(s) && h == Now(s) && HolderAt(s, h, t) && MovesOn(s, s', h, h', t)
    ensures Inv(s')
  {
    hide Shape, ThreadOk, Core, ClassOf, Now, Tallies, Woken;
    MovesOnCore(s, s', h, h', Tallies(s, h));
    AlikeInv(s, s', h, h', t);
  }

  lemma MovesOnCore(s: State, s': State, h: Phase, h': Phase, k: Tally)
    requires Core(s, h, k) && s' == s.(sig := s'.sig, pc := s'.pc)
    requires h' == h.(stopped := h'.stopped, asleep := h'.asleep)
    requires h'.stopped ==> s.progressing == 0
    ensures Core(s', h', k)
  {
  }

  // ---------- rounding up ----------

  lemma RuLoadMoves(s: State, s': State, h: Phase, t: nat)
    requires HolderAt(s, h, t) && s.pc[t].RuLoad? && s' == StepRoundup(s, t)
    requires (s.pc[t].i < s.n ==> !s.st[s.pc[t].i].roundedup)
    ensures MovesOn(s, s', h, h, t)
  {
  }

  lemma RuLoadInv(s: State, s': State, h: Phase, t: nat)
    requires Inv(s) && h == Now(s) && t < |s.pc| && s.pc[t].RuLoad? && s' == StepRoundup(s, t)
    ensures Inv(s')
  {
    hide Inv, Shape, Core, Woken, Tallies, VcpuOk, ThreadOk, Accounted, Legal;
    Mine(s, h, t);
    RuLoadMoves(s, s', h, t);
    MovesOnInv(s, s', h, h, t);
  }

  /** The word changed under the loop: it tries again with the new value. */
  lemma RuRetryMoves(s: State, s': State, h: Phase, t: nat)
    requires HolderAt(s, h, t) && s.pc[t].RuCas? && s.pc[t].i < s.n && s.st[s.pc[t].i] != s.pc[t].cur
    requires s' == StepRoundup(s, t)
    requires !s.st[s.pc[t].i].roundedup
    ensures MovesOn(s, s', h, h, t)
  {
  }

  lemma RuRetryInv(s: State, s': State, h: Phase, t: nat)
    requires Inv(s) && h == Now(s) && t < |s.pc| && s.pc[t].RuCas? && s.pc[t].i < s.n
    requires s.st[s.pc[t].i] != s.pc[t].cur && s' == StepRoundup(s, t)
    ensures Inv(s')
  {
    hide Inv, Shape, Core, Woken, Tallies, VcpuOk, ThreadOk, Accounted, Legal;
    Mine(s, h, t);
    RuRetryMoves(s, s', h, t);
    MovesOnInv(s, s', h, h, t);
  }

  lemma RuSigMoves(s: State, s': State, h: Phase, t: nat)
    requires HolderAt(s, h, t) && s.pc[t].RuSig? && s' == StepRoundup(s, t)
    ensures MovesOn(s, s', h, h, t)
  {
  }

  lemma RuSigInv(s: State, s': State, h: Phase, t: nat)
    requires Inv(s) && h == Now(s) && t < |s.pc| && s.pc[t].RuSig? && s' == StepRoundup(s, t)
    ensures Inv(s')
  {
    hide Inv, Shape, Core, Woken, Tallies, VcpuOk, ThreadOk, Accounted, Legal;
    Mine(s, h, t);
    RuSigMoves(s, s', h, t);
    MovesOnInv(s, s', h, h, t);
  }

  lemma RuCheckMoves(s: State, s': State, h: Phase, h': Phase, t: nat)
    requires HolderAt(s, h, t) && s.pc[t].RuCheck? && s' == StepRoundup(s, t)
    requires h' == if s.progressing == 0 then h.(stopped := true) else h.(asleep := true)
    ensures MovesOn(s, s', h, h', t)
  {
  }

  lemma RuCheckInv(s: State, s': State, h: Phase, t: nat)
    requires Inv(s) && h == Now(s) && t < |s.pc| && s.pc[t].RuCheck? && s' == StepRoundup(s, t)
    ensures Inv(s')
  {
    hide Inv, Shape, Core, Woken, Tallies, VcpuOk, ThreadOk, Accounted, Legal;
    Mine(s, h, t);
    var h' := if s.progressing == 0 then h.(stopped := true) else h.(asleep := true);
    RuCheckMoves(s, s', h, h', t);
    MovesOnInv(s, s', h, h', t);
  }

  lemma RuWaitMoves(s: State, s': State, h: Phase, t: nat)
    requires HolderAt(s, h, t) && s.pc[t].RuWait? && s.sig && s' == StepRoundup(s, t)
    ensures MovesOn(s, s', h, h.(asleep := false), t)
  {
  }

  lemma RuWaitInv(s: State, s': State, h: Phase, t: nat)
    requires Inv(s) && h == Now(s) && t < |s.pc| && s.pc[t].RuWait? && s' == StepRoundup(s, t)
    ensures Inv(s')
  {
    hide Inv, Shape, Core, Woken, Tallies, VcpuOk, ThreadOk, Accounted, Legal;
    if s.sig {
      Mine(s, h, t);
      RuWaitMoves(s, s', h, t);
      MovesOnInv(s, s', h, h.(asleep := false), t);
    }
  }

  lemma HeldMoves(s: State, s': State, h: Phase, t: nat)
    requires HolderAt(s, h, t) && s.pc[t].Held? && s' == StepResume(s, t) && s.progressing == 0
    ensures MovesOn(s, s', h, h, t)
  {
  }

  lemma HeldInv(s: State, s': State, h: Phase, t: nat)
    requires Inv(s) && h == Now(s) && t < |s.pc| && s.pc[t].Held? && s' == StepResume(s, t)
    ensures Inv(s')
  {
    hide Inv, Shape, Woken, Tallies, VcpuOk, ThreadOk, Accounted, Legal;
    Mine(s, h, t);
    HeldMoves(s, s', h, t);
    MovesOnInv(s, s', h, h, t);
  }

  lemma ResLoadMoves(s: State, s': State, h: Phase, t: nat)
    requires HolderAt(s, h, t) && s.pc[t].ResLoad? && s' == StepResume(s, t)
    requires (s.pc[t].i < s.n ==> s.st[s.pc[t].i].roundedup)
    ensures MovesOn(s, s', h, h, t)
  {
    hide StepResume, ThreadOk, PhaseOf, ClassOf;
    var par, i := s.pc[t].par, s.pc[t].i;
    var q := if i >= s.n then Exit(par) else ResCas(par, i, s.st[i]);
    ResLoadTo(s, t);
    assert s' == At(s, t, q);
    ResLoadPoint(s.n, s.mutex, h, s.numWaiters, t, par, i, q);
  }

  lemma ResLoadTo(s: State, t: nat)
    requires Sized(s) && t < |s.pc| && s.pc[t].ResLoad? && (s.pc[t].i < s.n ==> s.st[s.pc[t].i].roundedup)
    ensures var par, i := s.pc[t].par, s.pc[t].i;
            StepResume(s, t) == At(s, t, if i >= s.n then Exit(par) else ResCas(par, i, s.st[i]))
  {
  }

  lemma ResLoadPoint(n: nat, m: Mutex, h: Phase, nw: nat, t: nat, par: bool, i: nat, q: Pc)
    requires ThreadOk(n, m, h, nw, t, ResLoad(par, i)) && h == PhaseOf(n, t < n, ResLoad(par, i))
    requires if i >= n then q == Exit(par) else q.ResCas? && q.par == par && q.i == i && q.cur.roundedup
    ensures ThreadOk(n, m, h, nw, t, q) && h == PhaseOf(n, t < n, q) && !h.asleep && !h.stopped
    ensures SameClass(ClassOf(ResLoad(par, i)), ClassOf(q))
  {
  }

  lemma ResLoadInv(s: State, s': State, h: Phase, t: nat)
    requires Inv(s) && h == Now(s) && t < |s.pc| && s.pc[t].ResLoad? && s' == StepResume(s, t)
    ensures Inv(s')
  {
    hide Inv, Shape, Core, Woken, Tallies, VcpuOk, ThreadOk, Accounted, Legal;
    Mine(s, h, t);
    ResLoadMoves(s, s', h, t);
    MovesOnInv(s, s', h, h, t);
  }

  lemma ResRetryMoves(s: State, s': State, h: Phase, t: nat)
    requires HolderAt(s, h, t) && s.pc[t].ResCas? && s.pc[t].i < s.n && s.st[s.pc[t].i] != s.pc[t].cur
    requires s' == StepResume(s, t)
    requires s.st[s.pc[t].i].roundedup
    ensures MovesOn(s, s', h, h, t)
  {
  }

  lemma ResRetryInv(s: State, s': State, h: Phase, t: nat)
    requires Inv(s) && h == Now(s) && t < |s.pc| && s.pc[t].ResCas? && s.pc[t].i < s.n
    requires s.st[s.pc[t].i] != s.pc[t].cur && s' == StepResume(s, t)
    ensures Inv(s')
  {
    hide Inv, Shape, Core, Woken, Tallies, VcpuOk, ThreadOk, Accounted, Legal;
    Mine(s, h, t);
    ResRetryMoves(s, s', h, t);
    MovesOnInv(s, s', h, h, t);
  }

  // ---------- the first caller lets the others in ----------

  lemma FirstHere(s: State, h: Phase, t: nat)
    requires Sized(s) && t < s.n && ClassOf(s.pc[t]).first()
    ensures Tallies(s, h).first > 0
  {
    CountBound(Classes(s), IsFirst);
  }

  /** `parallel_info.count` no longer moves when it is read: it counts this caller and the
      later ones, all of which have yet to be let in. */
  lemma ParReadInv(s: State, s': State, h: Phase, t: nat)
    requires Inv(s) && h == Now(s) && t < |s.pc| && s.pc[t].ParRead? && s' == StepParallel(s, t)
    ensures Inv(s') && s'.pc[t] == ParStore(Tallies(s, h).later)
  {
    hide Inv, Shape, Core, Woken, Tallies, VcpuOk, ThreadOk, Accounted, Legal;
    Mine(s, h, t);
    WhereHolder(s, h, t);
    FirstHere(s, h, t);
    ParReadCore(s, s', h, Tallies(s, h), t);
    ParReadMoves(s, s', h, t);
    AlikeInv(s, s', h, h.(callers := Dec16(s.count)), t);
  }

  /** Only a VCPU thread is at the points of `roundup_parallel`. */
  lemma WhereHolder(s: State, h: Phase, t: nat)
    requires HolderAt(s, h, t)
    ensures IsParallel(s.pc[t]) || s.pc[t].UnYield? ==> t < s.n
    ensures s.pc[t].ParRead? || s.pc[t].ParStore? ==> h == Standing(s.n, true).(callers := h.callers)
    ensures s.pc[t].ParRead? ==> h.callers < 0
    ensures s.pc[t].ParStore? ==> h.callers == s.pc[t].callers
    ensures s.pc[t].UnYield? ==> h.waits && h.w < 0
  {
    hide Accounted, ClassOf;
  }

  lemma ParReadCore(s: State, s': State, h: Phase, k: Tally, t: nat)
    requires Core(s, h, k) && t < s.n <= |s.pc| && s.pc[t].ParRead? && s' == StepParallel(s, t)
    requires k.first > 0 && h == Standing(s.n, true)
    ensures s' == At(s, t, ParStore(Dec16(s.count))) && Dec16(s.count) == k.later
    ensures Core(s', h.(callers := Dec16(s.count)), k)
  {
  }

  lemma ParReadMoves(s: State, s': State, h: Phase, t: nat)
    requires HolderAt(s, h, t) && s.pc[t].ParRead? && s' == At(s, t, ParStore(Dec16(s.count)))
    ensures HolderFrame(s, s', t) && Kept(s, s') && Alike(h, h.(callers := Dec16(s.count)))
    ensures var h' := h.(callers := Dec16(s.count));
            ThreadOk(s.n, s.mutex, h', s.numWaiters, t, s'.pc[t]) && h' == PhaseOf(s.n, t < s.n, s'.pc[t]) && !h'.asleep
    ensures SameClass(ClassOf(s.pc[t]), ClassOf(s'.pc[t]))
  {
    hide Accounted;
  }

  lemma ParReleaseInv(s: State, s': State, h: Phase, t: nat)
    requires Inv(s) && h == Now(s) && t < |s.pc| && s.pc[t].ParRelease? && s.pc[t].left > 0 && s' == StepParallel(s, t)
    ensures Inv(s')
  {
    hide Inv, Shape, Core, Woken, Tallies, VcpuOk, ThreadOk, Accounted, Legal;
    Mine(s, h, t);
    ParReleaseMoves(s, s', h, t);
    ParReleaseCore(s, s', h, Tallies(s, h));
    AlikeInv(s, s', h, h.(left := h.left - 1), t);
  }

  lemma ParReleaseMoves(s: State, s': State, h: Phase, t: nat)
    requires HolderAt(s, h, t) && s.pc[t].ParRelease? && s.pc[t].left > 0 && s' == StepParallel(s, t)
    ensures h.left > 0 && h.open && s' == s.(countSem := s.countSem + 1, pc := s'.pc)
    ensures var h' := h.(left := h.left - 1);
            && HolderFrame(s, s', t) && Kept(s, s') && Alike(h, h') && !h'.asleep
            && ThreadOk(s.n, s.mutex, h', s.numWaiters, t, s'.pc[t]) && h' == PhaseOf(s.n, t < s.n, s'.pc[t])
            && SameClass(ClassOf(s.pc[t]), ClassOf(s'.pc[t]))
  {
    hide Accounted;
  }

  lemma ParReleaseCore(s: State, s': State, h: Phase, k: Tally)
    requires Core(s, h, k) && h.left > 0 && h.open && s' == s.(countSem := s.countSem + 1, pc := s'.pc)
    ensures Core(s', h.(left := h.left - 1), k)
  {
  }

  // ---------- ending a roundup ----------

  lemma UnYieldInv(s: State, s': State, h: Phase, t: nat)
    requires Inv(s) && h == Now(s) && t < |s.pc| && s.pc[t].UnYield? && s' == StepResume(s, t)
    ensures Inv(s')
  {
    hide Inv, Shape, Core, Woken, Tallies, VcpuOk, ThreadOk, Accounted, Legal;
    Mine(s, h, t);
    WhereHolder(s, h, t);
    UnYieldCore(s, s', h, Tallies(s, h), t);
    UnYieldMoves(s, s', h, t);
    AlikeInv(s, s', h, h.(waits := false), t);
  }

  lemma UnYieldCore(s: State, s': State, h: Phase, k: Tally, t: nat)
    requires Core(s, h, k) && t < s.n <= |s.pc| && |s.st| == |s.resume| == s.n && s.pc[t].UnYield?
    requires s' == StepResume(s, t)
    requires h.waits && h.w < 0
    ensures s.waiters > 0 && s' == At(s.(waiters := s.waiters - 1), t, EndRead(s.pc[t].par))
    ensures Core(s', h.(waits := false), k)
  {
  }

  lemma UnYieldMoves(s: State, s': State, h: Phase, t: nat)
    requires HolderAt(s, h, t) && s.pc[t].UnYield? && s.waiters > 0
    requires s' == At(s.(waiters := s.waiters - 1), t, EndRead(s.pc[t].par))
    ensures var h' := h.(waits := false);
            && HolderFrame(s, s', t) && Kept(s, s') && Alike(h, h') && !h'.asleep
            && ThreadOk(s.n, s.mutex, h', s.numWaiters, t, s'.pc[t]) && h' == PhaseOf(s.n, t < s.n, s'.pc[t])
            && SameClass(ClassOf(s.pc[t]), ClassOf(s'.pc[t]))
  {
    hide Accounted;
  }

  lemma EndReadInv(s: State, s': State, h: Phase, t: nat)
    requires Inv(s) && h == Now(s) && t < |s.pc| && s.pc[t].EndRead? && s' == StepResume(s, t)
    ensures Inv(s')
  {
    hide Inv, Shape, Core, Woken, Tallies, VcpuOk, ThreadOk, Accounted, Legal;
    Mine(s, h, t);
    WaitingBound(s, h);
    EndReadCore(s, s', h, Tallies(s, h), t);
    EndReadMoves(s, s', h, t);
    AlikeInv(s, s', h, h.(w := s.waiters), t);
  }

  lemma WaitingBound(s: State, h: Phase)
    requires Sized(s)
    ensures Tallies(s, h).waiting <= s.n
  {
    CountBound(Classes(s), IsWaiting);
  }

  lemma EndReadCore(s: State, s': State, h: Phase, k: Tally, t: nat)
    requires Core(s, h, k) && t < |s.pc| && Sized(s) && s.pc[t].EndRead? && s' == StepResume(s, t)
    requires k.waiting <= s.n && h == PhaseOf(s.n, t < s.n, s.pc[t])
    ensures s.waiters <= s.n && s' == At(s, t, EndStore(s.pc[t].par, s.waiters))
    ensures Core(s', h.(w := s.waiters), k)
  {
  }

  lemma EndReadMoves(s: State, s': State, h: Phase, t: nat)
    requires HolderAt(s, h, t) && s.pc[t].EndRead? && s' == At(s, t, EndStore(s.pc[t].par, s.waiters))
    ensures var h' := h.(w := s.waiters);
            && HolderFrame(s, s', t) && Kept(s, s') && Alike(h, h') && !h'.asleep
            && ThreadOk(s.n, s.mutex, h', s.numWaiters, t, s'.pc[t]) && h' == PhaseOf(s.n, t < s.n, s'.pc[t])
            && SameClass(ClassOf(s.pc[t]), ClassOf(s'.pc[t]))
  {
    hide Accounted;
  }

  // ---------- steps that change the phase for the others ----------

  lemma Conclude(s: State, h: Phase, k: Tally, t: nat)
    requires Shape(s, h) && Core(s, h, k) && k == Tallies(s, h) && !h.asleep
    requires t < |s.pc| && s.mutex == By(t) && h == PhaseOf(s.n, t < s.n, s.pc[t])
    ensures Inv(s)
  {
    hide Core, Tallies, PhaseOf;
  }

  /** What is to be checked of the threads and VCPUs when the phase changes. */
  lemma HolderShape(s: State, s': State, h: Phase, h': Phase, t: nat)
    requires Shape(s, h) && HolderFrame(s, s', t) && s.mutex == By(t) && s'.mutex == By(t)
    requires s'.numWaiters == s.numWaiters
    requires h.open && h.counting ==> h'.open && h'.counting
    requires ThreadOk(s.n, s.mutex, h', s.numWaiters, t, s'.pc[t])
    requires forall i :: 0 <= i < s.n ==> VcpuOk(s'.mutex, h', i, ClassOf(s'.pc[i]), s'.st[i], s'.resume[i])
    ensures Shape(s', h')
  {
    hide VcpuOk;
    forall u | 0 <= u < |s.pc|
      ensures ThreadOk(s'.n, s'.mutex, h', s'.numWaiters, u, s'.pc[u])
    {
      assert ThreadOk(s.n, s.mutex, h, s.numWaiters, u, s.pc[u]);
    }
  }

  // the compare-and-swap that marks VCPU i

  lemma RuMarkShape(s: State, s': State, h: Phase, h': Phase, t: nat, i: nat)
    requires Shape(s, h) && HolderFrame(s, s', t) && s.mutex == By(t) && ClassOf(s'.pc[t]) == ClassOf(s.pc[t])
    requires s' == s.(st := s'.st, pc := s'.pc) && i < s.n && s'.st == s.st[i := s.st[i].(roundedup := true)]
    requires !Marked(h, i) && h.lo == 0 && h.hi == i && h.counting && h.pending == s.n
    requires h' == h.(hi := i + 1, pending := if s.st[i].base.Emulate? then s.n else i)
    requires ThreadOk(s.n, s.mutex, h', s.numWaiters, t, s'.pc[t])
    ensures Shape(s', h') && Stopped(s', h') == Stopped(s, h)
  {
    hide ThreadOk, ClassOf;
    forall j | 0 <= j < s.n
      ensures VcpuOk(s'.mutex, h', j, ClassOf(s'.pc[j]), s'.st[j], s'.resume[j]) && SameAccount(s, h, s', h', j)
    {
      assert VcpuOk(s.mutex, h, j, ClassOf(s.pc[j]), s.st[j], s.resume[j]);
    }
    HolderShape(s, s', h, h', t);
    SameStopped(s, h, s', h');
  }

  lemma RuMarkMoves(s: State, s': State, h: Phase, h': Phase, t: nat, i: nat)
    requires HolderAt(s, h, t) && s.pc[t].RuCas? && i == s.pc[t].i && i < s.n && s.st[i] == s.pc[t].cur
    requires s' == StepRoundup(s, t)
    requires h' == h.(hi := i + 1, pending := if s.st[i].base.Emulate? then s.n else i)
    ensures HolderFrame(s, s', t) && ClassOf(s'.pc[t]) == ClassOf(s.pc[t])
    ensures s' == s.(st := s'.st, pc := s'.pc) && s'.st == s.st[i := s.st[i].(roundedup := true)]
    ensures !Marked(h, i) && h.lo == 0 && h.hi == i && h.counting && h.pending == s.n && !h.stopped && !h.open
    ensures !h.asleep
    ensures ThreadOk(s.n, s.mutex, h', s.numWaiters, t, s'.pc[t]) && h' == PhaseOf(s.n, t < s.n, s'.pc[t])
  {
    hide Accounted;
  }

  lemma RuMarkCore(s: State, s': State, h: Phase, h': Phase, k: Tally)
    requires Core(s, h, k) && s' == s.(st := s'.st, pc := s'.pc) && h' == h.(hi := h'.hi, pending := h'.pending)
    ensures Core(s', h', k)
  {
  }

  lemma RuMarkInv(s: State, s': State, h: Phase, t: nat)
    requires Inv(s) && h == Now(s) && t < |s.pc| && s.pc[t].RuCas? && s.pc[t].i < s.n
    requires s.st[s.pc[t].i] == s.pc[t].cur && s' == StepRoundup(s, t)
    ensures Inv(s')
  {
    hide Inv, Now, Shape, Core, Tallies, VcpuOk, ThreadOk, Accounted, Legal, Moved, Shift;
    Mine(s, h, t);
    var i := s.pc[t].i;
    var h' := h.(hi := i + 1, pending := if s.st[i].base.Emulate? then s.n else i);
    RuMarkMoves(s, s', h, h', t, i);
    RuMarkShape(s, s', h, h', t, i);
    RuMarkCore(s, s', h, h', Tallies(s, h));
    SameClassTally(s, h, s', h', t);
    Conclude(s', h', Tallies(s, h), t);
  }

  /** The tally does not change when the class of the moving thread stays and so do the accounts. */
  lemma SameClassTally(s: State, h: Phase, s': State, h': Phase, t: nat)
    requires HolderFrame(s, s', t) && (t < s.n ==> SameClass(ClassOf(s.pc[t]), ClassOf(s'.pc[t])))
    ensures Tallies(s', h') == Tallies(s, h).(stopped := Stopped(s', h'))
    ensures Stopped(s', h') == Stopped(s, h) ==> Tallies(s', h') == Tallies(s, h)
  {
    TalliesMove(s, h, s', h', t);
    SameTally(s.n, t, Tallies(s, h), Tallies(s', h'), ClassOf(s.pc[t]), ClassOf(s'.pc[t]));
  }

  // the decrement on behalf of VCPU i

  lemma RuDecShape(s: State, s': State, h: Phase, h': Phase, t: nat, i: nat)
    requires Shape(s, h) && HolderFrame(s, s', t) && s.mutex == By(t) && s.pc[t].RuDec?
    requires ClassOf(s'.pc[t]) == ClassOf(s.pc[t]) == Holding(s.pc[t].kind)
    requires s' == s.(progressing := s'.progressing, pc := s'.pc) && i < s.n
    requires h.pending == i && h' == h.(pending := s.n) && h.counting
    requires ThreadOk(s.n, s.mutex, h', s.numWaiters, t, s'.pc[t])
    ensures Shape(s', h') && Stopped(s', h') == Stopped(s, h) + 1
  {
    hide ThreadOk, ClassOf;
    forall j | 0 <= j < s.n
      ensures VcpuOk(s'.mutex, h', j, ClassOf(s'.pc[j]), s'.st[j], s'.resume[j])
      ensures (j != i ==> SameAccount(s, h, s', h', j))
    {
      assert VcpuOk(s.mutex, h, j, ClassOf(s.pc[j]), s.st[j], s.resume[j]);
    }
    HolderShape(s, s', h, h', t);
    assert VcpuOk(s.mutex, h, i, ClassOf(s.pc[i]), s.st[i], s.resume[i]);
    OneMoreStopped(s, h, s', h', i);
  }

  lemma RuDecMoves(s: State, s': State, h: Phase, h': Phase, t: nat, i: nat)
    requires HolderAt(s, h, t) && s.pc[t].RuDec? && i == s.pc[t].i && s' == StepRoundup(s, t) && s.progressing > 0
    requires h' == h.(pending := s.n)
    ensures HolderFrame(s, s', t) && ClassOf(s'.pc[t]) == ClassOf(s.pc[t]) == Holding(s.pc[t].kind)
    ensures s' == s.(progressing := s.progressing - 1, pc := s'.pc)
    ensures h.pending == i && i < s.n && h.counting && !h'.asleep && !h'.stopped
    ensures ThreadOk(s.n, s.mutex, h', s.numWaiters, t, s'.pc[t]) && h' == PhaseOf(s.n, t < s.n, s'.pc[t])
  {
    hide Accounted;
  }

  lemma RuDecCore(s: State, s': State, h: Phase, h': Phase, k: Tally, k': Tally)
    requires Core(s, h, k) && s.progressing > 0 && s' == s.(progressing := s.progressing - 1, pc := s'.pc)
    requires h' == h.(pending := h'.pending) && !h.stopped && k' == k.(stopped := k.stopped + 1)
    ensures Core(s', h', k')
  {
  }

  /** The VCPU the holder has just marked still has its unit, so the counter is not zero. */
  lemma RuDecRoom(s: State, h: Phase, t: nat)
    requires Inv(s) && h == Now(s) && HolderAt(s, h, t) && s.pc[t].RuDec?
    ensures s.progressing > 0
  {
    var i := s.pc[t].i;
    assert VcpuOk(s.mutex, h, i, ClassOf(s.pc[i]), s.st[i], s.resume[i]);
    Progressing(s, h, i);
  }

  lemma RuDecInv(s: State, s': State, h: Phase, t: nat)
    requires Inv(s) && h == Now(s) && t < |s.pc| && s.pc[t].RuDec? && s' == StepRoundup(s, t)
    ensures Inv(s')
  {
    hide Inv, Now, Shape, Core, Tallies, VcpuOk, ThreadOk, Accounted, Legal, Moved, Shift;
    Mine(s, h, t);
    var h' := h.(pending := s.n);
    RuDecRoom(s, h, t);
    RuDecMoves(s, s', h, h', t, s.pc[t].i);
    RuDecShape(s, s', h, h', t, s.pc[t].i);
    SameClassTally(s, h, s', h', t);
    StoppedTally(s, h);
    RuDecCore(s, s', h, h', Tallies(s, h), Tallies(s', h'));
    Conclude(s', h', Tallies(s', h'), t);
  }

  lemma StoppedTally(s: State, h: Phase)
    requires Sized(s)
    ensures Tallies(s, h).stopped == Stopped(s, h)
  {
  }

  // the compare-and-swap that resumes VCPU i, and its signal

  lemma ResMarkShape(s: State, s': State, h: Phase, h': Phase, t: nat, i: nat)
    requires Shape(s, h) && HolderFrame(s, s', t) && s.mutex == By(t) && ClassOf(s'.pc[t]) == ClassOf(s.pc[t])
    requires s' == s.(st := s'.st, pc := s'.pc) && i < s.n && s'.st == s.st[i := s.st[i].(roundedup := false)]
    requires h == Resuming(s.n, i, h.closing) && h' == Resuming(s.n, i + 1, h.closing).(waking := i)
    requires ThreadOk(s.n, s.mutex, h', s.numWaiters, t, s'.pc[t])
    ensures Shape(s', h') && Stopped(s', h') == Stopped(s, h)
  {
    hide ThreadOk, ClassOf;
    forall j | 0 <= j < s.n
      ensures VcpuOk(s'.mutex, h', j, ClassOf(s'.pc[j]), s'.st[j], s'.resume[j]) && SameAccount(s, h, s', h', j)
    {
      assert VcpuOk(s.mutex, h, j, ClassOf(s.pc[j]), s.st[j], s.resume[j]);
    }
    HolderShape(s, s', h, h', t);
    SameStopped(s, h, s', h');
  }

  lemma ResMarkMoves(s: State, s': State, h: Phase, h': Phase, t: nat, i: nat)
    requires HolderAt(s, h, t) && s.pc[t].ResCas? && i == s.pc[t].i && i < s.n && s.st[i] == s.pc[t].cur
    requires s' == StepResume(s, t)
    requires h' == Resuming(s.n, i + 1, h.closing).(waking := i)
    ensures HolderFrame(s, s', t) && ClassOf(s'.pc[t]) == ClassOf(s.pc[t])
    ensures s' == s.(st := s'.st, pc := s'.pc) && s'.st == s.st[i := s.st[i].(roundedup := false)]
    ensures h == Resuming(s.n, i, h.closing)
    ensures ThreadOk(s.n, s.mutex, h', s.numWaiters, t, s'.pc[t]) && h' == PhaseOf(s.n, t < s.n, s'.pc[t])
  {
    hide Accounted;
  }

  lemma ResumingCore(s: State, s': State, h: Phase, h': Phase, k: Tally)
    requires Core(s, h, k) && s' == s.(st := s'.st, resume := s'.resume, pc := s'.pc)
    requires h' == h.(lo := h'.lo, waking := h'.waking)
    ensures Core(s', h', k)
  {
  }

  lemma ResMarkInv(s: State, s': State, h: Phase, t: nat)
    requires Inv(s) && h == Now(s) && t < |s.pc| && s.pc[t].ResCas? && s.pc[t].i < s.n
    requires s.st[s.pc[t].i] == s.pc[t].cur && s' == StepResume(s, t)
    ensures Inv(s')
  {
    hide Inv, Now, Shape, Core, Tallies, VcpuOk, ThreadOk, Accounted, Legal, Moved, Shift;
    Mine(s, h, t);
    var i := s.pc[t].i;
    var h' := Resuming(s.n, i + 1, h.closing).(waking := i);
    ResMarkMoves(s, s', h, h', t, i);
    ResMarkShape(s, s', h, h', t, i);
    ResumingCore(s, s', h, h', Tallies(s, h));
    SameClassTally(s, h, s', h', t);
    Conclude(s', h', Tallies(s, h), t);
  }

  lemma ResSigShape(s: State, s': State, h: Phase, h': Phase, t: nat, i: nat)
    requires Shape(s, h) && HolderFrame(s, s', t) && s.mutex == By(t) && ClassOf(s'.pc[t]) == ClassOf(s.pc[t])
    requires s' == s.(resume := s'.resume, pc := s'.pc) && i < s.n && s'.resume == s.resume[i := true]
    requires h.waking == i && h' == h.(waking := s.n)
    requires ThreadOk(s.n, s.mutex, h', s.numWaiters, t, s'.pc[t])
    ensures Shape(s', h') && Stopped(s', h') == Stopped(s, h)
  {
    hide ThreadOk, ClassOf;
    forall j | 0 <= j < s.n
      ensures VcpuOk(s'.mutex, h', j, ClassOf(s'.pc[j]), s'.st[j], s'.resume[j]) && SameAccount(s, h, s', h', j)
    {
      assert VcpuOk(s.mutex, h, j, ClassOf(s.pc[j]), s.st[j], s.resume[j]);
    }
    HolderShape(s, s', h, h', t);
    SameStopped(s, h, s', h');
  }

  lemma ResSigMoves(s: State, s': State, h: Phase, h': Phase, t: nat, i: nat)
    requires HolderAt(s, h, t) && s.pc[t].ResSig? && i == s.pc[t].i && s' == StepResume(s, t) && h' == h.(waking := s.n)
    ensures HolderFrame(s, s', t) && ClassOf(s'.pc[t]) == ClassOf(s.pc[t])
    ensures i < s.n && s' == s.(resume := s'.resume, pc := s'.pc) && s'.resume == s.resume[i := true]
    ensures h.waking == i && !h'.asleep
    ensures ThreadOk(s.n, s.mutex, h', s.numWaiters, t, s'.pc[t]) && h' == PhaseOf(s.n, t < s.n, s'.pc[t])
  {
    hide Accounted;
  }

  lemma ResSigInv(s: State, s': State, h: Phase, t: nat)
    requires Inv(s) && h == Now(s) && t < |s.pc| && s.pc[t].ResSig? && s' == StepResume(s, t)
    ensures Inv(s')
  {
    hide Inv, Now, Shape, Core, Tallies, VcpuOk, ThreadOk, Accounted, Legal, Moved, Shift;
    Mine(s, h, t);
    var h' := h.(waking := s.n);
    ResSigMoves(s, s', h, h', t, s.pc[t].i);
    ResSigShape(s, s', h, h', t, s.pc[t].i);
    ResumingCore(s, s', h, h', Tallies(s, h));
    SameClassTally(s, h, s', h', t);
    Conclude(s', h', Tallies(s, h), t);
  }

  // end_roundup's store

  /** With everybody stopped, no VCPU thread is between its increment of _vcpu_waiters and its
      decrement of vcpus_progressing, about to notify, or releasing. */
  lemma Standstill(s: State, h: Phase)
    requires Inv(s) && h == Now(s) && h.stopped
    ensures forall i :: 0 <= i < s.n ==> Accounted(h, s.mutex, i, ClassOf(s.pc[i]))
    ensures forall i :: 0 <= i < s.n ==>
              var c := ClassOf(s.pc[i]); !c.Counted? && !c.Notifying? && !c.releasing() && (c.Parked? ==> h.team)
  {
    AllStopped(s, h);
    forall i | 0 <= i < s.n
      ensures var c := ClassOf(s.pc[i]); !c.Counted? && !c.Notifying? && !c.releasing() && (c.Parked? ==> h.team)
    {
      assert ThreadOk(s.n, s.mutex, h, s.numWaiters, i, s.pc[i]);
      assert Accounted(h, s.mutex, i, ClassOf(s.pc[i]));
    }
  }

  lemma EndStoreShape(s: State, s': State, h: Phase, h': Phase, t: nat)
    requires Shape(s, h) && HolderFrame(s, s', t) && s.mutex == By(t) && ClassOf(s'.pc[t]) == ClassOf(s.pc[t])
    requires s' == s.(progressing := s'.progressing, pc := s'.pc) && h.lo == 0 && h.hi == s.n && h.pending == s.n
    requires !h.open
    requires h.closing == h.team && h.waking == s.n && h' == Resuming(s.n, 0, h.closing)
    requires forall i :: 0 <= i < s.n ==> Accounted(h, s.mutex, i, ClassOf(s.pc[i])) && !ClassOf(s.pc[i]).Notifying?
    requires ThreadOk(s.n, s.mutex, h', s.numWaiters, t, s'.pc[t])
    ensures Shape(s', h')
  {
    hide ClassOf, Legal;
    forall u | 0 <= u < |s.pc|
      ensures ThreadOk(s.n, s.mutex, h, s.numWaiters, u, s.pc[u])
    {
    }
    forall j | 0 <= j < s.n
      ensures VcpuOk(s'.mutex, h', j, ClassOf(s'.pc[j]), s'.st[j], s'.resume[j])
    {
      assert VcpuOk(s.mutex, h, j, ClassOf(s.pc[j]), s.st[j], s.resume[j]);
      assert Accounted(h, s.mutex, j, ClassOf(s.pc[j]));
    }
    HolderShape(s, s', h, h', t);
  }

  /** From the store on, the VCPUs that do not progress are those in _vcpu_waiters. */
  lemma EndStoreStopped(s: State, h': Phase)
    requires Sized(s) && !h'.counting && forall i :: 0 <= i < s.n ==> !ClassOf(s.pc[i]).Counted?
    ensures Stopped(s, h') == Num(s, IsWaiting)
  {
    CountPointwise(Accounts(s, h'), Id, Classes(s), IsWaiting);
  }

  lemma EndStoreMoves(s: State, s': State, h: Phase, h': Phase, t: nat)
    requires HolderAt(s, h, t) && s.pc[t].EndStore? && s' == StepResume(s, t)
    requires h' == Resuming(s.n, 0, h.closing) && s.pc[t].w <= s.n < U16
    ensures HolderFrame(s, s', t) && ClassOf(s'.pc[t]) == ClassOf(s.pc[t])
    ensures s' == s.(progressing := s.n - s.pc[t].w, pc := s'.pc) && h.w == s.pc[t].w
    ensures h == Standing(s.n, false).(closing := h.closing, team := h.closing, w := h.w)
    ensures ThreadOk(s.n, s.mutex, h', s.numWaiters, t, s'.pc[t]) && h' == PhaseOf(s.n, t < s.n, s'.pc[t])
  {
    hide Accounted;
  }

  lemma EndStoreCore(s: State, s': State, h: Phase, h': Phase, k: Tally)
    requires Core(s, h, k) && s.waiters <= s.n && s' == s.(progressing := s.n - s.waiters, pc := s'.pc)
    requires h == Standing(s.n, false).(closing := h.closing, team := h.closing, w := h.w)
    requires h' == Resuming(s.n, 0, h.closing)
    ensures Core(s', h', k.(stopped := k.waiting))
  {
  }

  lemma EndStoreWaiters(s: State, h: Phase, t: nat)
    requires HolderAt(s, h, t) && s.pc[t].EndStore? && Core(s, h, Tallies(s, h))
    ensures h == Standing(s.n, false).(closing := h.closing, team := h.closing, w := h.w)
    ensures s.pc[t].w == s.waiters <= s.n
  {
    hide Accounted;
    CountBound(Classes(s), IsWaiting);
  }

  lemma EndStoreInv(s: State, s': State, h: Phase, t: nat)
    requires Inv(s) && h == Now(s) && t < |s.pc| && s.pc[t].EndStore? && s' == StepResume(s, t)
    ensures Inv(s') && s'.progressing == s.n - s.waiters
  {
    hide Inv, Now, Shape, Core, Tallies, VcpuOk, ThreadOk, Accounted, Legal, Moved, Shift;
    Mine(s, h, t);
    var h' := Resuming(s.n, 0, h.closing);
    EndStoreWaiters(s, h, t);
    Standstill(s, h);
    EndStoreMoves(s, s', h, h', t);
    EndStoreShape(s, s', h, h', t);
    SameClassTally(s, h, s', h', t);
    EndStoreStopped(s', h');
    WaitingTally(s', h');
    EndStoreCore(s, s', h, h', Tallies(s, h));
    Conclude(s', h', Tallies(s', h'), t);
  }

  lemma WaitingTally(s: State, h: Phase)
    requires Sized(s)
    ensures Tallies(s, h).waiting == Num(s, IsWaiting)
  {
  }
}
