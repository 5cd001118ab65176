/** The steps that take, hand over and release the roundup mutex, and the one that opens a
    parallel roundup to its later callers, keep the invariant. */
module RoundupMutex {
  import opened Counting
  import opened RoundupModel
  import opened RoundupInvariant
  import opened RoundupSteps
  import opened RoundupHolder

  // ---------- taking the mutex ----------

  lemma EnterShape(s: State, s': State, h: Phase, h': Phase, t: nat)
    requires Shape(s, h) && HolderFrame(s, s', t) && s.mutex.Free? && s'.mutex == By(t)
    requires s' == s.(mutex := By(t), pc := s'.pc)
    requires h == Calm(s.n) && h' == Marking(s.n, 0, t < s.n)
    requires ThreadOk(s.n, s'.mutex, h', s.numWaiters, t, s'.pc[t])
    requires ClassOf(s.pc[t]).Blocked? && ClassOf(s'.pc[t]).Holding?
    ensures Shape(s', h') && Stopped(s', h') == Stopped(s, h)
  {
    hide ClassOf, Legal;
    forall u | 0 <= u < |s.pc|
      ensures ThreadOk(s'.n, s'.mutex, h', s'.numWaiters, u, s'.pc[u])
    {
      assert ThreadOk(s.n, s.mutex, h, s.numWaiters, u, s.pc[u]);
    }
    forall j | 0 <= j < s.n
      ensures VcpuOk(s'.mutex, h', j, ClassOf(s'.pc[j]), s'.st[j], s'.resume[j]) && SameAccount(s, h, s', h', j)
    {
      assert ThreadOk(s.n, s.mutex, h, s.numWaiters, j, s.pc[j]);
      assert VcpuOk(s.mutex, h, j, ClassOf(s.pc[j]), s.st[j], s.resume[j]);
    }
    SameStopped(s, h, s', h');
  }

  lemma EnterMoves(s: State, s': State, t: nat, kind: Kind)
    requires Sized(s) && t < |s.pc| && s.pc[t] == Enter(kind) && s.mutex.Free? && s' == StepRoundup(s, t)
    requires ThreadOk(s.n, s.mutex, Calm(s.n), s.numWaiters, t, s.pc[t])
    ensures var h' := Marking(s.n, 0, t < s.n);
            && HolderFrame(s, s', t) && s' == s.(mutex := By(t), pc := s.pc[t := RuLoad(kind, 0)])
            && ThreadOk(s.n, s'.mutex, h', s.numWaiters, t, s'.pc[t]) && h' == PhaseOf(s.n, t < s.n, s'.pc[t])
    ensures ClassOf(s.pc[t]) == Blocked(kind) && ClassOf(s'.pc[t]) == Holding(kind)
  {
  }

  lemma EnterCore(s: State, s': State, h: Phase, h': Phase, k: Tally, k': Tally, t: nat, kind: Kind)
    requires Core(s, h, k) && s' == s.(mutex := By(t), pc := s'.pc) && s.mutex.Free?
    requires h == Calm(s.n) && h' == Marking(s.n, 0, t < s.n)
    requires Moved(s.n, t, k, k', Blocked(kind), Holding(kind)) && k'.stopped == k.stopped
    ensures Core(s', h', k')
  {
  }

  lemma EnterInv(s: State, s': State, h: Phase, t: nat)
    requires Inv(s) && h == Now(s) && t < |s.pc| && s.pc[t].Enter? && s' == StepRoundup(s, t)
    ensures Inv(s')
  {
    hide Inv, Shape, Core, Woken, Tallies, VcpuOk, ThreadOk, Accounted, Legal, Moved, Shift;
    if s.mutex.Free? {
      var h' := Marking(s.n, 0, t < s.n);
      ShapeOf(s, h, t);
      EnterMoves(s, s', t, s.pc[t].kind);
      EnterShape(s, s', h, h', t);
      TalliesMove(s, h, s', h', t);
      StoppedTally(s, h);
      StoppedTally(s', h');
      EnterCore(s, s', h, h', Tallies(s, h), Tallies(s', h'), t, s.pc[t].kind);
      Conclude(s', h', Tallies(s', h'), t);
    }
  }

  lemma ShapeOf(s: State, h: Phase, t: nat)
    requires Inv(s) && h == Now(s) && t < |s.pc|
    ensures Shape(s, h) && Core(s, h, Tallies(s, h)) && Sized(s) && ThreadOk(s.n, s.mutex, h, s.numWaiters, t, s.pc[t])
  {
  }

  // ---------- releasing it ----------

  lemma ExitShape(s: State, s': State, h: Phase, h': Phase, t: nat)
    requires Shape(s, h) && HolderFrame(s, s', t) && s.mutex == By(t) && s' == s.(mutex := Free, pc := s'.pc)
    requires h == Resuming(s.n, s.n, h.closing) && h' == Calm(s.n)
    requires ThreadOk(s.n, s'.mutex, h', s.numWaiters, t, s'.pc[t])
    requires ClassOf(s.pc[t]).Ending? && (ClassOf(s'.pc[t]).Releasing? || ClassOf(s'.pc[t]).Emulating?)
    ensures Shape(s', h') && Stopped(s', h') == Stopped(s, h)
  {
    hide ClassOf, Legal;
    forall u | 0 <= u < |s.pc|
      ensures ThreadOk(s'.n, s'.mutex, h', s'.numWaiters, u, s'.pc[u])
    {
      assert ThreadOk(s.n, s.mutex, h, s.numWaiters, u, s.pc[u]);
    }
    forall j | 0 <= j < s.n
      ensures VcpuOk(s'.mutex, h', j, ClassOf(s'.pc[j]), s'.st[j], s'.resume[j]) && SameAccount(s, h, s', h', j)
    {
      assert VcpuOk(s.mutex, h, j, ClassOf(s.pc[j]), s.st[j], s.resume[j]);
    }
    SameStopped(s, h, s', h');
  }

  lemma ExitMoves(s: State, s': State, h: Phase, t: nat, par: bool)
    requires HolderAt(s, h, t) && s.pc[t] == Exit(par) && s' == StepResume(s, t)
    ensures HolderFrame(s, s', t) && s' == s.(mutex := Free, pc := s'.pc) && h == Resuming(s.n, s.n, par)
    ensures ThreadOk(s.n, s'.mutex, Calm(s.n), s.numWaiters, t, s'.pc[t])
    ensures ClassOf(s.pc[t]) == Ending && ClassOf(s'.pc[t]) == (if par then Releasing else Emulating)
    ensures par ==> t < s.n
  {
  }

  lemma ExitCore(s: State, s': State, h: Phase, k: Tally, k': Tally, t: nat)
    requires Core(s, h, k) && s' == s.(mutex := Free, pc := s'.pc) && s.mutex.By?
    requires h == Resuming(s.n, s.n, h.closing) && k.released <= k.releasing && k'.stopped == k.stopped
    requires Moved(s.n, t, k, k', Ending, if h.closing then Releasing else Emulating) && (h.closing ==> t < s.n)
    ensures Core(s', Calm(s.n), k')
  {
  }

  lemma ReleasedBound(s: State, h: Phase)
    requires Sized(s)
    ensures Tallies(s, h).released <= Tallies(s, h).releasing
  {
    CountMonotone(Classes(s), IsReleased, IsReleasing);
  }

  lemma ExitInv(s: State, s': State, h: Phase, t: nat)
    requires Inv(s) && h == Now(s) && t < |s.pc| && s.pc[t].Exit? && s' == StepResume(s, t)
    ensures Inv(s')
  {
    hide Inv, Shape, Core, Woken, Tallies, VcpuOk, ThreadOk, Accounted, Legal, Moved, Shift;
    var h' := Calm(s.n);
    Mine(s, h, t);
    ExitMoves(s, s', h, t, s.pc[t].par);
    ExitShape(s, s', h, h', t);
    TalliesMove(s, h, s', h', t);
    StoppedTally(s, h);
    StoppedTally(s', h');
    ReleasedBound(s, h);
    ExitCore(s, s', h, Tallies(s, h), Tallies(s', h'), t);
    ConcludeNow(s', h', Tallies(s', h'));
  }

  lemma ConcludeNow(s: State, h: Phase, k: Tally)
    requires Shape(s, h) && Core(s, h, k) && k == Tallies(s, h) && !h.asleep && h == Now(s)
    ensures Inv(s)
  {
    hide Core, Tallies, PhaseOf;
  }

  // ---------- the last participant takes over from the team ----------

  lemma LastShape(s: State, s': State, h: Phase, h': Phase, t: nat)
    requires Shape(s, h) && HolderFrame(s, s', t) && s.mutex.Team?
    requires s' == s.(mutex := By(t), count := s'.count, pc := s'.pc) && t < s.n
    requires h == Standing(s.n, true).(open := true, team := true)
    requires h' == Standing(s.n, true).(closing := true, team := true)
    requires ThreadOk(s.n, s'.mutex, h', s.numWaiters, t, s'.pc[t])
    requires ClassOf(s.pc[t]) == Inside && ClassOf(s'.pc[t]) == Ending
    requires forall u :: 0 <= u < s.n && u != t ==> !ClassOf(s.pc[u]).joined()
    ensures Shape(s', h') && Stopped(s', h') == Stopped(s, h)
  {
    hide ClassOf, Legal;
    forall u | 0 <= u < |s.pc|
      ensures ThreadOk(s'.n, s'.mutex, h', s'.numWaiters, u, s'.pc[u])
    {
      assert ThreadOk(s.n, s.mutex, h, s.numWaiters, u, s.pc[u]);
      OutsideClass(s.n, u, s.pc[u]);
    }
    forall j | 0 <= j < s.n
      ensures VcpuOk(s'.mutex, h', j, ClassOf(s'.pc[j]), s'.st[j], s'.resume[j]) && SameAccount(s, h, s', h', j)
    {
      assert VcpuOk(s.mutex, h, j, ClassOf(s.pc[j]), s.st[j], s.resume[j]);
    }
    SameStopped(s, h, s', h');
  }

  lemma OutsideClass(n: nat, t: nat, p: Pc)
    ensures Legal(n, t, p) && t >= n ==> !ClassOf(p).joined()
  {
  }

  lemma LastMoves(s: State, s': State, h: Phase, t: nat)
    requires Sized(s) && t < s.n && s.pc[t].ParSub? && s.count == 1 && s' == StepParallel(s, t) && s.mutex.Team?
    requires h == Standing(s.n, true).(closing := true, team := true)
    ensures HolderFrame(s, s', t) && s' == s.(mutex := By(t), count := 0, pc := s'.pc)
    ensures ThreadOk(s.n, s'.mutex, h, s.numWaiters, t, s'.pc[t]) && h == PhaseOf(s.n, t < s.n, s'.pc[t])
    ensures ClassOf(s.pc[t]) == Inside && ClassOf(s'.pc[t]) == Ending
  {
  }

  lemma LastCore(s: State, s': State, h: Phase, h': Phase, k: Tally, k': Tally, t: nat)
    requires Core(s, h, k) && s' == s.(mutex := By(t), count := 0, pc := s'.pc) && s.mutex.Team? && s.count == 1
    requires h == Standing(s.n, true).(open := true, team := true)
    requires h' == Standing(s.n, true).(closing := true, team := true)
    requires Shift(k, k', Inside, Ending) && k'.stopped == k.stopped
    ensures Core(s', h', k')
  {
  }

  lemma LastAlone(s: State, h: Phase, t: nat)
    requires Sized(s) && Core(s, h, Tallies(s, h)) && t < s.n && s.pc[t].ParSub? && s.count == 1
    ensures forall u :: 0 <= u < s.n && u != t ==> !ClassOf(s.pc[u]).joined()
  {
    SomeAt(s, h, t);
    CountUnique(Classes(s), t, IsJoined);
    forall u | 0 <= u < s.n && u != t
      ensures !ClassOf(s.pc[u]).joined()
    {
      assert !IsJoined(Classes(s)[u]);
    }
  }

  lemma LastInv(s: State, s': State, h: Phase, t: nat)
    requires Inv(s) && h == Now(s) && t < |s.pc| && s.pc[t].ParSub? && s.count == 1 && s' == StepParallel(s, t)
    ensures Inv(s') && s.mutex.Team? && s'.mutex == By(t) && s'.pc[t] == UnYield(true)
    ensures forall u :: 0 <= u < s.n && u != t ==> !s.pc[u].ParUnyield? && !s.pc[u].ParHeld? && !s.pc[u].ParSub?
  {
    hide Inv, Shape, Core, Woken, Tallies, VcpuOk, ThreadOk, Accounted, Legal, Moved, Shift;
    var h' := Standing(s.n, true).(closing := true, team := true);
    ShapeOf(s, h, t);
    Here(s, h, t);
    SomeAt(s, h, t);
    Facts(s, h, Tallies(s, h));
    LastAlone(s, h, t);
    LastMoves(s, s', h', t);
    LastShape(s, s', h, h', t);
    TalliesMove(s, h, s', h', t);
    MovedShift(s.n, t, Tallies(s, h), Tallies(s', h'), Inside, Ending);
    StoppedTally(s, h);
    StoppedTally(s', h');
    LastCore(s, s', h, h', Tallies(s, h), Tallies(s', h'), t);
    Conclude(s', h', Tallies(s', h'), t);
    NobodyInside(s, t);
  }

  lemma NobodyInside(s: State, t: nat)
    requires s.n <= |s.pc| && forall u :: 0 <= u < s.n && u != t ==> !ClassOf(s.pc[u]).joined()
    ensures forall u :: 0 <= u < s.n && u != t ==> !s.pc[u].ParUnyield? && !s.pc[u].ParHeld? && !s.pc[u].ParSub?
  {
  }

  lemma MovedShift(n: nat, t: nat, k: Tally, k': Tally, a: Class, b: Class)
    requires Moved(n, t, k, k', a, b) && t < n
    ensures Shift(k, k', a, b)
  {
  }

  // ---------- the first caller: opening the roundup, and handing the mutex to the team ----------

  lemma OpenShape(s: State, s': State, h: Phase, h': Phase, t: nat)
    requires Shape(s, h) && HolderFrame(s, s', t) && s.mutex == By(t)
    requires s' == s.(numWaiters := s'.numWaiters, pc := s'.pc)
    requires h == Standing(s.n, true).(callers := h.callers)
    requires h' == Standing(s.n, true).(left := h'.left, open := true, team := true)
    requires ThreadOk(s.n, s'.mutex, h', s'.numWaiters, t, s'.pc[t]) && ClassOf(s'.pc[t]) == ClassOf(s.pc[t])
    requires forall i :: 0 <= i < s.n ==> !ClassOf(s.pc[i]).releasing() && !ClassOf(s.pc[i]).Parked?
    ensures Shape(s', h') && Stopped(s', h') == Stopped(s, h)
  {
    hide ClassOf, Legal;
    forall u | 0 <= u < |s.pc|
      ensures ThreadOk(s'.n, s'.mutex, h', s'.numWaiters, u, s'.pc[u])
    {
      assert ThreadOk(s.n, s.mutex, h, s.numWaiters, u, s.pc[u]);
      ReleasingClass(s.n, u, s.pc[u]);
    }
    forall j | 0 <= j < s.n
      ensures VcpuOk(s'.mutex, h', j, ClassOf(s'.pc[j]), s'.st[j], s'.resume[j]) && SameAccount(s, h, s', h', j)
    {
      assert VcpuOk(s.mutex, h, j, ClassOf(s.pc[j]), s.st[j], s.resume[j]);
    }
    SameStopped(s, h, s', h');
  }

  lemma ReleasingClass(n: nat, t: nat, p: Pc)
    ensures p.RelSem? || p.RelDec? ==> ClassOf(p).releasing()
    ensures Legal(n, t, p) && t >= n ==> !ClassOf(p).releasing()
  {
  }

  lemma OpenMoves(s: State, s': State, h: Phase, h': Phase, t: nat)
    requires HolderAt(s, h, t) && s.pc[t].ParStore? && s' == StepParallel(s, t)
    requires h' == Standing(s.n, true).(left := s.pc[t].callers, open := true, team := true)
    ensures HolderFrame(s, s', t) && s' == s.(numWaiters := s.pc[t].callers, pc := s'.pc)
    ensures ThreadOk(s.n, s'.mutex, h', s'.numWaiters, t, s'.pc[t]) && h' == PhaseOf(s.n, t < s.n, s'.pc[t])
    ensures ClassOf(s'.pc[t]) == ClassOf(s.pc[t])
  {
    hide Accounted;
  }

  lemma OpenCore(s: State, s': State, h: Phase, h': Phase, k: Tally, callers: nat)
    requires Core(s, h, k) && s' == s.(numWaiters := callers, pc := s'.pc) && s.mutex.By?
    requires h == Standing(s.n, true).(callers := callers)
    requires h' == Standing(s.n, true).(left := callers, open := true, team := true)
    requires k.parked == k.releasing == k.released == 0 && k.first > 0
    ensures Core(s', h', k)
  {
  }

  /** Nobody of an earlier parallel roundup is left when the next one has everybody stopped. */
  lemma OpenAlone(s: State, h: Phase, t: nat)
    requires Inv(s) && h == Now(s) && h.stopped && !h.team
    ensures forall i :: 0 <= i < s.n ==> !ClassOf(s.pc[i]).releasing() && !ClassOf(s.pc[i]).Parked?
    ensures Tallies(s, h).parked == Tallies(s, h).releasing == Tallies(s, h).released == 0
  {
    Standstill(s, h);
    NoneAt(s, IsParked);
    NoneAt(s, IsReleased);
    NoneAt(s, IsReleasing);
  }

  lemma ParStoreInv(s: State, s': State, h: Phase, t: nat)
    requires Inv(s) && h == Now(s) && t < |s.pc| && s.pc[t].ParStore? && s' == StepParallel(s, t)
    ensures Inv(s')
  {
    hide Inv, Shape, Core, Woken, Tallies, VcpuOk, ThreadOk, Accounted, Legal, Moved, Shift;
    var h' := Standing(s.n, true).(left := s.pc[t].callers, open := true, team := true);
    Mine(s, h, t);
    WhereHolder(s, h, t);
    FirstHere(s, h, t);
    OpenAlone(s, h, t);
    OpenMoves(s, s', h, h', t);
    OpenShape(s, s', h, h', t);
    SameClassTally(s, h, s', h', t);
    OpenCore(s, s', h, h', Tallies(s, h), s.pc[t].callers);
    Conclude(s', h', Tallies(s, h), t);
  }

  lemma HandOverShape(s: State, s': State, h: Phase, t: nat)
    requires Shape(s, h) && HolderFrame(s, s', t) && s.mutex == By(t) && s' == s.(mutex := Team, pc := s'.pc)
    requires h.open && h.counting && ThreadOk(s.n, s'.mutex, h, s'.numWaiters, t, s'.pc[t])
    requires ClassOf(s.pc[t]) == Holding(First) && ClassOf(s'.pc[t]) == Inside
    ensures Shape(s', h) && Stopped(s', h) == Stopped(s, h)
  {
    hide ClassOf, Legal;
    forall u | 0 <= u < |s.pc|
      ensures ThreadOk(s'.n, s'.mutex, h, s'.numWaiters, u, s'.pc[u])
    {
      assert ThreadOk(s.n, s.mutex, h, s.numWaiters, u, s.pc[u]);
    }
    forall j | 0 <= j < s.n
      ensures VcpuOk(s'.mutex, h, j, ClassOf(s'.pc[j]), s'.st[j], s'.resume[j]) && SameAccount(s, h, s', h, j)
    {
      assert VcpuOk(s.mutex, h, j, ClassOf(s.pc[j]), s.st[j], s.resume[j]);
    }
    SameStopped(s, h, s', h);
  }

  lemma HandOverMoves(s: State, s': State, h: Phase, t: nat)
    requires HolderAt(s, h, t) && s.pc[t] == ParRelease(0) && s' == StepParallel(s, t)
    ensures HolderFrame(s, s', t) && s' == s.(mutex := Team, pc := s'.pc) && t < s.n
    ensures ThreadOk(s.n, s'.mutex, h, s'.numWaiters, t, s'.pc[t]) && h == Now(s')
    ensures h == Standing(s.n, true).(open := true, team := true)
    ensures ClassOf(s.pc[t]) == Holding(First) && ClassOf(s'.pc[t]) == Inside
  {
    hide Accounted;
  }

  lemma HandOverCore(s: State, s': State, h: Phase, k: Tally, k': Tally)
    requires Core(s, h, k) && s' == s.(mutex := Team, pc := s'.pc) && s.mutex.By? && h.open && k.first > 0
    requires Shift(k, k', Holding(First), Inside) && k'.stopped == k.stopped && h.callers < 0
    ensures Core(s', h, k')
  {
  }

  lemma HandOverInv(s: State, s': State, h: Phase, t: nat)
    requires Inv(s) && h == Now(s) && t < |s.pc| && s.pc[t] == ParRelease(0) && s' == StepParallel(s, t)
    ensures Inv(s')
  {
    hide Inv, Shape, Core, Woken, Tallies, VcpuOk, ThreadOk, Accounted, Legal, Moved, Shift;
    Mine(s, h, t);
    HandOverMoves(s, s', h, t);
    FirstHere(s, h, t);
    HandOverShape(s, s', h, t);
    TalliesMove(s, h, s', h, t);
    MovedShift(s.n, t, Tallies(s, h), Tallies(s', h), Holding(First), Inside);
    StoppedTally(s, h);
    StoppedTally(s', h);
    HandOverCore(s, s', h, Tallies(s, h), Tallies(s', h));
    ConcludeNow(s', h, Tallies(s', h));
  }
}
