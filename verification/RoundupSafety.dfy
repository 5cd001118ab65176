/** The invariant holds throughout every run. */
module RoundupSafety {
  import opened RoundupModel
  import opened RoundupInvariant
  import opened RoundupSteps
  import opened RoundupHolder
  import opened RoundupMutex

  lemma CpuInv(s: State, t: nat, c: Choice)
    requires Inv(s) && t < s.n <= |s.pc| && IsCpu(s.pc[t])
    ensures Inv(StepCpu(s, t, c))
  {
    hide Inv, StepCpu, Now;
    assert Sized(s) by { Here(s, Now(s), t); }
    var s', h := StepCpu(s, t, c), Now(s);
    if s.pc[t].OnNotify? { OnNotifyInv(s, s', h, t, c); }
    else if s.pc[t].OnSig? { OnSigInv(s, s', h, t, c); }
    else if s.pc[t].Emu? && c.Parallel? { JoinInv(s, s', h, t, c); }
    else { OwnInv(s, s', h, t, c); }
  }

  lemma RoundupInv(s: State, t: nat)
    requires Inv(s) && t < |s.pc| && !IsCpu(s.pc[t]) && !IsParallel(s.pc[t]) && !IsResume(s.pc[t]) && !s.pc[t].Idle?
    ensures Sized(s) && Inv(StepRoundup(s, t))
  {
    hide Inv, StepRoundup, Now;
    Bounds(s, t);
    var s', h := StepRoundup(s, t), Now(s);
    match s.pc[t] {
      case YInc(_) => YIncInv(s, s', h, t);
      case YDec(_) => YDecInv(s, s', h, t);
      case YSig(_) => YSigInv(s, s', h, t);
      case Enter(_) => EnterInv(s, s', h, t);
      case RuLoad(_, _) => RuLoadInv(s, s', h, t);
      case RuCas(_, i, cur) => if s.st[i] == cur { RuMarkInv(s, s', h, t); } else { RuRetryInv(s, s', h, t); }
      case RuDec(_, _) => RuDecInv(s, s', h, t);
      case RuSig(_, _) => RuSigInv(s, s', h, t);
      case RuCheck(_) => RuCheckInv(s, s', h, t);
      case RuWait(_) => RuWaitInv(s, s', h, t);
    }
  }

  lemma Bounds(s: State, t: nat)
    requires Inv(s) && t < |s.pc|
    ensures Sized(s) && !s.pc[t].Aborted?
    ensures s.pc[t].RuCas? || s.pc[t].ResCas? ==> s.pc[t].i < s.n
    ensures IsCpu(s.pc[t]) ==> t < s.n
  {
    hide Now, Core, Woken, VcpuOk, Accounted;
    assert ThreadOk(s.n, s.mutex, Now(s), s.numWaiters, t, s.pc[t]);
  }

  lemma ResumeInv(s: State, t: nat)
    requires Inv(s) && t < |s.pc| && IsResume(s.pc[t])
    ensures Sized(s) && Inv(StepResume(s, t))
  {
    hide Inv, StepResume, Now;
    Bounds(s, t);
    var s', h := StepResume(s, t), Now(s);
    match s.pc[t] {
      case Held => HeldInv(s, s', h, t);
      case UnYield(_) => UnYieldInv(s, s', h, t);
      case EndRead(_) => EndReadInv(s, s', h, t);
      case EndStore(_, _) => EndStoreInv(s, s', h, t);
      case ResLoad(_, _) => ResLoadInv(s, s', h, t);
      case ResCas(_, i, cur) => if s.st[i] == cur { ResMarkInv(s, s', h, t); } else { ResRetryInv(s, s', h, t); }
      case ResSig(_, _) => ResSigInv(s, s', h, t);
      case Exit(_) => ExitInv(s, s', h, t);
    }
  }

  lemma ParallelInv(s: State, t: nat)
    requires Inv(s) && t < |s.pc| && IsParallel(s.pc[t])
    ensures Inv(StepParallel(s, t))
  {
    hide Inv, StepParallel, Now;
    var s', h := StepParallel(s, t), Now(s);
    match s.pc[t] {
      case ParRead => ParReadInv(s, s', h, t);
      case ParStore(_) => ParStoreInv(s, s', h, t);
      case ParRelease(left) => if left > 0 { ParReleaseInv(s, s', h, t); } else { HandOverInv(s, s', h, t); }
      case ParAcquire => ParAcquireInv(s, s', h, t);
      case ParUnyield => ParUnyieldInv(s, s', h, t);
      case ParHeld => ParHeldInv(s, s', h, t);
      case ParSub => if s.count == 1 { LastInv(s, s', h, t); } else { ParkInv(s, s', h, t); }
      case ParWait => ParWaitInv(s, s', h, t);
      case RelCheck => RelCheckInv(s, s', h, t);
      case RelSem => RelSemInv(s, s', h, t);
      case RelDec => RelDecInv(s, s', h, t);
    }
  }

  lemma StepInv(s: State, t: nat, c: Choice)
    requires Inv(s) && t < |s.pc|
    ensures Sized(s) && Inv(Step(s, t, c))
  {
    hide Inv, StepCpu, StepRoundup, StepParallel, StepResume, StepOutside;
    Bounds(s, t);
    if s.pc[t].Idle? { OutsideInv(s, StepOutside(s, t), Now(s), t); }
    else if IsCpu(s.pc[t]) { CpuInv(s, t, c); }
    else if IsResume(s.pc[t]) { ResumeInv(s, t); }
    else if IsParallel(s.pc[t]) { ParallelInv(s, t); }
    else { RoundupInv(s, t); }
  }

  lemma {:induction false} RunInv(run: seq<State>, k: nat)
    requires IsRun(run) && k < |run|
    ensures Inv(run[k])
  {
    hide Inv, Step;
    if k == 0 {
      InitInv(run[0]);
    } else {
      RunInv(run, k - 1);
      assert Next(run[k - 1], run[k]);
      var t: nat, c: Choice :| t < |run[k - 1].pc| && run[k] == Step(run[k - 1], t, c);
      StepInv(run[k - 1], t, c);
    }
  }
}
