/** No wakeup of the roundup protocol is lost, and it never deadlocks. */
module RoundupProgress {
  import opened Counting
  import opened RoundupModel
  import opened RoundupInvariant
  import opened RoundupSteps
  import opened RoundupHolder
  import opened RoundupMutex
  import opened RoundupSafety
  import opened RoundupTheorems
  import opened RoundupCounters
  import opened RoundupParallel

  /** Has done its atomic update and owes the holder a signal. */
  predicate Signals(p: Pc) { p.OnSig? || p.YSig? }

  /** A holder asleep on the signal with nobody left to wait for has it set, or somebody is
      about to set it; a VCPU asleep in wait_for_resume although it is ON likewise. */
  lemma NoLostWakeup(run: seq<State>, k: nat, t: nat)
    requires IsRun(run) && k < |run| && t < |run[k].pc|
    ensures var s := run[k];
            && Sized(s)
            && (s.pc[t].RuWait? && s.progressing == 0 ==> s.sig || exists u :: 0 <= u < |s.pc| && Signals(s.pc[u]))
            && (s.pc[t].WaitResume? ==> t < s.n)
            && (s.pc[t].WaitResume? && s.st[t] == Word(On, false) ==>
                  s.resume[t] || (HolderPc(s).ResSig? && HolderPc(s).i == t))
  {
    hide IsRun, Inv;
    RunInv(run, k);
    var s := run[k];
    CoreOf(s, Now(s));
    if s.pc[t].RuWait? && s.progressing == 0 { HolderWoken(s, t); }
    if s.pc[t].WaitResume? { SleeperWoken(s, t); }
  }

  lemma HolderWoken(s: State, t: nat)
    requires Inv(s) && t < |s.pc| && s.pc[t].RuWait? && s.progressing == 0
    ensures s.sig || exists u :: 0 <= u < |s.pc| && Signals(s.pc[u])
  {
    hide Shape, Core, Accounted;
    Mine(s, Now(s), t);
    if !s.sig {
      var u :| 0 <= u < |s.pc| && ClassOf(s.pc[u]).signalling();
      assert Signals(s.pc[u]);
    }
  }

  lemma SleeperWoken(s: State, t: nat)
    requires Inv(s) && t < |s.pc| && s.pc[t].WaitResume?
    ensures Sized(s) && t < s.n
    ensures s.st[t] == Word(On, false) ==> s.resume[t] || (HolderPc(s).ResSig? && HolderPc(s).i == t)
  {
    hide Inv, Accounted, Now;
    Here(s, Now(s), t);
    NowWaking(s, t);
  }

  lemma NowWaking(s: State, i: nat)
    requires i < s.n
    ensures Now(s).waking == i <==> HolderPc(s).ResSig? && HolderPc(s).i == i
  {
    hide PhaseOf;
    if s.mutex.By? {
      var vm, p := s.mutex.holder < s.n, HolderPc(s);
      if IsResume(p) { ResumeWaking(s.n, vm, p, i); } else { OtherWaking(s.n, vm, p, i); }
    }
  }

  lemma ResumeWaking(n: nat, vm: bool, p: Pc, i: nat)
    requires i < n && IsResume(p)
    ensures PhaseOf(n, vm, p).waking == i <==> p.ResSig? && p.i == i
  {
  }

  lemma OtherWaking(n: nat, vm: bool, p: Pc, i: nat)
    requires i < n && !IsResume(p)
    ensures PhaseOf(n, vm, p).waking == n && !p.ResSig?
  {
  }

  // ---------- no deadlock ----------

  /** Waits on something that is not there. */
  predicate Blocked(s: State, t: nat)
    requires Sized(s) && t < |s.pc|
  {
    match s.pc[t]
    case Enter(_) => !s.mutex.Free?
    case RuWait(_) => !s.sig
    case ParAcquire => s.countSem == 0
    case ParWait => s.resumeSem == 0
    case WaitResume => t < s.n && !s.resume[t]
    case _ => false
  }

  /** A blocked thread does not move. (Any other does: `RoundupLiveness.Moves`.) */
  lemma BlockedStays(s: State, t: nat, c: Choice)
    requires Sized(s) && t < |s.pc| && Blocked(s, t)
    ensures Step(s, t, c) == s
  {
  }

  /** Is in the protocol or in emulation, so that its next step does not wait for the guest or
      for a caller from outside. */
  predicate Engaged(p: Pc) {
    !p.Idle? && !p.Run? && !p.WaitOn? && !p.OffLoad? && !p.OffCas? && !p.EmLoad? && !p.EmCas? && !p.WaitResume? &&
    (p.OnLoad? || p.OnCas? ==> p.why.EndEmulation?)
  }

  ghost predicate SomebodyCan(s: State)
    requires Sized(s)
  {
    exists u: nat :: u < |s.pc| && Engaged(s.pc[u]) && !Blocked(s, u)
  }

  lemma Can(s: State, u: nat)
    requires Sized(s) && u < |s.pc| && Engaged(s.pc[u]) && !Blocked(s, u)
    ensures SomebodyCan(s)
  {
  }

  /** In every reachable state where some thread is blocked, another engaged thread is not:
      the protocol cannot reach a state in which everybody waits for everybody. */
  lemma NoDeadlock(run: seq<State>, k: nat, t: nat)
    requires IsRun(run) && k < |run| && Sized(run[k]) && t < |run[k].pc| && Blocked(run[k], t)
    ensures SomebodyCan(run[k])
  {
    hide IsRun, Inv;
    RunInv(run, k);
    BlockedCan(run[k], t);
  }

  lemma BlockedCan(s: State, t: nat)
    requires Inv(s) && Sized(s) && t < |s.pc| && Blocked(s, t)
    ensures SomebodyCan(s)
  {
    hide Inv, SomebodyCan;
    var p := s.pc[t];
    if !s.mutex.Free? {
      MutexCan(s);
    } else if p.ParAcquire? {
      DoorCan(s, t);
    } else if p.ParWait? {
      ParkedCan(s, t);
    } else {
      FreeMutex(s, t);
    }
  }

  lemma FreeMutex(s: State, t: nat)
    requires Inv(s) && Sized(s) && t < |s.pc| && s.mutex.Free?
    ensures !s.pc[t].RuWait? && (s.pc[t].WaitResume? ==> !Blocked(s, t))
  {
    hide Inv;
    HolderOf(s, t);
    if s.pc[t].WaitResume? { FreeSleeper(s, t); }
  }

  /** Somebody of a class is at a point of that class. */
  lemma Pick(s: State, p: Class -> bool) returns (u: nat)
    requires Sized(s) && Num(s, p) > 0
    ensures u < s.n && p(ClassOf(s.pc[u]))
  {
    CountBound(Classes(s), p);
    u :| 0 <= u < s.n && p(Classes(s)[u]);
  }

  lemma MutexCan(s: State)
    requires Inv(s) && Sized(s) && !s.mutex.Free?
    ensures SomebodyCan(s)
  {
    hide Inv, SomebodyCan;
    if s.mutex.Team? {
      TeamCan(s);
    } else {
      var o := s.mutex.holder;
      HolderThere(s);
      HolderOf(s, o);
      if s.pc[o].RuWait? { GatheringCan(s, o); } else { Can(s, o); }
    }
  }

  lemma TeamCan(s: State)
    requires Inv(s) && Sized(s) && s.mutex.Team?
    ensures SomebodyCan(s)
  {
    hide Inv, SomebodyCan, Count;
    var h := Now(s);
    CoreOf(s, h);
    if Num(s, IsJoined) > 0 {
      var u := Pick(s, IsJoined);
      Can(s, u);
    } else {
      var u := Pick(s, IsLater);
      Here(s, h, u);
      Can(s, u);
    }
  }

  lemma GatheringCan(s: State, o: nat)
    requires Inv(s) && Sized(s) && o < |s.pc| && s.pc[o].RuWait?
    ensures SomebodyCan(s)
  {
    hide Inv, SomebodyCan, Count, Accounted, Legal, Now, Signals;
    var h := Now(s);
    if s.sig {
      Can(s, o);
    } else if s.progressing == 0 {
      HolderWoken(s, o);
      var u :| 0 <= u < |s.pc| && Signals(s.pc[u]);
      SignalsCan(s, u);
    } else {
      CoreOf(s, h);
      AllStopped(s, h);
      var i :| 0 <= i < s.n && !Accounted(h, s.mutex, i, ClassOf(s.pc[i]));
      Mine(s, h, o);
      Here(s, h, i);
      Busy(s, h, i, o);
      if s.pc[i].ParWait? { ParkedCan(s, i); } else { Can(s, i); }
    }
  }

  lemma SignalsCan(s: State, u: nat)
    requires Sized(s) && u < |s.pc| && Signals(s.pc[u])
    ensures SomebodyCan(s)
  {
    Can(s, u);
  }

  /** A VCPU the holder still waits for is in emulation, or about to say that it has left it. */
  lemma Busy(s: State, h: Phase, i: nat, o: nat)
    requires Sized(s) && i < s.n && o < |s.pc| && s.pc[o].RuWait? && HolderAt(s, h, o) && Fits(s, h, i)
    requires !Accounted(h, s.mutex, i, ClassOf(s.pc[i]))
    ensures Engaged(s.pc[i]) && (s.pc[i].ParWait? || !Blocked(s, i))
  {
  }

  lemma DoorCan(s: State, t: nat)
    requires Inv(s) && Sized(s) && t < |s.pc| && s.pc[t].ParAcquire? && s.mutex.Free?
    ensures SomebodyCan(s)
  {
    hide Inv, SomebodyCan, Count;
    var h := Now(s);
    CoreOf(s, h);
    Here(s, h, t);
    CountBound(Classes(s), IsLater);
    var u := Pick(s, IsFirst);
    HolderOf(s, u);
    Can(s, u);
  }

  lemma ParkedCan(s: State, t: nat)
    requires Inv(s) && Sized(s) && t < |s.pc| && s.pc[t].ParWait?
    requires !Now(s).open && !Now(s).closing
    ensures SomebodyCan(s)
  {
    hide Inv, SomebodyCan, Count;
    var h := Now(s);
    CoreOf(s, h);
    Here(s, h, t);
    SomeAt(s, h, t);
    if s.resumeSem > 0 {
      Can(s, t);
    } else {
      var u := Pick(s, IsReleasing);
      Can(s, u);
    }
  }

  /** With nobody in the roundup every VCPU is resumed and signalled. */
  lemma FreeSleeper(s: State, t: nat)
    requires Inv(s) && Sized(s) && t < |s.pc| && s.pc[t].WaitResume? && s.mutex.Free?
    ensures !Blocked(s, t)
  {
    SleeperWoken(s, t);
    Here(s, Now(s), t);
  }
}
