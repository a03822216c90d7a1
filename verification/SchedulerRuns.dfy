/** What the invariant of the scheduler means for whole runs (src/imp.c,
    src/thr_worker.c, src/thr_maintainer.c). */
module SchedulerRuns {
  import opened Scheduler

  /** What is observable of an imp being at a place: queue contents, program
      counters and the waitio flag. */
  ghost predicate Claims(s: State, i: Imp, p: Place) {
    match p
    case Nowhere => false
    case InRunQueue => i in s.runq
    case Held(t) => Holds(s.DriveOf(t), i) || s.SummonOf(t) == Counted(i)
    case Asleep => i in s.waitio && forall t :: !Holds(s.DriveOf(t), i)
    case InTermQueue => i in s.termq
    case AtMaintainer => s.maintainer == Dismissing(i)
  }

  lemma ClaimIsPlace(s: State, i: Imp, p: Place)
    requires ImpOk(s, i)
    ensures Claims(s, i, p) <==> p != Nowhere && s.Where(i) == p
  {
  }

  /** A live imp is in exactly one place, a dead one in none. */
  ghost predicate InOnePlace(s: State, i: Imp) {
    && (i in s.place <==> exists p :: Claims(s, i, p))
    && (forall p, q :: Claims(s, i, p) && Claims(s, i, q) ==> p == q)
  }

  /** In every state of every legal run a live imp is in exactly one place, and
      a dead one in none; in particular no two threads drive the same imp. */
  lemma OnePlace(nrMax: nat, script: seq<Move>, i: Imp)
    requires AllLegal(New(nrMax), script)
    ensures var s := Play(New(nrMax), script);
      Distinct(s.runq) && Distinct(s.termq) && InOnePlace(s, i)
  {
    NewIsOk(nrMax);
    PlayKeepsInv(New(nrMax), script);
    var s := Play(New(nrMax), script);
    hide Play, AllLegal, Claims;
    assert ImpOk(s, i);
    forall p ensures Claims(s, i, p) <==> p != Nowhere && s.Where(i) == p {
      ClaimIsPlace(s, i, p);
    }
    hide ImpOk;
    assert Claims(s, i, s.Where(i)) <==> s.Where(i) != Nowhere;
    assert i in s.place <==> s.Where(i) != Nowhere by { assert ImpOk(s, i); }
  }

  /** nr_total counts live imps and nr_waitio counts sleeping imps, up to the
      threads that are half way through; the limit is never exceeded. */
  lemma CountersCount(nrMax: nat, script: seq<Move>)
    requires AllLegal(New(nrMax), script)
    ensures var s := Play(New(nrMax), script);
      && s.nrTotal - |s.place.Keys| == (if s.maintainer == Freed then 1 else 0)
      && s.nrWaitio == |Sleepers(s)| + |WakingThreads(s)| - |CountingThreads(s)|
      && |s.runq| <= |s.place.Keys| <= s.nrTotal <= s.nrMax
  {
    NewIsOk(nrMax);
    PlayKeepsInv(New(nrMax), script);
    var s := Play(New(nrMax), script);
    hide Play, AllLegal;
    forall x | x in s.runq ensures x in s.place.Keys { assert ImpOk(s, x); }
    DistinctFits(s.runq, s.place.Keys);
  }

  /** The ignored results: in every legal run imp_run and imp_term append the imp they are given. */
  lemma NothingDropped(nrMax: nat, script: seq<Move>, t: Tid)
    requires AllLegal(New(nrMax), script)
    ensures var s := Play(New(nrMax), script);
      && (s.DriveOf(t).Rerun? ==> Do(s, RunAgain(t)).runq == s.runq + [s.DriveOf(t).imp])
      && (s.SummonOf(t).Counted? ==> Do(s, SummonRun(t)).runq == s.runq + [s.SummonOf(t).imp])
      && (s.DriveOf(t).Terming? ==> Do(s, Terminate(t)).termq == s.termq + [s.DriveOf(t).imp])
  {
    NewIsOk(nrMax);
    PlayKeepsInv(New(nrMax), script);
    var s := Play(New(nrMax), script);
    hide Play, AllLegal;
    if s.SummonOf(t).Counted? {
      assert ImpOk(s, s.SummonOf(t).imp);
      RoomForHeld(s, s.SummonOf(t).imp);
    }
    if s.DriveOf(t).Rerun? || s.DriveOf(t).Terming? {
      assert Holds(s.DriveOf(t), s.DriveOf(t).imp) && ImpOk(s, s.DriveOf(t).imp);
      RoomForHeld(s, s.DriveOf(t).imp);
    }
  }

  lemma PlayKeepsNotStranded(s: State, script: seq<Move>)
    requires NotStranded(s)
    ensures NotStranded(Play(s, script))
    decreases script
  {
    hide NotStranded, Do;
    if script != [] {
      NeverStranded(s, script[0]);
      PlayKeepsNotStranded(Do(s, script[0]), script[1..]);
    }
  }

  lemma DriveStays(s: State, m: Move, u: Tid)
    requires m.Maintain? || m.Spurious? || u != m.tid
    ensures Do(s, m).DriveOf(u) == s.DriveOf(u)
  {
    if m.Maintain? || m.Spurious? || m.SummonCheck? || m.SummonCount? || m.SummonRun? {
      DriveUnused(s, m);
      hide Do;
    } else if m.Arm? {
      ArmAlone(s, m.tid, u);
      hide Do;
    } else if m.SetWait? || m.CountSleeper? || m.RunAgain? {
      LoopStays(s, m, u);
      hide Do;
    }
  }

  lemma LoopStays(s: State, m: Move, u: Tid)
    requires (m.SetWait? || m.CountSleeper? || m.RunAgain?) && u != m.tid
    ensures Do(s, m).DriveOf(u) == s.DriveOf(u)
  {
  }

  lemma FetchRequestAlone(s: State, t: Tid, i: Imp, count: nat, u: Tid)
    ensures var s' := FetchRequest(s, t, i, count);
      && s'.maintainer == s.maintainer && s'.pending == s.pending && s'.termq == s.termq
      && (u != t ==> s'.DriveOf(u) == s.DriveOf(u))
  {
  }

  lemma ArmAlone(s: State, t: Tid, u: Tid)
    ensures var s' := Do(s, Arm(t));
      && s'.maintainer == s.maintainer && s'.pending == s.pending && s'.termq == s.termq
      && (u != t ==> s'.DriveOf(u) == s.DriveOf(u))
  {
    hide FetchRequest;
    match s.DriveOf(t) {
      case Arming(i, count) => FetchRequestAlone(s, t, i, count, u);
      case Leaving(i, count) => FetchRequestAlone(s, t, i, count, u);
      case _ =>
    }
  }

  lemma DriveUnused(s: State, m: Move)
    requires m.Maintain? || m.Spurious? || m.SummonCheck? || m.SummonCount? || m.SummonRun?
    ensures Do(s, m).drive == s.drive
  {
    match m {
      case Maintain =>
      case Spurious =>
      case SummonCheck(t) =>
      case SummonCount(t, i) =>
      case SummonRun(t) =>
      case _ => assert false;
    }
  }

  lemma SummonStays(s: State, m: Move, u: Tid)
    requires m.Maintain? || m.Spurious? || u != m.tid
    ensures Do(s, m).SummonOf(u) == s.SummonOf(u)
  {
  }

  lemma TermWakeStays(s: State, m: Move)
    requires !m.Maintain? && !m.Spurious? && !m.Wakeup?
    ensures Do(s, m).DriveOf(m.tid) == s.DriveOf(m.tid) || !s.DriveOf(m.tid).TermWake?
  {
  }

  lemma OneThreadMoves(s: State, m: Move)
    requires !m.Maintain? && !m.Spurious?
    ensures OnlyThread(s, Do(s, m), m.tid)
  {
    hide Do;
    forall u | u != m.tid
      ensures Do(s, m).DriveOf(u) == s.DriveOf(u) && Do(s, m).SummonOf(u) == s.SummonOf(u)
    {
      DriveStays(s, m, u);
      SummonStays(s, m, u);
    }
  }

  lemma MaintainerAlone(s: State, m: Move)
    requires !m.Maintain? && !m.Spurious? && !m.Wakeup?
    ensures Do(s, m).maintainer == s.maintainer
  {
    if m.Arm? {
      ArmAlone(s, m.tid, m.tid);
      hide Do;
    }
  }

  lemma PendingAlone(s: State, m: Move)
    requires !m.Maintain? && !m.Wakeup?
    ensures Do(s, m).pending == s.pending
  {
    if m.Arm? {
      ArmAlone(s, m.tid, m.tid);
      hide Do;
    }
  }

  lemma TermqAlone(s: State, m: Move)
    requires !m.Maintain? && !m.Terminate?
    ensures Do(s, m).termq == s.termq
  {
    if m.Arm? {
      ArmAlone(s, m.tid, m.tid);
      hide Do;
    }
  }

  /** No move of any thread, legal or not, lets the maintainer sleep on a
      terminated imp that nobody will wake it for. */
  lemma NeverStranded(s: State, m: Move)
    requires NotStranded(s)
    ensures NotStranded(Do(s, m))
  {
    if m == Maintain || m == Spurious {
      MaintainerNotStranded(s, m);
    } else if m.Terminate? {
      TerminateStrands(s, m.tid);
    } else if !m.Wakeup? {
      hide Do, NotStranded;
      OneThreadMoves(s, m);
      TermWakeStays(s, m);
      MaintainerAlone(s, m);
      PendingAlone(s, m);
      TermqAlone(s, m);
      StrandFrame(s, Do(s, m), m.tid);
    }
  }

  /** While the maintainer sleeps without a pending event, every terminated imp
      has a thread that has enqueued it and will still call thr_maintainer_wakeup. */
  lemma NoImpStranded(nrMax: nat, script: seq<Move>, i: Imp)
    ensures var s := Play(New(nrMax), script);
      s.maintainer == Waiting && i in s.termq ==> !s.pending && exists t :: s.DriveOf(t) == TermWake(i)
  {
    PlayKeepsNotStranded(New(nrMax), script);
    var s := Play(New(nrMax), script);
    hide Play;
    assert s.maintainer == Waiting && i in s.termq ==> WakeComing(s, i);
  }

  /** A stale event, for an imp that is not asleep, changes nothing; an event
      for a sleeping imp makes the epoller responsible for it. */
  lemma StaleEvent(nrMax: nat, script: seq<Move>, t: Tid, i: Imp)
    requires AllLegal(New(nrMax), script) && Legal(Play(New(nrMax), script), Wake(t, i))
    ensures var s := Play(New(nrMax), script);
      && (s.Where(i) != Asleep ==> Do(s, Wake(t, i)) == s)
      && (s.Where(i) == Asleep && s.Idle(t) ==>
            Do(s, Wake(t, i)).Where(i) == Held(t) && Holds(Do(s, Wake(t, i)).DriveOf(t), i))
  {
    NewIsOk(nrMax);
    PlayKeepsInv(New(nrMax), script);
    hide Play, AllLegal, Counters, NotStranded, Places, Legal;
    var s := Play(New(nrMax), script);
    if CanWake(s, t, i) {
      WakePlaces(s, t, i);
    }
    assert i !in s.waitio ==> s.Where(i) != Asleep by { SleepersWait(s, i); }
  }

  lemma SleepersWait(s: State, i: Imp)
    requires Places(s)
    ensures s.Where(i) == Asleep ==> i in s.waitio
  {
    assert ImpOk(s, i);
  }
}
