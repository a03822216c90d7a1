/** The life of an imp (src/imp.c:46-206, src/thr_worker.c:97-107,
    src/thr_maintainer.c:38-46): the stages it passes through, and by which moves. */
module SchedulerLife {
  import opened Scheduler
  import opened SchedulerRuns
  import opened SchedulerConfig

  /** `left` counts the requests that have been made and not registered yet. */
  datatype Phase =
    | Unborn
    | Summoned               // counted, about to enter the run queue
    | Queued
    | Driven(left: nat)      // inside fsm_driver
    | Yielded(left: nat)     // in the arming loop of its driver
    | Sleeping
    | Awoken
    | Returning              // about to enter the run queue again
    | Finished               // about to enter the terminated queue
    | Terminated
    | Dismissed              // dequeued by the maintainer
    | Dead

  function HeldPhase(s: State, i: Imp, d: Drive): Phase {
    match d
    case Driving(_, _) => Driven(s.Requests(i))
    case Arming(_, _) => Yielded(s.Requests(i))
    case Setting(_, _) => Yielded(s.Requests(i) + 1)
    case Rerun(_) => Returning
    case Waking(_) => Awoken
    case Terming(_) => Finished
    case _ => Unborn
  }

  function PhaseOf(s: State, i: Imp): Phase {
    match s.Where(i)
    case Nowhere => if i in s.born then Dead else Unborn
    case InRunQueue => Queued
    case Asleep => Sleeping
    case InTermQueue => Terminated
    case AtMaintainer => Dismissed
    case Held(t) => if s.SummonOf(t) == Counted(i) then Summoned else HeldPhase(s, i, s.DriveOf(t))
  }

  /** The move applies, and to this imp. */
  predicate ActsOn(s: State, m: Move, i: Imp) {
    match m
    case SummonCount(t, j) => j == i && s.SummonOf(t) == Checked && i !in s.born
    case SummonRun(t) => s.SummonOf(t) == Counted(i)
    case Fetch(t) => CanFetch(s, t) && s.runq[0] == i
    case Request(t) => Drives(s, t) && s.DriveOf(t).imp == i
    case Yield(t) => Drives(s, t) && s.DriveOf(t).imp == i
    case Finish(t) => Drives(s, t) && s.DriveOf(t).imp == i
    case RunAgain(t) => s.DriveOf(t) == Rerun(i)
    case Terminate(t) => s.DriveOf(t) == Terming(i)
    case Arm(t) => s.DriveOf(t).Arming? && s.DriveOf(t).imp == i
    case SetWait(t) => s.DriveOf(t).Setting? && s.DriveOf(t).imp == i
    case Wake(t, j) => j == i && CanWake(s, t, i)
    case CountWaker(t) => s.DriveOf(t) == Waking(i)
    case Maintain => s.maintainer == Dismissing(i) || (s.maintainer == Drain && s.termq != [] && s.termq[0] == i)
    case _ => false
  }

  /** The life cycle: the stage that a move leads to, if it may act in that stage. */
  function Next(p: Phase, m: Move): Phase {
    match (m, p)
    case (SummonCount(_, _), Unborn) => Summoned
    case (SummonRun(_), Summoned) => Queued
    case (Fetch(_), Queued) => Driven(0)
    case (Request(_), Driven(n)) => Driven(if n < MAX_REQUESTS then n + 1 else n)
    case (Yield(_), Driven(n)) => Yielded(n)
    case (Finish(_), Driven(_)) => Finished
    case (Arm(_), Yielded(n)) => if n == 0 then Returning else p
    case (SetWait(_), Yielded(n)) => if n > 1 then Yielded(n - 1) else Sleeping
    case (Wake(_, _), Sleeping) => Awoken
    case (CountWaker(_), Awoken) => Returning
    case (RunAgain(_), Returning) => Queued
    case (Terminate(_), Finished) => Terminated
    case (Maintain, Terminated) => Dismissed
    case (Maintain, Dismissed) => Dead
    case _ => Unborn
  }

  /** The arming loop goes on only while there is something to register. */
  ghost predicate LoopOk(s: State, t: Tid) {
    s.DriveOf(t).Arming? && s.DriveOf(t).count > 0 ==> s.Requests(s.DriveOf(t).imp) > 0
  }

  ghost predicate LoopsOk(s: State) {
    forall t {:trigger LoopOk(s, t)} :: LoopOk(s, t)
  }

  ghost predicate Follows(s: State, m: Move, i: Imp) {
    PhaseOf(Do(s, m), i) == if ActsOn(s, m, i) then Next(PhaseOf(s, i), m) else PhaseOf(s, i)
  }

  // ----- one move

  /** An imp that the move does not touch stays in its stage. */
  lemma PhaseFrame(s: State, s': State, i: Imp)
    requires s'.Where(i) == s.Where(i) && (i in s'.born <==> i in s.born) && s'.Requests(i) == s.Requests(i)
    requires forall t :: s.Where(i) == Held(t) ==>
      s'.DriveOf(t) == s.DriveOf(t) && (s'.SummonOf(t) == Counted(i) <==> s.SummonOf(t) == Counted(i))
    ensures PhaseOf(s', i) == PhaseOf(s, i)
  {
  }

  lemma SummonCheckFollows(s: State, t: Tid, i: Imp)
    requires Places(s)
    ensures Follows(s, SummonCheck(t), i)
  {
    assert ImpOk(s, i) && ThreadOk(s, t);
    hide Places, ClaimOk;
  }

  lemma SummonCountFollows(s: State, t: Tid, j: Imp, i: Imp)
    requires Places(s)
    ensures Follows(s, SummonCount(t, j), i)
  {
    assert ImpOk(s, i) && ThreadOk(s, t);
    hide Places, ClaimOk;
    if i == j {
      assert i !in s.born ==> s.Where(i) == Nowhere;
      SummonCountActs(s, t, i);
    } else {
      hide PhaseOf;
      PhaseFrame(s, Do(s, SummonCount(t, j)), i);
    }
  }

  lemma SummonCountActs(s: State, t: Tid, i: Imp)
    requires i !in s.born ==> s.Where(i) == Nowhere
    ensures Follows(s, SummonCount(t, i), i)
  {
  }

  lemma SummonRunFollows(s: State, t: Tid, i: Imp)
    requires Places(s) && Counters(s)
    ensures Follows(s, SummonRun(t), i)
  {
    assert ImpOk(s, i) && ThreadOk(s, t);
    if s.SummonOf(t).Counted? {
      assert ImpOk(s, s.SummonOf(t).imp);
      RoomForHeld(s, s.SummonOf(t).imp);
    }
    hide Places, Counters, ClaimOk;
  }

  lemma FetchFollows(s: State, t: Tid, i: Imp)
    requires Places(s)
    ensures Follows(s, Fetch(t), i)
  {
    assert ImpOk(s, i) && ThreadOk(s, t);
    if CanFetch(s, t) {
      assert s.runq[0] in s.runq && ImpOk(s, s.runq[0]);
    }
    hide Places, ClaimOk;
  }

  lemma RequestFollows(s: State, t: Tid, i: Imp)
    requires Places(s)
    ensures Follows(s, Request(t), i)
  {
    assert ImpOk(s, i) && ThreadOk(s, t) && ClaimOk(s, i, s.DriveOf(t), t);
    hide Places;
    if ActsOn(s, Request(t), i) {
      RequestActs(s, t, i);
    } else {
      hide PhaseOf, ClaimOk;
      PhaseFrame(s, Do(s, Request(t)), i);
    }
  }

  lemma RequestActs(s: State, t: Tid, i: Imp)
    requires ActsOn(s, Request(t), i) && s.Where(i) == Held(t) && s.SummonOf(t) != Counted(i)
    ensures Follows(s, Request(t), i)
  {
  }

  lemma YieldFollows(s: State, t: Tid, i: Imp)
    requires Places(s)
    ensures Follows(s, Yield(t), i)
  {
    assert ImpOk(s, i) && ThreadOk(s, t) && ClaimOk(s, i, s.DriveOf(t), t);
    hide Places;
    if ActsOn(s, Yield(t), i) {
      assert s.Where(i) == Held(t) && s.SummonOf(t) != Counted(i);
      hide ImpOk, ClaimOk;
    } else {
      hide PhaseOf, ClaimOk;
      PhaseFrame(s, Do(s, Yield(t)), i);
    }
  }

  lemma FinishFollows(s: State, t: Tid, i: Imp)
    requires Places(s)
    ensures Follows(s, Finish(t), i)
  {
    assert ImpOk(s, i) && ThreadOk(s, t) && ClaimOk(s, i, s.DriveOf(t), t);
    hide Places;
  }

  lemma RunAgainFollows(s: State, t: Tid, i: Imp)
    requires Places(s) && Counters(s)
    ensures Follows(s, RunAgain(t), i)
  {
    assert ImpOk(s, i) && ThreadOk(s, t) && ClaimOk(s, i, s.DriveOf(t), t);
    if s.DriveOf(t).Rerun? {
      assert ImpOk(s, s.DriveOf(t).imp) && ClaimOk(s, s.DriveOf(t).imp, s.DriveOf(t), t);
      RoomForHeld(s, s.DriveOf(t).imp);
    }
    hide Places, Counters;
  }

  lemma TerminateFollows(s: State, t: Tid, i: Imp)
    requires Places(s) && Counters(s)
    ensures Follows(s, Terminate(t), i)
  {
    assert ImpOk(s, i) && ThreadOk(s, t) && ClaimOk(s, i, s.DriveOf(t), t);
    if s.DriveOf(t).Terming? {
      assert ImpOk(s, s.DriveOf(t).imp) && ClaimOk(s, s.DriveOf(t).imp, s.DriveOf(t), t);
      RoomForHeld(s, s.DriveOf(t).imp);
    }
    hide Places, Counters;
  }

  lemma WakeupFollows(s: State, t: Tid, i: Imp)
    requires Places(s)
    ensures Follows(s, Wakeup(t), i)
  {
    assert ImpOk(s, i) && ThreadOk(s, t);
    hide Places, ClaimOk;
  }

  lemma ArmFollows(s: State, t: Tid, i: Imp)
    requires Places(s) && LoopsOk(s)
    ensures Follows(s, Arm(t), i)
  {
    assert ImpOk(s, i) && ThreadOk(s, t) && ClaimOk(s, i, s.DriveOf(t), t) && LoopOk(s, t);
    if s.DriveOf(t).Leaving? {
      assert ImpOk(s, s.DriveOf(t).imp) && ClaimOk(s, s.DriveOf(t).imp, s.DriveOf(t), t);
    }
    hide Places, LoopsOk;
    if ActsOn(s, Arm(t), i) {
      ArmActs(s, t, i);
    } else {
      ArmElsewhere(s, t, i);
      hide PhaseOf, Do;
      PhaseFrame(s, Do(s, Arm(t)), i);
    }
  }

  lemma ArmActs(s: State, t: Tid, i: Imp)
    requires ActsOn(s, Arm(t), i) && s.Where(i) == Held(t) && s.SummonOf(t) != Counted(i) && LoopOk(s, t)
    ensures Follows(s, Arm(t), i)
  {
    if s.Requests(i) == 0 {
      assert Do(s, Arm(t)).Where(i) == Held(t) && Do(s, Arm(t)).DriveOf(t) == Rerun(i) && Do(s, Arm(t)).summon == s.summon;
    } else {
      assert Do(s, Arm(t)).Where(i) == Held(t) && Do(s, Arm(t)).DriveOf(t).Setting? && Do(s, Arm(t)).summon == s.summon;
      assert Do(s, Arm(t)).Requests(i) == s.Requests(i) - 1;
    }
    hide Do;
  }

  lemma ArmElsewhere(s: State, t: Tid, i: Imp)
    requires !ActsOn(s, Arm(t), i) && (s.DriveOf(t).Leaving? ==> s.Requests(s.DriveOf(t).imp) == 0)
    requires s.Where(i) == Held(t) ==> Holds(s.DriveOf(t), i) != (s.SummonOf(t) == Counted(i))
    requires !s.DriveOf(t).Free? && !s.DriveOf(t).Driving? ==> s.SummonOf(t) == NoSummon
    ensures var s' := Do(s, Arm(t));
      && s'.Where(i) == s.Where(i) && s'.born == s.born && s'.Requests(i) == s.Requests(i) && s'.summon == s.summon
      && forall u :: s.Where(i) == Held(u) ==> s'.DriveOf(u) == s.DriveOf(u)
  {
    hide FetchRequest;
    match s.DriveOf(t) {
      case Arming(j, count) => FetchElsewhere(s, t, j, count, i);
      case Leaving(j, count) => FetchElsewhere(s, t, j, count, i);
      case _ =>
    }
  }

  lemma FetchElsewhere(s: State, t: Tid, j: Imp, count: nat, i: Imp)
    requires i != j || s.Requests(j) == 0
    ensures var s' := FetchRequest(s, t, j, count);
      && s'.place == s.place && s'.born == s.born && s'.Requests(i) == s.Requests(i) && s'.summon == s.summon
      && forall u :: u != t ==> s'.DriveOf(u) == s.DriveOf(u)
  {
  }

  lemma SetWaitFollows(s: State, t: Tid, i: Imp)
    requires Places(s)
    ensures Follows(s, SetWait(t), i)
  {
    assert ImpOk(s, i) && ThreadOk(s, t) && ClaimOk(s, i, s.DriveOf(t), t);
    hide Places;
    if ActsOn(s, SetWait(t), i) {
      SetWaitActs(s, t, i);
    } else {
      hide PhaseOf, ClaimOk;
      PhaseFrame(s, Do(s, SetWait(t)), i);
    }
  }

  lemma SetWaitActs(s: State, t: Tid, i: Imp)
    requires ActsOn(s, SetWait(t), i) && s.Where(i) == Held(t) && s.SummonOf(t) != Counted(i)
    ensures Follows(s, SetWait(t), i)
  {
    var s' := Do(s, SetWait(t));
    if s.Requests(i) > 0 {
      assert s'.Where(i) == Held(t) && s'.DriveOf(t).Arming? && s'.summon == s.summon && s'.Requests(i) == s.Requests(i);
    } else {
      assert s'.Where(i) == Asleep;
    }
    hide Do;
  }

  lemma CountSleeperFollows(s: State, t: Tid, i: Imp)
    requires Places(s)
    ensures Follows(s, CountSleeper(t), i)
  {
    assert ImpOk(s, i) && ThreadOk(s, t) && ClaimOk(s, i, s.DriveOf(t), t);
    hide Places;
  }

  lemma WakeFollows(s: State, t: Tid, j: Imp, i: Imp)
    requires Places(s) && Legal(s, Wake(t, j))
    ensures Follows(s, Wake(t, j), i)
  {
    assert ImpOk(s, i) && ImpOk(s, j) && ThreadOk(s, t);
    if CanWake(s, t, j) {
      assert s.Where(j).Held? ==> !Registers(s.DriveOf(s.Where(j).tid), j);
    }
    hide Places, ClaimOk, Legal;
    if i == j {
      assert CanWake(s, t, i) ==> s.Where(i) == Asleep;
      WakeActs(s, t, i);
    } else {
      hide PhaseOf;
      PhaseFrame(s, Do(s, Wake(t, j)), i);
    }
  }

  lemma WakeActs(s: State, t: Tid, i: Imp)
    requires CanWake(s, t, i) ==> s.Where(i) == Asleep
    ensures Follows(s, Wake(t, i), i)
  {
  }

  lemma CountWakerFollows(s: State, t: Tid, i: Imp)
    requires Places(s)
    ensures Follows(s, CountWaker(t), i)
  {
    assert ImpOk(s, i) && ThreadOk(s, t) && ClaimOk(s, i, s.DriveOf(t), t);
    hide Places;
  }

  lemma MaintainFollows(s: State, i: Imp)
    requires Places(s)
    ensures Follows(s, Maintain, i)
  {
    assert ImpOk(s, i);
    if s.maintainer == Drain && s.termq != [] {
      assert s.termq[0] in s.termq && ImpOk(s, s.termq[0]);
    }
    hide Places, ClaimOk;
    if ActsOn(s, Maintain, i) {
      MaintainActs(s, i);
    } else {
      MaintainElsewhere(s, i);
      hide PhaseOf, Do;
      PhaseFrame(s, Do(s, Maintain), i);
    }
  }

  lemma MaintainActs(s: State, i: Imp)
    requires ActsOn(s, Maintain, i) && i in s.born
    requires if s.maintainer == Drain then s.Where(i) == InTermQueue else s.Where(i) == AtMaintainer
    ensures Follows(s, Maintain, i)
  {
  }

  lemma MaintainElsewhere(s: State, i: Imp)
    requires !ActsOn(s, Maintain, i)
    ensures var s' := Do(s, Maintain);
      s'.Where(i) == s.Where(i) && s'.born == s.born && s'.Requests(i) == s.Requests(i) && s'.summon == s.summon && s'.drive == s.drive
  {
    if s.maintainer.Dismissing? {
      DismissElsewhere(s, i);
      hide Do;
    }
  }

  lemma DismissElsewhere(s: State, i: Imp)
    requires s.maintainer.Dismissing? && s.maintainer.imp != i
    ensures var s' := Do(s, Maintain);
      s'.Where(i) == s.Where(i) && s'.born == s.born && s'.Requests(i) == s.Requests(i) && s'.summon == s.summon && s'.drive == s.drive
  {
    assert Do(s, Maintain) == Maintainers(s);
    hide Do;
  }

  lemma SpuriousFollows(s: State, i: Imp)
    requires Places(s)
    ensures Follows(s, Spurious, i)
  {
  }

  /** Every legal move leads each imp one step along the life cycle, or leaves it where it is. */
  lemma LifeStep(s: State, m: Move, i: Imp)
    requires Inv(s) && LoopsOk(s) && Legal(s, m)
    ensures Follows(s, m, i)
  {
    hide Places, Counters, LoopsOk, Legal, Follows, NotStranded;
    match m {
      case SummonCheck(t) => SummonCheckFollows(s, t, i);
      case SummonCount(t, j) => SummonCountFollows(s, t, j, i);
      case SummonRun(t) => SummonRunFollows(s, t, i);
      case Fetch(t) => FetchFollows(s, t, i);
      case Request(t) => RequestFollows(s, t, i);
      case Yield(t) => YieldFollows(s, t, i);
      case Finish(t) => FinishFollows(s, t, i);
      case RunAgain(t) => RunAgainFollows(s, t, i);
      case Terminate(t) => TerminateFollows(s, t, i);
      case Wakeup(t) => WakeupFollows(s, t, i);
      case Arm(t) => ArmFollows(s, t, i);
      case SetWait(t) => SetWaitFollows(s, t, i);
      case CountSleeper(t) => CountSleeperFollows(s, t, i);
      case Wake(t, j) => WakeFollows(s, t, j, i);
      case CountWaker(t) => CountWakerFollows(s, t, i);
      case Maintain => MaintainFollows(s, i);
      case Spurious => SpuriousFollows(s, i);
    }
  }

  lemma LoopsStay(s: State, m: Move)
    requires Inv(s) && LoopsOk(s) && Legal(s, m)
    ensures LoopsOk(Do(s, m))
  {
    assert Places(s);
    forall u
      ensures LoopOk(Do(s, m), u)
    {
      assert LoopOk(s, u);
      if m.Maintain? || m.Spurious? || m.tid != u {
        LoopStaysOther(s, m, u);
      } else {
        LoopStaysMover(s, m);
      }
    }
  }

  lemma LoopStaysOther(s: State, m: Move, u: Tid)
    requires Places(s) && LoopOk(s, u) && (m.Maintain? || m.Spurious? || m.tid != u)
    ensures LoopOk(Do(s, m), u)
  {
    hide Places, Do;
    DriveStays(s, m, u);
    if s.DriveOf(u).Arming? {
      RequestsStay(s, m, u, s.DriveOf(u).imp);
    }
  }

  lemma LoopStaysMover(s: State, m: Move)
    requires !m.Maintain? && !m.Spurious? && LoopOk(s, m.tid)
    ensures LoopOk(Do(s, m), m.tid)
  {
  }

  // ----- whole runs

  lemma NewIsIdle(nrMax: nat)
    ensures Inv(New(nrMax)) && LoopsOk(New(nrMax))
  {
    NewIsOk(nrMax);
  }

  lemma {:induction false} PlayKeepsLife(s: State, script: seq<Move>)
    requires Inv(s) && LoopsOk(s) && AllLegal(s, script)
    ensures Inv(Play(s, script)) && LoopsOk(Play(s, script))
    decreases script
  {
    if script != [] {
      hide Inv, LoopsOk, Legal, Do;
      DoKeepsInv(s, script[0]);
      LoopsStay(s, script[0]);
      PlayKeepsLife(Do(s, script[0]), script[1..]);
    }
  }

  /** The imp has finished: it is on its way out, or gone. */
  predicate Over(p: Phase) {
    p == Finished || p == Terminated || p == Dismissed || p == Dead
  }

  lemma OverStays(s: State, m: Move, i: Imp)
    requires Inv(s) && LoopsOk(s) && Legal(s, m) && Over(PhaseOf(s, i))
    ensures Over(PhaseOf(Do(s, m), i))
  {
    LifeStep(s, m, i);
    if ActsOn(s, m, i) {
      ActsInOrder(s, m, i);
    }
    hide Inv, LoopsOk, Legal, Do, PhaseOf, ActsOn;
  }

  /** A move acts only in the stages that the life cycle has for it. */
  lemma ActsInOrder(s: State, m: Move, i: Imp)
    requires Inv(s) && Legal(s, m) && ActsOn(s, m, i)
    ensures match m
      case SummonCount(_, _) => PhaseOf(s, i) == Unborn
      case SummonRun(_) => PhaseOf(s, i) == Summoned
      case Fetch(_) => PhaseOf(s, i) == Queued
      case Request(_) => PhaseOf(s, i).Driven?
      case Yield(_) => PhaseOf(s, i).Driven?
      case Finish(_) => PhaseOf(s, i).Driven?
      case Arm(_) => PhaseOf(s, i).Yielded?
      case SetWait(_) => PhaseOf(s, i).Yielded? && PhaseOf(s, i).left > 0
      case Wake(_, _) => PhaseOf(s, i) == Sleeping
      case CountWaker(_) => PhaseOf(s, i) == Awoken
      case RunAgain(_) => PhaseOf(s, i) == Returning
      case Terminate(_) => PhaseOf(s, i) == Finished
      case Maintain => PhaseOf(s, i) == Terminated || PhaseOf(s, i) == Dismissed
      case _ => true
  {
    assert Places(s) && ImpOk(s, i);
    if m.Maintain? {
      assert s.maintainer == Drain && s.termq != [] ==> s.termq[0] in s.termq;
    } else if !m.Spurious? {
      assert ThreadOk(s, m.tid) && ClaimOk(s, i, s.DriveOf(m.tid), m.tid);
    }
    hide Places, Counters, NotStranded;
  }

  lemma {:induction false} OverForGood(s: State, script: seq<Move>, i: Imp)
    requires Inv(s) && LoopsOk(s) && AllLegal(s, script) && Over(PhaseOf(s, i))
    ensures Over(PhaseOf(Play(s, script), i))
    decreases script
  {
    if script != [] {
      hide Inv, LoopsOk, Legal, Do, PhaseOf;
      OverStays(s, script[0], i);
      DoKeepsInv(s, script[0]);
      LoopsStay(s, script[0]);
      OverForGood(Do(s, script[0]), script[1..], i);
    }
  }

  /** Nobody runs the imp and nobody is about to. */
  ghost predicate OutOfPlay(s: State, i: Imp) {
    && i !in s.runq && i !in s.waitio
    && (forall t :: Holds(s.DriveOf(t), i) ==> s.DriveOf(t) == Terming(i))
    && (forall t :: s.SummonOf(t) != Counted(i))
  }

  lemma OverIsOut(s: State, i: Imp)
    requires Inv(s) && Over(PhaseOf(s, i))
    ensures OutOfPlay(s, i)
  {
    assert Places(s) && ImpOk(s, i);
    forall t | Holds(s.DriveOf(t), i)
      ensures s.DriveOf(t) == Terming(i)
    {
      assert ClaimOk(s, i, s.DriveOf(t), t) && ThreadOk(s, t);
    }
    hide Places, Counters, NotStranded;
  }

  /** Once the driver of an imp has returned TO_TERM, the imp never enters the run queue
      again, is never put to sleep, and no thread drives it again. */
  lemma FinishIsFinal(nrMax: nat, script: seq<Move>, t: Tid, more: seq<Move>)
    requires var s := Play(New(nrMax), script);
      && AllLegal(New(nrMax), script) && Drives(s, t)
      && AllLegal(Do(s, Finish(t)), more)
    ensures var s := Play(New(nrMax), script);
      OutOfPlay(Play(Do(s, Finish(t)), more), s.DriveOf(t).imp)
  {
    var s := Play(New(nrMax), script);
    var i := s.DriveOf(t).imp;
    NewIsIdle(nrMax);
    PlayKeepsLife(New(nrMax), script);
    FinishIsLegal(s, t);
    assert ActsOn(s, Finish(t), i);
    hide Play, AllLegal, Inv, LoopsOk, Do, PhaseOf, Legal, ActsOn;
    LifeStep(s, Finish(t), i);
    ActsInOrder(s, Finish(t), i);
    DoKeepsInv(s, Finish(t));
    LoopsStay(s, Finish(t));
    OverForGood(Do(s, Finish(t)), more, i);
    PlayKeepsLife(Do(s, Finish(t)), more);
    OverIsOut(Play(Do(s, Finish(t)), more), i);
  }

  lemma FinishIsLegal(s: State, t: Tid)
    ensures Legal(s, Finish(t)) && Legal(s, Terminate(t))
  {
  }

  /** A finished imp is enqueued for termination by the next move of its thread. */
  lemma FinishTerminates(nrMax: nat, script: seq<Move>, t: Tid)
    requires AllLegal(New(nrMax), script) && Drives(Play(New(nrMax), script), t)
    ensures var s := Play(New(nrMax), script); var s2 := Do(Do(s, Finish(t)), Terminate(t));
      s2.termq == s.termq + [s.DriveOf(t).imp] && s2.DriveOf(t) == TermWake(s.DriveOf(t).imp)
  {
    NewIsOk(nrMax);
    PlayKeepsInv(New(nrMax), script);
    var s := Play(New(nrMax), script);
    var i := s.DriveOf(t).imp;
    hide Play, AllLegal;
    assert Places(s) && ImpOk(s, i) && ClaimOk(s, i, s.DriveOf(t), t) && Holds(s.DriveOf(t), i);
    RoomForHeld(s, i);
    hide Inv, Places, Counters;
  }

  /** The maintainer's moves on the head of its queue. */
  function Drains(n: nat): seq<Move> {
    if n == 0 then [] else [Maintain, Maintain, Maintain] + Drains(n - 1)
  }

  lemma DrainOne(s: State)
    requires s.maintainer == Drain && s.termq != []
    ensures var s3 := Do(Do(Do(s, Maintain), Maintain), Maintain);
      && s3.maintainer == Drain && s3.termq == s.termq[1..] && s3.nrTotal == s.nrTotal - 1
      && s3.place == s.place - {s.termq[0]}
  {
    var i := s.termq[0];
    assert s.place[i := AtMaintainer] - {i} == s.place - {i};
  }

  lemma {:induction false} PlayDrains(s: State, n: nat)
    requires s.maintainer == Drain && n <= |s.termq|
    ensures var s' := Play(s, Drains(n));
      && s'.termq == s.termq[n..] && s'.nrTotal == s.nrTotal - n
      && s'.place.Keys <= s.place.Keys
      && forall k :: 0 <= k < n ==> s.termq[k] !in s'.place
    decreases n
  {
    if n > 0 {
      var d := Drains(n);
      assert d[0] == d[1] == d[2] == Maintain && d[1..][1..][1..] == Drains(n - 1);
      var s1 := Do(s, Maintain);
      var s2 := Do(s1, Maintain);
      var s3 := Do(s2, Maintain);
      DrainOne(s);
      assert Play(s, d) == Play(s1, d[1..]) && Play(s1, d[1..]) == Play(s2, d[1..][1..]);
      assert Play(s2, d[1..][1..]) == Play(s3, Drains(n - 1));
      hide Do, Play, Drains;
      PlayDrains(s3, n - 1);
    }
  }

  // ----- where a yield leads

  /** Where an imp goes that yields with this many requests. */
  function YieldGoal(left: nat): Phase {
    if left > 0 then Sleeping else Returning
  }

  lemma YieldStays(s: State, m: Move, i: Imp)
    requires Inv(s) && LoopsOk(s) && Legal(s, m) && PhaseOf(s, i).Yielded?
    ensures var n, p := PhaseOf(s, i).left, PhaseOf(Do(s, m), i);
      p == YieldGoal(n) || (p.Yielded? && p.left <= n && (p.left == 0 <==> n == 0))
  {
    LifeStep(s, m, i);
    if ActsOn(s, m, i) {
      ActsInOrder(s, m, i);
    }
    hide Inv, LoopsOk, Legal, Do, PhaseOf, ActsOn;
  }

  /** In every run an imp that has yielded is in its arming loop until it is asleep, if it
      requested an event, or until it is on its way to the run queue, if it did not. */
  lemma {:induction false} YieldLeadsOn(s: State, script: seq<Move>, i: Imp)
    requires Inv(s) && LoopsOk(s) && AllLegal(s, script) && PhaseOf(s, i).Yielded?
    ensures var n, p := PhaseOf(s, i).left, PhaseOf(Play(s, script), i);
      || (p.Yielded? && p.left <= n && (p.left == 0 <==> n == 0))
      || exists k :: 0 < k <= |script| && PhaseOf(Play(s, script[..k]), i) == YieldGoal(n)
    decreases script
  {
    if script != [] {
      var s1, rest := Do(s, script[0]), script[1..];
      var n := PhaseOf(s, i).left;
      YieldStays(s, script[0], i);
      DoKeepsInv(s, script[0]);
      LoopsStay(s, script[0]);
      hide Inv, LoopsOk, Legal, Do, PhaseOf;
      PrefixStep(s, script, 1);
      if PhaseOf(s1, i) == YieldGoal(n) {
        assert PhaseOf(Play(s, script[..1]), i) == YieldGoal(n);
      } else {
        YieldLeadsOn(s1, rest, i);
        if k :| 0 < k <= |rest| && PhaseOf(Play(s1, rest[..k]), i) == YieldGoal(n) {
          PrefixStep(s, script, k + 1);
        }
      }
    }
  }

  lemma PrefixStep(s: State, script: seq<Move>, k: nat)
    requires 0 < k <= |script|
    ensures Play(s, script[..k]) == Play(Do(s, script[0]), script[1..][..k - 1])
  {
    assert script[..k][0] == script[0] && script[..k][1..] == script[1..][..k - 1];
  }

  /** The arming loop of a thread that nobody interrupts. */
  function Loop(t: Tid, n: nat): seq<Move> {
    if n == 0 then [Arm(t)] else [Arm(t), SetWait(t)] + Loop(t, n - 1)
  }

  lemma LoopTurn(s: State, t: Tid, i: Imp, count: nat)
    requires s.DriveOf(t) == Arming(i, count) && s.Requests(i) > 0
    ensures var s2 := Do(Do(s, Arm(t)), SetWait(t));
      && s2.Requests(i) == s.Requests(i) - 1 && i in s2.waitio && s2.nrWaitio == s.nrWaitio && s2.runq == s.runq
      && s2.DriveOf(t) == (if s2.Requests(i) > 0 then Arming(i, count + 1) else Leaving(i, count + 1))
      && (s2.Requests(i) == 0 ==> s2.Where(i) == Asleep)
  {
    var s1 := Do(s, Arm(t));
    assert s1.DriveOf(t) == Setting(i, count) && s1.Requests(i) == s.Requests(i) - 1 && s1.nrWaitio == s.nrWaitio && s1.runq == s.runq;
  }

  lemma LoopEnd(s: State, t: Tid, i: Imp, count: nat)
    requires (s.DriveOf(t) == Leaving(i, count) && s.Where(i) == Asleep && count > 0) || (s.DriveOf(t) == Arming(i, 0) && count == 0)
    requires s.Requests(i) == 0
    ensures var s1 := Do(s, Arm(t));
      s1.DriveOf(t) == (if count > 0 then Counting(i) else Rerun(i)) && s1.Where(i) == s.Where(i)
      && s1.waitio == s.waitio && s1.nrWaitio == s.nrWaitio && s1.runq == s.runq
  {
  }

  /** Uninterrupted, the loop registers all n requests and leaves the imp asleep, about to
      be counted; without a request it leaves the imp about to enter the run queue. */
  lemma {:induction false} LoopArmsAll(s: State, t: Tid, i: Imp, count: nat, n: nat)
    requires s.Requests(i) == n
    requires if n == 0 && count > 0 then s.DriveOf(t) == Leaving(i, count) && s.Where(i) == Asleep && i in s.waitio
      else s.DriveOf(t) == Arming(i, count)
    ensures var s' := Play(s, Loop(t, n));
      && s'.nrWaitio == s.nrWaitio && s'.runq == s.runq
      && if n + count > 0 then s'.DriveOf(t) == Counting(i) && s'.Where(i) == Asleep && i in s'.waitio else s'.DriveOf(t) == Rerun(i)
    decreases n
  {
    var l := Loop(t, n);
    var s1 := Do(s, Arm(t));
    if n == 0 {
      assert l == [Arm(t)] && l[1..] == [];
      assert Play(s, l) == Play(s1, []);
      LoopEnd(s, t, i, count);
    } else {
      var s2 := Do(s1, SetWait(t));
      assert l[0] == Arm(t) && l[1..][0] == SetWait(t) && l[1..][1..] == Loop(t, n - 1);
      assert Play(s, l) == Play(s1, l[1..]) && Play(s1, l[1..]) == Play(s2, Loop(t, n - 1));
      LoopTurn(s, t, i, count);
      hide *;
      LoopArmsAll(s2, t, i, count + 1, n - 1);
    }
  }

  // ----- the queues are first in, first out

  /** The imps that the move appends to the run queue, and that it takes from it: as the
      threads have them in hand. */
  function Enters(s: State, m: Move): seq<Imp> {
    if m.SummonRun? && s.SummonOf(m.tid).Counted? then [s.SummonOf(m.tid).imp]
    else if m.RunAgain? && s.DriveOf(m.tid).Rerun? then [s.DriveOf(m.tid).imp]
    else []
  }

  function Fetches(s: State, m: Move): seq<Imp> {
    if m.Fetch? && s.DriveOf(m.tid).Free? && Do(s, m).DriveOf(m.tid).Driving? then [Do(s, m).DriveOf(m.tid).imp] else []
  }

  /** The same for the terminated queue. */
  function Retires(s: State, m: Move): seq<Imp> {
    if m.Terminate? && s.DriveOf(m.tid).Terming? then [s.DriveOf(m.tid).imp] else []
  }

  function Drained(s: State, m: Move): seq<Imp> {
    if s.maintainer == Drain && Do(s, m).maintainer.Dismissing? then [Do(s, m).maintainer.imp] else []
  }

  lemma RunqAlone(s: State, m: Move)
    requires !m.SummonRun? && !m.RunAgain? && !m.Fetch?
    ensures Do(s, m).runq == s.runq
  {
    if m.Arm? {
      ArmLeavesRunq(s, m.tid);
      hide Do;
    }
  }

  lemma ArmLeavesRunq(s: State, t: Tid)
    ensures Do(s, Arm(t)).runq == s.runq
  {
    hide FetchRequest;
    match s.DriveOf(t) {
      case Arming(i, count) => RequestLeavesRunq(s, t, i, count);
      case Leaving(i, count) => RequestLeavesRunq(s, t, i, count);
      case _ =>
    }
  }

  lemma RequestLeavesRunq(s: State, t: Tid, i: Imp, count: nat)
    ensures FetchRequest(s, t, i, count).runq == s.runq
  {
  }

  lemma SummonEnters(s: State, t: Tid)
    requires Places(s) && Counters(s)
    ensures s.runq + Enters(s, SummonRun(t)) == Do(s, SummonRun(t)).runq
  {
    if s.SummonOf(t).Counted? {
      assert ImpOk(s, s.SummonOf(t).imp);
      RoomForHeld(s, s.SummonOf(t).imp);
    }
    hide Places, Counters, ImpOk;
  }

  lemma RunEnters(s: State, t: Tid)
    requires Places(s) && Counters(s)
    ensures s.runq + Enters(s, RunAgain(t)) == Do(s, RunAgain(t)).runq
  {
    if s.DriveOf(t).Rerun? {
      var i := s.DriveOf(t).imp;
      assert ImpOk(s, i) && ClaimOk(s, i, s.DriveOf(t), t);
      RoomForHeld(s, i);
    }
    hide Places, Counters, ImpOk;
  }

  lemma FetchTakes(s: State, t: Tid)
    ensures s.runq == Fetches(s, Fetch(t)) + Do(s, Fetch(t)).runq
  {
    if CanFetch(s, t) {
      assert Do(s, Fetch(t)).DriveOf(t) == Driving(s.runq[0], 0);
      assert s.runq == [s.runq[0]] + s.runq[1..];
    }
  }

  lemma RunqStep(s: State, m: Move)
    requires Inv(s)
    ensures s.runq + Enters(s, m) == Fetches(s, m) + Do(s, m).runq
  {
    assert Places(s) && Counters(s);
    hide Do, Inv, Places, Counters;
    if m.SummonRun? {
      SummonEnters(s, m.tid);
    } else if m.RunAgain? {
      RunEnters(s, m.tid);
    } else if m.Fetch? {
      FetchTakes(s, m.tid);
    } else {
      RunqAlone(s, m);
    }
  }

  lemma NothingDrained(s: State, m: Move)
    requires !m.Maintain? && s.maintainer == Drain
    ensures !Do(s, m).maintainer.Dismissing?
  {
    if !m.Spurious? && !m.Wakeup? {
      MaintainerAlone(s, m);
      hide Do;
    }
  }

  lemma TerminateRetires(s: State, t: Tid)
    requires Places(s) && Counters(s)
    ensures s.termq + Retires(s, Terminate(t)) == Do(s, Terminate(t)).termq
  {
    if s.DriveOf(t).Terming? {
      var i := s.DriveOf(t).imp;
      assert ImpOk(s, i) && ClaimOk(s, i, s.DriveOf(t), t);
      RoomForHeld(s, i);
    }
    hide Places, Counters, ImpOk;
  }

  lemma MaintainDrains(s: State)
    ensures s.termq == Drained(s, Maintain) + Do(s, Maintain).termq
  {
    if s.maintainer == Drain && s.termq != [] {
      assert s.termq == [s.termq[0]] + s.termq[1..];
    }
  }

  lemma TermqStep(s: State, m: Move)
    requires Inv(s)
    ensures s.termq + Retires(s, m) == Drained(s, m) + Do(s, m).termq
  {
    assert Places(s) && Counters(s);
    hide Do, Inv, Places, Counters;
    if m.Maintain? {
      MaintainDrains(s);
    } else {
      if s.maintainer == Drain { NothingDrained(s, m); }
      if m.Terminate? { TerminateRetires(s, m.tid); } else { TermqAlone(s, m); }
    }
  }

  function AllEnters(s: State, script: seq<Move>): seq<Imp>
    decreases script
  {
    if script == [] then [] else Enters(s, script[0]) + AllEnters(Do(s, script[0]), script[1..])
  }

  function AllFetches(s: State, script: seq<Move>): seq<Imp>
    decreases script
  {
    if script == [] then [] else Fetches(s, script[0]) + AllFetches(Do(s, script[0]), script[1..])
  }

  function AllRetires(s: State, script: seq<Move>): seq<Imp>
    decreases script
  {
    if script == [] then [] else Retires(s, script[0]) + AllRetires(Do(s, script[0]), script[1..])
  }

  function AllDrained(s: State, script: seq<Move>): seq<Imp>
    decreases script
  {
    if script == [] then [] else Drained(s, script[0]) + AllDrained(Do(s, script[0]), script[1..])
  }

  lemma Chained(q: seq<Imp>, a: seq<Imp>, b: seq<Imp>, c: seq<Imp>, q1: seq<Imp>, d: seq<Imp>, q2: seq<Imp>)
    requires q + a == c + q1 && q1 + b == d + q2
    ensures q + (a + b) == (c + d) + q2
  {
    assert q + (a + b) == (q + a) + b;
    assert (c + q1) + b == c + (q1 + b);
    assert c + (d + q2) == (c + d) + q2;
  }

  lemma {:induction false} QueuesFrom(s: State, script: seq<Move>)
    requires Inv(s) && AllLegal(s, script)
    ensures s.runq + AllEnters(s, script) == AllFetches(s, script) + Play(s, script).runq
    ensures s.termq + AllRetires(s, script) == AllDrained(s, script) + Play(s, script).termq
    decreases script
  {
    if script != [] {
      var m, s1, rest := script[0], Do(s, script[0]), script[1..];
      RunqStep(s, m);
      TermqStep(s, m);
      DoKeepsInv(s, m);
      QueuesFrom(s1, rest);
      hide Inv, Legal, Do, Enters, Fetches, Retires, Drained;
      Chained(s.runq, Enters(s, m), AllEnters(s1, rest), Fetches(s, m), s1.runq, AllFetches(s1, rest), Play(s1, rest).runq);
      Chained(s.termq, Retires(s, m), AllRetires(s1, rest), Drained(s, m), s1.termq, AllDrained(s1, rest), Play(s1, rest).termq);
    }
  }

  /** In every legal run the workers fetch the imps in the order in which they entered the
      run queue, and the maintainer dismisses them in the order in which they terminated. */
  lemma QueuesInOrder(nrMax: nat, script: seq<Move>)
    requires AllLegal(New(nrMax), script)
    ensures AllEnters(New(nrMax), script) == AllFetches(New(nrMax), script) + Play(New(nrMax), script).runq
    ensures AllRetires(New(nrMax), script) == AllDrained(New(nrMax), script) + Play(New(nrMax), script).termq
  {
    NewIsOk(nrMax);
    QueuesFrom(New(nrMax), script);
    hide Play, AllEnters, AllFetches, AllRetires, AllDrained, AllLegal;
    assert [] + AllEnters(New(nrMax), script) == AllEnters(New(nrMax), script);
    assert [] + AllRetires(New(nrMax), script) == AllRetires(New(nrMax), script);
  }
}
