/** Conditions a caller can check: how many threads fetch imps, how many summon
    them, and how many events a drive requests.  They replace the timing
    assumptions, exactly, and bound the number of imps without them
    (src/imp.c:74-186, src/thr_worker.c:83-110). */
module SchedulerConfig {
  import opened Scheduler
  import opened SchedulerRuns

  /** Only these threads are workers. */
  ghost predicate FetchedBy(script: seq<Move>, workers: set<Tid>) {
    forall m :: m in script && m.Fetch? ==> m.tid in workers
  }

  /** Only these threads call imp_summon. */
  ghost predicate SummonedBy(script: seq<Move>, summoners: set<Tid>) {
    forall m :: m in script && m.SummonCheck? ==> m.tid in summoners
  }

  /** The move is not a request beyond the r-th of one drive. */
  predicate Asks(s: State, m: Move, r: nat) {
    m.Request? && Drives(s, m.tid) ==> s.DriveOf(m.tid).asked < r
  }

  /** No drive requests more than r events. */
  ghost predicate RequestsAtMost(s: State, script: seq<Move>, r: nat)
    decreases script
  {
    script == [] || (Asks(s, script[0], r) && RequestsAtMost(Do(s, script[0]), script[1..], r))
  }

  ghost predicate Configured(nrMax: nat, script: seq<Move>, workers: set<Tid>, summoners: set<Tid>, r: nat) {
    FetchedBy(script, workers) && SummonedBy(script, summoners) && RequestsAtMost(New(nrMax), script, r)
  }

  // ----- the limit on imps, without any assumption on timing

  ghost function Checkers(s: State): set<Tid> {
    set t | t in s.summon && s.summon[t] == Checked
  }

  ghost predicate LimitOk(s: State, summoners: set<Tid>) {
    Checkers(s) <= summoners && s.nrTotal + |Checkers(s)| <= s.nrMax + |summoners| - 1
  }

  lemma Subset(a: set<Tid>, b: set<Tid>)
    requires a <= b
    ensures |a| <= |b|
  {
    assert b == a + (b - a);
  }

  /** Only imp_summon raises nr_total, after its check. */
  lemma TotalGrows(s: State, m: Move)
    ensures Do(s, m).nrMax == s.nrMax && Do(s, m).nrTotal <= s.nrTotal
      + (if m.SummonCount? && s.SummonOf(m.tid) == Checked && Do(s, m).SummonOf(m.tid) != Checked then 1 else 0)
  {
    if m.Maintain? || m.Spurious? {
      assert Do(s, m).nrMax == s.nrMax && Do(s, m).nrTotal <= s.nrTotal;
    } else if m.SummonCheck? || m.SummonCount? || m.SummonRun? {
      SummonTotals(s, m);
    } else {
      DriveTotals(s, m);
    }
  }

  lemma SummonTotals(s: State, m: Move)
    requires m.SummonCheck? || m.SummonCount? || m.SummonRun?
    ensures Do(s, m).nrMax == s.nrMax && Do(s, m).nrTotal <= s.nrTotal
      + (if m.SummonCount? && s.SummonOf(m.tid) == Checked && Do(s, m).SummonOf(m.tid) != Checked then 1 else 0)
  {
  }

  lemma DriveTotals(s: State, m: Move)
    requires !m.Maintain? && !m.SummonCheck? && !m.SummonCount? && !m.SummonRun?
    ensures Do(s, m).nrMax == s.nrMax && Do(s, m).nrTotal == s.nrTotal
  {
  }

  lemma CheckersChange(s: State, m: Move, u: Tid)
    ensures u in Checkers(Do(s, m)) <==>
      if m.SummonCheck? && m.tid == u && CanCheck(s, u) then true
      else u in Checkers(s) && !(m.SummonCount? && m.tid == u && Do(s, m).SummonOf(u) != Checked)
  {
    if m.Maintain? || m.Spurious? || m.tid != u {
      hide Do;
      SummonStays(s, m, u);
    } else if !m.SummonCheck? && !m.SummonCount? && !m.SummonRun? {
      SummonUnused(s, m, u);
      hide Do;
    }
  }

  lemma SummonUnused(s: State, m: Move, u: Tid)
    requires !m.SummonCheck? && !m.SummonCount? && !m.SummonRun?
    ensures Do(s, m).SummonOf(u) == s.SummonOf(u)
  {
  }

  lemma LimitStep(s: State, m: Move, summoners: set<Tid>)
    requires LimitOk(s, summoners) && (m.SummonCheck? ==> m.tid in summoners)
    ensures LimitOk(Do(s, m), summoners) && Do(s, m).nrMax == s.nrMax
  {
    var s' := Do(s, m);
    forall u
      ensures u in Checkers(s') <==>
        if m.SummonCheck? && m.tid == u && CanCheck(s, u) then true
        else u in Checkers(s) && !(m.SummonCount? && m.tid == u && s'.SummonOf(u) != Checked)
    {
      CheckersChange(s, m, u);
    }
    TotalGrows(s, m);
    hide Do;
    if m.SummonCheck? && CanCheck(s, m.tid) {
      assert Checkers(s') == Checkers(s) + {m.tid};
      Subset(Checkers(s'), summoners);
    } else if m.SummonCount? && s.SummonOf(m.tid) == Checked && s'.SummonOf(m.tid) != Checked {
      assert m.tid in Checkers(s) && Checkers(s') == Checkers(s) - {m.tid};
    } else {
      assert Checkers(s') == Checkers(s);
    }
  }

  lemma {:induction false} PlayKeepsLimit(s: State, script: seq<Move>, summoners: set<Tid>)
    requires LimitOk(s, summoners) && SummonedBy(script, summoners)
    ensures LimitOk(Play(s, script), summoners) && Play(s, script).nrMax == s.nrMax
    decreases script
  {
    hide LimitOk, Do;
    if script != [] {
      LimitStep(s, script[0], summoners);
      PlayKeepsLimit(Do(s, script[0]), script[1..], summoners);
    }
  }

  /** With K threads that ever call imp_summon, nr_total exceeds nr_max by at
      most K - 1, in every run. */
  lemma SummonLimit(nrMax: nat, script: seq<Move>, summoners: set<Tid>)
    requires SummonedBy(script, summoners) && summoners != {}
    ensures Play(New(nrMax), script).nrTotal <= nrMax + |summoners| - 1
  {
    assert Checkers(New(nrMax)) == {};
    PlayKeepsLimit(New(nrMax), script, summoners);
    hide Play;
  }

  // ----- configurations in which the assumptions on timing are free

  ghost predicate ThreadWithin(s: State, t: Tid, workers: set<Tid>, summoners: set<Tid>, r: nat) {
    var d := s.DriveOf(t);
    && (d.Driving? || d.Arming? || d.Setting? || d.Leaving? ==> t in workers)
    && (d.Driving? ==> s.Requests(d.imp) <= d.asked <= r)
    && (d.Arming? ==> s.Requests(d.imp) + d.count <= r && (d.count > 0 ==> s.Requests(d.imp) > 0))
    && (d.Setting? ==> s.Requests(d.imp) + d.count + 1 <= r)
    && (d.Leaving? ==> d.count <= r)
    && (s.SummonOf(t) == Checked ==> t in summoners)
  }

  ghost predicate StateWithin(s: State, workers: set<Tid>, summoners: set<Tid>, r: nat) {
    && (forall t {:trigger ThreadWithin(s, t, workers, summoners, r)} :: ThreadWithin(s, t, workers, summoners, r))
    && (summoners == {} ==> s.place == map[])
  }

  ghost predicate MoveWithin(s: State, m: Move, workers: set<Tid>, summoners: set<Tid>, r: nat) {
    && (m.Fetch? ==> m.tid in workers)
    && (m.SummonCheck? ==> m.tid in summoners)
    && Asks(s, m, r)
  }

  /** Nobody summons; or one thread does, and nobody works, or nothing is
      requested, or one worker makes at most one request a drive. */
  predicate Safe(workers: nat, summoners: nat, r: nat) {
    summoners == 0 || (summoners == 1 && (workers == 0 || r == 0 || (workers == 1 && r == 1)))
  }

  lemma OnlyOne(a: set<Tid>, t: Tid, u: Tid)
    ensures |a| <= 1 && t in a && u in a ==> t == u
  {
    if t in a && u in a {
      Subset({t, u}, a);
    }
  }

  lemma NothingToMove(s: State)
    requires Places(s) && s.place == map[]
    ensures s.runq == [] && s.waitio == {}
  {
    assert s.runq != [] ==> s.runq[0] in s.runq;
    forall i ensures i !in s.runq && i !in s.waitio { assert ImpOk(s, i); }
  }

  /** In the loop of an imp in the run queue there are only threads that have set waitio for the last time. */
  lemma QueuedLoop(s: State, i: Imp, u: Tid)
    requires Places(s) && i in s.runq
    ensures InLoop(s.DriveOf(u), i) ==> s.DriveOf(u).Leaving? && s.DriveOf(u).count > 0
  {
    assert ThreadOk(s, u) && ImpOk(s, i) && ClaimOk(s, i, s.DriveOf(u), u);
  }

  /** In the loop of an imp with waitio set there are only threads that have set it. */
  lemma WaitingLoop(s: State, i: Imp, u: Tid)
    requires Places(s) && i in s.waitio
    ensures Registers(s.DriveOf(u), i) ==> s.DriveOf(u).count > 0
  {
    assert ImpOk(s, i) && ClaimOk(s, i, s.DriveOf(u), u);
  }

  lemma FetchIsLegal(s: State, t: Tid, workers: set<Tid>, summoners: set<Tid>, r: nat)
    requires Places(s) && StateWithin(s, workers, summoners, r) && Safe(|workers|, |summoners|, r) && t in workers
    ensures Legal(s, Fetch(t))
  {
    if summoners == {} {
      NothingToMove(s);
    }
    hide Places;
    forall u | CanFetch(s, t)
      ensures !InLoop(s.DriveOf(u), s.runq[0])
    {
      assert ThreadWithin(s, u, workers, summoners, r);
      QueuedLoop(s, s.runq[0], u);
      OnlyOne(workers, t, u);
    }
  }

  lemma WakeIsLegal(s: State, t: Tid, i: Imp, workers: set<Tid>, summoners: set<Tid>, r: nat)
    requires Places(s) && StateWithin(s, workers, summoners, r) && Safe(|workers|, |summoners|, r)
    ensures Legal(s, Wake(t, i))
  {
    if summoners == {} {
      NothingToMove(s);
    }
    hide Places;
    forall u | CanWake(s, t, i)
      ensures !Registers(s.DriveOf(u), i)
    {
      assert ThreadWithin(s, u, workers, summoners, r);
      WaitingLoop(s, i, u);
    }
  }

  lemma SummonIsLegal(s: State, t: Tid, workers: set<Tid>, summoners: set<Tid>, r: nat)
    requires StateWithin(s, workers, summoners, r) && |summoners| <= 1 && t in summoners
    ensures Legal(s, SummonCheck(t))
  {
    forall u | CanCheck(s, t)
      ensures s.SummonOf(u) != Checked
    {
      assert ThreadWithin(s, u, workers, summoners, r);
      OnlyOne(summoners, t, u);
    }
  }

  /** Nobody but the holder of an imp changes its list of requested events. */
  lemma RequestsStay(s: State, m: Move, t: Tid, i: Imp)
    requires Places(s) && MayAsk(s.DriveOf(t), i) && (m.Maintain? || m.Spurious? || m.tid != t)
    ensures Do(s, m).Requests(i) == s.Requests(i)
  {
    assert ImpOk(s, i) && ClaimOk(s, i, s.DriveOf(t), t);
    if m.Maintain? || m.Spurious? {
      assert s.maintainer != Dismissing(i);
    } else {
      assert ClaimOk(s, i, s.DriveOf(m.tid), m.tid);
      assert m.Request? || m.Arm? ==> !MayAsk(s.DriveOf(m.tid), i);
      assert s.DriveOf(m.tid).Leaving? && s.DriveOf(m.tid).imp == i ==> s.Requests(i) == 0;
      hide Places, ImpOk, ClaimOk;
    }
  }

  /** The list that the thread's condition speaks of, after a move of another thread. */
  lemma OthersWithin(s: State, m: Move, u: Tid, workers: set<Tid>, summoners: set<Tid>, r: nat)
    requires Places(s) && ThreadWithin(s, u, workers, summoners, r) && (m.Maintain? || m.Spurious? || m.tid != u)
    ensures ThreadWithin(Do(s, m), u, workers, summoners, r)
  {
    hide Places, Do;
    DriveStays(s, m, u);
    SummonStays(s, m, u);
    var d := s.DriveOf(u);
    if d.Driving? || d.Arming? || d.Setting? {
      RequestsStay(s, m, u, d.imp);
    }
  }

  lemma FetchWithin(s: State, t: Tid, workers: set<Tid>, summoners: set<Tid>, r: nat)
    requires Places(s) && ThreadWithin(s, t, workers, summoners, r) && t in workers
    ensures ThreadWithin(Do(s, Fetch(t)), t, workers, summoners, r)
  {
    if CanFetch(s, t) {
      assert ImpOk(s, s.runq[0]);
    }
  }

  lemma ArmWithin(s: State, t: Tid, workers: set<Tid>, summoners: set<Tid>, r: nat)
    requires Places(s) && ThreadWithin(s, t, workers, summoners, r)
    ensures ThreadWithin(Do(s, Arm(t)), t, workers, summoners, r)
  {
    if s.DriveOf(t).Leaving? {
      var i := s.DriveOf(t).imp;
      assert ImpOk(s, i) && ClaimOk(s, i, s.DriveOf(t), t);
      assert s.Requests(i) == 0;
    }
    hide Places;
  }

  /** The moving thread stays within the configuration. */
  lemma MoverWithin(s: State, m: Move, workers: set<Tid>, summoners: set<Tid>, r: nat)
    requires Places(s) && !m.Maintain? && !m.Spurious?
    requires ThreadWithin(s, m.tid, workers, summoners, r) && MoveWithin(s, m, workers, summoners, r)
    ensures ThreadWithin(Do(s, m), m.tid, workers, summoners, r)
  {
    if m.Fetch? {
      FetchWithin(s, m.tid, workers, summoners, r);
    } else if m.Arm? {
      ArmWithin(s, m.tid, workers, summoners, r);
    } else {
      hide Places;
    }
  }

  lemma NobodyHolds(s: State, u: Tid)
    requires Places(s) && s.place == map[]
    ensures !s.SummonOf(u).Counted? && s.termq == [] && s.runq == [] && s.waitio == {}
    ensures s.DriveOf(u).Free? || s.DriveOf(u).TermWake? || s.DriveOf(u).Leaving? || s.DriveOf(u).Counting?
  {
    assert s.termq != [] ==> s.termq[0] in s.termq;
    NothingToMove(s);
    forall i
      ensures s.SummonOf(u) != Counted(i) && i !in s.termq && !Holds(s.DriveOf(u), i)
    {
      assert ImpOk(s, i) && ClaimOk(s, i, s.DriveOf(u), u);
    }
    assert !s.DriveOf(u).Free? ==> !Holds(s.DriveOf(u), s.DriveOf(u).imp);
  }

  lemma NobodySummoned(s: State, m: Move)
    requires Places(s) && s.place == map[] && !(m.SummonCount? && s.SummonOf(m.tid) == Checked)
    ensures Do(s, m).place == map[]
  {
    NobodyHolds(s, if m.Maintain? || m.Spurious? then 0 else m.tid);
    hide Places;
  }

  lemma StepWithin(s: State, m: Move, workers: set<Tid>, summoners: set<Tid>, r: nat)
    requires Places(s) && StateWithin(s, workers, summoners, r) && MoveWithin(s, m, workers, summoners, r)
    ensures StateWithin(Do(s, m), workers, summoners, r)
  {
    if summoners == {} {
      assert m.SummonCount? ==> ThreadWithin(s, m.tid, workers, summoners, r);
      NobodySummoned(s, m);
    }
    hide Places, Do, MoveWithin, ThreadWithin;
    forall u
      ensures ThreadWithin(Do(s, m), u, workers, summoners, r)
    {
      assert ThreadWithin(s, u, workers, summoners, r);
      if m.Maintain? || m.Spurious? || m.tid != u {
        OthersWithin(s, m, u, workers, summoners, r);
      } else {
        MoverWithin(s, m, workers, summoners, r);
      }
    }
  }

  // ----- whole runs of a configuration

  lemma MoveIsLegal(s: State, m: Move, workers: set<Tid>, summoners: set<Tid>, r: nat)
    requires Places(s) && StateWithin(s, workers, summoners, r) && MoveWithin(s, m, workers, summoners, r)
    requires Safe(|workers|, |summoners|, r)
    ensures Legal(s, m)
  {
    hide Places, StateWithin, Legal;
    if m.Fetch? {
      FetchIsLegal(s, m.tid, workers, summoners, r);
    } else if m.Wake? {
      WakeIsLegal(s, m.tid, m.imp, workers, summoners, r);
    } else if m.SummonCheck? {
      SummonIsLegal(s, m.tid, workers, summoners, r);
    } else {
      OtherIsLegal(s, m);
    }
  }

  lemma OtherIsLegal(s: State, m: Move)
    requires !m.Fetch? && !m.Wake? && !m.SummonCheck?
    ensures Legal(s, m)
  {
  }

  lemma {:induction false} ConfiguredIsLegal(s: State, script: seq<Move>, workers: set<Tid>, summoners: set<Tid>, r: nat)
    requires Inv(s) && StateWithin(s, workers, summoners, r) && Safe(|workers|, |summoners|, r)
    requires FetchedBy(script, workers) && SummonedBy(script, summoners) && RequestsAtMost(s, script, r)
    ensures AllLegal(s, script)
    decreases script
  {
    if script != [] {
      var m := script[0];
      assert m in script && MoveWithin(s, m, workers, summoners, r);
      assert FetchedBy(script[1..], workers) && SummonedBy(script[1..], summoners);
      assert Places(s) && RequestsAtMost(Do(s, m), script[1..], r);
      hide Inv, Do, StateWithin, Legal, MoveWithin, FetchedBy, SummonedBy, RequestsAtMost, Safe;
      MoveIsLegal(s, m, workers, summoners, r);
      DoKeepsInv(s, m);
      StepWithin(s, m, workers, summoners, r);
      ConfiguredIsLegal(Do(s, m), script[1..], workers, summoners, r);
    }
  }

  /** Each live imp is in exactly one place, a dead one in none, and the limit holds. */
  ghost predicate Sound(s: State) {
    && (forall i :: InOnePlace(s, i))
    && s.nrTotal <= s.nrMax
  }

  /** In a safe configuration the assumptions on timing hold in every run, so
      that each imp is in one place and everything proved from them follows. */
  lemma SafeRuns(nrMax: nat, script: seq<Move>, workers: set<Tid>, summoners: set<Tid>, r: nat)
    requires Configured(nrMax, script, workers, summoners, r) && Safe(|workers|, |summoners|, r)
    ensures AllLegal(New(nrMax), script) && Sound(Play(New(nrMax), script))
  {
    NewIsOk(nrMax);
    assert forall t :: ThreadWithin(New(nrMax), t, workers, summoners, r);
    ConfiguredIsLegal(New(nrMax), script, workers, summoners, r);
    hide Configured, Safe, AllLegal, Play, Inv, StateWithin;
    CountersCount(nrMax, script);
    hide InOnePlace;
    forall i ensures InOnePlace(Play(New(nrMax), script), i) {
      OnePlace(nrMax, script, i);
    }
  }
}
