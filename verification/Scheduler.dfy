/** The life cycle of imps across workers, the epoller, summoners and the
    maintainer (src/imp.c, src/thr_worker.c, src/thr_maintainer.c).

    A move is one access to shared state by one thread: a queue operation, one
    fetch from or append to an imp's list of requested events, one assignment
    to waitio, one atomic counter update, one compare-and-swap, one critical
    section.  Both queues are the bounded FIFO of ds_queue2.c. */
module Scheduler {
  type Imp = nat
  type Tid = nat

  /** The capacity of an imp's list of requested events. */
  const MAX_REQUESTS := 1000

  /** What a thread is doing with the imp it drives, terminates, puts to sleep or wakes. */
  datatype Drive =
    | Free
    | Driving(imp: Imp, asked: nat)   // inside imp_driver, up to the return of fsm_driver, with `asked` requests made
    | Rerun(imp: Imp)                 // about to call imp_run: the imp yielded or was woken
    | Terming(imp: Imp)               // about to enqueue on the terminated queue
    | TermWake(imp: Imp)              // has enqueued, about to call thr_maintainer_wakeup
    | Arming(imp: Imp, count: nat)    // about to fetch the next request
    | Setting(imp: Imp, count: nat)   // has fetched a request, about to set waitio
    | Leaving(imp: Imp, count: nat)   // like Arming, but when waitio was last set no request was left
    | Counting(imp: Imp)              // out of the loop, about to increase nr_waitio
    | Waking(imp: Imp)                // has cleared waitio, about to decrease nr_waitio

  /** How far a thread is in imp_summon. */
  datatype Summon =
    | NoSummon
    | Checked            // nr_total was below nr_max
    | Counted(imp: Imp)  // nr_total increased, about to call imp_run

  datatype Maintainer =
    | Drain
    | Dismissing(imp: Imp)  // dequeued, not yet freed
    | Freed                 // freed, about to decrease nr_total
    | Lock                  // found the queue empty, about to take the mutex
    | Waiting               // blocked on the condition variable
    | Woken                 // signalled, about to test pending_event again

  /** Ghost: the one place of a live imp. */
  datatype Place = Nowhere | InRunQueue | Held(tid: Tid) | Asleep | InTermQueue | AtMaintainer

  /** `requests` counts the entries of each imp's list of requested events. */
  datatype State = State(
    nrMax: nat, nrTotal: int, nrWaitio: int,
    runq: seq<Imp>, termq: seq<Imp>, waitio: set<Imp>, requests: map<Imp, nat>,
    drive: map<Tid, Drive>, summon: map<Tid, Summon>,
    maintainer: Maintainer, pending: bool,
    place: map<Imp, Place>, born: set<Imp>)
  {
    function DriveOf(t: Tid): Drive {
      if t in drive then drive[t] else Free
    }

    function SummonOf(t: Tid): Summon {
      if t in summon then summon[t] else NoSummon
    }

    function Where(i: Imp): Place {
      if i in place then place[i] else Nowhere
    }

    function Requests(i: Imp): nat {
      if i in requests then requests[i] else 0
    }

    function Set(t: Tid, d: Drive): State {
      this.(drive := drive[t := d])
    }

    function Put(i: Imp, p: Place): State {
      this.(place := place[i := p])
    }

    /** The thread is in no call of imp_wake, imp_driver or imp_summon. */
    predicate Idle(t: Tid) {
      DriveOf(t).Free? && SummonOf(t).NoSummon?
    }
  }

  datatype Move =
    | SummonCheck(tid: Tid)
    | SummonCount(tid: Tid, imp: Imp)
    | SummonRun(tid: Tid)
    | Fetch(tid: Tid)
    | Request(tid: Tid)
    | Yield(tid: Tid)
    | Finish(tid: Tid)
    | RunAgain(tid: Tid)
    | Terminate(tid: Tid)
    | Wakeup(tid: Tid)
    | Arm(tid: Tid)
    | SetWait(tid: Tid)
    | CountSleeper(tid: Tid)
    | Wake(tid: Tid, imp: Imp)
    | CountWaker(tid: Tid)
    | Maintain
    | Spurious

  function New(nrMax: nat): State {
    State(nrMax, 0, 0, [], [], {}, map[], map[], map[], Drain, false, map[], {})
  }

  /** imp_run: queue_enqueue_uniq_nb on the run queue, its result ignored. */
  function ImpRun(s: State, i: Imp): State {
    if |s.runq| >= s.nrMax || i in s.runq then s
    else s.(runq := s.runq + [i]).Put(i, InRunQueue)
  }

  /** The enqueue of imp_term, its result ignored. */
  function ImpTerm(s: State, i: Imp): State {
    if |s.termq| >= s.nrMax then s else s.(termq := s.termq + [i]).Put(i, InTermQueue)
  }

  function Maintainers(s: State): State {
    match s.maintainer
    case Drain =>
      if s.termq == [] then s.(maintainer := Lock)
      else s.(maintainer := Dismissing(s.termq[0]), termq := s.termq[1..]).Put(s.termq[0], AtMaintainer)
    case Dismissing(i) =>
      s.(maintainer := Freed, place := s.place - {i}, waitio := s.waitio - {i}, requests := s.requests - {i})
    case Freed => s.(maintainer := Drain, nrTotal := s.nrTotal - 1)
    case Lock => if s.pending then s.(maintainer := Drain, pending := false) else s.(maintainer := Waiting)
    case Waiting => s
    case Woken => if s.pending then s.(maintainer := Drain, pending := false) else s.(maintainer := Waiting)
  }

  /** One call of llist_fetch_head_nb in the arming loop: a request is taken, or
      the list is empty and the loop is over. */
  function FetchRequest(s: State, t: Tid, i: Imp, count: nat): State {
    if s.Requests(i) > 0 then s.(requests := s.requests[i := s.Requests(i) - 1]).Set(t, Setting(i, count))
    else if count > 0 then s.Set(t, Counting(i))
    else s.Set(t, Rerun(i))
  }

  predicate CanCheck(s: State, t: Tid) {
    s.SummonOf(t).NoSummon? && (s.DriveOf(t).Free? || s.DriveOf(t).Driving?) && s.nrTotal < s.nrMax
  }

  predicate CanFetch(s: State, t: Tid) {
    s.Idle(t) && s.runq != []
  }

  predicate CanWake(s: State, t: Tid, i: Imp) {
    s.Idle(t) && i in s.waitio
  }

  /** The thread is inside fsm_driver and in no call of imp_summon. */
  predicate Drives(s: State, t: Tid) {
    s.DriveOf(t).Driving? && s.SummonOf(t).NoSummon?
  }

  /** Moves that do not apply leave the state alone. */
  function Do(s: State, m: Move): State {
    match m
    case SummonCheck(t) =>
      if !CanCheck(s, t) then s else s.(summon := s.summon[t := Checked])
    case SummonCount(t, i) =>
      if s.SummonOf(t) != Checked || i in s.born then s
      else s.(nrTotal := s.nrTotal + 1, born := s.born + {i}, summon := s.summon[t := Counted(i)]).Put(i, Held(t))
    case SummonRun(t) =>
      if !s.SummonOf(t).Counted? then s
      else ImpRun(s, s.SummonOf(t).imp).(summon := s.summon[t := NoSummon])
    case Fetch(t) =>
      if !CanFetch(s, t) then s
      else s.(runq := s.runq[1..]).Set(t, Driving(s.runq[0], 0)).Put(s.runq[0], Held(t))
    case Request(t) =>
      if !Drives(s, t) then s
      else
        var Driving(i, asked) := s.DriveOf(t);
        var s1 := s.Set(t, Driving(i, asked + 1));
        if s.Requests(i) < MAX_REQUESTS then s1.(requests := s.requests[i := s.Requests(i) + 1]) else s1
    case Yield(t) =>
      if !Drives(s, t) then s else s.Set(t, Arming(s.DriveOf(t).imp, 0))
    case Finish(t) =>
      if !Drives(s, t) then s else s.Set(t, Terming(s.DriveOf(t).imp))
    case RunAgain(t) =>
      if !s.DriveOf(t).Rerun? then s else ImpRun(s, s.DriveOf(t).imp).Set(t, Free)
    case Terminate(t) =>
      if !s.DriveOf(t).Terming? then s else ImpTerm(s, s.DriveOf(t).imp).Set(t, TermWake(s.DriveOf(t).imp))
    case Wakeup(t) =>
      if !s.DriveOf(t).TermWake? then s
      else s.(pending := true, maintainer := if s.maintainer == Waiting then Woken else s.maintainer).Set(t, Free)
    case Arm(t) =>
      match s.DriveOf(t) {
        case Arming(i, count) =>
          var s1 := FetchRequest(s, t, i, count);
          if s1.DriveOf(t).Counting? then s1.Put(i, Asleep) else s1
        case Leaving(i, count) => FetchRequest(s, t, i, count)
        case _ => s
      }
    case SetWait(t) =>
      if !s.DriveOf(t).Setting? then s
      else
        var Setting(i, count) := s.DriveOf(t);
        var s1 := s.(waitio := s.waitio + {i});
        if s.Requests(i) > 0 then s1.Set(t, Arming(i, count + 1)) else s1.Set(t, Leaving(i, count + 1)).Put(i, Asleep)
    case CountSleeper(t) =>
      if !s.DriveOf(t).Counting? then s else s.(nrWaitio := s.nrWaitio + 1).Set(t, Free)
    case Wake(t, i) =>
      if !CanWake(s, t, i) then s
      else s.(waitio := s.waitio - {i}).Set(t, Waking(i)).Put(i, Held(t))
    case CountWaker(t) =>
      if !s.DriveOf(t).Waking? then s else s.(nrWaitio := s.nrWaitio - 1).Set(t, Rerun(s.DriveOf(t).imp))
    case Maintain => Maintainers(s)
    case Spurious => if s.maintainer == Waiting then s.(maintainer := Woken) else s
  }

  /** The thread is in the arming loop of the imp. */
  predicate InLoop(d: Drive, i: Imp) {
    (d.Arming? || d.Setting? || d.Leaving?) && d.imp == i
  }

  /** The thread is in the arming loop of the imp and has requests left to register. */
  predicate Registers(d: Drive, i: Imp) {
    (d.Arming? || d.Setting?) && d.imp == i
  }

  /** The three assumptions about timing.  Between the test of nr_total and its
      increase no other thread passes the test; the epoller does not wake an imp
      while its arming loop has requests left to register; and no worker fetches
      an imp while another is still in its arming loop. */
  ghost predicate Legal(s: State, m: Move) {
    && (m.SummonCheck? && CanCheck(s, m.tid) ==> forall u :: s.SummonOf(u) != Checked)
    && (m.Wake? && CanWake(s, m.tid, m.imp) ==> forall u :: !Registers(s.DriveOf(u), m.imp))
    && (m.Fetch? && CanFetch(s, m.tid) ==> forall u :: !InLoop(s.DriveOf(u), s.runq[0]))
  }

  function Play(s: State, script: seq<Move>): State
    decreases script
  {
    if script == [] then s else Play(Do(s, script[0]), script[1..])
  }

  ghost predicate AllLegal(s: State, script: seq<Move>)
    decreases script
  {
    script == [] || (Legal(s, script[0]) && AllLegal(Do(s, script[0]), script[1..]))
  }

  // ----- the invariant

  /** The thread is responsible for the imp. */
  predicate Holds(d: Drive, i: Imp) {
    match d
    case Free => false
    case TermWake(_) => false
    case Leaving(_, _) => false
    case Counting(_) => false
    case _ => d.imp == i
  }

  predicate About(d: Drive, i: Imp) {
    !d.Free? && d.imp == i
  }

  /** The loop has set waitio of the imp and goes on. */
  predicate Armed(d: Drive, i: Imp) {
    Registers(d, i) && d.count > 0
  }

  /** The imp is on its way back to the run queue. */
  predicate Returns(d: Drive, i: Imp) {
    (d.Waking? || d.Rerun?) && d.imp == i
  }

  /** The list of requested events may hold entries. */
  predicate MayAsk(d: Drive, i: Imp) {
    (d.Driving? || d.Arming? || d.Setting? || d.Terming?) && d.imp == i
  }

  predicate Distinct<T(==)>(q: seq<T>) {
    forall a, b :: 0 <= a < b < |q| ==> q[a] != q[b]
  }

  /** Everything that lays claim to an imp agrees with its one place. */
  ghost predicate ImpOk(s: State, i: Imp) {
    var w := s.Where(i);
    && (i in s.runq <==> w == InRunQueue)
    && (i in s.termq <==> w == InTermQueue)
    && (s.maintainer == Dismissing(i) <==> w == AtMaintainer)
    && (w.Held? ==> Holds(s.DriveOf(w.tid), i) != (s.SummonOf(w.tid) == Counted(i)))
    && (w == Asleep ==> i in s.waitio)
    && (i in s.waitio ==> w == Asleep || (w.Held? && Armed(s.DriveOf(w.tid), i)))
    && (s.Requests(i) > 0 ==> w == InTermQueue || w == AtMaintainer || (w.Held? && MayAsk(s.DriveOf(w.tid), i)))
    && (i in s.place ==> i in s.born && w != Nowhere)
    && (forall u {:trigger s.DriveOf(u)} :: ClaimOk(s, i, s.DriveOf(u), u))
    && (forall u :: s.SummonOf(u) == Counted(i) ==> w == Held(u))
  }

  /** What a thread that is busy with an imp says about the imp. */
  ghost predicate ClaimOk(s: State, i: Imp, d: Drive, u: Tid) {
    var w := s.Where(i);
    && (Holds(d, i) ==> w == Held(u))
    && (Armed(d, i) ==> i in s.waitio)
    && (d.Leaving? && d.imp == i ==> w == Asleep || w == InRunQueue || (w.Held? && Returns(s.DriveOf(w.tid), i)))
  }

  ghost predicate ThreadOk(s: State, t: Tid) {
    && (s.DriveOf(t).Leaving? ==> s.DriveOf(t).count > 0)
    && (!s.DriveOf(t).Free? && !s.DriveOf(t).Driving? ==> s.SummonOf(t) == NoSummon)
  }

  ghost predicate Places(s: State) {
    && (forall i {:trigger ImpOk(s, i)} :: ImpOk(s, i))
    && (forall t {:trigger ThreadOk(s, t)} :: ThreadOk(s, t))
    && Distinct(s.runq) && Distinct(s.termq)
  }

  ghost function Sleepers(s: State): set<Imp> {
    set i | i in s.place && s.place[i] == Asleep
  }

  /** Threads that have put an imp to sleep and not counted it yet. */
  ghost function CountingThreads(s: State): set<Tid> {
    set t | t in s.drive && (s.drive[t].Counting? || s.drive[t].Leaving?)
  }

  ghost function WakingThreads(s: State): set<Tid> {
    set t | t in s.drive && s.drive[t].Waking?
  }

  ghost predicate Counters(s: State) {
    && s.nrTotal == |s.place.Keys| + (if s.maintainer == Freed then 1 else 0)
    && s.nrTotal <= s.nrMax
    && (forall t :: s.SummonOf(t) == Checked ==> s.nrTotal < s.nrMax)
    && (forall t, u :: s.SummonOf(t) == Checked && s.SummonOf(u) == Checked ==> t == u)
    && s.nrWaitio + |CountingThreads(s)| == |Sleepers(s)| + |WakingThreads(s)|
  }

  /** Some thread has enqueued the terminated imp and will wake the maintainer. */
  ghost predicate WakeComing(s: State, i: Imp) {
    exists t :: s.DriveOf(t) == TermWake(i)
  }

  /** A terminated imp is drained, or a wake-up for it is on its way. */
  ghost predicate NotStranded(s: State) {
    && (s.maintainer == Waiting ==> !s.pending)
    && ((s.maintainer == Lock || s.maintainer == Waiting || s.maintainer == Woken) && !s.pending ==>
          forall i :: i in s.termq ==> WakeComing(s, i))
  }

  ghost predicate Inv(s: State) {
    Places(s) && Counters(s) && NotStranded(s)
  }

  // ----- pigeonhole

  lemma {:induction false} DistinctFits<T>(q: seq<T>, live: set<T>)
    requires Distinct(q) && forall x :: x in q ==> x in live
    ensures |q| <= |live|
  {
    if q != [] {
      var rest := q[1..];
      forall x | x in rest
        ensures x in live - {q[0]}
      {
        var k :| 0 <= k < |rest| && rest[k] == x;
        assert q[0] != q[k + 1];
      }
      DistinctFits(rest, live - {q[0]});
    }
  }

  /** The enqueue calls whose results imp_run and imp_term ignore: there is
      always room, and the imp is not in the queue already. */
  lemma RoomForHeld(s: State, i: Imp)
    requires Places(s) && Counters(s) && s.Where(i).Held?
    ensures i !in s.runq && i !in s.termq && |s.runq| < s.nrMax && |s.termq| < s.nrMax
  {
    assert ImpOk(s, i);
    forall x | x in s.runq ensures x in s.place.Keys - {i} { assert ImpOk(s, x); }
    forall x | x in s.termq ensures x in s.place.Keys - {i} { assert ImpOk(s, x); }
    DistinctFits(s.runq, s.place.Keys - {i});
    DistinctFits(s.termq, s.place.Keys - {i});
  }

  // ----- frames

  /** Threads other than `t` go on as they were. */
  ghost predicate OnlyThread(s: State, s': State, t: Tid) {
    forall u :: u != t ==> s'.DriveOf(u) == s.DriveOf(u) && s'.SummonOf(u) == s.SummonOf(u)
  }

  /** The move of `t` does not touch the imp `j`. */
  ghost predicate Untouched(s: State, s': State, t: Tid, j: Imp) {
    && s'.Where(j) == s.Where(j) && s'.Requests(j) == s.Requests(j)
    && (j in s'.runq <==> j in s.runq) && (j in s'.termq <==> j in s.termq) && (j in s'.waitio <==> j in s.waitio)
    && (s'.maintainer == Dismissing(j) <==> s.maintainer == Dismissing(j))
    && (s'.DriveOf(t) == s.DriveOf(t) || (!About(s.DriveOf(t), j) && !About(s'.DriveOf(t), j)))
    && (s'.SummonOf(t) == Counted(j) <==> s.SummonOf(t) == Counted(j))
    && (j in s'.place <==> j in s.place) && (j in s.born ==> j in s'.born)
  }

  lemma UntouchedStaysOk(s: State, s': State, t: Tid, j: Imp)
    requires ImpOk(s, j) && OnlyThread(s, s', t) && Untouched(s, s', t, j)
    ensures ImpOk(s', j)
  {
    forall u ensures ClaimOk(s', j, s'.DriveOf(u), u) {
      assert ClaimOk(s, j, s.DriveOf(u), u);
    }
  }

  /** Only the moved imp `i` and the moving thread `t` need a look. */
  lemma PlacesFrame(s: State, s': State, t: Tid, i: Imp)
    requires Places(s) && OnlyThread(s, s', t) && ImpOk(s', i) && ThreadOk(s', t)
    requires forall j :: j != i ==> Untouched(s, s', t, j)
    requires Distinct(s'.runq) && Distinct(s'.termq)
    ensures Places(s')
  {
    hide ImpOk, Untouched;
    forall j ensures ImpOk(s', j) {
      if j != i {
        assert ImpOk(s, j) && Untouched(s, s', t, j);
        UntouchedStaysOk(s, s', t, j);
      }
    }
    forall u ensures ThreadOk(s', u) {
      assert ThreadOk(s, u);
    }
  }

  lemma StrandFrame(s: State, s': State, t: Tid)
    requires NotStranded(s) && OnlyThread(s, s', t) && (s'.DriveOf(t) == s.DriveOf(t) || !s.DriveOf(t).TermWake?)
    requires s'.termq == s.termq && s'.maintainer == s.maintainer && s'.pending == s.pending
    ensures NotStranded(s')
  {
    forall i | i in s.termq && WakeComing(s, i)
      ensures WakeComing(s', i)
    {
      var u :| s.DriveOf(u) == TermWake(i);
      assert s'.DriveOf(u) == TermWake(i);
    }
  }

  /** A set that changes at one element at most. */
  lemma SizeChange(c: set<nat>, c': set<nat>, t: nat)
    requires forall u :: u != t ==> (u in c' <==> u in c)
    ensures |c'| - |c| == (if t in c' then 1 else 0) - (if t in c then 1 else 0)
  {
    assert c' - {t} == c - {t};
    assert |c| == |c - {t}| + if t in c then 1 else 0;
    assert |c'| == |c' - {t}| + if t in c' then 1 else 0;
  }

  function Uncounted(d: Drive): nat {
    if d.Counting? || d.Leaving? then 1 else 0
  }

  function Miscounted(d: Drive): nat {
    if d.Waking? then 1 else 0
  }

  function Sleeps(p: Place): nat {
    if p == Asleep then 1 else 0
  }

  /** How a move of `t` may change the sets that nr_waitio counts. */
  lemma CounterFrame(s: State, s': State, t: Tid)
    requires OnlyThread(s, s', t)
    ensures |CountingThreads(s')| - |CountingThreads(s)|
      == Uncounted(s'.DriveOf(t)) - Uncounted(s.DriveOf(t))
    ensures |WakingThreads(s')| - |WakingThreads(s)|
      == Miscounted(s'.DriveOf(t)) - Miscounted(s.DriveOf(t))
  {
    forall u | u != t
      ensures (u in CountingThreads(s') <==> u in CountingThreads(s)) && (u in WakingThreads(s') <==> u in WakingThreads(s))
    {
      assert s'.DriveOf(u) == s.DriveOf(u);
    }
    assert t in CountingThreads(s) <==> Uncounted(s.DriveOf(t)) == 1;
    assert t in CountingThreads(s') <==> Uncounted(s'.DriveOf(t)) == 1;
    assert t in WakingThreads(s) <==> Miscounted(s.DriveOf(t)) == 1;
    assert t in WakingThreads(s') <==> Miscounted(s'.DriveOf(t)) == 1;
    hide CountingThreads, WakingThreads;
    SizeChange(CountingThreads(s), CountingThreads(s'), t);
    SizeChange(WakingThreads(s), WakingThreads(s'), t);
  }

  lemma SleepersChange(s: State, s': State, i: Imp)
    requires forall j :: j != i ==> s'.Where(j) == s.Where(j)
    ensures |Sleepers(s')| - |Sleepers(s)| == Sleeps(s'.Where(i)) - Sleeps(s.Where(i))
  {
    forall j | j != i
      ensures j in Sleepers(s') <==> j in Sleepers(s)
    {
      assert s'.Where(j) == s.Where(j);
    }
    assert i in Sleepers(s) <==> Sleeps(s.Where(i)) == 1;
    assert i in Sleepers(s') <==> Sleeps(s'.Where(i)) == 1;
    hide Sleepers;
    SizeChange(Sleepers(s), Sleepers(s'), i);
  }

  /** The move of `t` on `i` changes nr_waitio by what the sleepers and the half-done counts change. */
  ghost predicate Balanced(s: State, s': State, t: Tid, i: Imp) {
    s'.nrWaitio + Uncounted(s'.DriveOf(t)) - Sleeps(s'.Where(i)) - Miscounted(s'.DriveOf(t))
      == s.nrWaitio + Uncounted(s.DriveOf(t)) - Sleeps(s.Where(i)) - Miscounted(s.DriveOf(t))
  }

  /** A move that neither makes nor removes an imp keeps the counters. */
  lemma CountersFrame(s: State, s': State, t: Tid, i: Imp)
    requires Counters(s) && OnlyThread(s, s', t) && Balanced(s, s', t, i)
    requires forall j :: j != i ==> s'.Where(j) == s.Where(j)
    requires s'.place.Keys == s.place.Keys && s'.nrMax == s.nrMax && s'.nrTotal == s.nrTotal
    requires s'.maintainer == Freed <==> s.maintainer == Freed
    requires s'.SummonOf(t) == Checked ==> s.SummonOf(t) == Checked
    ensures Counters(s')
  {
    CounterFrame(s, s', t);
    SleepersChange(s, s', i);
    hide Sleepers, CountingThreads, WakingThreads;
    assert forall u :: s'.SummonOf(u) == Checked ==> s.SummonOf(u) == Checked;
  }

  /** A move of `t` on `i` that leaves the maintainer, the terminated queue and the number of imps alone. */
  ghost predicate Quiet(s: State, s': State, t: Tid, i: Imp) {
    && OnlyThread(s, s', t) && Balanced(s, s', t, i) && !s.DriveOf(t).TermWake?
    && (forall j :: j != i ==> s'.Where(j) == s.Where(j))
    && s'.place.Keys == s.place.Keys && s'.nrMax == s.nrMax && s'.nrTotal == s.nrTotal
    && s'.maintainer == s.maintainer && s'.pending == s.pending && s'.termq == s.termq
    && (s'.SummonOf(t) == Checked ==> s.SummonOf(t) == Checked)
  }

  lemma QuietKeeps(s: State, s': State, t: Tid, i: Imp)
    requires Inv(s) && Places(s') && Quiet(s, s', t, i)
    ensures Inv(s')
  {
    hide Places;
    assert NotStranded(s') by { hide Counters; StrandFrame(s, s', t); }
    hide NotStranded;
    CountersFrame(s, s', t, i);
  }

  // ----- every move keeps the invariant

  lemma SummonCheckStep(s: State, t: Tid)
    requires Inv(s) && Legal(s, SummonCheck(t))
    ensures Inv(Do(s, SummonCheck(t)))
  {
    var s' := Do(s, SummonCheck(t));
    if CanCheck(s, t) {
      assert ImpOk(s, 0) && ThreadOk(s, t);
      assert Places(s') by {
        hide Counters, NotStranded;
        UntouchedStaysOk(s, s', t, 0);
        PlacesFrame(s, s', t, 0);
      }
      hide Places, ImpOk;
      assert NotStranded(s') by { hide Counters; StrandFrame(s, s', t); }
      hide NotStranded;
      CounterFrame(s, s', t);
      assert Sleepers(s') == Sleepers(s);
    }
  }

  lemma SummonCountPlaces(s: State, t: Tid, i: Imp)
    requires Places(s) && s.SummonOf(t) == Checked && i !in s.born
    ensures Places(Do(s, SummonCount(t, i))) && i !in s.place && !s.DriveOf(t).TermWake?
  {
    assert ImpOk(s, i) && ThreadOk(s, t);
    PlacesFrame(s, Do(s, SummonCount(t, i)), t, i);
  }

  lemma SummonCountCounters(s: State, t: Tid, i: Imp)
    requires Counters(s) && s.SummonOf(t) == Checked && i !in s.born && i !in s.place
    ensures Counters(Do(s, SummonCount(t, i)))
  {
    var s' := Do(s, SummonCount(t, i));
    assert |s'.place.Keys| == |s.place.Keys| + 1 by { assert s'.place.Keys == s.place.Keys + {i}; }
    assert |Sleepers(s')| == |Sleepers(s)| by { assert Sleepers(s') == Sleepers(s); }
    hide Sleepers;
    CounterFrame(s, s', t);
    hide CountingThreads, WakingThreads;
    assert forall u :: s'.SummonOf(u) == Checked ==> u != t && s.SummonOf(u) == Checked;
  }

  lemma SummonCountStep(s: State, t: Tid, i: Imp)
    requires Inv(s)
    ensures Inv(Do(s, SummonCount(t, i)))
  {
    hide Places, Counters;
    if s.SummonOf(t) == Checked && i !in s.born {
      SummonCountPlaces(s, t, i);
      SummonCountCounters(s, t, i);
      StrandFrame(s, Do(s, SummonCount(t, i)), t);
    }
  }

  lemma SummonRunPlaces(s: State, t: Tid)
    requires Places(s) && Counters(s) && s.SummonOf(t).Counted?
    ensures Places(Do(s, SummonRun(t))) && s.SummonOf(t).imp in s.place && !s.DriveOf(t).TermWake?
    ensures Balanced(s, Do(s, SummonRun(t)), t, s.SummonOf(t).imp)
  {
    var s', i := Do(s, SummonRun(t)), s.SummonOf(t).imp;
    assert ImpOk(s, i) && ThreadOk(s, t);
    RoomForHeld(s, i);
    hide Counters;
    PlacesFrame(s, s', t, i);
  }

  lemma SummonRunStep(s: State, t: Tid)
    requires Inv(s)
    ensures Inv(Do(s, SummonRun(t)))
  {
    hide Places, Legal, ImpOk, Balanced;
    var s' := Do(s, SummonRun(t));
    if s.SummonOf(t).Counted? {
      SummonRunPlaces(s, t);
      hide Counters, NotStranded;
      QuietKeeps(s, s', t, s.SummonOf(t).imp);
    }
  }

  lemma FetchPlaces(s: State, t: Tid)
    requires Places(s) && Legal(s, Fetch(t)) && CanFetch(s, t)
    ensures Places(Do(s, Fetch(t))) && s.runq[0] in s.place && !s.DriveOf(t).TermWake?
    ensures Balanced(s, Do(s, Fetch(t)), t, s.runq[0])
  {
    var s', i := Do(s, Fetch(t)), s.runq[0];
    assert ImpOk(s, i) && ThreadOk(s, t);
    PlacesFrame(s, s', t, i);
  }

  lemma FetchStep(s: State, t: Tid)
    requires Inv(s) && Legal(s, Fetch(t))
    ensures Inv(Do(s, Fetch(t)))
  {
    hide Places, Legal, ImpOk, Balanced;
    var s' := Do(s, Fetch(t));
    if CanFetch(s, t) {
      FetchPlaces(s, t);
      hide Counters, NotStranded;
      QuietKeeps(s, s', t, s.runq[0]);
    }
  }

  lemma RequestPlaces(s: State, t: Tid)
    requires Places(s) && Drives(s, t)
    ensures Places(Do(s, Request(t))) && s.DriveOf(t).imp in s.place && !s.DriveOf(t).TermWake?
    ensures Balanced(s, Do(s, Request(t)), t, s.DriveOf(t).imp)
  {
    var s', i := Do(s, Request(t)), s.DriveOf(t).imp;
    assert ImpOk(s, i) && ThreadOk(s, t) && ClaimOk(s, i, s.DriveOf(t), t);
    PlacesFrame(s, s', t, i);
  }

  lemma RequestStep(s: State, t: Tid)
    requires Inv(s)
    ensures Inv(Do(s, Request(t)))
  {
    hide Places, Legal, ImpOk, Balanced;
    var s' := Do(s, Request(t));
    if Drives(s, t) {
      RequestPlaces(s, t);
      hide Counters, NotStranded;
      QuietKeeps(s, s', t, s.DriveOf(t).imp);
    }
  }

  lemma YieldPlaces(s: State, t: Tid)
    requires Places(s) && Drives(s, t)
    ensures Places(Do(s, Yield(t))) && s.DriveOf(t).imp in s.place && !s.DriveOf(t).TermWake?
    ensures Balanced(s, Do(s, Yield(t)), t, s.DriveOf(t).imp)
  {
    var s', i := Do(s, Yield(t)), s.DriveOf(t).imp;
    assert ImpOk(s, i) && ThreadOk(s, t) && ClaimOk(s, i, s.DriveOf(t), t);
    PlacesFrame(s, s', t, i);
  }

  lemma YieldStep(s: State, t: Tid)
    requires Inv(s)
    ensures Inv(Do(s, Yield(t)))
  {
    hide Places, Legal, ImpOk, Balanced;
    var s' := Do(s, Yield(t));
    if Drives(s, t) {
      YieldPlaces(s, t);
      hide Counters, NotStranded;
      QuietKeeps(s, s', t, s.DriveOf(t).imp);
    }
  }

  lemma FinishPlaces(s: State, t: Tid)
    requires Places(s) && Drives(s, t)
    ensures Places(Do(s, Finish(t))) && s.DriveOf(t).imp in s.place && !s.DriveOf(t).TermWake?
    ensures Balanced(s, Do(s, Finish(t)), t, s.DriveOf(t).imp)
  {
    var s', i := Do(s, Finish(t)), s.DriveOf(t).imp;
    assert ImpOk(s, i) && ThreadOk(s, t) && ClaimOk(s, i, s.DriveOf(t), t);
    PlacesFrame(s, s', t, i);
  }

  lemma FinishStep(s: State, t: Tid)
    requires Inv(s)
    ensures Inv(Do(s, Finish(t)))
  {
    hide Places, Legal, ImpOk, Balanced;
    var s' := Do(s, Finish(t));
    if Drives(s, t) {
      FinishPlaces(s, t);
      hide Counters, NotStranded;
      QuietKeeps(s, s', t, s.DriveOf(t).imp);
    }
  }

  lemma RunAgainPlaces(s: State, t: Tid)
    requires Places(s) && Counters(s) && s.DriveOf(t).Rerun?
    ensures Places(Do(s, RunAgain(t))) && s.DriveOf(t).imp in s.place && !s.DriveOf(t).TermWake?
    ensures Balanced(s, Do(s, RunAgain(t)), t, s.DriveOf(t).imp)
  {
    var s', i := Do(s, RunAgain(t)), s.DriveOf(t).imp;
    assert ImpOk(s, i) && ThreadOk(s, t) && ClaimOk(s, i, s.DriveOf(t), t);
    RoomForHeld(s, i);
    hide Counters;
    PlacesFrame(s, s', t, i);
  }

  lemma RunAgainStep(s: State, t: Tid)
    requires Inv(s)
    ensures Inv(Do(s, RunAgain(t)))
  {
    hide Places, Legal, ImpOk, Balanced;
    var s' := Do(s, RunAgain(t));
    if s.DriveOf(t).Rerun? {
      RunAgainPlaces(s, t);
      hide Counters, NotStranded;
      QuietKeeps(s, s', t, s.DriveOf(t).imp);
    }
  }

  lemma TerminatePlaces(s: State, t: Tid)
    requires Places(s) && Counters(s) && s.DriveOf(t).Terming?
    ensures Places(Do(s, Terminate(t)))
    ensures var i := s.DriveOf(t).imp;
      Do(s, Terminate(t)) == s.(termq := s.termq + [i]).Put(i, InTermQueue).Set(t, TermWake(i)) && s.Where(i) == Held(t)
  {
    var i := s.DriveOf(t).imp;
    assert Holds(s.DriveOf(t), i) && ImpOk(s, i) && ThreadOk(s, t);
    RoomForHeld(s, i);
    hide Counters;
    PlacesFrame(s, Do(s, Terminate(t)), t, i);
  }

  /** The enqueued imp has its wake-up to come. */
  lemma TerminateStrands(s: State, t: Tid)
    requires NotStranded(s)
    ensures NotStranded(Do(s, Terminate(t)))
  {
    if s.DriveOf(t).Terming? {
      var i, s' := s.DriveOf(t).imp, Do(s, Terminate(t));
      assert s'.DriveOf(t) == TermWake(i) && WakeComing(s', i);
      forall j | j in s.termq && WakeComing(s, j)
        ensures WakeComing(s', j)
      {
        var u :| s.DriveOf(u) == TermWake(j);
        assert s'.DriveOf(u) == TermWake(j);
      }
    }
  }

  lemma TerminateStep(s: State, t: Tid)
    requires Inv(s)
    ensures Inv(Do(s, Terminate(t)))
  {
    hide NotStranded;
    TerminateStrands(s, t);
    if s.DriveOf(t).Terming? {
      var i, s' := s.DriveOf(t).imp, Do(s, Terminate(t));
      TerminatePlaces(s, t);
      hide Places, Do;
      assert i in s.place && s'.SummonOf(t) == s.SummonOf(t);
      CountersFrame(s, s', t, i);
    }
  }

  lemma WakeupStep(s: State, t: Tid)
    requires Inv(s)
    ensures Inv(Do(s, Wakeup(t)))
  {
    var s' := Do(s, Wakeup(t));
    if s' != s {
      var i := s.DriveOf(t).imp;
      assert ImpOk(s, i) && ThreadOk(s, t);
      assert Places(s') by { hide Counters, NotStranded; PlacesFrame(s, s', t, i); }
      hide Places, ImpOk;
      CounterFrame(s, s', t);
      assert Sleepers(s') == Sleepers(s);
    }
  }

  /** A request is taken from the list. */
  lemma TakePlaces(s: State, t: Tid, i: Imp, count: nat)
    requires Places(s) && (s.DriveOf(t) == Arming(i, count) || s.DriveOf(t) == Leaving(i, count)) && s.Requests(i) > 0
    ensures s.DriveOf(t).Arming?
    ensures Places(s.(requests := s.requests[i := s.Requests(i) - 1]).Set(t, Setting(i, count)))
  {
    var s' := s.(requests := s.requests[i := s.Requests(i) - 1]).Set(t, Setting(i, count));
    assert ImpOk(s, i) && ThreadOk(s, t) && ClaimOk(s, i, s.DriveOf(t), t);
    PlacesFrame(s, s', t, i);
  }

  /** The list is empty at the first turn: the imp goes on running. */
  lemma RerunPlaces(s: State, t: Tid, i: Imp)
    requires Places(s) && s.DriveOf(t) == Arming(i, 0)
    requires s.Requests(i) == 0
    ensures Places(s.Set(t, Rerun(i)))
  {
    assert ImpOk(s, i) && ThreadOk(s, t) && ClaimOk(s, i, s.DriveOf(t), t);
    PlacesFrame(s, s.Set(t, Rerun(i)), t, i);
  }

  /** The list is empty at a later turn: the imp sleeps, or has been asleep since waitio was last set. */
  lemma LeavePlaces(s: State, t: Tid, i: Imp, count: nat)
    requires Places(s) && s.DriveOf(t) == Leaving(i, count)
    ensures Places(s.Set(t, Counting(i))) && count > 0
  {
    assert ImpOk(s, i) && ThreadOk(s, t) && ClaimOk(s, i, s.DriveOf(t), t);
    PlacesFrame(s, s.Set(t, Counting(i)), t, i);
  }

  lemma SleepPlaces(s: State, t: Tid, i: Imp, count: nat)
    requires Places(s) && s.DriveOf(t) == Arming(i, count) && count > 0 && s.Requests(i) == 0
    ensures Places(s.Set(t, Counting(i)).Put(i, Asleep)) && i in s.place && s.Where(i) == Held(t)
  {
    assert ImpOk(s, i) && ThreadOk(s, t) && ClaimOk(s, i, s.DriveOf(t), t);
    PlacesFrame(s, s.Set(t, Counting(i)).Put(i, Asleep), t, i);
  }

  lemma ArmStep(s: State, t: Tid)
    requires Inv(s)
    ensures Inv(Do(s, Arm(t)))
  {
    hide Places, Counters, NotStranded;
    if s.DriveOf(t).Arming? || s.DriveOf(t).Leaving? {
      var i, count := s.DriveOf(t).imp, s.DriveOf(t).count;
      if s.Requests(i) > 0 {
        TakePlaces(s, t, i, count);
        QuietKeeps(s, s.(requests := s.requests[i := s.Requests(i) - 1]).Set(t, Setting(i, count)), t, i);
      } else if s.DriveOf(t).Leaving? {
        LeavePlaces(s, t, i, count);
        QuietKeeps(s, s.Set(t, Counting(i)), t, i);
      } else if count == 0 {
        RerunPlaces(s, t, i);
        QuietKeeps(s, s.Set(t, Rerun(i)), t, i);
      } else {
        SleepPlaces(s, t, i, count);
        QuietKeeps(s, s.Set(t, Counting(i)).Put(i, Asleep), t, i);
      }
    }
  }

  lemma SetMorePlaces(s: State, t: Tid, i: Imp, count: nat)
    requires Places(s) && s.DriveOf(t) == Setting(i, count) && s.Requests(i) > 0
    ensures Places(s.(waitio := s.waitio + {i}).Set(t, Arming(i, count + 1)))
  {
    assert ImpOk(s, i) && ThreadOk(s, t) && ClaimOk(s, i, s.DriveOf(t), t);
    PlacesFrame(s, s.(waitio := s.waitio + {i}).Set(t, Arming(i, count + 1)), t, i);
  }

  lemma SetLastPlaces(s: State, t: Tid, i: Imp, count: nat)
    requires Places(s) && s.DriveOf(t) == Setting(i, count) && s.Requests(i) == 0
    ensures Places(s.(waitio := s.waitio + {i}).Set(t, Leaving(i, count + 1)).Put(i, Asleep))
    ensures i in s.place && s.Where(i) == Held(t)
  {
    assert ImpOk(s, i) && ThreadOk(s, t) && ClaimOk(s, i, s.DriveOf(t), t);
    PlacesFrame(s, s.(waitio := s.waitio + {i}).Set(t, Leaving(i, count + 1)).Put(i, Asleep), t, i);
  }

  lemma SetWaitStep(s: State, t: Tid)
    requires Inv(s)
    ensures Inv(Do(s, SetWait(t)))
  {
    hide Places, Counters, NotStranded;
    if s.DriveOf(t).Setting? {
      var Setting(i, count) := s.DriveOf(t);
      if s.Requests(i) > 0 {
        SetMorePlaces(s, t, i, count);
        QuietKeeps(s, s.(waitio := s.waitio + {i}).Set(t, Arming(i, count + 1)), t, i);
      } else {
        SetLastPlaces(s, t, i, count);
        QuietKeeps(s, s.(waitio := s.waitio + {i}).Set(t, Leaving(i, count + 1)).Put(i, Asleep), t, i);
      }
    }
  }

  lemma CountSleeperPlaces(s: State, t: Tid)
    requires Places(s) && s.DriveOf(t).Counting?
    ensures Places(Do(s, CountSleeper(t))) && !s.DriveOf(t).TermWake?
    ensures Balanced(s, Do(s, CountSleeper(t)), t, s.DriveOf(t).imp)
  {
    var s', i := Do(s, CountSleeper(t)), s.DriveOf(t).imp;
    assert ImpOk(s, i) && ThreadOk(s, t) && ClaimOk(s, i, s.DriveOf(t), t);
    PlacesFrame(s, s', t, i);
  }

  lemma CountSleeperStep(s: State, t: Tid)
    requires Inv(s)
    ensures Inv(Do(s, CountSleeper(t)))
  {
    hide Places, Legal, ImpOk, Balanced;
    var s' := Do(s, CountSleeper(t));
    if s.DriveOf(t).Counting? {
      CountSleeperPlaces(s, t);
      hide Counters, NotStranded;
      QuietKeeps(s, s', t, s.DriveOf(t).imp);
    }
  }

  lemma WakePlaces(s: State, t: Tid, i: Imp)
    requires Places(s) && Legal(s, Wake(t, i)) && CanWake(s, t, i)
    ensures Places(Do(s, Wake(t, i))) && i in s.place && !s.DriveOf(t).TermWake?
    ensures Balanced(s, Do(s, Wake(t, i)), t, i)
  {
    var s', i := Do(s, Wake(t, i)), i;
    assert ImpOk(s, i) && ThreadOk(s, t);
    PlacesFrame(s, s', t, i);
  }

  lemma WakeStep(s: State, t: Tid, i: Imp)
    requires Inv(s) && Legal(s, Wake(t, i))
    ensures Inv(Do(s, Wake(t, i)))
  {
    hide Places, Legal, ImpOk, Balanced;
    var s' := Do(s, Wake(t, i));
    if CanWake(s, t, i) {
      WakePlaces(s, t, i);
      hide Counters, NotStranded;
      QuietKeeps(s, s', t, i);
    }
  }

  lemma CountWakerPlaces(s: State, t: Tid)
    requires Places(s) && s.DriveOf(t).Waking?
    ensures Places(Do(s, CountWaker(t))) && s.DriveOf(t).imp in s.place && !s.DriveOf(t).TermWake?
    ensures Balanced(s, Do(s, CountWaker(t)), t, s.DriveOf(t).imp)
  {
    var s', i := Do(s, CountWaker(t)), s.DriveOf(t).imp;
    assert ImpOk(s, i) && ThreadOk(s, t) && ClaimOk(s, i, s.DriveOf(t), t);
    PlacesFrame(s, s', t, i);
  }

  lemma CountWakerStep(s: State, t: Tid)
    requires Inv(s)
    ensures Inv(Do(s, CountWaker(t)))
  {
    hide Places, Legal, ImpOk, Balanced;
    var s' := Do(s, CountWaker(t));
    if s.DriveOf(t).Waking? {
      CountWakerPlaces(s, t);
      hide Counters, NotStranded;
      QuietKeeps(s, s', t, s.DriveOf(t).imp);
    }
  }

  /** The maintainer never goes to sleep on a terminated imp that nobody will wake it for. */
  lemma MaintainerNotStranded(s: State, m: Move)
    requires NotStranded(s) && (m == Maintain || m == Spurious)
    ensures NotStranded(Do(s, m))
  {
    forall i | i in s.termq && WakeComing(s, i)
      ensures WakeComing(Do(s, m), i)
    {
      var u :| s.DriveOf(u) == TermWake(i);
      assert Do(s, m).DriveOf(u) == TermWake(i);
    }
  }

  lemma DrainPlaces(s: State)
    requires Places(s) && s.maintainer == Drain
    ensures Places(Do(s, Maintain))
    ensures s.termq != [] ==> s.termq[0] in s.place && s.Where(s.termq[0]) != Asleep
  {
    var s', i := Do(s, Maintain), if s.termq != [] then s.termq[0] else 0;
    assert ImpOk(s, i) && ThreadOk(s, 0);
    PlacesFrame(s, s', 0, i);
  }

  lemma DismissPlaces(s: State)
    requires Places(s) && s.maintainer.Dismissing?
    ensures Places(Do(s, Maintain))
    ensures s.maintainer.imp in s.place && s.Where(s.maintainer.imp) != Asleep
  {
    var s', i := Do(s, Maintain), s.maintainer.imp;
    assert ImpOk(s, i) && ThreadOk(s, 0);
    PlacesFrame(s, s', 0, i);
  }

  /** The steps of the maintainer that move no imp. */
  lemma IdlePlaces(s: State)
    requires Places(s) && s.maintainer != Drain && !s.maintainer.Dismissing?
    ensures Places(Do(s, Maintain))
  {
    IdleKeeps(s);
    hide Do;
    var s' := Do(s, Maintain);
    assert ImpOk(s, 0) && ThreadOk(s, 0);
    PlacesFrame(s, s', 0, 0);
  }

  lemma IdleKeeps(s: State)
    requires s.maintainer != Drain && !s.maintainer.Dismissing?
    ensures var s' := Do(s, Maintain);
      && s'.runq == s.runq && s'.termq == s.termq && s'.waitio == s.waitio && s'.drive == s.drive
      && s'.requests == s.requests && s'.summon == s.summon && s'.place == s.place && s'.born == s.born
      && !s'.maintainer.Dismissing?
  {
  }

  /** The steps of the maintainer that neither free an imp nor uncount one. */
  lemma DrainCounters(s: State)
    requires Counters(s) && !s.maintainer.Dismissing? && s.maintainer != Freed
    requires s.maintainer == Drain && s.termq != [] ==> s.termq[0] in s.place && s.Where(s.termq[0]) != Asleep
    ensures Counters(Do(s, Maintain))
  {
    CountersFrame(s, Do(s, Maintain), 0, if s.maintainer == Drain && s.termq != [] then s.termq[0] else 0);
  }

  lemma FreedOne(s: State, i: Imp, requests: map<Imp, nat>)
    requires Counters(s) && s.maintainer != Freed && i in s.place && s.Where(i) != Asleep
    ensures Counters(s.(maintainer := Freed, place := s.place - {i}, waitio := s.waitio - {i}, requests := requests))
  {
    var s' := s.(maintainer := Freed, place := s.place - {i}, waitio := s.waitio - {i}, requests := requests);
    SizeChange(s.place.Keys, s'.place.Keys, i);
    SleepersChange(s, s', i);
    CounterFrame(s, s', 0);
    assert s'.DriveOf(0) == s.DriveOf(0) && s'.Where(i) == Nowhere && i !in s'.place.Keys;
    hide Sleepers, CountingThreads, WakingThreads;
    assert forall u :: s'.SummonOf(u) == s.SummonOf(u);
  }

  lemma DismissCounters(s: State)
    requires Counters(s) && s.maintainer.Dismissing?
    requires s.maintainer.imp in s.place && s.Where(s.maintainer.imp) != Asleep
    ensures Counters(Do(s, Maintain))
  {
    hide Counters;
    FreedOne(s, s.maintainer.imp, s.requests - {s.maintainer.imp});
  }

  lemma FreedCounters(s: State)
    requires Counters(s) && s.maintainer == Freed
    ensures Counters(Do(s, Maintain))
  {
    var s' := Do(s, Maintain);
    CounterFrame(s, s', 0);
    SleepersChange(s, s', 0);
    hide Sleepers, CountingThreads, WakingThreads;
    assert forall u :: s'.SummonOf(u) == s.SummonOf(u) && s'.DriveOf(u) == s.DriveOf(u);
  }

  lemma MaintainStep(s: State)
    requires Inv(s)
    ensures Inv(Do(s, Maintain))
  {
    hide Places, Counters, NotStranded, Do;
    if s.maintainer == Drain {
      DrainPlaces(s);
      DrainCounters(s);
    } else if s.maintainer.Dismissing? {
      DismissPlaces(s);
      DismissCounters(s);
    } else if s.maintainer == Freed {
      IdlePlaces(s);
      FreedCounters(s);
    } else {
      IdlePlaces(s);
      DrainCounters(s);
    }
    MaintainerNotStranded(s, Maintain);
  }

  lemma SpuriousStep(s: State)
    requires Inv(s)
    ensures Inv(Do(s, Spurious))
  {
    var s' := Do(s, Spurious);
    if s' != s {
      assert ImpOk(s, 0) && ThreadOk(s, 0);
      assert Places(s') by { hide Counters, NotStranded; PlacesFrame(s, s', 0, 0); }
      hide Places, ImpOk, NotStranded;
      CounterFrame(s, s', 0);
      assert s'.SummonOf(0) == s.SummonOf(0);
      assert Sleepers(s') == Sleepers(s);
      MaintainerNotStranded(s, Spurious);
    }
  }

  // ----- whole runs

  lemma NewIsOk(nrMax: nat)
    ensures Inv(New(nrMax))
  {
    var s := New(nrMax);
    forall i ensures ImpOk(s, i) {}
    forall t ensures ThreadOk(s, t) {}
    assert Sleepers(s) == {} && CountingThreads(s) == {} && WakingThreads(s) == {};
  }

  lemma DoKeepsInv(s: State, m: Move)
    requires Inv(s) && Legal(s, m)
    ensures Inv(Do(s, m))
  {
    hide Inv, Do, Legal;
    match m {
      case SummonCheck(t) => SummonCheckStep(s, t);
      case SummonCount(t, i) => SummonCountStep(s, t, i);
      case SummonRun(t) => SummonRunStep(s, t);
      case Fetch(t) => FetchStep(s, t);
      case Request(t) => RequestStep(s, t);
      case Yield(t) => YieldStep(s, t);
      case Finish(t) => FinishStep(s, t);
      case RunAgain(t) => RunAgainStep(s, t);
      case Terminate(t) => TerminateStep(s, t);
      case Wakeup(t) => WakeupStep(s, t);
      case Arm(t) => ArmStep(s, t);
      case SetWait(t) => SetWaitStep(s, t);
      case CountSleeper(t) => CountSleeperStep(s, t);
      case Wake(t, i) => WakeStep(s, t, i);
      case CountWaker(t) => CountWakerStep(s, t);
      case Maintain => MaintainStep(s);
      case Spurious => SpuriousStep(s);
    }
  }

  lemma {:induction false} PlayKeepsInv(s: State, script: seq<Move>)
    requires Inv(s) && AllLegal(s, script)
    ensures Inv(Play(s, script))
    decreases script
  {
    hide Inv, Do;
    if script != [] {
      DoKeepsInv(s, script[0]);
      PlayKeepsInv(Do(s, script[0]), script[1..]);
    }
  }
}
