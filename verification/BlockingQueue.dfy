/** Waiting and signalling in the mutex-protected queue (src/ds_queue2.c:57-170).

    One move is one critical section: from taking the mutex, or from returning
    inside pthread_cond_wait, to releasing it or blocking again.  A signal
    releases at least one of the threads blocked on the condition variable when
    there is one; a blocked thread may also return without a signal. */
module BlockingQueue {
  type Item = int
  type Tid = nat

  datatype Thread =
    | Running
    | TakeBlocked          // in pthread_cond_wait on cond_dq
    | TakeWoken            // released, about to test nr again
    | PutBlocked(item: Item)  // in pthread_cond_wait on cond_eq
    | PutWoken(item: Item)

  datatype State = State(max: nat, items: seq<Item>, threads: map<Tid, Thread>,
                         entered: seq<Item>, taken: seq<Item>)
  {
    function At(t: Tid): Thread {
      if t in threads then threads[t] else Running
    }

    function Become(t: Tid, th: Thread): State {
      this.(threads := threads[t := th])
    }
  }

  /** `woken` is the set of threads that the signal of the move releases. */
  datatype Move =
    | Put(tid: Tid, item: Item, woken: set<Tid>)
    | ResumePut(tid: Tid, woken: set<Tid>)
    | PutNb(tid: Tid, item: Item, woken: set<Tid>)
    | PutUniq(tid: Tid, item: Item, woken: set<Tid>)
    | Take(tid: Tid, woken: set<Tid>)
    | ResumeTake(tid: Tid, woken: set<Tid>)
    | TakeNb(tid: Tid, woken: set<Tid>)
    | Spurious(tid: Tid)

  function New(max: nat): State {
    State(max, [], map[], [], [])
  }

  ghost function Takers(s: State): set<Tid> {
    set t | t in s.threads && s.threads[t] == TakeBlocked
  }

  ghost function WokenTakers(s: State): set<Tid> {
    set t | t in s.threads && s.threads[t] == TakeWoken
  }

  ghost function Putters(s: State): set<Tid> {
    set t | t in s.threads && s.threads[t].PutBlocked?
  }

  ghost function WokenPutters(s: State): set<Tid> {
    set t | t in s.threads && s.threads[t].PutWoken?
  }

  function Release(th: Thread): Thread {
    match th
    case TakeBlocked => TakeWoken
    case PutBlocked(item) => PutWoken(item)
    case _ => th
  }

  function Signal(s: State, woken: set<Tid>): State {
    s.(threads := map t | t in s.threads :: if t in woken then Release(s.threads[t]) else s.threads[t])
  }

  /** The signal statement may release exactly these threads. */
  ghost predicate SignalOk(blocked: set<Tid>, woken: set<Tid>) {
    woken <= blocked && (blocked != {} ==> woken != {})
  }

  function DoPut(s: State, t: Tid, item: Item, woken: set<Tid>): State {
    if |s.items| >= s.max then s.Become(t, PutBlocked(item))
    else Signal(s.(items := s.items + [item], entered := s.entered + [item]).Become(t, Running), woken)
  }

  function DoTake(s: State, t: Tid, woken: set<Tid>): State {
    if s.items == [] then s.Become(t, TakeBlocked)
    else Signal(s.(items := s.items[1..], taken := s.taken + [s.items[0]]).Become(t, Running), woken)
  }

  function Do(s: State, m: Move): State {
    match m
    case Put(t, item, woken) => if s.At(t) != Running then s else DoPut(s, t, item, woken)
    case ResumePut(t, woken) => if !s.At(t).PutWoken? then s else DoPut(s, t, s.At(t).item, woken)
    case PutNb(t, item, woken) =>
      if s.At(t) != Running || |s.items| >= s.max then s else DoPut(s, t, item, woken)
    case PutUniq(t, item, woken) =>
      if s.At(t) != Running || |s.items| >= s.max then s
      else if item in s.items then Signal(s, woken)
      else DoPut(s, t, item, woken)
    case Take(t, woken) => if s.At(t) != Running then s else DoTake(s, t, woken)
    case ResumeTake(t, woken) => if s.At(t) != TakeWoken then s else DoTake(s, t, woken)
    case TakeNb(t, woken) => if s.At(t) != Running || s.items == [] then s else DoTake(s, t, woken)
    case Spurious(t) => if t in s.threads then s.Become(t, Release(s.threads[t])) else s
  }

  /** The signals of a script follow the condition variable's rules. */
  ghost predicate SignalsOk(s: State, m: Move) {
    match m
    case Put(_, _, woken) => SignalOk(Takers(s), woken)
    case ResumePut(_, woken) => SignalOk(Takers(s), woken)
    case PutNb(_, _, woken) => SignalOk(Takers(s), woken)
    case PutUniq(_, _, woken) => SignalOk(Takers(s), woken)
    case Take(_, woken) => SignalOk(Putters(s), woken)
    case ResumeTake(_, woken) => SignalOk(Putters(s), woken)
    case TakeNb(_, woken) => SignalOk(Putters(s), woken)
    case Spurious(_) => true
  }

  function Play(s: State, script: seq<Move>): State
    decreases script
  {
    if script == [] then s else Play(Do(s, script[0]), script[1..])
  }

  ghost predicate AllSignalsOk(s: State, script: seq<Move>)
    decreases script
  {
    script == [] || (SignalsOk(s, script[0]) && AllSignalsOk(Do(s, script[0]), script[1..]))
  }

  /** No wake-up is lost: while a consumer sleeps unsignalled, the items in the
      queue are at most the consumers that are signalled and on their way; and the
      same for producers and free slots. */
  ghost predicate NoLostWakeup(s: State) {
    && |s.items| <= s.max
    && (Takers(s) != {} ==> |s.items| <= |WokenTakers(s)|)
    && (Putters(s) != {} ==> s.max - |s.items| <= |WokenPutters(s)|)
  }

  ghost predicate Inv(s: State) {
    NoLostWakeup(s) && s.taken + s.items == s.entered
  }

  // ----- one move

  lemma Subset(a: set<Tid>, b: set<Tid>)
    requires a <= b
    ensures |a| <= |b|
  {
    assert b == a + (b - a);
  }

  /** Blocking adds a sleeper to one side and takes a woken thread from it. */
  lemma BlockSets(s: State, t: Tid, item: Item)
    ensures s.At(t) == Running || s.At(t).PutWoken? ==>
      var s' := s.Become(t, PutBlocked(item)); Takers(s') == Takers(s) && WokenTakers(s') == WokenTakers(s)
    ensures s.At(t) == Running || s.At(t) == TakeWoken ==>
      var s' := s.Become(t, TakeBlocked); Putters(s') == Putters(s) && WokenPutters(s') == WokenPutters(s)
  {
  }

  /** The thread sets after a signal from a thread that goes on running. */
  lemma SignalSets(s: State, t: Tid, woken: set<Tid>)
    requires s.At(t) == Running || s.At(t).PutWoken? || s.At(t) == TakeWoken
    ensures var s' := Signal(s.Become(t, Running), woken);
      && Takers(s') == Takers(s) - woken && Putters(s') == Putters(s) - woken
      && WokenTakers(s') == (WokenTakers(s) - {t}) + (Takers(s) * woken)
      && WokenPutters(s') == (WokenPutters(s) - {t}) + (Putters(s) * woken)
      && Takers(s) !! WokenTakers(s) && Putters(s) !! WokenPutters(s) && Takers(s) !! Putters(s)
    ensures s.At(t) != TakeWoken ==> WokenTakers(s) - {t} == WokenTakers(s)
    ensures !s.At(t).PutWoken? ==> WokenPutters(s) - {t} == WokenPutters(s)
  {
  }

  lemma SameThreads(s: State, s': State)
    requires s.threads == s'.threads
    ensures Takers(s) == Takers(s') && WokenTakers(s) == WokenTakers(s')
    ensures Putters(s) == Putters(s') && WokenPutters(s) == WokenPutters(s')
  {
  }

  lemma MoreWoken(blocked: set<Tid>, awake: set<Tid>, woken: set<Tid>)
    requires blocked !! awake && SignalOk(blocked, woken) && blocked != {}
    ensures |awake + blocked * woken| >= |awake| + 1
  {
    var u :| u in woken;
    Subset(awake + {u}, awake + blocked * woken);
  }

  /** One side gains an item (or a free slot) and a signal; the other loses one. */
  lemma Balance(gain: nat, loss: nat, blocked: set<Tid>, awake: set<Tid>, blocked2: set<Tid>, awake2: set<Tid>,
                t: Tid, woken: set<Tid>)
    requires blocked !! awake && SignalOk(blocked, woken) && loss > 0
    requires blocked != {} ==> gain <= |awake|
    requires blocked2 != {} ==> loss <= |awake2|
    ensures blocked - woken != {} ==> gain + 1 <= |awake + blocked * woken|
    ensures blocked2 != {} ==> loss - 1 <= |awake2 - {t}|
  {
    if blocked != {} {
      MoreWoken(blocked, awake, woken);
    }
    Subset(awake2, (awake2 - {t}) + {t});
  }

  lemma PutSignals(s: State, t: Tid, item: Item, woken: set<Tid>)
    requires NoLostWakeup(s) && |s.items| < s.max
    requires (s.At(t) == Running || s.At(t) == PutWoken(item)) && SignalOk(Takers(s), woken)
    ensures NoLostWakeup(DoPut(s, t, item, woken))
  {
    var s' := DoPut(s, t, item, woken);
    SignalSets(s, t, woken);
    SameThreads(Signal(s.Become(t, Running), woken), s');
    assert |s'.items| == |s.items| + 1 && s'.max == s.max;
    hide Takers, WokenTakers, Putters, WokenPutters, Signal, DoPut;
    assert Putters(s) - woken == Putters(s) && Putters(s) * woken == {};
    Balance(|s.items|, s.max - |s.items|, Takers(s), WokenTakers(s), Putters(s), WokenPutters(s), t, woken);
  }

  lemma PutKeeps(s: State, t: Tid, item: Item, woken: set<Tid>)
    requires Inv(s) && (s.At(t) == Running || s.At(t) == PutWoken(item)) && SignalOk(Takers(s), woken)
    ensures Inv(DoPut(s, t, item, woken))
  {
    if |s.items| >= s.max {
      BlockSets(s, t, item);
    } else {
      hide NoLostWakeup;
      PutSignals(s, t, item, woken);
      assert s.taken + (s.items + [item]) == s.taken + s.items + [item];
    }
  }

  lemma TakeSignals(s: State, t: Tid, woken: set<Tid>)
    requires NoLostWakeup(s) && s.items != []
    requires (s.At(t) == Running || s.At(t) == TakeWoken) && SignalOk(Putters(s), woken)
    ensures NoLostWakeup(DoTake(s, t, woken))
  {
    var s' := DoTake(s, t, woken);
    SignalSets(s, t, woken);
    SameThreads(Signal(s.Become(t, Running), woken), s');
    assert |s'.items| == |s.items| - 1 && s'.max == s.max;
    hide Takers, WokenTakers, Putters, WokenPutters, Signal, DoTake;
    assert Takers(s) - woken == Takers(s) && Takers(s) * woken == {};
    Balance(s.max - |s.items|, |s.items|, Putters(s), WokenPutters(s), Takers(s), WokenTakers(s), t, woken);
  }

  lemma TakeKeeps(s: State, t: Tid, woken: set<Tid>)
    requires Inv(s) && (s.At(t) == Running || s.At(t) == TakeWoken) && SignalOk(Putters(s), woken)
    ensures Inv(DoTake(s, t, woken))
  {
    if s.items == [] {
      BlockSets(s, t, 0);
    } else {
      hide NoLostWakeup;
      TakeSignals(s, t, woken);
      assert s.taken + [s.items[0]] + s.items[1..] == s.taken + s.items;
    }
  }

  /** Releasing blocked threads only helps. */
  lemma SignalKeeps(s: State, woken: set<Tid>)
    requires Inv(s)
    ensures Inv(Signal(s, woken))
  {
    var s' := Signal(s, woken);
    assert Takers(s') <= Takers(s) && Putters(s') <= Putters(s);
    Subset(WokenTakers(s), WokenTakers(s'));
    Subset(WokenPutters(s), WokenPutters(s'));
  }

  lemma DoKeepsInv(s: State, m: Move)
    requires Inv(s) && SignalsOk(s, m)
    ensures Inv(Do(s, m))
  {
    hide Inv;
    match m {
      case Put(t, item, woken) => if s.At(t) == Running { PutKeeps(s, t, item, woken); }
      case ResumePut(t, woken) => if s.At(t).PutWoken? { PutKeeps(s, t, s.At(t).item, woken); }
      case PutNb(t, item, woken) => if s.At(t) == Running { PutKeeps(s, t, item, woken); }
      case PutUniq(t, item, woken) =>
        SignalKeeps(s, woken);
        if s.At(t) == Running { PutKeeps(s, t, item, woken); }
      case Take(t, woken) => if s.At(t) == Running { TakeKeeps(s, t, woken); }
      case ResumeTake(t, woken) => if s.At(t) == TakeWoken { TakeKeeps(s, t, woken); }
      case TakeNb(t, woken) => if s.At(t) == Running { TakeKeeps(s, t, woken); }
      case Spurious(t) =>
        SignalKeeps(s, {t});
        if t in s.threads { assert Signal(s, {t}).threads == s.threads[t := Release(s.threads[t])]; }
    }
  }

  lemma {:induction false} PlayKeepsInv(s: State, script: seq<Move>)
    requires Inv(s) && AllSignalsOk(s, script)
    ensures Inv(Play(s, script))
    decreases script
  {
    hide Inv, Do;
    if script != [] {
      DoKeepsInv(s, script[0]);
      PlayKeepsInv(Do(s, script[0]), script[1..]);
    }
  }

  /** Every run mixing blocking, non-blocking and uniq calls is a FIFO that
      loses no wake-up; so whenever a consumer sleeps and an item waits, some
      consumer has been released and can run, and the same for producers. */
  lemma EveryRun(max: nat, script: seq<Move>)
    requires AllSignalsOk(New(max), script)
    ensures var s := Play(New(max), script);
      && s.taken + s.items == s.entered
      && NoLostWakeup(s)
      && (Takers(s) != {} && s.items != [] ==> exists t :: s.At(t) == TakeWoken)
      && (Putters(s) != {} && |s.items| < s.max ==> exists t :: s.At(t).PutWoken?)
  {
    assert Takers(New(max)) == {} && Putters(New(max)) == {};
    PlayKeepsInv(New(max), script);
    var s := Play(New(max), script);
    hide Play;
    if Takers(s) != {} && s.items != [] {
      assert WokenTakers(s) != {};
      var t :| t in WokenTakers(s);
      assert s.At(t) == TakeWoken;
    }
    if Putters(s) != {} && |s.items| < s.max {
      assert WokenPutters(s) != {};
      var t :| t in WokenPutters(s);
      assert s.At(t).PutWoken?;
    }
  }

  // ----- uniq

  predicate NoDuplicates(q: seq<Item>) {
    forall i, j :: 0 <= i < j < |q| ==> q[i] != q[j]
  }

  /** Runs that enqueue with queue_enqueue_uniq_nb only keep the queue duplicate-free. */
  lemma {:induction false} UniqRunsStayUnique(s: State, script: seq<Move>)
    requires NoDuplicates(s.items) && forall t :: t in s.threads ==> !s.threads[t].PutBlocked? && !s.threads[t].PutWoken?
    requires forall k :: 0 <= k < |script| ==> !script[k].Put? && !script[k].PutNb?
    ensures NoDuplicates(Play(s, script).items)
    decreases script
  {
    if script != [] {
      UniqRunsStayUnique(Do(s, script[0]), script[1..]);
    }
  }
}
