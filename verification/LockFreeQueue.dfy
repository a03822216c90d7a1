/** The lock-free multi-producer multi-consumer ring (src/ds_queue.c).

    Every access to shared memory is one step of one thread, and memory is
    sequentially consistent.  Tickets count all reservations, commits and
    removals since the queue was made; the three stored indices are their
    values modulo `max`.  Tickets, and the sequences of reserved and delivered
    items, are history: no step of a thread depends on them. */
module LockFreeQueue {
  import opened ModLemmas

  type Item = int
  type Tid = nat

  /** Where a thread stands in queue_enqueue_nb or queue_dequeue_nb.  `w` and
      `r` are its local copies of an index, `ticket` is what the copy stood for. */
  datatype Pc =
    | Idle
    | EnqReadW(item: Item)
    | EnqReadR(item: Item, w: nat, ticket: nat)
    | EnqCas(item: Item, w: nat, ticket: nat)
    | EnqWrite(item: Item, w: nat, ticket: nat)
    | EnqCommit(item: Item, w: nat, ticket: nat)
    | DeqReadR
    | DeqReadM(r: nat, ticket: nat)
    | DeqReadSlot(r: nat, ticket: nat)
    | DeqCas(item: Item, r: nat, ticket: nat)

  datatype State = State(
    max: nat, rindex: nat, maxRindex: nat, windex: nat, bucket: seq<Item>, pcs: map<Tid, Pc>,
    taken: nat, committed: nat, reserved: seq<Item>, owner: seq<Tid>, delivered: seq<Item>)
  {
    function At(tid: Tid): Pc {
      if tid in pcs then pcs[tid] else Idle
    }

    function Goto(tid: Tid, pc: Pc): State {
      this.(pcs := pcs[tid := pc])
    }
  }

  datatype Move = Enqueue(tid: Tid, item: Item) | Dequeue(tid: Tid) | Go(tid: Tid)

  function New(max: nat, bucket: seq<Item>): State {
    State(max, 0, 0, 0, bucket, map[], 0, 0, [], [], [])
  }

  /** The next shared access of a thread. */
  function Step(s: State, tid: Tid): (s': State)
    requires 0 < s.max
    ensures s'.max == s.max
  {
    match s.At(tid)
    case Idle => s
    case EnqReadW(item) =>
      s.Goto(tid, EnqReadR(item, s.windex, |s.reserved|))
    case EnqReadR(item, w, ticket) =>
      if (w + 1) % s.max == s.rindex % s.max then s.Goto(tid, Idle) else s.Goto(tid, EnqCas(item, w, ticket))
    case EnqCas(item, w, ticket) =>
      if s.windex != w then s.Goto(tid, EnqReadW(item))
      else s.Goto(tid, EnqWrite(item, w, |s.reserved|))
            .(windex := (w + 1) % s.max, reserved := s.reserved + [item], owner := s.owner + [tid])
    case EnqWrite(item, w, ticket) =>
      if w >= |s.bucket| then s else s.Goto(tid, EnqCommit(item, w, ticket)).(bucket := s.bucket[w := item])
    case EnqCommit(item, w, ticket) =>
      if s.maxRindex != w then s
      else s.Goto(tid, Idle).(maxRindex := (w + 1) % s.max, committed := s.committed + 1)
    case DeqReadR =>
      s.Goto(tid, DeqReadM(s.rindex, s.taken))
    case DeqReadM(r, ticket) =>
      if r % s.max == s.maxRindex % s.max then s.Goto(tid, Idle) else s.Goto(tid, DeqReadSlot(r, ticket))
    case DeqReadSlot(r, ticket) =>
      if r >= |s.bucket| then s else s.Goto(tid, DeqCas(s.bucket[r], r, ticket))
    case DeqCas(item, r, ticket) =>
      if s.rindex != r then s.Goto(tid, DeqReadR)
      else s.Goto(tid, Idle).(rindex := (r + 1) % s.max, taken := s.taken + 1, delivered := s.delivered + [item])
  }

  function Do(s: State, m: Move): (s': State)
    requires 0 < s.max
    ensures s'.max == s.max
  {
    match m
    case Enqueue(tid, item) => if s.At(tid) == Idle then s.Goto(tid, EnqReadW(item)) else s
    case Dequeue(tid) => if s.At(tid) == Idle then s.Goto(tid, DeqReadR) else s
    case Go(tid) => Step(s, tid)
  }

  /** The state after a script of moves: every interleaving of any threads is some script. */
  function Play(s: State, script: seq<Move>): State
    requires 0 < s.max
    decreases script
  {
    if script == [] then s else Play(Do(s, script[0]), script[1..])
  }

  /** If the thread about to move tests an outdated copy of an index with its
      compare-and-swap, the copy is not a whole number of laps old.
      CasCountsLaps shows that this rules out just the stale successes. */
  predicate Fresh(s: State, m: Move)
    requires 0 < s.max
  {
    m.Go? ==>
      match s.At(m.tid)
      case EnqCas(_, _, ticket) => ticket < |s.reserved| ==> (|s.reserved| - ticket) % s.max != 0
      case DeqCas(_, _, ticket) => ticket < s.taken ==> (s.taken - ticket) % s.max != 0
      case _ => true
  }

  predicate NeverLapped(s: State, script: seq<Move>)
    requires 0 < s.max
    decreases script
  {
    script == [] || (Fresh(s, script[0]) && NeverLapped(Do(s, script[0]), script[1..]))
  }

  // ----- the invariant

  ghost predicate Indices(s: State) {
    && 0 < s.max && |s.bucket| == s.max
    && s.taken <= s.committed <= |s.reserved| <= s.taken + s.max - 1
    && s.rindex == s.taken % s.max
    && s.maxRindex == s.committed % s.max
    && s.windex == |s.reserved| % s.max
    && |s.owner| == |s.reserved|
  }

  ghost predicate Slots(s: State)
    requires Indices(s)
  {
    forall t :: s.taken <= t < s.committed ==> s.bucket[t % s.max] == s.reserved[t]
  }

  ghost predicate HoldsTicket(pc: Pc, t: nat) {
    (pc.EnqWrite? || pc.EnqCommit?) && pc.ticket == t
  }

  ghost predicate Owners(s: State)
    requires Indices(s)
  {
    && (forall tid :: tid in s.pcs ==>
          forall t: nat {:trigger HoldsTicket(s.pcs[tid], t)} :: HoldsTicket(s.pcs[tid], t) ==>
            s.committed <= t < |s.reserved| && s.owner[t] == tid)
    && (forall t :: s.committed <= t < |s.reserved| ==> HoldsTicket(s.At(s.owner[t]), t))
  }

  ghost predicate PcOk(s: State, pc: Pc)
    requires Indices(s)
  {
    match pc
    case Idle => true
    case EnqReadW(_) => true
    case EnqReadR(_, w, ticket) => w == ticket % s.max && ticket <= |s.reserved|
    case EnqCas(_, w, ticket) =>
      && w == ticket % s.max && ticket <= |s.reserved|
      && (ticket == |s.reserved| ==> |s.reserved| + 1 < s.taken + s.max)
    case EnqWrite(item, w, ticket) =>
      w == ticket % s.max && s.committed <= ticket < |s.reserved| && s.reserved[ticket] == item
    case EnqCommit(item, w, ticket) =>
      w == ticket % s.max && s.committed <= ticket < |s.reserved| && s.reserved[ticket] == item && s.bucket[w] == item
    case DeqReadR => true
    case DeqReadM(r, ticket) => r == ticket % s.max && ticket <= s.taken
    case DeqReadSlot(r, ticket) => r == ticket % s.max && ticket <= s.taken && (ticket == s.taken ==> s.taken < s.committed)
    case DeqCas(item, r, ticket) =>
      && r == ticket % s.max && ticket <= s.taken
      && (ticket == s.taken ==> s.taken < s.committed && item == s.reserved[s.taken])
  }

  ghost predicate Inv(s: State) {
    && Indices(s) && Slots(s) && Owners(s)
    && s.delivered == s.reserved[..s.taken]
    && (forall tid :: tid in s.pcs ==> PcOk(s, s.pcs[tid]))
  }

  // ----- every step keeps the invariant

  /** A step that changes only the thread's own program counter. */
  lemma LocalStep(s: State, tid: Tid, pc: Pc)
    requires Inv(s) && PcOk(s, pc)
    requires forall t: nat :: !HoldsTicket(s.At(tid), t) && !HoldsTicket(pc, t)
    ensures Inv(s.Goto(tid, pc))
  {
    var s' := s.Goto(tid, pc);
    forall t | s'.committed <= t < |s'.reserved|
      ensures HoldsTicket(s'.At(s'.owner[t]), t)
    {
      assert HoldsTicket(s.At(s.owner[t]), t);
    }
  }

  lemma ReserveStep(s: State, tid: Tid)
    requires Inv(s) && s.At(tid).EnqCas? && Fresh(s, Go(tid))
    ensures Inv(Step(s, tid))
  {
    var EnqCas(item, w, ticket) := s.At(tid);
    if s.windex != w {
      LocalStep(s, tid, EnqReadW(item));
    } else {
      var s' := Step(s, tid);
      ModLaps(ticket, |s.reserved|, s.max);
      ModNext(|s.reserved|, s.max);
      ModNextIndex(w, s.max);
      forall t | s'.committed <= t < |s'.reserved|
        ensures HoldsTicket(s'.At(s'.owner[t]), t)
      {
        if t < |s.reserved| { assert HoldsTicket(s.At(s.owner[t]), t); }
      }
      forall a | a in s'.pcs
        ensures PcOk(s', s'.pcs[a])
      {
        assert a != tid ==> PcOk(s, s.pcs[a]);
      }
    }
  }

  lemma WriteStep(s: State, tid: Tid)
    requires Inv(s) && s.At(tid).EnqWrite?
    ensures Inv(Step(s, tid))
    ensures forall t :: s.taken <= t < s.committed ==> Step(s, tid).bucket[t % s.max] == s.bucket[t % s.max]
  {
    var EnqWrite(item, w, ticket) := s.At(tid);
    var s' := Step(s, tid);
    assert HoldsTicket(s.At(tid), ticket);
    forall t | s.taken <= t < s.committed
      ensures t % s.max != w
    {
      if t % s.max == w { ModInjective(t, ticket, s.max); }
    }
    forall a | a in s'.pcs
      ensures PcOk(s', s'.pcs[a])
    {
      if a != tid {
        assert PcOk(s, s.pcs[a]);
        if s.pcs[a].EnqCommit? {
          assert HoldsTicket(s.pcs[a], s.pcs[a].ticket);
          if s.pcs[a].w == w {
            if ticket <= s.pcs[a].ticket { ModInjective(ticket, s.pcs[a].ticket, s.max); }
            else { ModInjective(s.pcs[a].ticket, ticket, s.max); }
          }
        }
      }
    }
    forall t | s'.committed <= t < |s'.reserved|
      ensures HoldsTicket(s'.At(s'.owner[t]), t)
    {
      assert HoldsTicket(s.At(s.owner[t]), t);
    }
    forall a, t: nat | a in s'.pcs && HoldsTicket(s'.pcs[a], t)
      ensures s'.committed <= t < |s'.reserved| && s'.owner[t] == a
    {
      assert HoldsTicket(s.At(a), t);
    }
  }

  /** The commit succeeds exactly for the oldest reservation not yet committed. */
  lemma OldestCommits(s: State, tid: Tid)
    requires Inv(s) && s.At(tid).EnqCommit?
    ensures s.maxRindex == s.At(tid).w <==> s.At(tid).ticket == s.committed
  {
    assert HoldsTicket(s.At(tid), s.At(tid).ticket);
    if s.maxRindex == s.At(tid).w {
      ModInjective(s.committed, s.At(tid).ticket, s.max);
    }
  }

  lemma CommitStep(s: State, tid: Tid)
    requires Inv(s) && s.At(tid).EnqCommit?
    ensures Inv(Step(s, tid))
  {
    var EnqCommit(item, w, ticket) := s.At(tid);
    OldestCommits(s, tid);
    if s.maxRindex == w {
      var s' := Step(s, tid);
      ModNext(s.committed, s.max);
      ModNextIndex(w, s.max);
      forall t | s'.committed <= t < |s'.reserved|
        ensures HoldsTicket(s'.At(s'.owner[t]), t)
      {
        assert HoldsTicket(s.At(s.owner[t]), t);
      }
      forall a, t: nat | a in s'.pcs && HoldsTicket(s'.pcs[a], t)
        ensures s'.committed <= t < |s'.reserved| && s'.owner[t] == a
      {
        assert HoldsTicket(s.At(a), t);
        assert HoldsTicket(s.At(tid), ticket);
      }
      forall a | a in s'.pcs
        ensures PcOk(s', s'.pcs[a])
      {
        if a != tid {
          assert PcOk(s, s.pcs[a]);
          if s.pcs[a].EnqWrite? || s.pcs[a].EnqCommit? {
            assert HoldsTicket(s'.pcs[a], s.pcs[a].ticket);
          }
        }
      }
    }
  }

  lemma TakeStep(s: State, tid: Tid)
    requires Inv(s) && s.At(tid).DeqCas? && Fresh(s, Go(tid))
    ensures Inv(Step(s, tid))
  {
    var DeqCas(item, r, ticket) := s.At(tid);
    if s.rindex != r {
      LocalStep(s, tid, DeqReadR);
    } else {
      var s' := Step(s, tid);
      ModLaps(ticket, s.taken, s.max);
      ModNext(s.taken, s.max);
      ModNextIndex(r, s.max);
      forall t | s'.committed <= t < |s'.reserved|
        ensures HoldsTicket(s'.At(s'.owner[t]), t)
      {
        assert HoldsTicket(s.At(s.owner[t]), t);
      }
      forall a | a in s'.pcs
        ensures PcOk(s', s'.pcs[a])
      {
        assert a != tid ==> PcOk(s, s.pcs[a]);
      }
    }
  }

  /** When the full test fails, the write ticket is less than a lap ahead of the oldest item. */
  lemma NotFull(s: State, item: Item, w: nat, ticket: nat)
    requires Indices(s) && PcOk(s, EnqReadR(item, w, ticket)) && (w + 1) % s.max != s.rindex % s.max
    ensures PcOk(s, EnqCas(item, w, ticket))
  {
    if ticket + 1 == s.taken + s.max {
      ModFull(ticket, s.taken, s.max);
      assert false;
    }
  }

  lemma FullTest(s: State, tid: Tid)
    requires Inv(s) && s.At(tid).EnqReadR?
    ensures Inv(Step(s, tid))
  {
    var EnqReadR(item, w, ticket) := s.At(tid);
    assert Indices(s) && PcOk(s, EnqReadR(item, w, ticket)) && PcOk(s, Idle);
    hide Inv, Indices, PcOk;
    if (w + 1) % s.max == s.rindex % s.max {
      LocalStep(s, tid, Idle);
    } else {
      NotFull(s, item, w, ticket);
      LocalStep(s, tid, EnqCas(item, w, ticket));
    }
  }

  lemma StepKeepsInv(s: State, tid: Tid)
    requires Inv(s) && Fresh(s, Go(tid))
    ensures Inv(Step(s, tid))
  {
    var pc := s.At(tid);
    match pc {
      case Idle =>
      case EnqReadW(item) => LocalStep(s, tid, EnqReadR(item, s.windex, |s.reserved|));
      case EnqReadR(item, w, ticket) => FullTest(s, tid);
      case EnqCas(item, w, ticket) => ReserveStep(s, tid);
      case EnqWrite(item, w, ticket) => WriteStep(s, tid);
      case EnqCommit(item, w, ticket) => CommitStep(s, tid);
      case DeqReadR => LocalStep(s, tid, DeqReadM(s.rindex, s.taken));
      case DeqReadM(r, ticket) =>
        if r % s.max == s.maxRindex % s.max { LocalStep(s, tid, Idle); }
        else { LocalStep(s, tid, DeqReadSlot(r, ticket)); }
      case DeqReadSlot(r, ticket) => LocalStep(s, tid, DeqCas(s.bucket[r], r, ticket));
      case DeqCas(item, r, ticket) => TakeStep(s, tid);
    }
  }

  /** Safety of every interleaving in which no outdated copy passes its compare-and-swap. */
  lemma {:induction false} PlayKeepsInv(s: State, script: seq<Move>)
    requires Inv(s) && NeverLapped(s, script)
    ensures Inv(Play(s, script))
    decreases script
  {
    if script != [] {
      DoKeepsInv(s, script[0]);
      PlayKeepsInv(Do(s, script[0]), script[1..]);
    }
  }

  lemma DoKeepsInv(s: State, m: Move)
    requires Inv(s) && Fresh(s, m)
    ensures Inv(Do(s, m))
  {
    match m {
      case Enqueue(tid, item) => if s.At(tid) == Idle { LocalStep(s, tid, EnqReadW(item)); }
      case Dequeue(tid) => if s.At(tid) == Idle { LocalStep(s, tid, DeqReadR); }
      case Go(tid) => StepKeepsInv(s, tid);
    }
  }

  // ----- what the invariant means for callers

  /** The items in the slots from the read index up to the commit index. */
  ghost function Pending(s: State): seq<Item>
    requires Indices(s)
  {
    seq(s.committed - s.taken, i requires 0 <= i < s.committed - s.taken => s.bucket[(s.taken + i) % s.max])
  }

  lemma NewIsOk(max: nat, bucket: seq<Item>)
    requires 0 < max && |bucket| == max
    ensures Inv(New(max, bucket))
  {
    ModSame(0, max);
  }

  lemma PendingFollowsDelivered(s: State)
    requires Inv(s)
    ensures s.delivered + Pending(s) == s.reserved[..s.committed]
    ensures |s.delivered| == s.taken
  {
    assert forall i :: 0 <= i < s.committed - s.taken ==> Pending(s)[i] == s.reserved[s.taken + i];
  }

  /** FIFO: what was delivered, then what is pending, is what was reserved and
      committed, in the order of reservation; and nothing overwrites what is pending. */
  ghost predicate InOrder(s: State) {
    && Indices(s)
    && s.delivered + Pending(s) == s.reserved[..s.committed]
    && |s.reserved| - |s.delivered| < s.max
  }

  lemma Fifo(max: nat, bucket: seq<Item>, script: seq<Move>)
    requires 0 < max && |bucket| == max && NeverLapped(New(max, bucket), script)
    ensures InOrder(Play(New(max, bucket), script))
  {
    hide Slots, Owners, PcOk, Play, NeverLapped;
    NewIsOk(max, bucket);
    PlayKeepsInv(New(max, bucket), script);
    PendingFollowsDelivered(Play(New(max, bucket), script));
  }

  /** Committing cannot get stuck: the thread that holds the oldest open
      reservation exists, and two steps of it commit that reservation. */
  lemma OldestProgress(s: State)
    requires Inv(s) && s.committed < |s.reserved|
    ensures var o := s.owner[s.committed];
      Play(s, [Go(o), Go(o)]).committed == s.committed + 1
  {
    var o := s.owner[s.committed];
    assert HoldsTicket(s.At(o), s.committed);
    var s1 := Step(s, o);
    if s.At(o).EnqWrite? {
      WriteStep(s, o);
      OldestCommits(s1, o);
    } else {
      OldestCommits(s, o);
    }
    var s2 := Step(s1, o);
    assert Play(s1, [Go(o)]) == Play(s2, []);
    assert [Go(o), Go(o)][1..] == [Go(o)];
  }

  /** queue_size. */
  function Size(s: State): nat
    requires s.rindex < s.max
  {
    if s.windex >= s.rindex then s.windex - s.rindex else s.max + s.windex - s.rindex
  }

  lemma SizeCountsReservations(s: State)
    requires Inv(s)
    ensures s.rindex < s.max && Size(s) == |s.reserved| - s.taken
  {
    var d := |s.reserved| - s.taken;
    var q := s.taken / s.max;
    assert s.taken == s.max * q + s.rindex;
    if s.rindex + d < s.max {
      ModUnique(|s.reserved|, s.max, q, s.rindex + d);
    } else {
      assert s.max * (q + 1) == s.max * q + s.max;
      ModUnique(|s.reserved|, s.max, q + 1, s.rindex + d - s.max);
    }
  }

  /** queue_travel, with the calls it makes as a sequence. */
  method Travel(s: State) returns (visited: seq<Item>)
    requires Inv(s)
    ensures visited == Pending(s)
  {
    var idx := s.rindex;
    visited := [];
    ghost var ticket := s.taken;
    while idx != s.maxRindex
      invariant s.taken <= ticket <= s.committed
      invariant idx == ticket % s.max
      invariant visited == Pending(s)[..ticket - s.taken]
      decreases s.committed - ticket
    {
      visited := visited + [s.bucket[idx]];
      ModNext(ticket, s.max);
      ModNextIndex(idx, s.max);
      idx := (idx + 1) % s.max;
      ticket := ticket + 1;
    }
    ModInjective(ticket, s.committed, s.max);
  }

  // ----- without the assumption

  /** When a compare-and-swap on the write or the read index succeeds: exactly
      when a whole number of laps has passed since the thread copied the index.
      No lap is the intended case; Fresh says that it is the only one. */
  lemma CasCountsLaps(s: State, tid: Tid)
    requires Inv(s) && (s.At(tid).EnqCas? || s.At(tid).DeqCas?)
    ensures s.At(tid).EnqCas? ==>
      && s.At(tid).ticket <= |s.reserved|
      && (s.windex == s.At(tid).w <==> (|s.reserved| - s.At(tid).ticket) % s.max == 0)
      && (Fresh(s, Go(tid)) <==> (s.windex == s.At(tid).w ==> s.At(tid).ticket == |s.reserved|))
    ensures s.At(tid).DeqCas? ==>
      && s.At(tid).ticket <= s.taken
      && (s.rindex == s.At(tid).r <==> (s.taken - s.At(tid).ticket) % s.max == 0)
      && (Fresh(s, Go(tid)) <==> (s.rindex == s.At(tid).r ==> s.At(tid).ticket == s.taken))
  {
    assert PcOk(s, s.At(tid));
    if s.At(tid).EnqCas? {
      ModLaps(s.At(tid).ticket, |s.reserved|, s.max);
    } else {
      ModLaps(s.At(tid).ticket, s.taken, s.max);
    }
  }
}
