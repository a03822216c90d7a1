/** How the calls of the lock-free ring end (src/ds_queue.c:35-73): no item handed
    in is lost, and when a call is refused. */
module LockFreeCalls {
  import opened LockFreeQueue
  import opened LockFreeRoles
  import opened LockFreeRaces
  import opened ModLemmas

  // ----- when a call ends

  /** The move ends a call of its thread. */
  predicate Ends(s: State, m: Move)
    requires 0 < s.max
  {
    m.Go? && s.At(m.tid) != Idle && Do(s, m).At(m.tid) == Idle
  }

  /** What the full test says: right on an up-to-date copy, while on an outdated one
      it is true if the read index has passed it by a whole number of laps. */
  predicate LooksFull(s: State, ticket: nat)
    requires 0 < s.max
  {
    if ticket == |s.reserved| then |s.reserved| + 1 == s.taken + s.max
    else ticket < s.taken && (s.taken - ticket - 1) % s.max == 0
  }

  /** What the empty test says, likewise. */
  predicate LooksEmpty(s: State, ticket: nat)
    requires 0 < s.max
  {
    if ticket == s.taken then s.committed == s.taken
    else ticket < s.committed && (s.committed - ticket) % s.max == 0
  }

  lemma FullTestExactly(s: State, tid: Tid)
    requires Inv(s) && s.At(tid).EnqReadR?
    ensures s.At(tid).ticket <= |s.reserved|
    ensures Do(s, Go(tid)) == s.Goto(tid,
      if LooksFull(s, s.At(tid).ticket) then Idle else EnqCas(s.At(tid).item, s.At(tid).w, s.At(tid).ticket))
  {
    var EnqReadR(item, w, ticket) := s.At(tid);
    assert PcOk(s, s.At(tid)) && Indices(s);
    TestOnTickets(s.max, ticket, w, s.taken, s.rindex, |s.reserved|);
    hide Inv, PcOk, Indices;
  }

  lemma TestOnTickets(max: nat, ticket: nat, w: nat, taken: nat, r: nat, reserved: nat)
    requires 0 < max && w == ticket % max && r == taken % max && ticket <= reserved && taken <= reserved <= taken + max - 1
    ensures (w + 1) % max == r % max <==>
      if ticket == reserved then reserved + 1 == taken + max else ticket < taken && (taken - ticket - 1) % max == 0
  {
    ModNext(ticket, max);
    ModNextIndex(w, max);
    ModSame(r, max);
    if ticket + 1 <= taken {
      ModLaps(ticket + 1, taken, max);
    } else {
      ModLaps(taken, ticket + 1, max);
      if ticket + 1 - taken < max {
        ModSame(ticket + 1 - taken, max);
      } else {
        ModUnique(max, max, 1, 0);
      }
    }
  }

  lemma EmptyTestExactly(s: State, tid: Tid)
    requires Inv(s) && s.At(tid).DeqReadM?
    ensures s.At(tid).ticket <= s.taken
    ensures Do(s, Go(tid)) == s.Goto(tid,
      if LooksEmpty(s, s.At(tid).ticket) then Idle else DeqReadSlot(s.At(tid).r, s.At(tid).ticket))
  {
    var DeqReadM(r, ticket) := s.At(tid);
    assert PcOk(s, s.At(tid)) && Indices(s);
    ModSame(r, s.max);
    ModSame(s.maxRindex, s.max);
    ModLaps(ticket, s.committed, s.max);
    if ticket == s.taken {
      ModSame(s.committed - s.taken, s.max);
    }
    hide Inv, PcOk;
  }

  /** The slot holds its own item at a ticket that the move commits. */
  ghost predicate Stores(s: State, tid: Tid, item: Item)
    requires 0 < s.max
  {
    && s.committed < |s.reserved| && |s.owner| == |s.reserved|
    && s.owner[s.committed] == tid && s.reserved[s.committed] == item
    && Do(s, Go(tid)).committed == s.committed + 1 && Do(s, Go(tid)).reserved == s.reserved
  }

  ghost predicate Delivers(s: State, tid: Tid)
    requires 0 < s.max
  {
    && s.taken < s.committed <= |s.reserved|
    && Do(s, Go(tid)).taken == s.taken + 1
    && Do(s, Go(tid)).delivered == s.delivered + [s.reserved[s.taken]]
  }

  /** The queue is left as it was. */
  ghost predicate Refuses(s: State, tid: Tid)
    requires 0 < s.max
  {
    Do(s, Go(tid)) == s.Goto(tid, Idle)
  }

  lemma CommitEnds(s: State, tid: Tid)
    requires Inv(s) && s.At(tid).EnqCommit? && Ends(s, Go(tid))
    ensures Stores(s, tid, s.At(tid).item)
  {
    OldestCommits(s, tid);
    assert HoldsTicket(s.At(tid), s.At(tid).ticket);
    assert PcOk(s, s.At(tid));
  }

  lemma TakeEnds(s: State, tid: Tid)
    requires Inv(s) && Fresh(s, Go(tid)) && s.At(tid).DeqCas? && Ends(s, Go(tid))
    ensures Delivers(s, tid)
  {
    CasCountsLaps(s, tid);
    assert PcOk(s, s.At(tid));
  }

  /** A call ends in no other way: an enqueue has committed its own item or looked at
      a full queue; a dequeue has delivered the oldest item or looked at an empty one. */
  lemma CallEnds(s: State, tid: Tid)
    requires Inv(s) && Fresh(s, Go(tid)) && Ends(s, Go(tid))
    ensures Enqueuing(s.At(tid)) ==>
      Stores(s, tid, s.At(tid).item) || (s.At(tid).EnqReadR? && LooksFull(s, s.At(tid).ticket) && Refuses(s, tid))
    ensures Dequeuing(s.At(tid)) ==>
      Delivers(s, tid) || (s.At(tid).DeqReadM? && LooksEmpty(s, s.At(tid).ticket) && Refuses(s, tid))
  {
    var pc := s.At(tid);
    if pc.EnqReadR? {
      FullTestExactly(s, tid);
    } else if pc.EnqCommit? {
      CommitEnds(s, tid);
    } else if pc.DeqReadM? {
      EmptyTestExactly(s, tid);
    } else if pc.DeqCas? {
      TakeEnds(s, tid);
    }
  }

  // ----- which item a call is about

  /** The item of the last enqueue that the thread has begun. */
  function LastHanded(s: State, script: seq<Move>, tid: Tid, last: Item): Item
    requires 0 < s.max
    decreases script
  {
    if script == [] then last
    else
      var m := script[0];
      LastHanded(Do(s, m), script[1..], tid, if m.Enqueue? && m.tid == tid && s.At(tid) == Idle then m.item else last)
  }

  lemma ItemStays(s: State, m: Move, tid: Tid)
    requires 0 < s.max
    ensures Enqueuing(Do(s, m).At(tid)) ==>
      if m.Enqueue? && m.tid == tid && s.At(tid) == Idle then Do(s, m).At(tid).item == m.item
      else Enqueuing(s.At(tid)) && Do(s, m).At(tid).item == s.At(tid).item
  {
    OthersStay(s, m, tid);
  }

  lemma {:induction false} HandsOwnItem(s: State, script: seq<Move>, tid: Tid, last: Item)
    requires 0 < s.max && (Enqueuing(s.At(tid)) ==> s.At(tid).item == last)
    ensures 0 < Play(s, script).max
    ensures Enqueuing(Play(s, script).At(tid)) ==> Play(s, script).At(tid).item == LastHanded(s, script, tid, last)
    decreases script
  {
    if script != [] {
      var m := script[0];
      ItemStays(s, m, tid);
      hide Do;
      HandsOwnItem(Do(s, m), script[1..], tid, if m.Enqueue? && m.tid == tid && s.At(tid) == Idle then m.item else last);
    }
  }

  /** Whenever an enqueue returns, the item handed in with it has been committed at a
      ticket of the calling thread, or the queue looked full and is as it was. */
  lemma EnqueueReturns(max: nat, bucket: seq<Item>, script: seq<Move>, tid: Tid)
    requires 0 < max && |bucket| == max && NeverLapped(New(max, bucket), script)
    ensures 0 < Play(New(max, bucket), script).max
    ensures var s := Play(New(max, bucket), script);
      Fresh(s, Go(tid)) && Enqueuing(s.At(tid)) && Ends(s, Go(tid)) ==>
        Stores(s, tid, LastHanded(New(max, bucket), script, tid, 0))
        || (s.At(tid).EnqReadR? && LooksFull(s, s.At(tid).ticket) && Refuses(s, tid))
  {
    var s := Play(New(max, bucket), script);
    NewIsOk(max, bucket);
    PlayKeepsInv(New(max, bucket), script);
    HandsOwnItem(New(max, bucket), script, tid, 0);
    hide Play, NeverLapped, Inv, LastHanded, Stores, Refuses, LooksFull;
    if Fresh(s, Go(tid)) && Enqueuing(s.At(tid)) && Ends(s, Go(tid)) {
      CallEnds(s, tid);
    }
  }

  lemma DequeueReturns(max: nat, bucket: seq<Item>, script: seq<Move>, tid: Tid)
    requires 0 < max && |bucket| == max && NeverLapped(New(max, bucket), script)
    ensures 0 < Play(New(max, bucket), script).max
    ensures var s := Play(New(max, bucket), script);
      Fresh(s, Go(tid)) && Dequeuing(s.At(tid)) && Ends(s, Go(tid)) ==>
        Delivers(s, tid)
        || (s.At(tid).DeqReadM? && LooksEmpty(s, s.At(tid).ticket) && Refuses(s, tid))
  {
    var s := Play(New(max, bucket), script);
    NewIsOk(max, bucket);
    PlayKeepsInv(New(max, bucket), script);
    HandsOwnItem(New(max, bucket), script, tid, 0);
    hide Play, NeverLapped, Inv, Delivers, Refuses, LooksEmpty;
    if Fresh(s, Go(tid)) && Dequeuing(s.At(tid)) && Ends(s, Go(tid)) {
      CallEnds(s, tid);
    }
  }

  // ----- the account of a run

  /** How often an item occurs. */
  function Times(x: Item, q: seq<Item>): nat {
    multiset(q)[x]
  }

  function HandedBy(s: State, m: Move, x: Item): nat {
    if m.Enqueue? && s.At(m.tid) == Idle && m.item == x then 1 else 0
  }

  /** The thread has the item in hand and has not reserved a slot for it yet. */
  function InHand(pc: Pc, x: Item): nat {
    if (pc.EnqReadW? || pc.EnqReadR? || pc.EnqCas?) && pc.item == x then 1 else 0
  }

  function RefusedBy(s: State, m: Move, x: Item): nat
    requires 0 < s.max
  {
    if Ends(s, m) then InHand(s.At(m.tid), x) else 0
  }

  /** How many of the threads below `n` have the item in hand. */
  function Hands(s: State, n: nat, x: Item): nat {
    if n == 0 then 0 else Hands(s, n - 1, x) + InHand(s.At(n - 1), x)
  }

  function Handed(s: State, script: seq<Move>, x: Item): nat
    requires 0 < s.max
    decreases script
  {
    if script == [] then 0 else HandedBy(s, script[0], x) + Handed(Do(s, script[0]), script[1..], x)
  }

  function Refused(s: State, script: seq<Move>, x: Item): nat
    requires 0 < s.max
    decreases script
  {
    if script == [] then 0 else RefusedBy(s, script[0], x) + Refused(Do(s, script[0]), script[1..], x)
  }

  lemma {:induction false} HandsChange(s: State, s': State, tid: Tid, n: nat, x: Item)
    requires forall u: Tid :: u != tid ==> s'.At(u) == s.At(u)
    ensures Hands(s', n, x) + (if tid < n then InHand(s.At(tid), x) else 0)
      == Hands(s, n, x) + (if tid < n then InHand(s'.At(tid), x) else 0)
  {
    if n > 0 {
      HandsChange(s, s', tid, n - 1, x);
    }
  }

  lemma TimesSnoc(x: Item, q: seq<Item>, y: Item)
    ensures Times(x, q + [y]) == Times(x, q) + if x == y then 1 else 0
  {
  }

  /** One move: what is handed in, reserved or refused changes hands. */
  lemma MoveBalances(s: State, m: Move, x: Item)
    requires 0 < s.max
    ensures Times(x, s.reserved) + InHand(s.At(m.tid), x) + HandedBy(s, m, x)
      == Times(x, Do(s, m).reserved) + InHand(Do(s, m).At(m.tid), x) + RefusedBy(s, m, x)
  {
    if m.Go? && s.At(m.tid).EnqCas? {
      TimesSnoc(x, s.reserved, s.At(m.tid).item);
    }
    hide Times;
  }

  lemma {:induction false} AccountFrom(s: State, script: seq<Move>, n: nat, x: Item)
    requires 0 < s.max && forall m :: m in script ==> m.tid < n
    ensures Times(x, s.reserved) + Hands(s, n, x) + Handed(s, script, x)
      == Times(x, Play(s, script).reserved) + Hands(Play(s, script), n, x) + Refused(s, script, x)
    decreases script
  {
    if script != [] {
      var m := script[0];
      var s1 := Do(s, m);
      forall u: Tid | u != m.tid ensures s1.At(u) == s.At(u) { OthersStay(s, m, u); }
      HandsChange(s, s1, m.tid, n, x);
      MoveBalances(s, m, x);
      assert m in script && forall y :: y in script[1..] ==> y in script;
      AccountFrom(s1, script[1..], n, x);
      hide Do, Hands, HandedBy, RefusedBy, InHand, Times;
    }
  }

  /** No item is lost or made up: as often as an item was handed in, it has been reserved
      or refused, or is in the hands of a thread that goes on trying. */
  lemma Account(max: nat, bucket: seq<Item>, script: seq<Move>, n: nat, x: Item)
    requires 0 < max && forall m :: m in script ==> m.tid < n
    ensures var s0 := New(max, bucket);
      Handed(s0, script, x) == Times(x, Play(s0, script).reserved) + Refused(s0, script, x) + Hands(Play(s0, script), n, x)
  {
    AccountFrom(New(max, bucket), script, n, x);
    NothingInHand(New(max, bucket), n, x);
    hide Play, Handed, Refused, Hands;
  }

  lemma {:induction false} NothingInHand(s: State, n: nat, x: Item)
    requires s.pcs == map[]
    ensures Hands(s, n, x) == 0
  {
    if n > 0 {
      NothingInHand(s, n - 1, x);
    }
  }

  // ----- a thread on its own finishes

  function Gos(tid: Tid, k: nat): seq<Move> {
    if k == 0 then [] else [Go(tid)] + Gos(tid, k - 1)
  }

  /** How many steps a thread needs on its own. */
  function StepsLeft(s: State, pc: Pc): nat {
    match pc
    case Idle => 0
    case EnqReadW(_) => 5
    case EnqReadR(_, w, _) => if s.windex == w then 4 else 7
    case EnqCas(_, w, _) => if s.windex == w then 3 else 6
    case EnqWrite(_, _, _) => 2
    case EnqCommit(_, _, _) => 1
    case DeqReadR => 4
    case DeqReadM(r, _) => if s.rindex == r then 3 else 7
    case DeqReadSlot(r, _) => if s.rindex == r then 2 else 6
    case DeqCas(_, r, _) => if s.rindex == r then 1 else 5
  }

  /** Reservations that are not committed are the thread's own. */
  ghost predicate Undisturbed(s: State, tid: Tid) {
    |s.owner| == |s.reserved| && forall t :: s.committed <= t < |s.reserved| ==> s.owner[t] == tid
  }

  /** The thread's own reservation is the oldest one. */
  lemma OwnIsOldest(s: State, tid: Tid)
    requires Inv(s) && Undisturbed(s, tid) && (s.At(tid).EnqWrite? || s.At(tid).EnqCommit?)
    ensures s.At(tid).ticket == s.committed
  {
    var t := s.At(tid).ticket;
    assert HoldsTicket(s.At(tid), t);
    assert HoldsTicket(s.At(s.owner[s.committed]), s.committed);
  }

  lemma StepApproaches(s: State, tid: Tid)
    requires Inv(s) && Undisturbed(s, tid) && s.At(tid) != Idle
    ensures Undisturbed(Do(s, Go(tid)), tid)
    ensures StepsLeft(Do(s, Go(tid)), Do(s, Go(tid)).At(tid)) < StepsLeft(s, s.At(tid))
  {
    if s.At(tid).EnqCommit? {
      OwnIsOldest(s, tid);
      OldestCommits(s, tid);
    }
    assert Indices(s) && PcOk(s, s.At(tid));
    hide Inv, Slots, Owners;
  }

  /** A thread that nobody disturbs ends its call within seven steps; in particular one
      that loses a compare-and-swap tries again. */
  lemma {:induction false} AloneFinishes(s: State, tid: Tid, k: nat)
    requires Inv(s) && Undisturbed(s, tid) && NeverLapped(s, Gos(tid, k)) && StepsLeft(s, s.At(tid)) <= k
    ensures Play(s, Gos(tid, k)).At(tid) == Idle
    decreases k
  {
    if k > 0 {
      var m := Go(tid);
      assert Gos(tid, k)[0] == m && Gos(tid, k)[1..] == Gos(tid, k - 1);
      DoKeepsInv(s, m);
      if s.At(tid) == Idle {
        assert Do(s, m) == s;
      } else {
        StepApproaches(s, tid);
      }
      hide Do, Inv, StepsLeft, Undisturbed, Gos;
      AloneFinishes(Do(s, m), tid, k - 1);
    }
  }

  // ----- the tests of one producer and one consumer are right

  lemma {:induction false} RolesStaySteady(s: State, script: seq<Move>, producers: set<Tid>, consumers: set<Tid>)
    requires Inv(s) && Steady(s, producers, consumers)
    requires Safe(s.max, producers, consumers) && Roles(script, producers, consumers)
    ensures Inv(Play(s, script)) && Steady(Play(s, script), producers, consumers)
    decreases script
  {
    if script != [] {
      hide Inv, Steady, Fresh, Do, Safe, InRole;
      assert InRole(script[0], producers, consumers);
      SteadyIsFresh(s, script[0], producers, consumers);
      DoKeepsInv(s, script[0]);
      StepSteady(s, script[0], producers, consumers);
      RolesStaySteady(Do(s, script[0]), script[1..], producers, consumers);
    }
  }

  /** With one producer and one consumer an enqueue is refused exactly when the ring is
      full at its test, and a dequeue exactly when nothing committed is left. */
  lemma RefusedExactly(max: nat, bucket: seq<Item>, script: seq<Move>, producers: set<Tid>, consumers: set<Tid>, tid: Tid)
    requires 0 < max && |bucket| == max && Roles(script, producers, consumers)
    requires |producers| == 1 && |consumers| == 1
    ensures 0 < Play(New(max, bucket), script).max
    ensures var s := Play(New(max, bucket), script);
      && (s.At(tid).EnqReadR? ==> (Ends(s, Go(tid)) <==> |s.reserved| - s.taken == s.max - 1))
      && (s.At(tid).DeqReadM? ==> (Ends(s, Go(tid)) <==> s.committed == s.taken))
  {
    NewIsOk(max, bucket);
    RolesStaySteady(New(max, bucket), script, producers, consumers);
    var s := Play(New(max, bucket), script);
    assert ThreadSteady(s, tid, producers, consumers) && 0 < s.max;
    hide Play, Inv, Steady, Roles;
    if s.At(tid).EnqReadR? {
      FullTestExactly(s, tid);
    }
    if s.At(tid).DeqReadM? {
      EmptyTestExactly(s, tid);
    }
  }

  /** Two producers: the first is told that the ring is full although it is empty,
      because the read index has moved to just behind its outdated copy. */
  lemma FalselyFull(max: nat, bucket: seq<Item>, p: Tid, c: Tid, z: Tid)
    requires 1 < max == |bucket| && z != p && z != c
    ensures var s := Play(New(max, bucket), [Enqueue(z, 9), Go(z)] + Put(p, 7) + Take(c) + [Go(z)]);
      s.At(z) == Idle && s.reserved == s.delivered == [7] && s.committed == s.taken == 1
  {
    var s0 := New(max, bucket);
    var pc := EnqReadR(9, 0, 0);
    ModSame(0, max);
    ModSame(1, max);
    ModNext(0, max);
    var s1 := s0.Goto(z, EnqReadW(9)).Goto(z, pc);
    assert Play(s0, [Enqueue(z, 9), Go(z)]) == s1 by { PlayAppend(s0, [Enqueue(z, 9)], [Go(z)]); PlayOne(s0, Enqueue(z, 9)); PlayOne(s0.Goto(z, EnqReadW(9)), Go(z)); }
    assert Rest(s1, max, p, c, z, pc, 0, 0);
    hide Play, Put, Take;
    var s2 := Play(s1, Put(p, 7));
    PutRests(s1, max, p, c, z, pc, 0, 0, 7);
    var s3 := Play(s2, Take(c));
    TakeRests(s2, max, p, c, z, pc, 0, 1);
    assert s2.bucket[0] == 7;
    PlayOne(s3, Go(z));
    PlayAppend(s0, [Enqueue(z, 9), Go(z)], Put(p, 7));
    PlayAppend(s0, [Enqueue(z, 9), Go(z)] + Put(p, 7), Take(c));
    PlayAppend(s0, [Enqueue(z, 9), Go(z)] + Put(p, 7) + Take(c), [Go(z)]);
  }
}
