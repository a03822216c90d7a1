/** Runs of the lock-free ring (src/ds_queue.c) of any capacity that lose FIFO
    order: with two consumers, and with two producers.  In both, thread `z`
    stalls before its compare-and-swap while `p` and `c` take the ring round. */
module LockFreeRaces {
  import opened LockFreeQueue
  import opened LockFreeRoles
  import opened ModLemmas

  lemma {:induction false} PlayAppend(s: State, a: seq<Move>, b: seq<Move>)
    requires 0 < s.max
    ensures 0 < Play(s, a).max && Play(s, a + b) == Play(Play(s, a), b)
    decreases a
  {
    if a == [] {
      assert a + b == b;
    } else {
      assert (a + b)[1..] == a[1..] + b;
      PlayAppend(Do(s, a[0]), a[1..], b);
    }
  }

  lemma {:induction false} PlayMax(s: State, script: seq<Move>)
    requires 0 < s.max
    ensures Play(s, script).max == s.max
    decreases script
  {
    if script != [] { PlayMax(Do(s, script[0]), script[1..]); }
  }

  function Go3(t: Tid): seq<Move> { [Go(t), Go(t), Go(t)] }

  /** Thread `t` alone enqueues `x`. */
  function Put(t: Tid, x: Item): seq<Move> { [Enqueue(t, x), Go(t), Go(t)] + Go3(t) }

  /** Thread `t` alone dequeues. */
  function Take(t: Tid): seq<Move> { [Dequeue(t), Go(t)] + Go3(t) }

  /** Thread `t` enqueues up to its compare-and-swap. */
  function StallPut(t: Tid, x: Item): seq<Move> { [Enqueue(t, x), Go(t), Go(t)] }

  /** Thread `t` dequeues up to its compare-and-swap. */
  function StallTake(t: Tid): seq<Move> { [Dequeue(t)] + Go3(t) }

  function Puts(p: Tid, x: Item, n: nat): seq<Move> {
    if n == 0 then [] else Puts(p, x, n - 1) + Put(p, x)
  }

  function Rounds(p: Tid, c: Tid, x: Item, n: nat): seq<Move> {
    if n == 0 then [] else Rounds(p, c, x, n - 1) + Put(p, x) + Take(c)
  }

  lemma PlayThree(s: State, a: Move, b: Move, c: Move)
    requires 0 < s.max
    ensures Play(s, [a, b, c]) == Do(Do(Do(s, a), b), c)
  {
    var s1 := Do(s, a);
    var s2 := Do(s1, b);
    assert [a, b, c][1..] == [b, c] && [b, c][1..] == [c] && [c][1..] == [];
    assert Play(s2, [c]) == Play(Do(s2, c), []);
    assert Play(s1, [b, c]) == Play(s2, [c]);
  }

  lemma PlayOne(s: State, a: Move)
    requires 0 < s.max
    ensures Play(s, [a]) == Do(s, a)
  {
    assert [a][1..] == [];
    assert Play(s, [a]) == Play(Do(s, a), []);
  }

  lemma Again(s: State, t: Tid, a: Pc, b: Pc)
    ensures s.pcs[t := a][t := b] == s.pcs[t := b]
  {
  }

  // ----- what each part of a script does

  ghost predicate Ready(s: State) {
    && 0 < s.max == |s.bucket| && s.windex < s.max && s.rindex < s.max
    && s.maxRindex == s.windex
  }

  lemma StallPutAlone(s: State, t: Tid, x: Item)
    requires Ready(s) && s.At(t) == Idle && (s.windex + 1) % s.max != s.rindex % s.max
    ensures Play(s, StallPut(t, x)) == s.Goto(t, EnqCas(x, s.windex, |s.reserved|))
  {
    var w, n := s.windex, |s.reserved|;
    var s1 := s.Goto(t, EnqReadW(x));
    var s2 := s.Goto(t, EnqReadR(x, w, n));
    var s3 := s.Goto(t, EnqCas(x, w, n));
    assert Step(s1, t) == s2 by { hide Play; Again(s, t, EnqReadW(x), EnqReadR(x, w, n)); }
    assert Step(s2, t) == s3 by { hide Play; Again(s, t, EnqReadR(x, w, n), EnqCas(x, w, n)); }
    hide Step, Play;
    PlayThree(s, Enqueue(t, x), Go(t), Go(t));
  }

  /** The rest of an enqueue whose compare-and-swap succeeds, and whose commit finds its turn. */
  lemma FinishPut(s: State, t: Tid)
    requires Ready(s) && s.At(t).EnqCas? && s.At(t).w == s.windex
    ensures var x := s.At(t).item; var w := s.windex;
      Play(s, Go3(t)) == s.(
        pcs := s.pcs[t := Idle], windex := (w + 1) % s.max, maxRindex := (w + 1) % s.max, bucket := s.bucket[w := x],
        committed := s.committed + 1, reserved := s.reserved + [x], owner := s.owner + [t])
  {
    hide Do, Step, Play;
    var x, w, n := s.At(t).item, s.windex, |s.reserved|;
    ReserveAlone(s, t);
    var s4 := Do(s, Go(t));
    assert s4.At(t) == EnqWrite(x, w, n) && s4.max == s.max && s4.bucket == s.bucket && s4.maxRindex == w;
    WriteAlone(s4, t);
    var s5 := Do(s4, Go(t));
    assert s5.At(t) == EnqCommit(x, w, n) && s5.max == s.max && s5.maxRindex == w;
    CommitAlone(s5, t);
    LastWins(s.pcs, t, EnqWrite(x, w, n), EnqCommit(x, w, n), Idle);
    PlayThree(s, Go(t), Go(t), Go(t));
  }

  lemma LastWins(pcs: map<Tid, Pc>, t: Tid, a: Pc, b: Pc, c: Pc)
    ensures pcs[t := a][t := b][t := c] == pcs[t := c]
  {
  }

  lemma ReserveAlone(s: State, t: Tid)
    requires 0 < s.max && s.At(t).EnqCas? && s.At(t).w == s.windex
    ensures Do(s, Go(t)) == s.(
      pcs := s.pcs[t := EnqWrite(s.At(t).item, s.windex, |s.reserved|)], windex := (s.windex + 1) % s.max,
      reserved := s.reserved + [s.At(t).item], owner := s.owner + [t])
  {
  }

  lemma WriteAlone(s: State, t: Tid)
    requires 0 < s.max && s.At(t).EnqWrite? && s.At(t).w < |s.bucket|
    ensures var EnqWrite(x, w, n) := s.At(t);
      Do(s, Go(t)) == s.(pcs := s.pcs[t := EnqCommit(x, w, n)], bucket := s.bucket[w := x])
  {
  }

  lemma CommitAlone(s: State, t: Tid)
    requires 0 < s.max && s.At(t).EnqCommit? && s.At(t).w == s.maxRindex
    ensures Do(s, Go(t)) == s.(
      pcs := s.pcs[t := Idle], maxRindex := (s.maxRindex + 1) % s.max, committed := s.committed + 1)
  {
  }

  lemma PutAlone(s: State, t: Tid, x: Item)
    requires Ready(s) && s.At(t) == Idle && (s.windex + 1) % s.max != s.rindex % s.max
    ensures Play(s, Put(t, x)) == s.(
      pcs := s.pcs[t := Idle], windex := (s.windex + 1) % s.max, maxRindex := (s.windex + 1) % s.max,
      bucket := s.bucket[s.windex := x], committed := s.committed + 1, reserved := s.reserved + [x], owner := s.owner + [t])
  {
    hide Play;
    StallPutAlone(s, t, x);
    PlayAppend(s, StallPut(t, x), Go3(t));
    FinishPut(s.Goto(t, EnqCas(x, s.windex, |s.reserved|)), t);
    Again(s, t, EnqCas(x, s.windex, |s.reserved|), Idle);
  }

  lemma StallTakeAlone(s: State, t: Tid)
    requires Ready(s) && s.At(t) == Idle && s.rindex != s.maxRindex
    ensures Play(s, StallTake(t)) == s.Goto(t, DeqCas(s.bucket[s.rindex], s.rindex, s.taken))
  {
    var r, n := s.rindex, s.taken;
    var s1 := s.Goto(t, DeqReadR);
    var s2 := s.Goto(t, DeqReadM(r, n));
    var s3 := s.Goto(t, DeqReadSlot(r, n));
    var s4 := s.Goto(t, DeqCas(s.bucket[r], r, n));
    ModSame(r, s.max);
    ModSame(s.maxRindex, s.max);
    assert Step(s1, t) == s2 by { hide Play; Again(s, t, DeqReadR, DeqReadM(r, n)); }
    assert Step(s2, t) == s3 by { hide Play; Again(s, t, DeqReadM(r, n), DeqReadSlot(r, n)); }
    assert Step(s3, t) == s4 by { hide Play; Again(s, t, DeqReadSlot(r, n), DeqCas(s.bucket[r], r, n)); }
    assert Do(s, Dequeue(t)) == s1;
    hide Step, Do, Play;
    PlayAppend(s, [Dequeue(t)], Go3(t));
    PlayOne(s, Dequeue(t));
    PlayThree(s1, Go(t), Go(t), Go(t));
    assert Do(s1, Go(t)) == Step(s1, t) && Do(s2, Go(t)) == Step(s2, t) && Do(s3, Go(t)) == Step(s3, t) by { DoGo(s1, t); DoGo(s2, t); DoGo(s3, t); }
  }

  lemma DoGo(s: State, t: Tid)
    requires 0 < s.max
    ensures Do(s, Go(t)) == Step(s, t)
  {
  }

  /** A dequeue whose compare-and-swap succeeds delivers what it read. */
  lemma FinishTake(s: State, t: Tid)
    requires 0 < s.max && s.At(t).DeqCas? && s.At(t).r == s.rindex
    ensures Play(s, [Go(t)]) == s.(
      pcs := s.pcs[t := Idle], rindex := (s.rindex + 1) % s.max, taken := s.taken + 1,
      delivered := s.delivered + [s.At(t).item])
  {
    PlayOne(s, Go(t));
  }

  lemma TakeAlone(s: State, t: Tid)
    requires Ready(s) && s.At(t) == Idle && s.rindex != s.maxRindex
    ensures Play(s, Take(t)) == s.(
      pcs := s.pcs[t := Idle], rindex := (s.rindex + 1) % s.max, taken := s.taken + 1,
      delivered := s.delivered + [s.bucket[s.rindex]])
  {
    hide Play;
    assert Take(t) == StallTake(t) + [Go(t)];
    StallTakeAlone(s, t);
    PlayAppend(s, StallTake(t), [Go(t)]);
    var s1 := s.Goto(t, DeqCas(s.bucket[s.rindex], s.rindex, s.taken));
    FinishTake(s1, t);
    Again(s, t, DeqCas(s.bucket[s.rindex], s.rindex, s.taken), Idle);
  }

  // ----- going round

  /** `p` and `c` are between calls, `z` stands at `pc`, and every reservation is committed. */
  ghost predicate Rest(s: State, max: nat, p: Tid, c: Tid, z: Tid, pc: Pc, taken: nat, reserved: nat) {
    && s.max == max && 1 < max == |s.bucket|
    && s.At(p) == s.At(c) == Idle && s.At(z) == pc
    && s.taken == taken == |s.delivered| && s.committed == |s.reserved| == reserved
    && s.rindex == taken % max && s.windex == s.maxRindex == reserved % max
  }

  lemma PutRests(s: State, max: nat, p: Tid, c: Tid, z: Tid, pc: Pc, taken: nat, reserved: nat, x: Item)
    requires Rest(s, max, p, c, z, pc, taken, reserved) && taken <= reserved < taken + max - 1
    requires z != p && z != c
    ensures var s' := Play(s, Put(p, x));
      && Rest(s', max, p, c, z, pc, taken, reserved + 1)
      && s'.reserved == s.reserved + [x] && s'.delivered == s.delivered && s'.bucket == s.bucket[s.windex := x]
  {
    hide Play;
    ModNext(reserved, max);
    ModNextIndex(s.windex, max);
    ModSame(s.rindex, max);
    if (s.windex + 1) % max == s.rindex {
      ModInjective(taken, reserved + 1, max);
      assert false;
    }
    PutAlone(s, p, x);
  }

  lemma TakeRests(s: State, max: nat, p: Tid, c: Tid, z: Tid, pc: Pc, taken: nat, reserved: nat)
    requires Rest(s, max, p, c, z, pc, taken, reserved) && taken < reserved < taken + max
    requires z != p && z != c
    ensures var s' := Play(s, Take(c));
      && Rest(s', max, p, c, z, pc, taken + 1, reserved)
      && s'.reserved == s.reserved && s'.delivered == s.delivered + [s.bucket[s.rindex]]
  {
    hide Play;
    ModNext(taken, max);
    ModNextIndex(s.rindex, max);
    if s.rindex == s.maxRindex {
      ModInjective(taken, reserved, max);
      assert false;
    }
    TakeAlone(s, c);
  }

  lemma {:induction false} PutsRest(s: State, max: nat, p: Tid, c: Tid, z: Tid, pc: Pc, taken: nat, reserved: nat, x: Item, n: nat)
    requires Rest(s, max, p, c, z, pc, taken, reserved) && taken <= reserved && reserved + n < taken + max
    requires z != p && z != c
    ensures var s' := Play(s, Puts(p, x, n));
      Rest(s', max, p, c, z, pc, taken, reserved + n) && s'.delivered == s.delivered
    decreases n
  {
    if n > 0 {
      PutsRest(s, max, p, c, z, pc, taken, reserved, x, n - 1);
      hide Play, Rest, Put;
      assert 0 < s.max by { Positive(s, max, p, c, z, pc, taken, reserved); }
      PlayAppend(s, Puts(p, x, n - 1), Put(p, x));
      PutRests(Play(s, Puts(p, x, n - 1)), max, p, c, z, pc, taken, reserved + n - 1, x);
    }
  }

  lemma Positive(s: State, max: nat, p: Tid, c: Tid, z: Tid, pc: Pc, taken: nat, reserved: nat)
    requires Rest(s, max, p, c, z, pc, taken, reserved)
    ensures 0 < s.max
  {
  }

  lemma {:induction false} RoundsRest(s: State, max: nat, p: Tid, c: Tid, z: Tid, pc: Pc, taken: nat, x: Item, n: nat)
    requires Rest(s, max, p, c, z, pc, taken, taken) && z != p && z != c
    ensures var s' := Play(s, Rounds(p, c, x, n));
      && Rest(s', max, p, c, z, pc, taken + n, taken + n)
      && s.delivered <= s'.delivered
    decreases n
  {
    if n > 0 {
      RoundsRest(s, max, p, c, z, pc, taken, x, n - 1);
      var s1 := Play(s, Rounds(p, c, x, n - 1));
      assert 0 < s.max && 0 < s1.max && 1 < max;
      hide Play, Rest, Put, Take;
      PlayAppend(s, Rounds(p, c, x, n - 1), Put(p, x));
      PlayAppend(s, Rounds(p, c, x, n - 1) + Put(p, x), Take(c));
      PutRests(s1, max, p, c, z, pc, taken + n - 1, taken + n - 1, x);
      TakeRests(Play(s1, Put(p, x)), max, p, c, z, pc, taken + n - 1, taken + n);
    }
  }

  // ----- the runs

  /** While `z` stands before its compare-and-swap on the read index, the others
      deliver its item, take the ring round, and enqueue once more. */
  function StaleTake(max: nat, p: Tid, c: Tid, z: Tid): seq<Move>
    requires 1 < max
  {
    Put(p, 7) + StallTake(z) + Take(c) + Rounds(p, c, 8, max - 1) + Put(p, 8) + [Go(z)]
  }

  /** While `z` stands before its compare-and-swap on the write index, the others
      take the ring round and fill it. */
  function StalePut(max: nat, p: Tid, c: Tid, z: Tid): seq<Move>
    requires 1 < max
  {
    StallPut(z, 9) + Put(p, 7) + Take(c) + Puts(p, 8, max - 1) + Go3(z)
  }

  /** Two consumers: the first item is delivered twice and the last never,
      although the queue then looks empty. */
  lemma LapBreaksFifo(max: nat, bucket: seq<Item>, p: Tid, c: Tid, z: Tid)
    requires 1 < max == |bucket| && z != p && z != c
    ensures var s := Play(New(max, bucket), StaleTake(max, p, c, z));
      && |s.reserved| == |s.delivered| == max + 1 && s.committed == max + 1
      && s.delivered[0] == s.delivered[max] == 7 && s.reserved[max] == 8
      && s.rindex == s.maxRindex == s.windex
  {
    var s0 := New(max, bucket);
    var pc := DeqCas(7, 0, 0);
    ModSame(0, max);
    ModSame(1, max);
    ModNext(0, max);
    assert Rest(s0, max, p, c, z, Idle, 0, 0);
    hide Play, Put, Take, StallTake, Rounds;
    var s1 := Play(s0, Put(p, 7));
    PutRests(s0, max, p, c, z, Idle, 0, 0, 7);
    var s2 := Play(s1, StallTake(z));
    StallTakeAlone(s1, z);
    assert s1.bucket[0] == 7;
    assert Rest(s2, max, p, c, z, pc, 0, 1);
    var s3 := Play(s2, Take(c));
    TakeRests(s2, max, p, c, z, pc, 0, 1);
    assert s3.delivered == [7];
    var s4 := Play(s3, Rounds(p, c, 8, max - 1));
    RoundsRest(s3, max, p, c, z, pc, 1, 8, max - 1);
    assert s4.delivered[0] == 7;
    var s5 := Play(s4, Put(p, 8));
    PutRests(s4, max, p, c, z, pc, max, max, 8);
    ModLap(0, max);
    ModLap(1, max);
    FinishTake(s5, z);
    PlayAppend(s0, Put(p, 7), StallTake(z));
    PlayAppend(s0, Put(p, 7) + StallTake(z), Take(c));
    PlayAppend(s0, Put(p, 7) + StallTake(z) + Take(c), Rounds(p, c, 8, max - 1));
    PlayAppend(s0, Put(p, 7) + StallTake(z) + Take(c) + Rounds(p, c, 8, max - 1), Put(p, 8));
    PlayAppend(s0, Put(p, 7) + StallTake(z) + Take(c) + Rounds(p, c, 8, max - 1) + Put(p, 8), [Go(z)]);
  }

  /** Two producers: the stale one reserves a slot in a full ring; `max` items are
      held where there is room for `max - 1`, and the queue looks empty. */
  lemma LapBreaksRoom(max: nat, bucket: seq<Item>, p: Tid, c: Tid, z: Tid)
    requires 1 < max == |bucket| && z != p && z != c
    ensures var s := Play(New(max, bucket), StalePut(max, p, c, z));
      && s.committed == |s.reserved| == s.taken + max && |s.delivered| == s.taken
      && s.rindex == s.maxRindex == s.windex
  {
    var s0 := New(max, bucket);
    var pc := EnqCas(9, 0, 0);
    ModSame(0, max);
    ModSame(1, max);
    ModNext(0, max);
    hide Play, Put, Take, StallPut, Puts;
    var s1 := Play(s0, StallPut(z, 9));
    StallPutAlone(s0, z, 9);
    assert Rest(s1, max, p, c, z, pc, 0, 0);
    var s2 := Play(s1, Put(p, 7));
    PutRests(s1, max, p, c, z, pc, 0, 0, 7);
    var s3 := Play(s2, Take(c));
    TakeRests(s2, max, p, c, z, pc, 0, 1);
    var s4 := Play(s3, Puts(p, 8, max - 1));
    PutsRest(s3, max, p, c, z, pc, 1, 1, 8, max - 1);
    ModLap(0, max);
    FinishPut(s4, z);
    PlayAppend(s0, StallPut(z, 9), Put(p, 7));
    PlayAppend(s0, StallPut(z, 9) + Put(p, 7), Take(c));
    PlayAppend(s0, StallPut(z, 9) + Put(p, 7) + Take(c), Puts(p, 8, max - 1));
    PlayAppend(s0, StallPut(z, 9) + Put(p, 7) + Take(c) + Puts(p, 8, max - 1), Go3(z));
  }

  // ----- exactly when every run is in order

  lemma {:induction false} PutsRoles(p: Tid, n: nat, producers: set<Tid>, consumers: set<Tid>)
    requires p in producers
    ensures Roles(Puts(p, 8, n), producers, consumers)
  {
    if n > 0 { PutsRoles(p, n - 1, producers, consumers); }
  }

  lemma {:induction false} RoundsRoles(p: Tid, c: Tid, n: nat, producers: set<Tid>, consumers: set<Tid>)
    requires p in producers && c in consumers
    ensures Roles(Rounds(p, c, 8, n), producers, consumers)
  {
    if n > 0 { RoundsRoles(p, c, n - 1, producers, consumers); }
  }

  lemma StaleTakeRoles(max: nat, p: Tid, c: Tid, z: Tid, producers: set<Tid>, consumers: set<Tid>)
    requires 1 < max && p in producers && c in consumers && z in consumers
    ensures Roles(StaleTake(max, p, c, z), producers, consumers)
  {
    RoundsRoles(p, c, max - 1, producers, consumers);
  }

  lemma StalePutRoles(max: nat, p: Tid, c: Tid, z: Tid, producers: set<Tid>, consumers: set<Tid>)
    requires 1 < max && p in producers && z in producers && c in consumers
    ensures Roles(StalePut(max, p, c, z), producers, consumers)
  {
    PutsRoles(p, max - 1, producers, consumers);
  }

  lemma AtMostOne(a: set<Tid>, t: Tid)
    requires a <= {t}
    ensures |a| <= 1
  {
    assert a == {} || a == {t};
  }

  lemma Another(a: set<Tid>, t: Tid) returns (u: Tid, v: Tid)
    requires |a| > 1
    ensures u in a && v in a && u != t && u != v
  {
    if a <= {t} { AtMostOne(a, t); }
    u :| u in a && u != t;
    if a <= {u} { AtMostOne(a, u); }
    v :| v in a && v != u;
  }

  lemma TwoConsumersUnordered(max: nat, bucket: seq<Item>, producers: set<Tid>, consumers: set<Tid>)
    requires 1 < max == |bucket| && producers != {} && |consumers| > 1
    ensures exists script :: Roles(script, producers, consumers) && !InOrder(Play(New(max, bucket), script))
  {
    var p :| p in producers;
    var z, c := Another(consumers, p);
    var script := StaleTake(max, p, c, z);
    StaleTakeRoles(max, p, c, z, producers, consumers);
    hide Play, InOrder, StaleTake, Roles;
    LapBreaksFifo(max, bucket, p, c, z);
    LastItemLost(Play(New(max, bucket), script));
  }

  lemma LastItemLost(s: State)
    requires |s.reserved| == |s.delivered| == s.committed > 0
    requires s.delivered[s.committed - 1] != s.reserved[s.committed - 1]
    ensures !InOrder(s)
  {
  }

  lemma RoomBroken(s: State)
    requires |s.delivered| == s.taken && |s.reserved| == s.taken + s.max
    ensures !InOrder(s)
  {
  }

  lemma TwoProducersUnordered(max: nat, bucket: seq<Item>, producers: set<Tid>, consumers: set<Tid>)
    requires 1 < max == |bucket| && consumers != {} && |producers| > 1
    ensures exists script :: Roles(script, producers, consumers) && !InOrder(Play(New(max, bucket), script))
  {
    var c :| c in consumers;
    var z, p := Another(producers, c);
    var script := StalePut(max, p, c, z);
    StalePutRoles(max, p, c, z, producers, consumers);
    hide Play, StalePut, Roles, InOrder;
    LapBreaksRoom(max, bucket, p, c, z);
    PlayMax(New(max, bucket), script);
    RoomBroken(Play(New(max, bucket), script));
  }

  /** Every run of these threads is FIFO if and only if one of them enqueues and
      one dequeues, or nothing can go round. */
  lemma OrderedExactlyWhenSafe(max: nat, bucket: seq<Item>, producers: set<Tid>, consumers: set<Tid>)
    requires 0 < max && |bucket| == max
    ensures (forall script :: Roles(script, producers, consumers) ==> InOrder(Play(New(max, bucket), script)))
      <==> Safe(max, producers, consumers)
  {
    hide Play, InOrder, Roles;
    if Safe(max, producers, consumers) {
      forall script | Roles(script, producers, consumers)
        ensures InOrder(Play(New(max, bucket), script))
      {
        SafeRolesInOrder(max, bucket, script, producers, consumers);
      }
    } else if |consumers| > 1 {
      TwoConsumersUnordered(max, bucket, producers, consumers);
    } else {
      TwoProducersUnordered(max, bucket, producers, consumers);
    }
  }
}
