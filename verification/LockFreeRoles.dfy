/** When the lock-free ring (src/ds_queue.c) is FIFO in every run: exactly when
    one thread enqueues and one dequeues, apart from the cases in which nothing
    can go round: no producer, no consumer, or room for no item. */
module LockFreeRoles {
  import opened LockFreeQueue
  import opened ModLemmas

  /** Only producers enqueue and only consumers dequeue. */
  predicate InRole(m: Move, producers: set<Tid>, consumers: set<Tid>) {
    && (m.Enqueue? ==> m.tid in producers)
    && (m.Dequeue? ==> m.tid in consumers)
  }

  ghost predicate Roles(script: seq<Move>, producers: set<Tid>, consumers: set<Tid>) {
    forall m :: m in script ==> InRole(m, producers, consumers)
  }

  ghost predicate Safe(max: nat, producers: set<Tid>, consumers: set<Tid>) {
    max == 1 || producers == {} || consumers == {} || (|producers| == 1 && |consumers| == 1)
  }

  // ----- enough: nobody's copy is a lap old

  predicate Enqueuing(pc: Pc) {
    pc.EnqReadW? || pc.EnqReadR? || pc.EnqCas? || pc.EnqWrite? || pc.EnqCommit?
  }

  predicate Dequeuing(pc: Pc) {
    pc.DeqReadR? || pc.DeqReadM? || pc.DeqReadSlot? || pc.DeqCas?
  }

  /** The copy of an index that the thread holds is up to date. */
  predicate Current(s: State, pc: Pc) {
    && (pc.EnqReadR? || pc.EnqCas? ==> pc.ticket == |s.reserved|)
    && (pc.DeqReadM? || pc.DeqReadSlot? || pc.DeqCas? ==> pc.ticket == s.taken)
  }

  /** No thread is past its full or empty test. */
  predicate Outside(pc: Pc) {
    !pc.EnqCas? && !pc.EnqWrite? && !pc.EnqCommit? && !pc.DeqReadSlot? && !pc.DeqCas?
  }

  ghost predicate ThreadSteady(s: State, tid: Tid, producers: set<Tid>, consumers: set<Tid>) {
    var pc := s.At(tid);
    && (Enqueuing(pc) ==> tid in producers)
    && (Dequeuing(pc) ==> tid in consumers)
    && (s.max == 1 || producers == {} ==> Outside(pc))
    && (|producers| == 1 && |consumers| == 1 ==> Current(s, pc))
  }

  ghost predicate Steady(s: State, producers: set<Tid>, consumers: set<Tid>) {
    && (s.max == 1 || producers == {} ==> s.reserved == [])
    && (consumers == {} ==> s.taken == 0)
    && (forall tid: Tid :: ThreadSteady(s, tid, producers, consumers))
  }

  lemma OnlyOne(a: set<Tid>, t: Tid, u: Tid)
    requires |a| == 1 && t in a && u in a
    ensures t == u
  {
    assert |a - {t}| == 0;
    assert u in a - {t} || u == t;
  }

  lemma SteadyIsFresh(s: State, m: Move, producers: set<Tid>, consumers: set<Tid>)
    requires Inv(s) && Steady(s, producers, consumers) && Safe(s.max, producers, consumers)
    ensures Fresh(s, m)
  {
    if m.Go? {
      assert ThreadSteady(s, m.tid, producers, consumers);
      if s.At(m.tid).EnqCas? {
        var ticket := s.At(m.tid).ticket;
        if ticket < |s.reserved| {
          assert consumers == {};
          ModSame(|s.reserved| - ticket, s.max);
        }
      }
    }
  }

  /** One thread's step leaves the others' program counters alone; it moves the
      write index only from EnqCas and the read index only from DeqCas. */
  lemma OthersStay(s: State, m: Move, tid: Tid)
    requires 0 < s.max
    ensures tid != m.tid ==> Do(s, m).At(tid) == s.At(tid)
    ensures |Do(s, m).reserved| != |s.reserved| ==> m.Go? && s.At(m.tid).EnqCas?
    ensures Do(s, m).reserved != s.reserved ==> m.Go? && s.At(m.tid).EnqCas?
    ensures Do(s, m).taken != s.taken ==> m.Go? && s.At(m.tid).DeqCas?
  {
  }

  lemma MoverSteady(s: State, m: Move, producers: set<Tid>, consumers: set<Tid>)
    requires Inv(s) && Steady(s, producers, consumers) && InRole(m, producers, consumers)
    ensures ThreadSteady(Do(s, m), m.tid, producers, consumers)
  {
    hide Inv, Slots, Owners, PcOk;
    assert Indices(s) by { OpenInv(s); }
    assert ThreadSteady(s, m.tid, producers, consumers);
    if (s.max == 1 || producers == {}) && m.Go? {
      assert s.taken == s.committed == 0;
      ModSame(0, s.max);
      if s.max == 1 && s.At(m.tid).EnqReadR? {
        ModUnique(s.At(m.tid).w + 1, 1, s.At(m.tid).w + 1, 0);
      }
      if s.At(m.tid).DeqReadM? { OpenCopy(s, m.tid); }
    }
  }

  lemma OpenInv(s: State)
    requires Inv(s)
    ensures Indices(s)
  {
  }

  lemma OpenCopy(s: State, tid: Tid)
    requires Inv(s) && s.At(tid).DeqReadM?
    ensures s.At(tid).ticket <= s.taken && s.At(tid).r == s.At(tid).ticket % s.max
  {
    assert PcOk(s, s.At(tid));
  }

  lemma StepSteady(s: State, m: Move, producers: set<Tid>, consumers: set<Tid>)
    requires Inv(s) && Steady(s, producers, consumers) && InRole(m, producers, consumers)
    ensures Steady(Do(s, m), producers, consumers)
  {
    OpenInv(s);
    hide Inv, Do;
    assert ThreadSteady(s, m.tid, producers, consumers);
    OthersStay(s, m, m.tid);
    forall tid: Tid
      ensures ThreadSteady(Do(s, m), tid, producers, consumers)
    {
      if tid == m.tid {
        MoverSteady(s, m, producers, consumers);
      } else {
        OthersStay(s, m, tid);
        assert ThreadSteady(s, tid, producers, consumers);
        if |producers| == 1 && |consumers| == 1 {
          if tid in producers && m.tid in producers { OnlyOne(producers, tid, m.tid); }
          if tid in consumers && m.tid in consumers { OnlyOne(consumers, tid, m.tid); }
        }
      }
    }
  }

  lemma {:induction false} RolesAreFresh(s: State, script: seq<Move>, producers: set<Tid>, consumers: set<Tid>)
    requires Inv(s) && Steady(s, producers, consumers)
    requires Safe(s.max, producers, consumers) && Roles(script, producers, consumers)
    ensures NeverLapped(s, script)
    decreases script
  {
    if script != [] {
      hide Inv, Steady, Fresh, Do, Safe, InRole;
      assert InRole(script[0], producers, consumers);
      SteadyIsFresh(s, script[0], producers, consumers);
      DoKeepsInv(s, script[0]);
      StepSteady(s, script[0], producers, consumers);
      RolesAreFresh(Do(s, script[0]), script[1..], producers, consumers);
    }
  }

  /** FIFO without any assumption on timing. */
  lemma SafeRolesInOrder(max: nat, bucket: seq<Item>, script: seq<Move>, producers: set<Tid>, consumers: set<Tid>)
    requires 0 < max && |bucket| == max
    requires Roles(script, producers, consumers) && Safe(max, producers, consumers)
    ensures NeverLapped(New(max, bucket), script) && InOrder(Play(New(max, bucket), script))
  {
    NewIsOk(max, bucket);
    RolesAreFresh(New(max, bucket), script, producers, consumers);
    Fifo(max, bucket, script);
  }
}
