/** What the calls of the mutex-protected queue do with their items
    (src/ds_queue2.c:57-170): over every run each item handed in is entered once or
    waits with its producer, and each consumer gets an item or waits. */
module BlockingCalls {
  import opened BlockingQueue

  /** The thread is inside queue_enqueue. */
  predicate Putting(th: Thread) {
    th.PutBlocked? || th.PutWoken?
  }

  /** The thread is inside queue_dequeue. */
  predicate Taking(th: Thread) {
    th.TakeBlocked? || th.TakeWoken?
  }

  // ----- one move

  /** A signal changes nothing but who is awake. */
  lemma SignalAt(s: State, woken: set<Tid>, u: Tid)
    ensures Signal(s, woken).At(u) == s.At(u) || Signal(s, woken).At(u) == Release(s.At(u))
    ensures s.At(u) == Running ==> Signal(s, woken).At(u) == Running
  {
  }

  /** A move leaves every other thread in its call, with its item. */
  lemma OthersWait(s: State, m: Move, u: Tid)
    requires u != m.tid
    ensures Do(s, m).At(u) == s.At(u) || Do(s, m).At(u) == Release(s.At(u))
  {
  }

  /** queue_enqueue and the way back from its waiting: the thread's own item is entered
      last, exactly if there is room, and otherwise it waits with that item. */
  lemma PutEnters(s: State, m: Move)
    requires (m.Put? && s.At(m.tid) == Running) || (m.ResumePut? && s.At(m.tid).PutWoken?)
    ensures var item := if m.Put? then m.item else s.At(m.tid).item;
      if |s.items| < s.max then
        Do(s, m).entered == s.entered + [item] && Do(s, m).items == s.items + [item] && Do(s, m).At(m.tid) == Running
      else
        Do(s, m).entered == s.entered && Do(s, m).items == s.items && Do(s, m).At(m.tid) == PutBlocked(item)
    ensures Do(s, m).taken == s.taken
  {
  }

  /** The calls that do not block: refused exactly when full, and then nothing changes. */
  lemma PutNbEnters(s: State, m: Move)
    requires (m.PutNb? || m.PutUniq?) && s.At(m.tid) == Running
    ensures Do(s, m).taken == s.taken && Do(s, m).At(m.tid) == Running
    ensures if |s.items| >= s.max then Do(s, m) == s
      else if m.PutUniq? && m.item in s.items then Do(s, m).entered == s.entered && Do(s, m).items == s.items
      else Do(s, m).entered == s.entered + [m.item] && Do(s, m).items == s.items + [m.item]
  {
  }

  /** queue_dequeue and the way back from its waiting: the first item is taken, exactly
      if there is one, and otherwise the thread waits. */
  lemma TakeGets(s: State, m: Move)
    requires (m.Take? && s.At(m.tid) == Running) || (m.ResumeTake? && s.At(m.tid) == TakeWoken)
    ensures Do(s, m).entered == s.entered
    ensures if s.items == [] then Do(s, m).taken == s.taken && Do(s, m).At(m.tid) == TakeBlocked
      else Do(s, m).taken == s.taken + [s.items[0]] && Do(s, m).items == s.items[1..] && Do(s, m).At(m.tid) == Running
  {
  }

  lemma TakeNbGets(s: State, m: Move)
    requires m.TakeNb? && s.At(m.tid) == Running
    ensures if s.items == [] then Do(s, m) == s
      else Do(s, m).taken == s.taken + [s.items[0]] && Do(s, m).items == s.items[1..] && Do(s, m).entered == s.entered
    ensures Do(s, m).At(m.tid) == Running
  {
  }

  /** What remains: a move of a thread that is not where the move begins, or a spurious return. */
  predicate Idle(s: State, m: Move) {
    match m
    case ResumePut(t, _) => !s.At(t).PutWoken?
    case ResumeTake(t, _) => s.At(t) != TakeWoken
    case Spurious(_) => true
    case _ => s.At(m.tid) != Running
  }

  lemma IdleKeeps(s: State, m: Move)
    requires Idle(s, m)
    ensures Do(s, m).entered == s.entered && Do(s, m).taken == s.taken && Do(s, m).items == s.items
    ensures Do(s, m).At(m.tid) == s.At(m.tid) || Do(s, m).At(m.tid) == Release(s.At(m.tid))
  {
  }

  /** The call that the move makes, or ends, goes through: an item is entered or taken, or
      found to be queued already. */
  predicate GoesThrough(s: State, m: Move) {
    match m
    case Put(t, _, _) => s.At(t) == Running && |s.items| < s.max
    case ResumePut(t, _) => s.At(t).PutWoken? && |s.items| < s.max
    case PutNb(t, _, _) => s.At(t) == Running && |s.items| < s.max
    case PutUniq(t, _, _) => s.At(t) == Running && |s.items| < s.max
    case Take(t, _) => s.At(t) == Running && s.items != []
    case ResumeTake(t, _) => s.At(t) == TakeWoken && s.items != []
    case TakeNb(t, _) => s.At(t) == Running && s.items != []
    case Spurious(_) => false
  }

  /** A call that goes through releases the threads that its signal names, an enqueue of a
      queued item included; a call that is refused or blocks releases nobody. */
  lemma CallSignals(s: State, m: Move, u: Tid)
    requires u != m.tid
    ensures Do(s, m).At(u) == if GoesThrough(s, m) && u in m.woken then Release(s.At(u)) else s.At(u)
  {
  }

  // ----- which item a waiting producer carries

  /** The item of the last call of queue_enqueue that the thread began. */
  function LastPut(s: State, script: seq<Move>, t: Tid, last: Item): Item
    decreases script
  {
    if script == [] then last
    else
      var m := script[0];
      LastPut(Do(s, m), script[1..], t, if m.Put? && m.tid == t && s.At(t) == Running then m.item else last)
  }

  lemma CarriesItem(s: State, m: Move, t: Tid)
    ensures Putting(Do(s, m).At(t)) ==>
      if m.Put? && m.tid == t && s.At(t) == Running then Do(s, m).At(t).item == m.item
      else Putting(s.At(t)) && Do(s, m).At(t).item == s.At(t).item
  {
    if m.tid != t {
      OthersWait(s, m, t);
    } else if Idle(s, m) {
      IdleKeeps(s, m);
    } else if m.Put? || m.ResumePut? {
      PutEnters(s, m);
    } else if m.PutNb? || m.PutUniq? {
      PutNbEnters(s, m);
    } else if m.Take? || m.ResumeTake? {
      TakeGets(s, m);
    } else {
      TakeNbGets(s, m);
    }
    hide Do;
  }

  lemma {:induction false} WaitsWithItemFrom(s: State, script: seq<Move>, t: Tid, last: Item)
    requires Putting(s.At(t)) ==> s.At(t).item == last
    ensures Putting(Play(s, script).At(t)) ==> Play(s, script).At(t).item == LastPut(s, script, t, last)
    decreases script
  {
    if script != [] {
      var m := script[0];
      CarriesItem(s, m, t);
      hide Do;
      WaitsWithItemFrom(Do(s, m), script[1..], t, if m.Put? && m.tid == t && s.At(t) == Running then m.item else last);
    }
  }

  /** In every run a producer that waits, or has been woken, carries the item of its own call. */
  lemma WaitsWithItem(max: nat, script: seq<Move>, t: Tid)
    ensures var s := Play(New(max), script);
      Putting(s.At(t)) ==> s.At(t).item == LastPut(New(max), script, t, 0)
  {
    WaitsWithItemFrom(New(max), script, t, 0);
  }

  // ----- the account of a run

  function Times(x: Item, q: seq<Item>): nat {
    multiset(q)[x]
  }

  /** The move hands in the item and is not refused. */
  function Accepted(s: State, m: Move, x: Item): nat {
    match m
    case Put(t, item, _) => if s.At(t) == Running && item == x then 1 else 0
    case PutNb(t, item, _) => if s.At(t) == Running && |s.items| < s.max && item == x then 1 else 0
    case PutUniq(t, item, _) => if s.At(t) == Running && |s.items| < s.max && item !in s.items && item == x then 1 else 0
    case _ => 0
  }

  /** The move asks for an item and is not refused. */
  function Asked(s: State, m: Move): nat {
    match m
    case Take(t, _) => if s.At(t) == Running then 1 else 0
    case TakeNb(t, _) => if s.At(t) == Running && s.items != [] then 1 else 0
    case _ => 0
  }

  function AllAccepted(s: State, script: seq<Move>, x: Item): nat
    decreases script
  {
    if script == [] then 0 else Accepted(s, script[0], x) + AllAccepted(Do(s, script[0]), script[1..], x)
  }

  function AllAsked(s: State, script: seq<Move>): nat
    decreases script
  {
    if script == [] then 0 else Asked(s, script[0]) + AllAsked(Do(s, script[0]), script[1..])
  }

  function Carries(th: Thread, x: Item): nat {
    if Putting(th) && th.item == x then 1 else 0
  }

  function Hungers(th: Thread): nat {
    if Taking(th) then 1 else 0
  }

  /** How many of the threads below `n` wait with the item. */
  function Carried(s: State, n: nat, x: Item): nat {
    if n == 0 then 0 else Carried(s, n - 1, x) + Carries(s.At(n - 1), x)
  }

  /** How many of the threads below `n` wait for an item. */
  function Hungry(s: State, n: nat): nat {
    if n == 0 then 0 else Hungry(s, n - 1) + Hungers(s.At(n - 1))
  }

  lemma {:induction false} WaitersChange(s: State, s': State, t: Tid, n: nat, x: Item)
    requires forall u: Tid :: u != t ==> s'.At(u) == s.At(u) || s'.At(u) == Release(s.At(u))
    ensures Carried(s', n, x) + (if t < n then Carries(s.At(t), x) else 0)
      == Carried(s, n, x) + (if t < n then Carries(s'.At(t), x) else 0)
    ensures Hungry(s', n) + (if t < n then Hungers(s.At(t)) else 0)
      == Hungry(s, n) + (if t < n then Hungers(s'.At(t)) else 0)
  {
    if n > 0 {
      WaitersChange(s, s', t, n - 1, x);
    }
  }

  lemma TimesSnoc(x: Item, q: seq<Item>, y: Item)
    ensures Times(x, q + [y]) == Times(x, q) + if x == y then 1 else 0
  {
  }

  lemma MoveBalances(s: State, m: Move, x: Item)
    ensures Times(x, s.entered) + Carries(s.At(m.tid), x) + Accepted(s, m, x)
      == Times(x, Do(s, m).entered) + Carries(Do(s, m).At(m.tid), x)
    ensures |s.taken| + Hungers(s.At(m.tid)) + Asked(s, m) == |Do(s, m).taken| + Hungers(Do(s, m).At(m.tid))
  {
    if m.Put? || m.PutNb? || m.PutUniq? { TimesSnoc(x, s.entered, m.item); }
    if m.ResumePut? && s.At(m.tid).PutWoken? { TimesSnoc(x, s.entered, s.At(m.tid).item); }
    if Idle(s, m) {
      IdleKeeps(s, m);
    } else if m.Put? || m.ResumePut? {
      PutEnters(s, m);
    } else if m.PutNb? || m.PutUniq? {
      PutNbEnters(s, m);
    } else if m.Take? || m.ResumeTake? {
      TakeGets(s, m);
    } else {
      TakeNbGets(s, m);
    }
    hide Do, Times;
  }

  lemma {:induction false} AccountFrom(s: State, script: seq<Move>, n: nat, x: Item)
    requires forall m :: m in script ==> m.tid < n
    ensures Times(x, s.entered) + Carried(s, n, x) + AllAccepted(s, script, x)
      == Times(x, Play(s, script).entered) + Carried(Play(s, script), n, x)
    ensures |s.taken| + Hungry(s, n) + AllAsked(s, script) == |Play(s, script).taken| + Hungry(Play(s, script), n)
    decreases script
  {
    if script != [] {
      var m := script[0];
      var s1 := Do(s, m);
      forall u: Tid | u != m.tid
        ensures s1.At(u) == s.At(u) || s1.At(u) == Release(s.At(u))
      {
        OthersWait(s, m, u);
      }
      WaitersChange(s, s1, m.tid, n, x);
      MoveBalances(s, m, x);
      assert m in script && forall y :: y in script[1..] ==> y in script;
      AccountFrom(s1, script[1..], n, x);
      hide Do, Carried, Hungry, Carries, Hungers, Accepted, Asked, Times;
    }
  }

  lemma {:induction false} NobodyWaits(s: State, n: nat, x: Item)
    requires s.threads == map[]
    ensures Carried(s, n, x) == 0 && Hungry(s, n) == 0
  {
    if n > 0 {
      NobodyWaits(s, n - 1, x);
    }
  }

  /** No item and no request is lost: as often as an item was handed in and not refused,
      it has been entered or waits with its producer; and as many items were taken as
      were asked for by calls that are neither refused nor still waiting. */
  lemma Account(max: nat, script: seq<Move>, n: nat, x: Item)
    requires forall m :: m in script ==> m.tid < n
    ensures var s := Play(New(max), script);
      && AllAccepted(New(max), script, x) == Times(x, s.entered) + Carried(s, n, x)
      && AllAsked(New(max), script) == |s.taken| + Hungry(s, n)
  {
    AccountFrom(New(max), script, n, x);
    NobodyWaits(New(max), n, x);
    hide Play, AllAccepted, AllAsked, Carried, Hungry;
  }
}
