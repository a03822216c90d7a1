/** Runs in which an imp is in two places or in none, and why the safe
    configurations are the only ones (src/imp.c:74-186, src/thr_worker.c:97-107). */
module SchedulerRaces {
  import opened Scheduler
  import opened SchedulerRuns
  import opened SchedulerConfig

  // ----- scripts in pieces

  lemma {:induction false} PlayAppend(s: State, a: seq<Move>, b: seq<Move>, r: nat)
    ensures Play(s, a + b) == Play(Play(s, a), b)
    ensures RequestsAtMost(s, a, r) && RequestsAtMost(Play(s, a), b, r) ==> RequestsAtMost(s, a + b, r)
    decreases a
  {
    hide Do;
    if a == [] {
      assert a + b == b;
    } else {
      assert (a + b)[1..] == a[1..] + b;
      PlayAppend(Do(s, a[0]), a[1..], b, r);
    }
  }

  /** The script uses no other workers and summoners. */
  ghost predicate Uses(script: seq<Move>, workers: set<Tid>, summoners: set<Tid>) {
    FetchedBy(script, workers) && SummonedBy(script, summoners)
  }

  lemma UsesAppend(a: seq<Move>, b: seq<Move>, workers: set<Tid>, summoners: set<Tid>)
    requires Uses(a, workers, summoners) && Uses(b, workers, summoners)
    ensures Uses(a + b, workers, summoners)
  {
  }

  lemma PlayCons(s: State, m: Move, rest: seq<Move>, r: nat)
    ensures Play(s, [m] + rest) == Play(Do(s, m), rest)
    ensures RequestsAtMost(s, [m] + rest, r) <==> Asks(s, m, r) && RequestsAtMost(Do(s, m), rest, r)
  {
    assert ([m] + rest)[1..] == rest;
  }

  lemma PlayOne(s: State, m: Move, r: nat)
    ensures Play(s, [m]) == Do(s, m) && (RequestsAtMost(s, [m], r) <==> Asks(s, m, r))
  {
    hide Do, Asks;
    assert [m] + [] == [m];
    PlayCons(s, m, [], r);
    assert Play(Do(s, m), []) == Do(s, m) && RequestsAtMost(Do(s, m), [], r);
  }

  lemma PlayTwo(s: State, a: Move, b: Move, r: nat)
    ensures Play(s, [a, b]) == Do(Do(s, a), b)
    ensures RequestsAtMost(s, [a, b], r) <==> Asks(s, a, r) && Asks(Do(s, a), b, r)
  {
    hide Do, Asks, Play, RequestsAtMost;
    assert [a] + [b] == [a, b];
    PlayCons(s, a, [b], r);
    PlayOne(Do(s, a), b, r);
  }

  lemma PlayThree(s: State, a: Move, b: Move, c: Move, r: nat)
    ensures Play(s, [a, b, c]) == Do(Do(Do(s, a), b), c)
    ensures RequestsAtMost(s, [a, b, c], r) <==> Asks(s, a, r) && Asks(Do(s, a), b, r) && Asks(Do(Do(s, a), b), c, r)
  {
    hide Do, Asks, Play, RequestsAtMost;
    assert [a] + [b, c] == [a, b, c];
    PlayCons(s, a, [b, c], r);
    PlayTwo(Do(s, a), b, c, r);
  }

  // ----- three threads and one imp

  /** What the runs below depend on: workers 1 and 2, epoller 3, and imp 5. */
  ghost predicate Stage(s: State, one: Drive, two: Drive, three: Drive, queue: seq<Imp>, waitio: set<Imp>, requests: nat) {
    && s.nrMax == 4 && s.runq == queue && s.waitio == waitio && s.Requests(5) == requests
    && s.DriveOf(1) == one && s.DriveOf(2) == two && s.DriveOf(3) == three
    && s.SummonOf(1) == s.SummonOf(2) == s.SummonOf(3) == NoSummon
  }

  function Summons(): seq<Move> { [SummonCheck(0), SummonCount(0, 5), SummonRun(0)] }
  function Registering(): seq<Move> { [Arm(1), SetWait(1)] }
  function Sleeping(): seq<Move> { [Arm(1), CountSleeper(1)] }
  function Waking3(): seq<Move> { [Wake(3, 5), CountWaker(3), RunAgain(3)] }
  function Rerunning2(): seq<Move> { [Arm(2), RunAgain(2)] }

  lemma Summoned(r: nat)
    ensures RequestsAtMost(New(4), Summons(), r) && Stage(Play(New(4), Summons()), Free, Free, Free, [5], {}, 0)
  {
    var s1 := Do(New(4), SummonCheck(0));
    var s2 := Do(s1, SummonCount(0, 5));
    assert s2.SummonOf(0) == Counted(5);
    PlayThree(New(4), SummonCheck(0), SummonCount(0, 5), SummonRun(0), r);
  }

  lemma Fetched(s: State, t: Tid, one: Drive, two: Drive, waitio: set<Imp>, k: nat, r: nat)
    requires Stage(s, one, two, Free, [5], waitio, k) && ((t == 1 && one.Free?) || (t == 2 && two.Free?))
    ensures RequestsAtMost(s, [Fetch(t)], r)
    ensures Stage(Play(s, [Fetch(t)]), if t == 1 then Driving(5, 0) else one, if t == 2 then Driving(5, 0) else two, Free, [], waitio, k)
  {
    PlayOne(s, Fetch(t), r);
  }

  lemma Requested(s: State, t: Tid, asked: nat, one: Drive, two: Drive, k: nat, r: nat)
    requires Stage(s, one, two, Free, [], {}, k) && ((t == 1 && one == Driving(5, asked)) || (t == 2 && two == Driving(5, asked)))
    requires asked < r && k < MAX_REQUESTS
    ensures RequestsAtMost(s, [Request(t)], r)
    ensures Stage(Play(s, [Request(t)]), if t == 1 then Driving(5, asked + 1) else one,
                  if t == 2 then Driving(5, asked + 1) else two, Free, [], {}, k + 1)
  {
    PlayOne(s, Request(t), r);
  }

  lemma Yielded(s: State, t: Tid, asked: nat, one: Drive, two: Drive, k: nat, r: nat)
    requires Stage(s, one, two, Free, [], {}, k) && ((t == 1 && one == Driving(5, asked)) || (t == 2 && two == Driving(5, asked)))
    ensures RequestsAtMost(s, [Yield(t)], r)
    ensures Stage(Play(s, [Yield(t)]), if t == 1 then Arming(5, 0) else one, if t == 2 then Arming(5, 0) else two, Free, [], {}, k)
  {
    PlayOne(s, Yield(t), r);
  }

  lemma Took(s: State, count: nat, one: Drive, two: Drive, queue: seq<Imp>, waitio: set<Imp>, k: nat)
    requires Stage(s, one, two, Free, queue, waitio, k) && k > 0 && (one == Arming(5, count) || one == Leaving(5, count))
    ensures Stage(Do(s, Arm(1)), Setting(5, count), two, Free, queue, waitio, k - 1)
  {
  }

  lemma SetIt(s: State, count: nat, two: Drive, queue: seq<Imp>, waitio: set<Imp>, k: nat)
    requires Stage(s, Setting(5, count), two, Free, queue, waitio, k)
    ensures Stage(Do(s, SetWait(1)), if k > 0 then Arming(5, count + 1) else Leaving(5, count + 1), two, Free,
                  queue, waitio + {5}, k)
  {
  }

  /** Worker 1 takes a request from the list and registers it, whoever made it. */
  lemma Registered(s: State, count: nat, one: Drive, two: Drive, queue: seq<Imp>, waitio: set<Imp>, waitio': set<Imp>, k: nat, r: nat)
    requires waitio' == waitio + {5}
    requires Stage(s, one, two, Free, queue, waitio, k) && k > 0 && (one == Arming(5, count) || one == Leaving(5, count))
    ensures RequestsAtMost(s, Registering(), r)
    ensures Stage(Play(s, Registering()), if k > 1 then Arming(5, count + 1) else Leaving(5, count + 1), two, Free,
                  queue, waitio', k - 1)
  {
    hide Do;
    Took(s, count, one, two, queue, waitio, k);
    SetIt(Do(s, Arm(1)), count, two, queue, waitio, k - 1);
    PlayTwo(s, Arm(1), SetWait(1), r);
  }

  lemma Slept(s: State, count: nat, two: Drive, queue: seq<Imp>, waitio: set<Imp>, r: nat)
    requires Stage(s, Leaving(5, count), two, Free, queue, waitio, 0) && count > 0
    ensures RequestsAtMost(s, Sleeping(), r) && Stage(Play(s, Sleeping()), Free, two, Free, queue, waitio, 0)
  {
    var s1 := Do(s, Arm(1));
    assert Stage(s1, Counting(5), two, Free, queue, waitio, 0);
    PlayTwo(s, Arm(1), CountSleeper(1), r);
  }

  lemma Cleared(s: State, one: Drive, two: Drive, queue: seq<Imp>, k: nat)
    requires Stage(s, one, two, Free, queue, {5}, k)
    ensures Stage(Do(s, Wake(3, 5)), one, two, Waking(5), queue, {}, k)
  {
  }

  lemma Uncounted3(s: State, one: Drive, two: Drive, queue: seq<Imp>, k: nat)
    requires Stage(s, one, two, Waking(5), queue, {}, k)
    ensures Stage(Do(s, CountWaker(3)), one, two, Rerun(5), queue, {}, k)
  {
  }

  lemma Queued(s: State, one: Drive, two: Drive, queue: seq<Imp>, k: nat)
    requires Stage(s, one, two, Rerun(5), queue, {}, k) && |queue| < 4
    ensures Stage(Do(s, RunAgain(3)), one, two, Free, if 5 in queue then queue else queue + [5], {}, k)
  {
  }

  /** The epoller wakes the imp and puts it into the run queue, unless it is there. */
  lemma Woke(s: State, one: Drive, two: Drive, queue: seq<Imp>, queue': seq<Imp>, k: nat, r: nat)
    requires queue' == if 5 in queue then queue else queue + [5]
    requires Stage(s, one, two, Free, queue, {5}, k) && |queue| < 4
    ensures RequestsAtMost(s, Waking3(), r)
    ensures Stage(Play(s, Waking3()), one, two, Free, queue', {}, k)
  {
    hide Do;
    Cleared(s, one, two, queue, k);
    Uncounted3(Do(s, Wake(3, 5)), one, two, queue, k);
    Queued(Do(Do(s, Wake(3, 5)), CountWaker(3)), one, two, queue, k);
    PlayThree(s, Wake(3, 5), CountWaker(3), RunAgain(3), r);
  }

  /** Worker 2 finds the list empty and puts the imp back into the run queue. */
  lemma Reran(s: State, one: Drive, waitio: set<Imp>, r: nat)
    requires Stage(s, one, Arming(5, 0), Free, [], waitio, 0)
    ensures RequestsAtMost(s, Rerunning2(), r) && Stage(Play(s, Rerunning2()), one, Free, Free, [5], waitio, 0)
  {
    var s1 := Do(s, Arm(2));
    assert Stage(s1, one, Rerun(5), Free, [], waitio, 0);
    PlayTwo(s, Arm(2), RunAgain(2), r);
  }

  lemma Shown(s: State, one: Drive, two: Drive, queue: seq<Imp>)
    requires Stage(s, one, two, Free, queue, {}, 0)
    ensures Holds(one, 5) ==> Claims(s, 5, Held(1))
    ensures Holds(two, 5) ==> Claims(s, 5, Held(2))
    ensures 5 in queue ==> Claims(s, 5, InRunQueue)
  {
  }

  // ----- scripts that reach a stage

  /** The script uses these workers and one summoner, requests at most r events a drive, and ends at the stage. */
  ghost predicate Reaches(script: seq<Move>, workers: set<Tid>, r: nat, one: Drive, two: Drive, queue: seq<Imp>, waitio: set<Imp>, k: nat) {
    && Uses(script, workers, {0}) && RequestsAtMost(New(4), script, r)
    && Stage(Play(New(4), script), one, two, Free, queue, waitio, k)
  }

  lemma ThenFetch(p: seq<Move>, t: Tid, workers: set<Tid>, r: nat, one: Drive, one': Drive, two: Drive, two': Drive, waitio: set<Imp>, k: nat)
    requires Reaches(p, workers, r, one, two, [5], waitio, k) && t in workers
    requires (t == 1 && one.Free? && one' == Driving(5, 0) && two' == two)
          || (t == 2 && two.Free? && two' == Driving(5, 0) && one' == one)
    ensures Reaches(p + [Fetch(t)], workers, r, one', two', [], waitio, k)
  {
    UsesAppend(p, [Fetch(t)], workers, {0});
    hide Uses, Play, RequestsAtMost, Stage, Do;
    PlayAppend(New(4), p, [Fetch(t)], r);
    Fetched(Play(New(4), p), t, one, two, waitio, k, r);
  }

  lemma ThenRequest(p: seq<Move>, t: Tid, workers: set<Tid>, r: nat, asked: nat, one: Drive, one': Drive, two: Drive, two': Drive, k: nat, k': nat)
    requires Reaches(p, workers, r, one, two, [], {}, k) && asked < r && k' == k + 1 <= MAX_REQUESTS
    requires (t == 1 && one == Driving(5, asked) && one' == Driving(5, asked + 1) && two' == two)
          || (t == 2 && two == Driving(5, asked) && two' == Driving(5, asked + 1) && one' == one)
    ensures Reaches(p + [Request(t)], workers, r, one', two', [], {}, k')
  {
    UsesAppend(p, [Request(t)], workers, {0});
    hide Uses, Play, RequestsAtMost, Stage, Do;
    PlayAppend(New(4), p, [Request(t)], r);
    Requested(Play(New(4), p), t, asked, one, two, k, r);
  }

  lemma ThenYield(p: seq<Move>, t: Tid, workers: set<Tid>, r: nat, asked: nat, one: Drive, one': Drive, two: Drive, two': Drive, k: nat)
    requires Reaches(p, workers, r, one, two, [], {}, k)
    requires (t == 1 && one == Driving(5, asked) && one' == Arming(5, 0) && two' == two)
          || (t == 2 && two == Driving(5, asked) && two' == Arming(5, 0) && one' == one)
    ensures Reaches(p + [Yield(t)], workers, r, one', two', [], {}, k)
  {
    UsesAppend(p, [Yield(t)], workers, {0});
    hide Uses, Play, RequestsAtMost, Stage, Do;
    PlayAppend(New(4), p, [Yield(t)], r);
    Yielded(Play(New(4), p), t, asked, one, two, k, r);
  }

  lemma ThenRegister(p: seq<Move>, workers: set<Tid>, r: nat, count: nat, one: Drive, one': Drive, two: Drive, queue: seq<Imp>, k: nat, k': nat)
    requires Reaches(p, workers, r, one, two, queue, {}, k) && k == k' + 1 && (one == Arming(5, count) || one == Leaving(5, count))
    requires one' == if k' > 0 then Arming(5, count + 1) else Leaving(5, count + 1)
    ensures Reaches(p + Registering(), workers, r, one', two, queue, {5}, k')
  {
    UsesAppend(p, Registering(), workers, {0});
    hide Uses, Play, RequestsAtMost, Stage, Do;
    PlayAppend(New(4), p, Registering(), r);
    Registered(Play(New(4), p), count, one, two, queue, {}, {5}, k, r);
  }

  lemma ThenSleep(p: seq<Move>, workers: set<Tid>, r: nat, count: nat, two: Drive, queue: seq<Imp>, waitio: set<Imp>)
    requires Reaches(p, workers, r, Leaving(5, count), two, queue, waitio, 0) && count > 0
    ensures Reaches(p + Sleeping(), workers, r, Free, two, queue, waitio, 0)
  {
    UsesAppend(p, Sleeping(), workers, {0});
    hide Uses, Play, RequestsAtMost, Stage, Do;
    PlayAppend(New(4), p, Sleeping(), r);
    Slept(Play(New(4), p), count, two, queue, waitio, r);
  }

  lemma ThenWake(p: seq<Move>, workers: set<Tid>, r: nat, one: Drive, two: Drive, k: nat)
    requires Reaches(p, workers, r, one, two, [], {5}, k)
    ensures Reaches(p + Waking3(), workers, r, one, two, [5], {}, k)
  {
    UsesAppend(p, Waking3(), workers, {0});
    hide Uses, Play, RequestsAtMost, Stage, Do;
    PlayAppend(New(4), p, Waking3(), r);
    Woke(Play(New(4), p), one, two, [], [5], k, r);
  }

  lemma ThenRerun(p: seq<Move>, workers: set<Tid>, r: nat, one: Drive, waitio: set<Imp>)
    requires Reaches(p, workers, r, one, Arming(5, 0), [], waitio, 0)
    ensures Reaches(p + Rerunning2(), workers, r, one, Free, [5], waitio, 0)
  {
    UsesAppend(p, Rerunning2(), workers, {0});
    hide Uses, Play, RequestsAtMost, Stage, Do;
    PlayAppend(New(4), p, Rerunning2(), r);
    Reran(Play(New(4), p), one, waitio, r);
  }

  /** Worker 1 drives the imp, which has requested one event. */
  function Opening(): seq<Move> {
    Summons() + [Fetch(1)] + [Request(1)]
  }

  lemma Opened(workers: set<Tid>, r: nat)
    requires 1 in workers && r > 0
    ensures Reaches(Opening(), workers, r, Driving(5, 1), Free, [], {}, 1)
  {
    Summoned(r);
    assert Uses(Summons(), workers, {0});
    hide Uses, Play, RequestsAtMost, Stage, Do, Summons;
    assert Reaches(Summons(), workers, r, Free, Free, [5], {}, 0);
    hide Reaches;
    ThenFetch(Summons(), 1, workers, r, Free, Driving(5, 0), Free, Free, {}, 0);
    ThenRequest(Summons() + [Fetch(1)], 1, workers, r, 0, Driving(5, 0), Driving(5, 1), Free, Free, 0, 1);
  }

  // ----- the runs

  /** One worker, two requests in a drive: the first event comes while the
      second request is being registered. */
  function TwoRequests(): seq<Move> {
    TwoArmed() + Registering() + Sleeping() + [Fetch(1)] + Waking3()
  }

  function TwoArmed(): seq<Move> {
    Opening() + [Request(1)] + [Yield(1)] + Registering() + Waking3()
  }

  lemma TwoArmedReached(r: nat)
    requires r >= 2
    ensures Reaches(TwoArmed(), {1}, r, Arming(5, 1), Free, [5], {}, 1)
  {
    Opened({1}, r);
    hide Reaches, Registering, Waking3, Opening;
    var p1 := Opening() + [Request(1)];
    ThenRequest(Opening(), 1, {1}, r, 1, Driving(5, 1), Driving(5, 2), Free, Free, 1, 2);
    var p2 := p1 + [Yield(1)];
    ThenYield(p1, 1, {1}, r, 2, Driving(5, 2), Arming(5, 0), Free, Free, 2);
    ThenRegister(p2, {1}, r, 0, Arming(5, 0), Arming(5, 1), Free, [], 2, 1);
    ThenWake(p2 + Registering(), {1}, r, Arming(5, 1), Free, 1);
  }

  lemma TwoRequestsReached(r: nat)
    requires r >= 2
    ensures Reaches(TwoRequests(), {1}, r, Driving(5, 0), Free, [5], {}, 0)
  {
    TwoArmedReached(r);
    hide Reaches, Registering, Waking3, Sleeping, TwoArmed;
    var p5 := TwoArmed() + Registering();
    ThenRegister(TwoArmed(), {1}, r, 1, Arming(5, 1), Leaving(5, 2), Free, [5], 1, 0);
    var p6 := p5 + Sleeping();
    ThenSleep(p5, {1}, r, 2, Free, [5], {5});
    ThenFetch(p6, 1, {1}, r, Free, Driving(5, 0), Free, Free, {5}, 0);
    ThenWake(p6 + [Fetch(1)], {1}, r, Driving(5, 0), Free, 0);
  }

  /** The imp ends up both driven by the worker and in the run queue. */
  lemma TwoRequestsRace(r: nat)
    requires r >= 2
    ensures RequestsAtMost(New(4), TwoRequests(), r) && Uses(TwoRequests(), {1}, {0})
    ensures var s := Play(New(4), TwoRequests()); Claims(s, 5, Held(1)) && Claims(s, 5, InRunQueue)
  {
    TwoRequestsReached(r);
    hide Play, RequestsAtMost, Uses, Stage, Claims, TwoRequests;
    Shown(Play(New(4), TwoRequests()), Driving(5, 0), Free, [5]);
  }

  /** Two workers, one request in each drive: worker 1 is still in its arming
      loop when worker 2 has driven the imp, and registers the request of worker 2. */
  function OneRequest(): seq<Move> {
    Stolen() + Rerunning2() + Sleeping() + [Fetch(1)] + Waking3() + [Fetch(2)]
  }

  function Overtaken(): seq<Move> {
    Opening() + [Yield(1)] + Registering() + Waking3() + [Fetch(2)]
  }

  function Stolen(): seq<Move> {
    Overtaken() + [Request(2)] + [Yield(2)] + Registering()
  }

  lemma OvertakenReached(w: set<Tid>, r: nat)
    requires 1 in w && 2 in w && r >= 1
    ensures Reaches(Overtaken(), w, r, Leaving(5, 1), Driving(5, 0), [], {}, 0)
  {
    Opened(w, r);
    hide Reaches, Registering, Waking3, Opening;
    var p1 := Opening() + [Yield(1)];
    ThenYield(Opening(), 1, w, r, 1, Driving(5, 1), Arming(5, 0), Free, Free, 1);
    var p2 := p1 + Registering();
    ThenRegister(p1, w, r, 0, Arming(5, 0), Leaving(5, 1), Free, [], 1, 0);
    ThenWake(p2, w, r, Leaving(5, 1), Free, 0);
    ThenFetch(p2 + Waking3(), 2, w, r, Leaving(5, 1), Leaving(5, 1), Free, Driving(5, 0), {}, 0);
  }

  lemma StolenReached(w: set<Tid>, r: nat)
    requires 1 in w && 2 in w && r >= 1
    ensures Reaches(Stolen(), w, r, Leaving(5, 2), Arming(5, 0), [], {5}, 0)
  {
    OvertakenReached(w, r);
    hide Reaches, Registering, Overtaken;
    var p5 := Overtaken() + [Request(2)];
    ThenRequest(Overtaken(), 2, w, r, 0, Leaving(5, 1), Leaving(5, 1), Driving(5, 0), Driving(5, 1), 0, 1);
    ThenYield(p5, 2, w, r, 1, Leaving(5, 1), Leaving(5, 1), Driving(5, 1), Arming(5, 0), 1);
    ThenRegister(p5 + [Yield(2)], w, r, 1, Leaving(5, 1), Leaving(5, 2), Arming(5, 0), [], 1, 0);
  }

  lemma OneRequestReached(w: set<Tid>, r: nat)
    requires 1 in w && 2 in w && r >= 1
    ensures Reaches(OneRequest(), w, r, Driving(5, 0), Driving(5, 0), [], {}, 0)
  {
    StolenReached(w, r);
    hide Reaches, Waking3, Sleeping, Rerunning2, Stolen;
    var p8 := Stolen() + Rerunning2();
    ThenRerun(Stolen(), w, r, Leaving(5, 2), {5});
    var p9 := p8 + Sleeping();
    ThenSleep(p8, w, r, 2, Free, [5], {5});
    var p10 := p9 + [Fetch(1)];
    ThenFetch(p9, 1, w, r, Free, Driving(5, 0), Free, Free, {5}, 0);
    ThenWake(p10, w, r, Driving(5, 0), Free, 0);
    ThenFetch(p10 + Waking3(), 2, w, r, Driving(5, 0), Driving(5, 0), Free, Driving(5, 0), {}, 0);
  }

  /** Both workers end up driving the imp. */
  lemma OneRequestRace(r: nat)
    requires r >= 1
    ensures RequestsAtMost(New(4), OneRequest(), r) && Uses(OneRequest(), {1, 2}, {0})
    ensures var s := Play(New(4), OneRequest()); Claims(s, 5, Held(1)) && Claims(s, 5, Held(2))
  {
    OneRequestReached({1, 2}, r);
    hide Play, RequestsAtMost, Uses, Stage, Claims, OneRequest;
    Shown(Play(New(4), OneRequest()), Driving(5, 0), Driving(5, 0), []);
  }

  /** Two summoners that both pass the test of nr_total before either counts
      exceed the limit, and the second imp is dropped by the full run queue. */
  function TwoSummoners(): seq<Move> {
    [SummonCheck(0)] + [SummonCheck(1)] + [SummonCount(0, 5)] + [SummonCount(1, 6)] + [SummonRun(0)] + [SummonRun(1)]
  }

  lemma BothCounted()
    ensures var s := Do(Do(Do(Do(New(1), SummonCheck(0)), SummonCheck(1)), SummonCount(0, 5)), SummonCount(1, 6));
      && s.nrTotal == 2 && s.nrMax == 1 && s.SummonOf(0) == Counted(5) && s.SummonOf(1) == Counted(6)
      && s.summon.Keys == {0, 1} && s.runq == s.termq == [] && s.drive == map[] && s.waitio == {} && s.maintainer == Drain
      && 6 in s.place
  {
  }

  lemma OneDropped(s: State)
    requires s.nrTotal == 2 && s.nrMax == 1 && s.SummonOf(0) == Counted(5) && s.SummonOf(1) == Counted(6)
    requires s.summon.Keys == {0, 1} && s.runq == s.termq == [] && s.drive == map[] && s.waitio == {} && s.maintainer == Drain
    requires 6 in s.place
    ensures var s' := Do(Do(s, SummonRun(0)), SummonRun(1));
      && s'.nrTotal == 2 && s'.nrMax == 1 && s'.runq == [5]
      && 6 in s'.place && forall p :: !Claims(s', 6, p)
  {
    var s5 := Do(s, SummonRun(0));
    assert s5.runq == [5] && s5.SummonOf(1) == Counted(6) && s5.summon.Keys == {0, 1} && s5.SummonOf(0) == NoSummon;
    var s6 := Do(s5, SummonRun(1));
    assert s6.summon.Keys == {0, 1} && s6.drive == map[] && s6.SummonOf(0) == s6.SummonOf(1) == NoSummon;
  }

  lemma SummonRace(r: nat)
    ensures RequestsAtMost(New(1), TwoSummoners(), r)
    ensures var s := Play(New(1), TwoSummoners());
      && s.nrTotal == 2 && s.nrMax == 1 && s.runq == [5]
      && 6 in s.place && forall p :: !Claims(s, 6, p)
  {
    hide Play, RequestsAtMost, Do, Claims;
    BothCounted();
    OneDropped(Do(Do(Do(Do(New(1), SummonCheck(0)), SummonCheck(1)), SummonCount(0, 5)), SummonCount(1, 6)));
    SixMoves(New(1), SummonCheck(0), SummonCheck(1), SummonCount(0, 5), SummonCount(1, 6), SummonRun(0), SummonRun(1), r);
  }

  lemma SixMoves(s: State, a: Move, b: Move, c: Move, d: Move, e: Move, f: Move, r: nat)
    requires forall m :: m in [a, b, c, d, e, f] ==> !m.Request?
    ensures var script := [a] + [b] + [c] + [d] + [e] + [f];
      Play(s, script) == Do(Do(Do(Do(Do(Do(s, a), b), c), d), e), f) && RequestsAtMost(s, script, r)
  {
    hide Do, Play, RequestsAtMost;
    PlayAppend(s, [a], [b], r);
    PlayAppend(s, [a] + [b], [c], r);
    PlayAppend(s, [a] + [b] + [c], [d], r);
    PlayAppend(s, [a] + [b] + [c] + [d], [e], r);
    PlayAppend(s, [a] + [b] + [c] + [d] + [e], [f], r);
    PlayOne(s, a, r);
    PlayOne(Do(s, a), b, r);
    PlayOne(Do(Do(s, a), b), c, r);
    PlayOne(Do(Do(Do(s, a), b), c), d, r);
    PlayOne(Do(Do(Do(Do(s, a), b), c), d), e, r);
    PlayOne(Do(Do(Do(Do(Do(s, a), b), c), d), e), f, r);
  }

  // ----- the bound on summoners is reached

  function Checks(k: nat): seq<Move> {
    if k == 0 then [] else Checks(k - 1) + [SummonCheck(k - 1)]
  }

  function Counts(k: nat): seq<Move> {
    if k == 0 then [] else Counts(k - 1) + [SummonCount(k - 1, k - 1)]
  }

  function Threads(k: nat): set<Tid> {
    if k == 0 then {} else Threads(k - 1) + {k - 1}
  }

  /** `checked` threads have passed the test and the first `counted` of them have counted their imp. */
  ghost predicate Rushed(s: State, checked: nat, counted: nat) {
    && s.nrMax == 1 && s.nrTotal == counted && s.drive == map[]
    && (forall t: nat :: s.SummonOf(t) == if t < counted then Counted(t) else if t < checked then Checked else NoSummon)
    && (forall i :: i in s.born ==> i < counted)
  }

  lemma CheckRushes(s: State, k: nat)
    requires Rushed(s, k, 0)
    ensures Rushed(Do(s, SummonCheck(k)), k + 1, 0)
  {
    assert s.SummonOf(k) == NoSummon;
    forall t: nat ensures Do(s, SummonCheck(k)).SummonOf(t) == if t < k + 1 then Checked else NoSummon {
      assert s.SummonOf(t) == if t < k then Checked else NoSummon;
    }
  }

  lemma CountRushes(s: State, checked: nat, k: nat)
    requires Rushed(s, checked, k) && k < checked
    ensures Rushed(Do(s, SummonCount(k, k)), checked, k + 1)
  {
    assert s.SummonOf(k) == Checked;
    forall t: nat
      ensures Do(s, SummonCount(k, k)).SummonOf(t) == if t < k + 1 then Counted(t) else if t < checked then Checked else NoSummon
    {
      assert s.SummonOf(t) == if t < k then Counted(t) else if t < checked then Checked else NoSummon;
    }
  }

  lemma {:induction false} ChecksRush(k: nat)
    ensures Rushed(Play(New(1), Checks(k)), k, 0) && Uses(Checks(k), {}, Threads(k)) && |Threads(k)| == k
    ensures forall t :: t in Threads(k) ==> t < k
  {
    if k > 0 {
      ChecksRush(k - 1);
      hide Do, Play, Rushed;
      PlayAppend(New(1), Checks(k - 1), [SummonCheck(k - 1)], 0);
      PlayOne(Play(New(1), Checks(k - 1)), SummonCheck(k - 1), 0);
      CheckRushes(Play(New(1), Checks(k - 1)), k - 1);
    }
  }

  lemma {:induction false} CountsRush(s: State, checked: nat, k: nat)
    requires Rushed(s, checked, 0) && k <= checked
    ensures Rushed(Play(s, Counts(k)), checked, k) && Uses(Counts(k), {}, {})
  {
    if k > 0 {
      CountsRush(s, checked, k - 1);
      hide Do, Play, Rushed;
      PlayAppend(s, Counts(k - 1), [SummonCount(k - 1, k - 1)], 0);
      PlayOne(Play(s, Counts(k - 1)), SummonCount(k - 1, k - 1), 0);
      CountRushes(Play(s, Counts(k - 1)), checked, k - 1);
    }
  }

  /** For every number of summoners the bound of SummonLimit is reached by some run. */
  lemma LimitIsReached(k: nat)
    requires k > 0
    ensures SummonedBy(Checks(k) + Counts(k), Threads(k)) && |Threads(k)| == k
    ensures Play(New(1), Checks(k) + Counts(k)).nrTotal == 1 + |Threads(k)| - 1
  {
    ChecksRush(k);
    CountsRush(Play(New(1), Checks(k)), k, k);
    PlayAppend(New(1), Checks(k), Counts(k), 0);
    hide Play, Do;
  }

  // ----- the safe configurations are the only ones

  ghost predicate SoundRun(nrMax: nat, script: seq<Move>, workers: nat, summoners: nat, r: nat) {
    forall w: set<Tid>, u: set<Tid> {:trigger Configured(nrMax, script, w, u, r)} ::
      |w| <= workers && |u| <= summoners && Configured(nrMax, script, w, u, r) ==> Sound(Play(New(nrMax), script))
  }

  lemma SafeFewer(workers: nat, summoners: nat, workers': nat, summoners': nat, r: nat)
    requires Safe(workers, summoners, r) && workers' <= workers && summoners' <= summoners
    ensures Safe(workers', summoners', r)
  {
  }

  /** With at most so many workers, summoners and requests a drive, every run is
      sound if and only if the configuration is safe. */
  lemma SoundExactlyWhenSafe(workers: nat, summoners: nat, r: nat)
    ensures (forall nrMax: nat, script {:trigger SoundRun(nrMax, script, workers, summoners, r)} ::
               SoundRun(nrMax, script, workers, summoners, r))
            <==> Safe(workers, summoners, r)
  {
    hide Play, Do, Sound, RequestsAtMost, Configured;
    if Safe(workers, summoners, r) {
      forall nrMax: nat, script
        ensures SoundRun(nrMax, script, workers, summoners, r)
      {
        forall w: set<Tid>, u: set<Tid> | |w| <= workers && |u| <= summoners && Configured(nrMax, script, w, u, r)
          ensures Sound(Play(New(nrMax), script))
        {
          SafeFewer(workers, summoners, |w|, |u|, r);
          SafeRuns(nrMax, script, w, u, r);
        }
      }
    } else if summoners >= 2 {
      SummonersUnsound(workers, summoners, r);
    } else if workers >= 2 {
      WorkersUnsound(workers, summoners, r);
    } else {
      RequestsUnsound(workers, summoners, r);
    }
  }

  lemma Unsound(nrMax: nat, script: seq<Move>, w: set<Tid>, u: set<Tid>, workers: nat, summoners: nat, r: nat)
    requires |w| <= workers && |u| <= summoners && Configured(nrMax, script, w, u, r) && !Sound(Play(New(nrMax), script))
    ensures !SoundRun(nrMax, script, workers, summoners, r)
  {
    hide Play, Sound, Configured;
  }

  lemma TwoPlaces(s: State, i: Imp, p: Place, q: Place)
    requires Claims(s, i, p) && Claims(s, i, q) && p != q
    ensures !Sound(s)
  {
    hide Claims;
    assert !InOnePlace(s, i);
  }

  lemma TwoSummonersUse()
    ensures FetchedBy(TwoSummoners(), {}) && SummonedBy(TwoSummoners(), {0, 1})
  {
  }

  lemma SummonersUnsound(workers: nat, summoners: nat, r: nat)
    requires summoners >= 2
    ensures !SoundRun(1, TwoSummoners(), workers, summoners, r)
  {
    SummonRace(r);
    var u: set<Tid> := {0, 1};
    TwoSummonersUse();
    hide Play, RequestsAtMost, TwoSummoners, FetchedBy, SummonedBy, SoundRun;
    Unsound(1, TwoSummoners(), {}, u, workers, summoners, r);
  }

  lemma WorkersUnsound(workers: nat, summoners: nat, r: nat)
    requires workers >= 2 && summoners >= 1 && r >= 1
    ensures !SoundRun(4, OneRequest(), workers, summoners, r)
  {
    hide Play, RequestsAtMost, OneRequest, FetchedBy, SummonedBy, SoundRun, Sound, Claims;
    OneRequestRace(r);
    TwoPlaces(Play(New(4), OneRequest()), 5, Held(1), Held(2));
    Unsound(4, OneRequest(), {1, 2}, {0}, workers, summoners, r);
  }

  lemma RequestsUnsound(workers: nat, summoners: nat, r: nat)
    requires workers >= 1 && summoners >= 1 && r >= 2
    ensures !SoundRun(4, TwoRequests(), workers, summoners, r)
  {
    hide Play, RequestsAtMost, TwoRequests, FetchedBy, SummonedBy, SoundRun, Sound, Claims;
    TwoRequestsRace(r);
    TwoPlaces(Play(New(4), TwoRequests()), 5, Held(1), InRunQueue);
    Unsound(4, TwoRequests(), {1}, {0}, workers, summoners, r);
  }
}
