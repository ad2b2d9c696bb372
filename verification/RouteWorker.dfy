/** The refresh worker of `SmartRouteManager` against the thread that starts, stops and clears: every
    interleaving of their atomic steps. */
module RouteWorker {

  /** Where the worker thread stands.
      `AtTop`, `SleepTest`, `Sleeping` and `Woken` are the loop of `worker_main`: its head, the head of the inner
      loop with the seconds left to sleep, inside a one-second sleep, and the test behind the inner loop.
      `PassStart` is the locked test at the beginning of a pass and `Between` the head of its two loops, where the
      stop flag is tested. `Entry` is inside one list entry with that many routes still to apply, and `Touching`
      inside `apply_prefix_route`, which reads and extends the list of selective routes, with that many routes of
      the same entry to come: neither looks at the stop flag. `Counting` reads the length of the list. */
  datatype Worker =
    | Absent
    | AtTop
    | SleepTest(seconds: nat)
    | Sleeping(seconds: nat)
    | Woken
    | PassStart
    | Between
    | Entry(left: nat)
    | Touching(left: nat)
    | Counting
    | Finished

  /** Where the owner of the interface stands: at rest; waiting in `stop` for the worker to end, on behalf of
      `clear_client_routes` or of `start`; loading the lists; applying the first pass; creating the thread;
      about to set the applied flag; or inside the configurator's clearing. */
  datatype Owner =
    | Rest
    | Joining(toClear: bool)
    | Loading
    | FirstPass
    | Spawning
    | Marking
    | Clearing(failed: bool)

  /** `stop` is `stop_requested_`, `flag` is `client_routes_applied_`, `list` the selective routes. */
  datatype State = State(owner: Owner, worker: Worker, stop: bool, flag: bool, list: seq<nat>)

  const INITIAL: State := State(Rest, Absent, false, false, [])

  datatype Step =
    // the owner
    | BeginClear | BeginStart | Joined | ListsFail | ListsLoad | FirstPassAdds(route: nat) | FirstPassEnds
    | Spawn | Mark | Cleared
    // the worker
    | Top(interval: nat) | TestSleep | Wake | CheckAfterSleep | BeginPass | NextEntry(routes: nat) | BeginRoute
    | RouteDone(added: seq<nat>) | EntryDone | LoopsEnd | Counted

  /** A step that is not possible in a state leaves it unchanged. */
  function Next(s: State, a: Step): State {
    if IsWorkerStep(a) then WorkerNext(s, a) else OwnerNext(s, a)
  }

  predicate IsWorkerStep(a: Step) {
    || a.Top? || a.TestSleep? || a.Wake? || a.CheckAfterSleep? || a.BeginPass? || a.NextEntry? || a.BeginRoute?
    || a.RouteDone? || a.EntryDone? || a.LoopsEnd? || a.Counted?
  }

  function OwnerNext(s: State, a: Step): State {
    match a
    case BeginClear => if s.owner.Rest? then s.(owner := Joining(true), stop := true) else s
    case BeginStart => if s.owner.Rest? then s.(owner := Joining(false), stop := true) else s
    case Joined =>
      if s.owner.Joining? && (s.worker.Absent? || s.worker.Finished?)
      then s.(worker := Absent,
              owner := if !s.owner.toClear then Loading else if s.flag then Clearing(false) else Rest)
      else s
    case ListsFail => if s.owner.Loading? then s.(owner := Clearing(true)) else s
    case ListsLoad => if s.owner.Loading? then s.(owner := FirstPass, stop := false) else s
    case FirstPassAdds(route) => if s.owner.FirstPass? then s.(list := s.list + [route]) else s
    case FirstPassEnds => if s.owner.FirstPass? then s.(owner := Spawning) else s
    case Spawn => if s.owner.Spawning? then s.(owner := Marking, worker := AtTop) else s
    case Mark => if s.owner.Marking? then s.(owner := Rest, flag := true) else s
    case Cleared =>
      if s.owner.Clearing?
      then s.(owner := Rest, list := [], flag := if s.owner.failed then s.flag else false) else s
    case _ => s
  }

  /** `routes` is the number of routes an entry turns out to have: at most one for a CIDR entry, one for each
      address of each host name for a domain. */
  function WorkerNext(s: State, a: Step): State {
    match (s.worker, a)
    case (AtTop, Top(interval)) => s.(worker := if s.stop then Finished else SleepTest(interval))
    case (SleepTest(n), TestSleep) => s.(worker := if s.stop || n == 0 then Woken else Sleeping(n - 1))
    case (Sleeping(n), Wake) => s.(worker := SleepTest(n))
    case (Woken, CheckAfterSleep) => s.(worker := if s.stop then Finished else PassStart)
    case (PassStart, BeginPass) => s.(worker := if s.stop then AtTop else Between)
    case (Between, NextEntry(routes)) => s.(worker := if s.stop then AtTop else Entry(routes))
    case (Between, LoopsEnd) => s.(worker := Counting)
    case (Entry(left), BeginRoute) => if left > 0 then s.(worker := Touching(left - 1)) else s
    case (Entry(left), EntryDone) => if left == 0 then s.(worker := Between) else s
    case (Touching(left), RouteDone(added)) =>
      if |added| <= 1 then s.(worker := Entry(left), list := s.list + added) else s
    case (Counting, Counted) => s.(worker := AtTop)
    case _ => s
  }

  function Run(s: State, schedule: seq<Step>): State
    decreases |schedule|
  {
    if schedule == [] then s else Run(Next(s, schedule[0]), schedule[1..])
  }

  /** The owner is where it reads or changes the list. */
  predicate OwnerTouches(s: State) { s.owner.FirstPass? || s.owner.Clearing? }

  /** The worker exists only while the owner is at rest with the flag set, is waiting for it, or has just
      created it; a waiting owner has requested a stop; and without the flag the list is empty unless a start is
      under way. */
  predicate Inv(s: State) {
    && (!s.worker.Absent? ==> (s.owner.Rest? && s.flag) || s.owner.Joining? || s.owner.Marking?)
    && (!s.worker.Absent? && s.owner.Joining? ==> s.flag)
    && (s.owner.Joining? ==> s.stop)
    && (!s.flag && (s.owner.Rest? || s.owner.Joining? || s.owner.Loading?) ==> s.list == [])
    && (s.owner.Clearing? && !s.owner.failed ==> s.flag)
  }

  lemma StepKeeps(s: State, a: Step)
    requires Inv(s)
    ensures Inv(Next(s, a))
  {
  }

  lemma {:induction false} RunKeeps(s: State, schedule: seq<Step>)
    requires Inv(s)
    ensures Inv(Run(s, schedule))
    decreases |schedule|
  {
    if schedule != [] {
      StepKeeps(s, schedule[0]);
      RunKeeps(Next(s, schedule[0]), schedule[1..]);
    }
  }

  /** Every interleaving: while the owner reads or changes the list there is no worker at all. */
  lemma ListIsExclusive(schedule: seq<Step>)
    ensures var s := Run(INITIAL, schedule); OwnerTouches(s) ==> s.worker.Absent?
  {
    RunKeeps(INITIAL, schedule);
  }

  predicate NoStart(schedule: seq<Step>) { BeginStart !in schedule }

  lemma {:induction false} StaysCleared(s: State, schedule: seq<Step>)
    requires s.worker.Absent? && !s.flag && s.list == [] && NoStart(schedule)
    requires s.owner.Rest? || s.owner == Joining(true)
    ensures Run(s, schedule).list == [] && Run(s, schedule).worker.Absent?
    decreases |schedule|
  {
    if schedule != [] {
      assert schedule[0] in schedule;
      StaysCleared(Next(s, schedule[0]), schedule[1..]);
    }
  }

  /** Once the routes are cleared, no step of any thread adds to the list before the next start. */
  lemma ClearedUntilNextStart(before: seq<Step>, after: seq<Step>)
    requires var s := Run(INITIAL, before); s.owner.Clearing? && !s.owner.failed
    requires NoStart(after)
    ensures Run(Next(Run(INITIAL, before), Cleared), after).list == []
  {
    RunKeeps(INITIAL, before);
    StaysCleared(Next(Run(INITIAL, before), Cleared), after);
  }

  // ---------------------------------------------------------------- the wait in stop ends

  /** How many of its own steps the worker may still take once a stop is requested. */
  function Distance(w: Worker): nat {
    match w
    case Absent => 0
    case Finished => 0
    case AtTop => 1
    case Woken => 1
    case SleepTest(_) => 2
    case Sleeping(_) => 3
    case PassStart => 2
    case Counting => 2
    case Between => 3
    case Entry(left) => 4 + 2 * left
    case Touching(left) => 5 + 2 * left
  }

  /** How many routes it may still add then: those of the entry it is in. */
  function RoutesLeft(w: Worker): nat {
    match w
    case Entry(left) => left
    case Touching(left) => left + 1
    case _ => 0
  }

  predicate Ended(w: Worker) { w.Absent? || w.Finished? }

  /** The owner is waiting and stays so. */
  predicate Waits(schedule: seq<Step>) { Joined !in schedule }

  /** The number of steps of a schedule that change something. */
  function Moves(s: State, schedule: seq<Step>): nat
    decreases |schedule|
  {
    if schedule == [] then 0
    else (if Next(s, schedule[0]) == s then 0 else 1) + Moves(Next(s, schedule[0]), schedule[1..])
  }

  lemma StopStep(s: State, a: Step)
    requires s.stop && s.owner.Joining? && !a.Joined?
    ensures var s' := Next(s, a);
            && s'.stop && s'.owner == s.owner
            && (s' == s || Distance(s'.worker) < Distance(s.worker))
            && |s'.list| + RoutesLeft(s'.worker) <= |s.list| + RoutesLeft(s.worker)
  {
  }

  lemma {:induction false} WaitBound(s: State, schedule: seq<Step>)
    requires s.stop && s.owner.Joining? && Waits(schedule)
    ensures var s' := Run(s, schedule);
            && Moves(s, schedule) + Distance(s'.worker) <= Distance(s.worker)
            && |s'.list| + RoutesLeft(s'.worker) <= |s.list| + RoutesLeft(s.worker)
    decreases |schedule|
  {
    if schedule != [] {
      assert schedule[0] in schedule;
      StopStep(s, schedule[0]);
      WaitBound(Next(s, schedule[0]), schedule[1..]);
    }
  }

  /** A step of the worker that takes it one step nearer to its end, the long way round. */
  function Slowly(w: Worker): Step {
    match w
    case AtTop => Top(0)
    case SleepTest(_) => TestSleep
    case Sleeping(_) => Wake
    case Woken => CheckAfterSleep
    case PassStart => BeginPass
    case Between => LoopsEnd
    case Entry(left) => if left > 0 then BeginRoute else EntryDone
    case Touching(_) => RouteDone([0])
    case Counting => Counted
    case _ => EntryDone
  }

  lemma SlowStep(s: State)
    requires s.stop && s.owner.Joining? && !Ended(s.worker)
    ensures var s' := Next(s, Slowly(s.worker));
            && s' != s && s'.stop && s'.owner == s.owner
            && Distance(s'.worker) + 1 == Distance(s.worker)
            && |s'.list| + RoutesLeft(s'.worker) == |s.list| + RoutesLeft(s.worker)
  {
  }

  lemma {:induction false} LongestWait(s: State) returns (schedule: seq<Step>)
    requires s.stop && s.owner.Joining?
    ensures Waits(schedule) && Moves(s, schedule) == Distance(s.worker)
    ensures Ended(Run(s, schedule).worker) && |Run(s, schedule).list| == |s.list| + RoutesLeft(s.worker)
    decreases Distance(s.worker)
  {
    schedule := [];
    if !Ended(s.worker) {
      SlowStep(s);
      var a := Slowly(s.worker);
      var rest := LongestWait(Next(s, a));
      schedule := [a] + rest;
      assert schedule[1..] == rest;
    }
  }

  /** The wait in `stop`, in every interleaving: until the owner joins, the worker takes at most `Distance` more steps
      and adds at most `RoutesLeft` more routes, both of which can be reached; so the bound grows with the routes of
      the entry in which the request finds it. The owner can join exactly when no step is left. */
  lemma StopIsBounded(before: seq<Step>)
    requires Run(INITIAL, before).owner.Joining?
    ensures var s := Run(INITIAL, before);
            && (forall schedule :: Waits(schedule) ==>
                  && Moves(s, schedule) <= Distance(s.worker)
                  && |Run(s, schedule).list| <= |s.list| + RoutesLeft(s.worker))
            && (exists schedule :: Waits(schedule) && Moves(s, schedule) == Distance(s.worker)
                  && |Run(s, schedule).list| == |s.list| + RoutesLeft(s.worker))
            && (Next(s, Joined) != s <==> Distance(s.worker) == 0)
  {
    RunKeeps(INITIAL, before);
    var s := Run(INITIAL, before);
    forall schedule | Waits(schedule)
      ensures Moves(s, schedule) <= Distance(s.worker) && |Run(s, schedule).list| <= |s.list| + RoutesLeft(s.worker)
    {
      WaitBound(s, schedule);
    }
    var slow := LongestWait(s);
  }

  /** And it does end: as long as the owner cannot join, the worker can take a step, whose effect is never undone. */
  lemma StopIsProgress(before: seq<Step>)
    requires Run(INITIAL, before).owner.Joining? && !Ended(Run(INITIAL, before).worker)
    ensures var s := Run(INITIAL, before);
            && IsWorkerStep(Slowly(s.worker)) && Next(s, Slowly(s.worker)) != s
            && forall a: Step :: !a.Joined? && Next(s, a) != s ==> Distance(Next(s, a).worker) < Distance(s.worker)
  {
    RunKeeps(INITIAL, before);
    var s := Run(INITIAL, before);
    SlowStep(s);
    forall a: Step | !a.Joined? && Next(s, a) != s ensures Distance(Next(s, a).worker) < Distance(s.worker) {
      StopStep(s, a);
    }
  }

  lemma {:induction false} RunSnoc(s: State, schedule: seq<Step>, a: Step)
    ensures Run(s, schedule + [a]) == Next(Run(s, schedule), a)
    decreases |schedule|
  {
    if schedule == [] {
      assert Run(Next(s, a), []) == Next(s, a);
    } else {
      RunSnoc(Next(s, schedule[0]), schedule[1..], a);
      assert (schedule + [a])[1..] == schedule[1..] + [a];
    }
  }

  /** A set of states that no step leaves. */
  ghost predicate Closed(reach: State -> bool) { forall s, a :: reach(s) ==> reach(Next(s, a)) }

  lemma Then(reach: State -> bool, s: State, a: Step, s': State)
    requires Closed(reach) && reach(s) && Next(s, a) == s'
    ensures reach(s')
  {
  }

  lemma ReachesWorker(reach: State -> bool)
    requires Closed(reach) && reach(INITIAL)
    ensures reach(State(Rest, AtTop, false, true, []))
  {
    Then(reach, INITIAL, BeginStart, State(Joining(false), Absent, true, false, []));
    Then(reach, State(Joining(false), Absent, true, false, []), Joined, State(Loading, Absent, true, false, []));
    Then(reach, State(Loading, Absent, true, false, []), ListsLoad, State(FirstPass, Absent, false, false, []));
    Then(reach, State(FirstPass, Absent, false, false, []), FirstPassEnds, State(Spawning, Absent, false, false, []));
    Then(reach, State(Spawning, Absent, false, false, []), Spawn, State(Marking, AtTop, false, false, []));
    Then(reach, State(Marking, AtTop, false, false, []), Mark, State(Rest, AtTop, false, true, []));
  }

  lemma ReachesPass(reach: State -> bool)
    requires Closed(reach) && reach(State(Rest, AtTop, false, true, []))
    ensures reach(State(Rest, PassStart, false, true, []))
  {
    Then(reach, State(Rest, AtTop, false, true, []), Top(0), State(Rest, SleepTest(0), false, true, []));
    Then(reach, State(Rest, SleepTest(0), false, true, []), TestSleep, State(Rest, Woken, false, true, []));
    Then(reach, State(Rest, Woken, false, true, []), CheckAfterSleep, State(Rest, PassStart, false, true, []));
  }

  /** The worker's way into the first route of an entry with `n + 1` routes. */
  lemma ReachesRoute(reach: State -> bool, n: nat)
    requires Closed(reach) && reach(State(Rest, PassStart, false, true, []))
    ensures reach(State(Rest, Touching(n), false, true, []))
  {
    Then(reach, State(Rest, PassStart, false, true, []), BeginPass, State(Rest, Between, false, true, []));
    Then(reach, State(Rest, Between, false, true, []), NextEntry(n + 1), State(Rest, Entry(n + 1), false, true, []));
    Then(reach, State(Rest, Entry(n + 1), false, true, []), BeginRoute, State(Rest, Touching(n), false, true, []));
  }

  /** No number bounds the wait beforehand: a stop can be requested in the first route of an entry with any number
      `n` of further routes. */
  lemma NoUniformBound(n: nat)
    ensures exists schedule :: Run(INITIAL, schedule) == State(Joining(true), Touching(n), true, true, [])
  {
    var reach := (s: State) => exists schedule :: Run(INITIAL, schedule) == s;
    forall s, a | reach(s) ensures reach(Next(s, a)) {
      var schedule :| Run(INITIAL, schedule) == s;
      RunSnoc(INITIAL, schedule, a);
    }
    assert Run(INITIAL, []) == INITIAL;
    ReachesTouch(reach, n);
  }

  lemma ReachesTouch(reach: State -> bool, n: nat)
    requires Closed(reach) && reach(INITIAL)
    ensures reach(State(Joining(true), Touching(n), true, true, []))
  {
    ReachesWorker(reach);
    ReachesPass(reach);
    ReachesRoute(reach, n);
    Then(reach, State(Rest, Touching(n), false, true, []), BeginClear,
         State(Joining(true), Touching(n), true, true, []));
  }

  /** Nor is there a bound on the list: the first pass of a start can leave any list, with the worker created and the
      flag set. */
  lemma {:induction false} AnyListIsReachable(reach: State -> bool, list: seq<nat>)
    requires Closed(reach) && reach(INITIAL)
    ensures reach(State(FirstPass, Absent, false, false, list))
    decreases |list|
  {
    if list == [] {
      Then(reach, INITIAL, BeginStart, State(Joining(false), Absent, true, false, []));
      Then(reach, State(Joining(false), Absent, true, false, []), Joined, State(Loading, Absent, true, false, []));
      Then(reach, State(Loading, Absent, true, false, []), ListsLoad, State(FirstPass, Absent, false, false, []));
    } else {
      var n := |list| - 1;
      AnyListIsReachable(reach, list[..n]);
      assert list[..n] + [list[n]] == list;
      Then(reach, State(FirstPass, Absent, false, false, list[..n]), FirstPassAdds(list[n]),
           State(FirstPass, Absent, false, false, list));
    }
  }

  /** A start whose lists cannot be used ends with an empty list and no worker. */
  lemma FailedStartLeavesNothing(before: seq<Step>)
    requires Run(INITIAL, before).owner.Loading?
    ensures var s := Next(Next(Run(INITIAL, before), ListsFail), Cleared);
            s.owner == Rest && s.list == [] && s.worker == Absent && s.flag == Run(INITIAL, before).flag
  {
    RunKeeps(INITIAL, before);
  }

  /** The steps of `n` undisturbed seconds. */
  function Seconds(n: nat): seq<Step> { if n == 0 then [TestSleep] else [TestSleep, Wake] + Seconds(n - 1) }

  /** Without a stop request the worker sleeps as many seconds as the interval says before it makes a pass. */
  lemma {:induction false} SleepsInterval(s: State, n: nat)
    requires !s.stop && s.worker == SleepTest(n)
    ensures Run(s, Seconds(n)) == s.(worker := Woken) && Moves(s, Seconds(n)) == 2 * n + 1
    ensures Next(s.(worker := Woken), CheckAfterSleep) == s.(worker := PassStart)
    decreases n
  {
    if n == 0 {
      assert [TestSleep][1..] == [];
      assert Run(s.(worker := Woken), []) == s.(worker := Woken) && Moves(s.(worker := Woken), []) == 0;
    } else {
      SleepsInterval(s.(worker := SleepTest(n - 1)), n - 1);
      OneSecond(s, n, Seconds(n - 1));
    }
  }

  lemma OneSecond(s: State, n: nat, rest: seq<Step>)
    requires !s.stop && s.worker == SleepTest(n) && n > 0
    ensures var s' := s.(worker := SleepTest(n - 1));
            && Run(s, [TestSleep, Wake] + rest) == Run(s', rest)
            && Moves(s, [TestSleep, Wake] + rest) == 2 + Moves(s', rest)
  {
    var asleep, s' := s.(worker := Sleeping(n - 1)), s.(worker := SleepTest(n - 1));
    RunCons(s, TestSleep, asleep, [Wake] + rest);
    RunCons(asleep, Wake, s', rest);
    assert [TestSleep, Wake] + rest == [TestSleep] + ([Wake] + rest);
  }

  lemma RunCons(s: State, a: Step, s': State, rest: seq<Step>)
    requires Next(s, a) == s' != s
    ensures Run(s, [a] + rest) == Run(s', rest) && Moves(s, [a] + rest) == 1 + Moves(s', rest)
  {
    assert ([a] + rest)[1..] == rest;
  }
}
