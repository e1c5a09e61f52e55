/**
 The daily backup coordinator: readiness of the strategy domain, topology generations, and the noon
 deadline (crates/moon-core/src/backups.rs). Each method is one critical section under the mutex.
 */
module Backups {
  import opened Seqs

  const DAY_MS: int := 86_400_000
  const NOON_MS: int := 43_200_000
  /** Generations and wake revisions are unsigned 64-bit and wrap. */
  const WRAP: nat := 0x1_0000_0000_0000_0000

  type Uid = nat

  datatype State = State(
    requested: bool, workerStarted: bool, wakes: nat, expected: set<Uid>, committed: set<Uid>,
    inherited: bool, ready: bool, generation: nat)

  const INITIAL := State(false, false, 0, {}, {}, false, false, 0)

  datatype Event =
    | Request(expected: set<Uid>, inherited: bool)
    | UpdateExpected(expected: set<Uid>)
    | Commit(uid: Uid)
    | Release
    | JobWake

  function ReadyFor(inherited: bool, expected: set<Uid>, committed: set<Uid>): bool {
    inherited || (expected != {} && expected <= committed)
  }

  function Bump(n: nat): nat { (n + 1) % WRAP }

  /** Install an expected set: a new topology generation. */
  function Installed(s: State, expected: set<Uid>): State {
    s.(expected := expected, generation := Bump(s.generation), ready := ReadyFor(s.inherited, expected, s.committed))
  }

  function Step(s: State, e: Event): State {
    match e
    case Request(expected, inherited) =>
      Installed(s.(requested := true, inherited := inherited), expected).(workerStarted := true, wakes := Bump(s.wakes))
    case UpdateExpected(expected) =>
      if s.expected == expected then s else Installed(s, expected).(wakes := Bump(s.wakes))
    case Commit(uid) =>
      var committed := s.committed + {uid};
      var ready := ReadyFor(s.inherited, s.expected, committed);
      s.(committed := committed, ready := ready, wakes := if ready == s.ready then s.wakes else Bump(s.wakes))
    case Release => s.(workerStarted := false)
    case JobWake => s.(wakes := Bump(s.wakes))
  }

  function Run(s: State, es: seq<Event>): State {
    if es == [] then s else Step(Run(s, es[..|es| - 1]), es[|es| - 1])
  }

  /** A strategy claim: the generation of a requested and ready topology. */
  function ClaimOf(s: State): Option<nat> {
    if s.requested && s.ready then Some(s.generation) else None
  }

  predicate MayPublish(s: State, generation: nat) {
    s.requested && s.ready && s.generation == generation
  }

  class ScheduleCoordinator {
    var requested: bool
    var workerStarted: bool
    var wakeRevision: nat
    var expectedCores: set<Uid>
    var committedCores: set<Uid>
    var inheritedStrategyData: bool
    var strategyReady: bool
    var topologyGeneration: nat

    function Now(): State
      reads this
    {
      State(requested, workerStarted, wakeRevision, expectedCores, committedCores, inheritedStrategyData,
        strategyReady, topologyGeneration)
    }

    constructor ()
      ensures Now() == INITIAL
    {
      requested, workerStarted, wakeRevision, expectedCores, committedCores := false, false, 0, {}, {};
      inheritedStrategyData, strategyReady, topologyGeneration := false, false, 0;
    }

    method RecomputeStrategyReady()
      modifies this`strategyReady
      ensures strategyReady == ReadyFor(inheritedStrategyData, expectedCores, committedCores)
    {
      strategyReady := inheritedStrategyData || (expectedCores != {} && expectedCores <= committedCores);
    }

    method UpdateExpectedLocked(expected: set<Uid>)
      modifies this`expectedCores, this`topologyGeneration, this`strategyReady
      ensures Now() == Installed(old(Now()), expected)
    {
      expectedCores := expected;
      topologyGeneration := (topologyGeneration + 1) % WRAP;
      RecomputeStrategyReady();
    }

    method RequestDaily(expected: set<Uid>, inherited: bool) returns (launch: bool)
      modifies this
      ensures Now() == Step(old(Now()), Request(expected, inherited))
      ensures launch <==> !old(workerStarted)
    {
      requested := true;
      inheritedStrategyData := inherited;
      UpdateExpectedLocked(expected);
      launch := !workerStarted;
      workerStarted := true;
      wakeRevision := (wakeRevision + 1) % WRAP;
    }

    method UpdateExpectedCores(expected: set<Uid>)
      modifies this
      ensures Now() == Step(old(Now()), UpdateExpected(expected))
    {
      if expectedCores == expected {
        return;
      }
      UpdateExpectedLocked(expected);
      wakeRevision := (wakeRevision + 1) % WRAP;
    }

    method StrategyCommit(uid: Uid)
      modifies this
      ensures Now() == Step(old(Now()), Commit(uid))
    {
      committedCores := committedCores + {uid};
      var wasReady := strategyReady;
      RecomputeStrategyReady();
      if strategyReady == wasReady {
        return;
      }
      wakeRevision := (wakeRevision + 1) % WRAP;
    }

    method StrategyClaim() returns (generation: Option<nat>)
      ensures generation == ClaimOf(Now())
    {
      generation := if requested && strategyReady then Some(topologyGeneration) else None;
    }

    /** Runs the operation under the lock, or not at all. */
    method WithCurrentTopology<T>(generation: nat, operation: () -> T) returns (r: Option<T>)
      ensures r == if MayPublish(Now(), generation) then Some(operation()) else None
    {
      if requested && strategyReady && topologyGeneration == generation {
        r := Some(operation());
      } else {
        r := None;
      }
    }

    /** A domain job that ended pending, or after a new slot fell due, asks for another look. */
    method WakeAfterJob()
      modifies this
      ensures Now() == Step(old(Now()), JobWake)
    {
      wakeRevision := (wakeRevision + 1) % WRAP;
    }

    method ReleaseWorker()
      modifies this
      ensures Now() == Step(old(Now()), Release)
    {
      workerStarted := false;
    }
  }

  // ---- what a state remembers of its history ----

  /** The topology an event installs, if it does. */
  predicate Installs(s: State, e: Event) {
    e.Request? || (e.UpdateExpected? && s.expected != e.expected)
  }

  /** How many topology changes a run makes. */
  function Changes(s: State, es: seq<Event>): nat {
    if es == [] then 0
    else Changes(s, es[..|es| - 1]) + if Installs(Run(s, es[..|es| - 1]), es[|es| - 1]) then 1 else 0
  }

  /** Every core that ever committed. */
  ghost function Committers(es: seq<Event>): set<Uid> {
    set i | 0 <= i < |es| && es[i].Commit? :: es[i].uid
  }

  /** The expected set named last. */
  function LastExpected(es: seq<Event>): set<Uid> {
    if es == [] then {}
    else
      var last := es[|es| - 1];
      if last.Request? || last.UpdateExpected? then last.expected else LastExpected(es[..|es| - 1])
  }

  /** What the last request said about rows already in the database. */
  function LastInherited(es: seq<Event>): bool {
    if es == [] then false
    else if es[|es| - 1].Request? then es[|es| - 1].inherited
    else LastInherited(es[..|es| - 1])
  }

  predicate Requested(es: seq<Event>) { exists i :: 0 <= i < |es| && es[i].Request? }

  /** Whether a launch is outstanding: the last request or release was a request. */
  function Outstanding(es: seq<Event>): bool {
    if es == [] then false
    else
      var last := es[|es| - 1];
      if last.Request? then true else if last.Release? then false else Outstanding(es[..|es| - 1])
  }

  lemma CommittersGrow(init: seq<Event>, e: Event)
    ensures Committers(init + [e]) == Committers(init) + if e.Commit? then {e.uid} else {}
  {
    var es := init + [e];
    assert es[|init|] == e && forall i :: 0 <= i < |init| ==> es[i] == init[i];
    forall u ensures u in Committers(es) <==> u in Committers(init) || (e.Commit? && u == e.uid) {
      if u in Committers(init) {
        var i :| 0 <= i < |init| && init[i].Commit? && init[i].uid == u;
        assert es[i].uid == u;
      }
      if e.Commit? && u == e.uid { assert es[|init|].uid == u; }
    }
  }

  lemma RequestedGrows(init: seq<Event>, e: Event)
    ensures Requested(init + [e]) <==> Requested(init) || e.Request?
  {
    var es := init + [e];
    assert es[|init|] == e && forall i :: 0 <= i < |init| ==> es[i] == init[i];
  }

  /**
   In every interleaving of requests, topology updates, commits and releases the coordinator's state
   is a function of its history: the strategy domain is ready exactly when the last request found
   rows already there, or the last expected set is non-empty and all of it has committed.
   */
  lemma {:induction false} StateIsHistory(es: seq<Event>)
    ensures var s := Run(INITIAL, es);
            && s.expected == LastExpected(es) && s.committed == Committers(es) && s.inherited == LastInherited(es)
            && (s.ready <==> LastInherited(es) || (LastExpected(es) != {} && LastExpected(es) <= Committers(es)))
            && s.requested == Requested(es) && s.workerStarted == Outstanding(es)
  {
    if es != [] {
      var init, e := es[..|es| - 1], es[|es| - 1];
      StateIsHistory(init);
      assert es == init + [e];
      CommittersGrow(init, e);
      RequestedGrows(init, e);
    }
  }

  /** The `i`-th event of a run is a request that claims the scheduler's launch. */
  predicate Launches(es: seq<Event>, i: nat)
    requires i < |es|
  {
    es[i].Request? && !Run(INITIAL, es[..i]).workerStarted
  }

  lemma {:induction false} OutstandingHolds(es: seq<Event>, i: nat, j: nat)
    requires i < j <= |es| && es[i].Request? && forall k :: i < k < j ==> !es[k].Release?
    ensures Outstanding(es[..j])
    decreases j
  {
    assert es[..j][..j - 1] == es[..j - 1];
    if i < j - 1 { OutstandingHolds(es, i, j - 1); }
  }

  /** Two launches never overlap: the first was released before the second was claimed. */
  lemma OneWorker(es: seq<Event>, i: nat, j: nat)
    requires i < j < |es| && Launches(es, i) && Launches(es, j)
    ensures exists k :: i < k < j && es[k].Release?
  {
    StateIsHistory(es[..j]);
    if forall k :: i < k < j ==> !es[k].Release? {
      OutstandingHolds(es, i, j);
    }
  }

  /** Whether the strategy domain is ready after a run, from the history alone. */
  ghost function ReadyAfter(es: seq<Event>): bool {
    LastInherited(es) || (LastExpected(es) != {} && LastExpected(es) <= Committers(es))
  }

  /** How often a run has news for the scheduler: requests, changed topologies, finished jobs, flips of readiness. */
  ghost function News(es: seq<Event>): nat {
    if es == [] then 0
    else
      var init, e := es[..|es| - 1], es[|es| - 1];
      var news := match e
        case Request(_, _) => true
        case JobWake => true
        case UpdateExpected(expected) => expected != LastExpected(init)
        case Commit(_) => ReadyAfter(es) != ReadyAfter(init)
        case Release => false;
      News(init) + if news then 1 else 0
  }

  /** The scheduler is woken exactly by news: the steady stream of commits wakes nobody. */
  lemma {:induction false} WakesAreNews(es: seq<Event>)
    ensures Run(INITIAL, es).wakes == News(es) % WRAP
  {
    if es != [] {
      var init := es[..|es| - 1];
      WakesAreNews(init);
      StateIsHistory(init);
      StateIsHistory(es);
      BumpAdds(News(init));
    }
  }

  // ---- publications ----

  /** Between topology changes, commits can only make a topology more ready. */
  lemma {:induction false} UnchangedStaysReady(s: State, es: seq<Event>)
    requires s.ready == ReadyFor(s.inherited, s.expected, s.committed)
    requires Changes(s, es) == 0
    ensures var t := Run(s, es);
            && t.expected == s.expected && t.inherited == s.inherited && s.committed <= t.committed
            && t.requested == s.requested && (s.ready ==> t.ready)
            && t.ready == ReadyFor(t.inherited, t.expected, t.committed)
  {
    if es != [] { UnchangedStaysReady(s, es[..|es| - 1]); }
  }

  lemma {:induction false} GenerationCounts(s: State, es: seq<Event>)
    requires s.generation < WRAP
    ensures Run(s, es).generation == (s.generation + Changes(s, es)) % WRAP
  {
    if es != [] {
      var init := es[..|es| - 1];
      GenerationCounts(s, init);
      BumpAdds(s.generation + Changes(s, init));
    } else {
      assert Changes(s, es) == 0;
    }
  }

  lemma BumpAdds(n: nat)
    ensures Bump(n % WRAP) == (n + 1) % WRAP
  {
  }

  lemma GenerationReturns(s: State, es: seq<Event>)
    requires s.generation < WRAP
    ensures Run(s, es).generation == s.generation <==> Changes(s, es) % WRAP == 0
  {
    GenerationCounts(s, es);
    SameResidue(s.generation, Changes(s, es));
  }

  lemma SameResidue(g: nat, k: nat)
    requires g < WRAP
    ensures (g + k) % WRAP == g <==> k % WRAP == 0
  {
  }

  /** A state some history reached. */
  predicate Sound(s: State) {
    s.generation < WRAP && s.ready == ReadyFor(s.inherited, s.expected, s.committed)
  }

  /**
   The publication guard, exactly: an operation claimed at some generation runs when the number of
   topology changes since is a multiple of the generation's period and the topology is ready now.
   */
  lemma PublishesIff(s: State, es: seq<Event>)
    requires Sound(s) && ClaimOf(s).Some?
    ensures MayPublish(Run(s, es), ClaimOf(s).value) <==>
              Changes(s, es) % WRAP == 0 && Run(s, es).ready
  {
    GenerationReturns(s, es);
    RequestedStays(s, es);
  }

  lemma {:induction false} RequestedStays(s: State, es: seq<Event>)
    requires s.requested
    ensures Run(s, es).requested
  {
    if es != [] { RequestedStays(s, es[..|es| - 1]); }
  }

  /**
   Short of a full wrap of generations, a claimed publication runs exactly when no topology change
   happened since the claim.
   */
  lemma ClaimedRunsIffUnchanged(s: State, es: seq<Event>)
    requires Sound(s) && ClaimOf(s).Some? && Changes(s, es) < WRAP
    ensures MayPublish(Run(s, es), ClaimOf(s).value) <==> Changes(s, es) == 0
  {
    PublishesIff(s, es);
    SmallResidue(Changes(s, es));
    if Changes(s, es) == 0 { UnchangedStaysReady(s, es); }
  }

  lemma SmallResidue(k: nat)
    requires k < WRAP
    ensures k % WRAP == 0 <==> k == 0
  {
  }

  function Requests(n: nat, expected: set<Uid>): seq<Event> {
    seq(n, _ => Request(expected, true))
  }

  lemma {:induction false} RequestsChange(s: State, n: nat, expected: set<Uid>)
    ensures Changes(s, Requests(n, expected)) == n
    ensures n > 0 ==> Run(s, Requests(n, expected)).ready
  {
    if n > 0 {
      assert Requests(n, expected)[..n - 1] == Requests(n - 1, expected);
      RequestsChange(s, n - 1, expected);
    }
  }

  /** The wrap is real: after a whole period of topology changes a stale claim publishes again. */
  lemma WrappedClaimRuns(s: State, n: nat, expected: set<Uid>)
    requires Sound(s) && ClaimOf(s).Some? && n % WRAP == 0
    ensures Changes(s, Requests(n, expected)) == n
    ensures MayPublish(Run(s, Requests(n, expected)), ClaimOf(s).value)
  {
    RequestsChange(s, n, expected);
    PublishesIff(s, Requests(n, expected));
  }

  // ---- the noon deadline ----

  function DueSlot(now: int): (slot: int)
    ensures slot <= now < slot + 86_400_000 && slot % 86_400_000 == 43_200_000
  {
    var noon := now / DAY_MS * DAY_MS + NOON_MS;
    if now >= noon then noon else noon - DAY_MS
  }

  /** There is only one such slot. */
  lemma DueSlotUnique(now: int, slot: int)
    requires slot <= now < slot + 86_400_000 && slot % 86_400_000 == 43_200_000
    ensures slot == DueSlot(now)
  {
    var d := DueSlot(now);
    assert (slot - d) % DAY_MS == 0;
  }

  function DelayToNextNoon(now: int): (delay: int)
    ensures 0 < delay <= 86_400_000
    ensures now + delay == DueSlot(now) + 86_400_000
  {
    var noon := now / DAY_MS * DAY_MS + NOON_MS;
    (if now < noon then noon else noon + DAY_MS) - now
  }

  function DailySlotAdvanced(started: int, finished: int): bool { DueSlot(started) != DueSlot(finished) }

  /** A later noon is at least a day later. */
  lemma SlotsApart(a: int, b: int)
    requires a % 86_400_000 == 43_200_000 && b % 86_400_000 == 43_200_000 && a < b
    ensures b >= a + 86_400_000
  {
    var p, q := a / 86_400_000, b / 86_400_000;
    assert a == 86_400_000 * p + 43_200_000 && b == 86_400_000 * q + 43_200_000;
  }

  /** Work crossed into a new slot exactly when a noon passed while it ran. */
  lemma AdvancedIff(started: int, finished: int)
    requires started <= finished
    ensures DailySlotAdvanced(started, finished) <==>
            exists noon: int :: noon % 86_400_000 == 43_200_000 && started < noon <= finished
  {
    var a, b := DueSlot(started), DueSlot(finished);
    if a != b {
      if b <= started {
        DueSlotUnique(started, b);
      }
      assert b % DAY_MS == NOON_MS && started < b <= finished;
    } else {
      forall noon: int | noon % 86_400_000 == 43_200_000 && started < noon ensures noon > finished {
        SlotsApart(a, noon);
      }
    }
  }
}
