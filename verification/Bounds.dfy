/** The exact age of cached answers, per configuration. */
module Bounds {
  import opened Users
  import opened Decimal
  import opened Sharding
  import opened CacheModel
  import opened Tokens
  import opened System
  import opened Invariant
  import opened Staleness
  import opened Scenarios

  /** Every answer of every service in the run was the row at most age time units before. */
  ghost predicate AnswersWithin(c: Config, run: seq<State>, age: int) {
    forall k, on, id :: 0 <= k < |run| && (on == c.userCache || on == c.authCache) ==> AnswerWithin(run, k, on, id, age)
  }

  /** So in all runs whose puts come within d of their selects. */
  ghost predicate AllWithin(c: Config, d: int, age: int) {
    forall run, steps :: IsRun(c, run, steps) && PutsWithin(run, steps, d) ==> AnswersWithin(c, run, age)
  }

  ghost predicate FetchFree(steps: seq<Step>) {
    forall i :: 0 <= i < |steps| ==> !steps[i].Fetch?
  }

  /** So in all runs where select and puts of a request are one step. */
  ghost predicate AtomicWithin(c: Config, age: int) {
    forall run, steps :: IsRun(c, run, steps) && FetchFree(steps) ==> AnswersWithin(c, run, age)
  }

  /** The last state answers the first administrator, who was a row only in states at least age time units before. */
  ghost predicate OldAnswer(run: seq<State>, on: bool, age: int) {
    && |run| > 0
    && var last := run[|run| - 1];
       && HasShards(last) && Found(last, on, 1) == FIRST
       && forall j :: 0 <= j < |run| && RowAt(run[j], FIRST) ==> last.clock - run[j].clock >= age
  }

  lemma OldAnswerBreaks(c: Config, run: seq<State>, on: bool, held: int, age: int)
    requires OldAnswer(run, on, held) && (on == c.userCache || on == c.authCache) && age < held
    ensures !AnswersWithin(c, run, age)
  {
    assert !AnswerWithin(run, |run| - 1, on, 1, age);
  }

  lemma Extend(c: Config, run: seq<State>, steps: seq<Step>, e: Step, s: State)
    returns (run': seq<State>, steps': seq<Step>)
    requires IsRun(c, run, steps) && Does(c, run[|steps|], e, s)
    ensures IsRun(c, run', steps') && run' == run + [s] && steps' == steps + [e]
  {
    AppendStep(c, run, steps, e, s);
    run', steps' := run + [s], steps + [e];
  }

  /** The first administrator was a row only while the clock stood at zero. */
  ghost predicate EarlyRow(run: seq<State>) {
    forall j :: 0 <= j < |run| && RowAt(run[j], FIRST) ==> run[j].clock == 0
  }

  ghost predicate NoTime(run: seq<State>) {
    forall j :: 0 <= j < |run| ==> run[j].clock == 0
  }

  lemma RenamedRow(c: Config, s: State)
    requires RowsAre(c, s.shards, map[1 := Public(RENAMED)])
    ensures !RowAt(s, FIRST)
  {
    assert |RENAMED.name| != |FIRST.name|;
  }

  /** The state after a request to rename row 1, before the consumer starts. */
  ghost predicate Asked(c: Config, s: State) {
    && RowsAre(c, s.shards, map[1 := FIRST]) && HasShards(s) && s.clock == 0
    && s.consumer == Down && s.committed == 0 && s.log == [Obj(ToJson(RENAMED))]
    && s.cache == PutUser(map[], 0, true, FIRST)
  }

  ghost predicate Renamed(c: Config, s: State, s': State) {
    && RowsAre(c, s'.shards, map[1 := Public(RENAMED)]) && HasShards(s')
    && s' == s.(shards := s'.shards, consumer := Applied(0))
  }

  /** The renaming is consumed; nothing else changes. */
  lemma RenameRun(c: Config, run: seq<State>, steps: seq<Step>, s: State) returns (run': seq<State>, steps': seq<Step>)
    requires IsRun(c, run, steps) && run[|steps|] == s && Asked(c, s) && NoTime(run)
    ensures IsRun(c, run', steps') && steps' == steps + [Start] + [Poll] + [Apply] && |run'| == |run| + 3
    ensures run <= run' && NoTime(run') && Renamed(c, s, run'[|steps'|])
  {
    var sh := ApplyRename(c, s);
    var s1, s2, s3 := s.(consumer := Idle(0)), s.(consumer := Polled(0)), s.(shards := sh, consumer := Applied(0));
    run', steps' := Extend(c, run, steps, Start, s1);
    run', steps' := Extend(c, run', steps', Poll, s2);
    run', steps' := Extend(c, run', steps', Apply, s3);
  }

  /** Time passes after the renaming. */
  lemma WaitRun(c: Config, run: seq<State>, steps: seq<Step>, d: nat) returns (run': seq<State>, steps': seq<Step>)
    requires IsRun(c, run, steps) && EarlyRow(run) && RowsAre(c, run[|steps|].shards, map[1 := Public(RENAMED)])
    requires HasShards(run[|steps|])
    ensures IsRun(c, run', steps') && EarlyRow(run') && steps' == steps + [Tick(d)]
    ensures run' == run + [run[|steps|].(clock := run[|steps|].clock + d)]
  {
    var s := run[|steps|].(clock := run[|steps|].clock + d);
    RenamedRow(c, s);
    run', steps' := Extend(c, run, steps, Tick(d), s);
  }

  lemma SetUpRun(c: Config) returns (run: seq<State>, s: State)
    ensures IsRun(c, run, [SetUp]) && run == [EmptyState(c), s] && RowsAre(c, s.shards, map[1 := FIRST]) && HasShards(s)
    ensures s == EmptyState(c).(shards := s.shards, nextId := 2)
  {
    EmptyRows(c);
    s := SetUpFirst(c);
    var steps;
    run, steps := Extend(c, [EmptyState(c)], [], SetUp, s);
  }

  lemma AskRun(c: Config) returns (run: seq<State>, steps: seq<Step>)
    requires c.userCache
    ensures IsRun(c, run, steps) && steps == [SetUp, Edit(1, RENAME, true)] && NoTime(run) && Asked(c, run[2])
  {
    var s;
    run, s := SetUpRun(c);
    RowReads(c, s, true);
    RenameFirst(c, s);
    run, steps := Extend(c, run, [SetUp], Edit(1, RENAME, true), Read(s, true, 1).(log := [Obj(ToJson(RENAMED))]));
  }

  /** A read right before the renaming is answered for a whole life after it, without any fetch. */
  lemma OldByLife(c: Config) returns (run: seq<State>, steps: seq<Step>)
    requires c.userCache
    ensures IsRun(c, run, steps) && FetchFree(steps) && OldAnswer(run, true, 60)
  {
    run, steps := AskRun(c);
    run, steps := RenameRun(c, run, steps, run[2]);
    run, steps := WaitRun(c, run, steps, 60);
    DecodeWithPassword(FIRST);
  }

  /** A request holds row 1 from before the renaming; it has not put it yet. */
  lemma FetchRun(c: Config) returns (run: seq<State>, s: State)
    requires c.userCache
    ensures IsRun(c, run, [SetUp, Fetch(7, ByUser, 1), Edit(1, RENAME, true)])
    ensures run[3] == s && Asked(c, s) && s.tasks == map[7 := Task(FIRST, PutId, ByUser)] && NoTime(run)
  {
    var steps;
    run, s := SetUpRun(c);
    RowReads(c, s, true);
    var s1 := s.(tasks := map[7 := Task(FIRST, PutId, ByUser)]);
    run, steps := Extend(c, run, [SetUp], Fetch(7, ByUser, 1), s1);
    RowReads(c, s1, true);
    RenameFirst(c, s1);
    s := Read(s1, true, 1).(log := [Obj(ToJson(RENAMED))]);
    run, steps := Extend(c, run, steps, Edit(1, RENAME, true), s);
    assert steps == [SetUp, Fetch(7, ByUser, 1), Edit(1, RENAME, true)];
  }

  ghost function LateSteps(d: nat): seq<Step> {
    [SetUp, Fetch(7, ByUser, 1), Edit(1, RENAME, true), Start, Poll, Apply, Tick(d), Put(7), Tick(60)]
  }

  lemma LatePutsWithin(run: seq<State>, d: nat)
    requires |run| == 10 && run[1].clock == 0 && run[7].clock == d
    ensures PutsWithin(run, LateSteps(d), d)
  {
    forall m, f | 0 <= m < 9 && LateSteps(d)[m].Put? && LastFetch(LateSteps(d), m, LateSteps(d)[m].task, f)
      ensures run[m].clock - run[f].clock <= d
    {
      assert m == 7 && f == 1;
    }
  }

  /** The put comes d after the select. */
  lemma LatePutRun(c: Config, d: nat) returns (run: seq<State>, steps: seq<Step>)
    requires c.userCache
    ensures IsRun(c, run, steps) && steps + [Tick(60)] == LateSteps(d) && EarlyRow(run)
    ensures run[1].clock == 0 && run[7].clock == d
    ensures
      var s := run[8];
      && RowsAre(c, s.shards, map[1 := Public(RENAMED)]) && HasShards(s) && s.clock == d
      && s.cache == PutEntry(PutUser(map[], 0, true, FIRST), d, true, ToString(1), Obj(ToJsonWithPassword(FIRST)))
  {
    var s;
    run, s := FetchRun(c);
    run, steps := RenameRun(c, run, [SetUp, Fetch(7, ByUser, 1), Edit(1, RENAME, true)], s);
    run, steps := WaitRun(c, run, steps, d);
    var s1 := PutTask(run[|steps|], 7);
    RenamedRow(c, s1);
    run, steps := Extend(c, run, steps, Put(7), s1);
  }

  /** A put that comes d after its select is answered for a whole life more. */
  lemma OldByLatePut(c: Config, d: nat) returns (run: seq<State>)
    requires c.userCache
    ensures IsRun(c, run, LateSteps(d)) && PutsWithin(run, LateSteps(d), d) && OldAnswer(run, true, 60 + d)
  {
    var steps;
    run, steps := LatePutRun(c, d);
    run, steps := WaitRun(c, run, steps, 60);
    LatePutsWithin(run, d);
    DecodeWithPassword(FIRST);
  }

  /** A validated token puts row 1 in the cache of the sign-in service; then the row is asked to be renamed. */
  lemma ValidateRun(c: Config) returns (run: seq<State>, steps: seq<Step>)
    requires c.authCache
    ensures IsRun(c, run, steps) && steps == [SetUp, Validate(Signed(1, FIRST.login)), Edit(1, RENAME, true)]
    ensures NoTime(run) && Asked(c, run[3])
  {
    var s;
    run, s := SetUpRun(c);
    RowReads(c, s, true);
    var s1 := Read(s, true, 1);
    run, steps := Extend(c, run, [SetUp], Validate(Signed(1, FIRST.login)), s1);
    HeldReads(c, s1);
    RenameFirst(c, s1);
    run, steps := Extend(c, run, steps, Edit(1, RENAME, true), s1.(log := [Obj(ToJson(RENAMED))]));
  }

  lemma HeldReads(c: Config, s: State)
    requires RowsAre(c, s.shards, map[1 := FIRST]) && HasShards(s) && s.clock == 0
    requires s.cache == PutUser(map[], 0, true, FIRST)
    ensures Found(s, c.userCache, 1) == FIRST && Read(s, c.userCache, 1) == s
  {
    PutUserReads(map[], 0, FIRST, ToString(1));
    RowRefines(s.shards, 1);
  }

  /** With a cache in the sign-in service a validated token leaves a value that sign-ins can renew for ever. */
  lemma HeldRun(c: Config) returns (run: seq<State>, steps: seq<Step>)
    requires c.authCache
    ensures IsRun(c, run, steps) && FetchFree(steps) && NoTime(run) && StaleHeld(c, run[|steps|], FIRST)
  {
    run, steps := ValidateRun(c);
    run, steps := RenameRun(c, run, steps, run[3]);
    HeldAfterRename(c, run[|steps|]);
  }

  lemma HeldAfterRename(c: Config, s: State)
    requires c.authCache && RowsAre(c, s.shards, map[1 := Public(RENAMED)]) && HasShards(s)
    requires s.cache == PutUser(map[], 0, true, FIRST) && s.clock == 0
    ensures StaleHeld(c, s, FIRST)
  {
    DecodeWithPassword(FIRST);
  }

  /** Every sign-in renews the outdated value: n lives later it is still answered. */
  lemma OldByRePut(c: Config, n: nat) returns (run: seq<State>, steps: seq<Step>)
    requires c.authCache
    ensures IsRun(c, run, steps) && FetchFree(steps) && OldAnswer(run, true, 60 * n)
  {
    var run0, steps0 := HeldRun(c);
    RunInv(c, run0, steps0, |steps0|, false);
    var run1, steps1 := NoBoundWithRePut(c, run0[|steps0|], FIRST, n);
    JoinMoves(c, run0, steps0, run1, steps1);
    run, steps := run0 + run1[1..], steps0 + steps1;
    assert run[|run| - 1] == run1[|run1| - 1];
    forall j | 0 <= j < |run|
      ensures RowAt(run[j], FIRST) ==> run[j].clock == 0
    {
      if j >= |run0| {
        assert run[j] == run1[j - |run0| + 1];
      }
    }
  }

  lemma OlderWithin(run: seq<State>, k: nat, on: bool, id: int, age: int, age': int)
    requires k < |run| && AnswerWithin(run, k, on, id, age) && age <= age'
    ensures AnswerWithin(run, k, on, id, age')
  {
  }

  lemma RunWithin(c: Config, run: seq<State>, steps: seq<Step>, d: nat, age: nat)
    requires IsRun(c, run, steps) && PutsWithin(run, steps, d) && !c.authCache && (c.userCache ==> age >= 60 + d)
    ensures AnswersWithin(c, run, age)
  {
    forall k, on, id | 0 <= k < |run| && (on == c.userCache || on == c.authCache)
      ensures AnswerWithin(run, k, on, id, age)
    {
      BoundedStaleness(c, run, steps, k, on, id, d);
      OlderWithin(run, k, on, id, if on then 60 + d else 0, age);
    }
  }

  /** With every put within d of its select, all answers are the row at most age before exactly when the sign-in
      service has no cache and, if the user service has one, age covers the life of an entry and d. */
  lemma BoundExactly(c: Config, d: nat, age: nat)
    ensures AllWithin(c, d, age) <==> !c.authCache && (c.userCache ==> age >= 60 + d)
  {
    if !c.authCache && (c.userCache ==> age >= 60 + d) {
      forall run, steps | IsRun(c, run, steps) && PutsWithin(run, steps, d)
        ensures AnswersWithin(c, run, age)
      {
        RunWithin(c, run, steps, d, age);
      }
    } else if c.authCache {
      var run, steps := OldByRePut(c, age + 1);
      FetchFreePuts(run, steps, d);
      OldAnswerBreaks(c, run, true, 60 * (age + 1), age);
    } else {
      var run := OldByLatePut(c, d);
      OldAnswerBreaks(c, run, true, 60 + d, age);
    }
  }

  /** Without fetches there are no late puts. */
  lemma FetchFreePuts(run: seq<State>, steps: seq<Step>, d: nat)
    requires |run| == |steps| + 1 && FetchFree(steps)
    ensures PutsWithin(run, steps, d)
  {
    forall k, task, f
      ensures !LastFetch(steps, k, task, f)
    {
    }
  }

  /** With select and puts in one step the bound is the life of an entry; it exists exactly when the sign-in
      service has no cache. */
  lemma AtomicBoundExactly(c: Config, age: nat)
    ensures AtomicWithin(c, age) <==> !c.authCache && (c.userCache ==> age >= 60)
  {
    if !c.authCache && (c.userCache ==> age >= 60) {
      forall run, steps | IsRun(c, run, steps) && FetchFree(steps)
        ensures AnswersWithin(c, run, age)
      {
        FetchFreePuts(run, steps, 0);
        RunWithin(c, run, steps, 0, age);
      }
    } else if c.authCache {
      var run, steps := OldByRePut(c, age + 1);
      OldAnswerBreaks(c, run, true, 60 * (age + 1), age);
    } else {
      var run, steps := OldByLife(c);
      OldAnswerBreaks(c, run, true, 60, age);
    }
  }

  /** In particular no bound at all holds with a cache in the sign-in service. */
  lemma SomeBoundExactly(c: Config)
    ensures (exists age: nat :: AtomicWithin(c, age)) <==> !c.authCache
  {
    AtomicBoundExactly(c, 60);
    if age: nat :| AtomicWithin(c, age) {
      AtomicBoundExactly(c, age);
    }
  }
}
