/** What follows when a sign-up body may carry an id. */
module OpenRuns {
  import opened Users
  import opened Sharding
  import opened System
  import opened Frames
  import opened Invariant
  import opened Consuming
  import opened Authority
  import opened Scenarios

  lemma {:induction false} OpenLogGrows(c: Config, run: seq<State>, steps: seq<Step>, j: nat, k: nat)
    requires IsOpenRun(c, run, steps) && j <= k < |run|
    ensures run[j].log <= run[k].log
    decreases k
  {
    if j < k {
      OpenLogGrows(c, run, steps, j, k - 1);
      assert OpenStepAt(c, run, steps, k - 1);
      StoreFrame(c, run[k - 1], steps[k - 1]);
    }
  }

  /** Every update event in the final log was asked for by the owner of the row it names or by an admin. */
  ghost predicate AllAuthorised(run: seq<State>, steps: seq<Step>)
    requires |run| == |steps| + 1
  {
    var log := run[|steps|].log;
    forall p :: 0 <= p < |log| && IsUpdate(log[p]) ==>
      AskedBefore(run, steps, |steps|, p, FromJson(log[p]).value.id)
  }

  /** One step appends one event. */
  lemma AppendedOnce(c: Config, run: seq<State>, steps: seq<Step>, i: nat, j: nat, p: nat)
    requires IsOpenRun(c, run, steps) && i < |steps| && j < |steps| && AppendsAt(run, i, p) && AppendsAt(run, j, p)
    ensures i == j
  {
    if i < j {
      OpenLogGrows(c, run, steps, i + 1, j);
    } else if i > j {
      OpenLogGrows(c, run, steps, j + 1, i);
    }
  }

  /** The event of a forging sign-up was asked for by nobody. */
  lemma ForgedEvent(c: Config, run: seq<State>, steps: seq<Step>, j: nat)
    requires IsOpenRun(c, run, steps) && j < |steps| && Forges(steps[j])
    ensures !AllAuthorised(run, steps)
  {
    var p := |run[j].log|;
    assert OpenStepAt(c, run, steps, j);
    ForgeAppends(c, run[j], steps[j]);
    OpenLogGrows(c, run, steps, j + 1, |steps|);
    assert run[|steps|].log[p] == run[j + 1].log[p];
    forall i | 0 <= i < |steps| && AppendsAt(run, i, p)
      ensures i == j
    {
      AppendedOnce(c, run, steps, i, j, p);
    }
  }

  /** In a run of the code as it is, all update events were asked for by an owner or an admin exactly when no accepted
      and sent sign-up carried a positive id. */
  lemma EventsAuthorisedExactly(c: Config, run: seq<State>, steps: seq<Step>)
    requires IsOpenRun(c, run, steps)
    ensures AllAuthorised(run, steps) <==> forall j :: 0 <= j < |steps| ==> !Forges(steps[j])
  {
    if forall j :: 0 <= j < |steps| ==> !Forges(steps[j]) {
      var log := run[|steps|].log;
      forall p | 0 <= p < |log| && IsUpdate(log[p])
        ensures AskedBefore(run, steps, |steps|, p, FromJson(log[p]).value.id)
      {
        OpenEvents(c, run, steps, |steps|, p);
      }
    } else {
      var j :| 0 <= j < |steps| && Forges(steps[j]);
      ForgedEvent(c, run, steps, j);
    }
  }

  const FORGED := ANN.(id := 1, login := "zed")

  lemma AnnSigned(c: Config) returns (s: State)
    ensures CaughtUp(c, s) && T(s) == map[1 := ROW_1] && s.cache == map[]
  {
    EmptyRows(c);
    StartIdle(c, EmptyState(c));
    AnnAndBob();
    s := SignedUp(c, EmptyState(c).(consumer := Idle(0)), ANN);
    assert map[][1 := ROW_1] == map[1 := ROW_1];
  }

  lemma ForgedSaved(c: Config, s: State)
    requires Inv(c, s, false) && T(s) == map[1 := ROW_1]
    ensures
      var saved := SaveMessage(s.shards, s.nextId, Obj(ToJson(FORGED)));
      saved.0.Some? && |saved.0.value| > 0 && Logical(saved.0.value) == map[1 := Public(FORGED)]
  {
    DecodePlain(FORGED);
    UpdateRefines(s.shards, Public(FORGED));
    assert map[1 := ROW_1][1 := Public(FORGED)] == map[1 := Public(FORGED)];
  }

  ghost predicate SignUpsAndConsumer(steps: seq<Step>) {
    forall i :: 0 <= i < |steps| ==> steps[i].SignUp? || IsConsumerStep(steps[i])
  }

  lemma PrependOpen(c: Config, s: State, e: Step, run: seq<State>, steps: seq<Step>)
    requires OpenMoves(c, run, steps) && Possible(c, s, e) && Next(c, s, e) == run[0]
    ensures OpenMoves(c, [s] + run, [e] + steps)
  {
    forall i | 0 <= i < |steps| + 1
      ensures OpenStepAt(c, [s] + run, [e] + steps, i)
    {
      if i > 0 {
        assert OpenStepAt(c, run, steps, i - 1);
      }
    }
  }

  /** One sign-up with the id of a row, and the consumer, give that row another login: nobody requested an edit. */
  lemma LoginForged(c: Config) returns (run: seq<State>, steps: seq<Step>)
    ensures OpenMoves(c, run, steps) && Reachable(c, run[0]) && SignUpsAndConsumer(steps)
    ensures HasShards(run[0]) && 1 in T(run[0]) && T(run[0])[1].login == "ann"
    ensures
      var last := run[|steps|];
      HasShards(last) && 1 in T(last) && T(last)[1].login == "zed"
  {
    var s := AnnSigned(c);
    ReachableInv(c, s);
    AnnAndBob();
    var e := SignUp(Obj(ToJsonWithPassword(FORGED)), true);
    var s1 := s.(log := s.log + [Obj(ToJson(FORGED))]);
    DecodeWithPassword(FORGED);
    ForgedSaved(c, s);
    RecordSteps(c, s1);
    run, steps :| ConsumerRun(c, run, steps, s1, AfterRecord(s1));
    MovesAreOpen(c, run, steps);
    PrependOpen(c, s, e, run, steps);
    run, steps := [s] + run, [e] + steps;
  }
}
