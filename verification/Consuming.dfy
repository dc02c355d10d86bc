/** What the consumer's steps make of whole records. */
module Consuming {
  import opened Wrappers
  import opened Users
  import opened Sharding
  import opened System
  import opened Frames

  ghost predicate ConsumerRun(c: Config, run: seq<State>, steps: seq<Step>, s: State, s': State) {
    && Moves(c, run, steps) && run[0] == s && run[|steps|] == s'
    && forall i :: 0 <= i < |steps| ==> IsConsumerStep(steps[i])
  }

  /** The consumer's steps alone lead from s to s'. */
  ghost predicate Consumes(c: Config, s: State, s': State) {
    exists run, steps :: ConsumerRun(c, run, steps, s, s')
  }

  lemma ConsumesNothing(c: Config, s: State)
    ensures Consumes(c, s, s)
  {
    assert ConsumerRun(c, [s], [], s, s);
  }

  lemma ConsumesStep(c: Config, s: State, s1: State, e: Step, s2: State)
    requires Consumes(c, s, s1) && Does(c, s1, e, s2) && IsConsumerStep(e)
    ensures Consumes(c, s, s2)
  {
    var run, steps :| ConsumerRun(c, run, steps, s, s1);
    AppendStep(c, run, steps, e, s2);
    assert ConsumerRun(c, run + [s2], steps + [e], s, s2);
  }

  lemma ConsumesMore(c: Config, s: State, s1: State, s2: State)
    requires Consumes(c, s, s1) && Consumes(c, s1, s2)
    ensures Consumes(c, s, s2)
  {
    var run, steps :| ConsumerRun(c, run, steps, s, s1);
    var run', steps' :| ConsumerRun(c, run', steps', s1, s2);
    JoinMoves(c, run, steps, run', steps');
    assert ConsumerRun(c, run + run'[1..], steps + steps', s, s2);
  }

  lemma ConsumesReachable(c: Config, s: State, s': State)
    requires Reachable(c, s) && Consumes(c, s, s')
    ensures Reachable(c, s')
  {
    var run, steps :| ConsumerRun(c, run, steps, s, s');
    MovesReachable(c, run, steps);
  }

  /** What saving one message makes of the rows and the next id; an undecodable one throws. */
  ghost function SaveMessage(sh: seq<Table>, next: int, m: Json): (Option<seq<Table>>, int)
    requires |sh| > 0
  {
    match FromJson(m)
    case Some(u) => SaveRows(sh, next, u)
    case None => (None, next)
  }

  /** An idle consumer with a record to come. */
  ghost predicate HasRecord(s: State) {
    HasShards(s) && s.consumer == Idle(s.committed) && s.committed < |s.log|
  }

  /** The record saved and committed, or the consumer ended by the exception. */
  ghost function AfterRecord(s: State): State
    requires HasRecord(s)
  {
    var saved := SaveMessage(s.shards, s.nextId, s.log[s.committed]);
    match saved.0
    case Some(written) =>
      s.(shards := written, nextId := saved.1, consumer := Idle(s.committed + 1), committed := s.committed + 1)
    case None => s.(nextId := saved.1, consumer := Down)
  }

  lemma InsertSteps(c: Config, s0: State, s: State)
    requires Consumes(c, s0, s) && HasShards(s) && s.consumer.Absent? && s.consumer.pos < |s.log|
    requires FromJson(s.log[s.consumer.pos]).Some?
    ensures Consumes(c, s0, InsertNumbered(s.(consumer := Numbered(s.consumer.pos, s.nextId), nextId := s.nextId + 1)))
  {
    var s1 := s.(consumer := Numbered(s.consumer.pos, s.nextId), nextId := s.nextId + 1);
    ConsumesStep(c, s0, s, TakeId, s1);
    ConsumesStep(c, s0, s1, Insert, InsertNumbered(s1));
  }

  /** The rows, the next id and the end of the consumer, or its place behind the save. */
  ghost function AfterSave(s: State): State
    requires HasShards(s) && s.committed < |s.log|
  {
    var saved := SaveMessage(s.shards, s.nextId, s.log[s.committed]);
    if saved.0.Some? then s.(shards := saved.0.value, nextId := saved.1, consumer := Applied(s.committed))
    else s.(nextId := saved.1, consumer := Down)
  }

  lemma SaveSteps(c: Config, s0: State, s: State)
    requires HasShards(s) && s.consumer == Polled(s.committed) && s.committed < |s.log| && Consumes(c, s0, s)
    ensures Consumes(c, s0, AfterSave(s))
  {
    var s1 := ApplyPolled(s);
    ConsumesStep(c, s0, s, Apply, s1);
    if s1.consumer.Absent? {
      InsertSteps(c, s0, s1);
    }
  }

  /** Poll, save, commit. */
  lemma RecordSteps(c: Config, s: State)
    requires HasRecord(s)
    ensures Consumes(c, s, AfterRecord(s))
  {
    var s1 := s.(consumer := Polled(s.committed));
    ConsumesNothing(c, s);
    ConsumesStep(c, s, s, Poll, s1);
    SaveSteps(c, s, s1);
    var saved := SaveMessage(s.shards, s.nextId, s.log[s.committed]);
    if saved.0.Some? {
      ConsumesStep(c, s, AfterSave(s1), Commit, AfterRecord(s));
    }
  }

  lemma Started(c: Config, s: State)
    requires HasShards(s) && s.consumer.Down?
    ensures Consumes(c, s, s.(consumer := Idle(s.committed)))
  {
    ConsumesNothing(c, s);
    ConsumesStep(c, s, s, Start, s.(consumer := Idle(s.committed)));
  }

  lemma RecordConsumed(c: Config, s0: State, s: State)
    requires Consumes(c, s0, s) && HasRecord(s)
    ensures Consumes(c, s0, AfterRecord(s))
  {
    RecordSteps(c, s);
    ConsumesMore(c, s0, s, AfterRecord(s));
  }

  lemma Stopped(c: Config, s0: State, s: State)
    requires Consumes(c, s0, s) && HasShards(s)
    ensures Consumes(c, s0, s.(consumer := Down))
  {
    ConsumesStep(c, s0, s, Crash, s.(consumer := Down));
  }

  /** The state once the records up to last are saved and committed; None when one of them throws. */
  ghost function CatchUp(s: State, last: nat): (r: Option<State>)
    requires HasShards(s) && s.consumer == Idle(s.committed) && s.committed <= last <= |s.log|
    ensures r.Some? ==> HasShards(r.value) && r.value.consumer == Idle(last) && r.value.committed == last
    ensures r.Some? ==> r.value == s.(shards := r.value.shards, nextId := r.value.nextId,
                                      consumer := r.value.consumer, committed := r.value.committed)
    decreases last
  {
    if s.committed == last then Some(s)
    else
      match CatchUp(s, last - 1)
      case None => None
      case Some(s1) =>
        if SaveMessage(s1.shards, s1.nextId, s1.log[s1.committed]).0.Some? then Some(AfterRecord(s1)) else None
  }

  /** When no record on the way throws, the consumer's steps lead there. */
  lemma {:induction false} CatchUpSteps(c: Config, s: State, last: nat)
    requires HasShards(s) && s.consumer == Idle(s.committed) && s.committed <= last <= |s.log|
    requires CatchUp(s, last).Some?
    ensures Consumes(c, s, CatchUp(s, last).value)
    decreases last
  {
    if s.committed == last {
      ConsumesNothing(c, s);
    } else {
      CatchUpSteps(c, s, last - 1);
      RecordConsumed(c, s, CatchUp(s, last - 1).value);
    }
  }

  lemma {:induction false} CatchUpPrefix(s: State, first: nat, last: nat)
    requires HasShards(s) && s.consumer == Idle(s.committed) && s.committed <= first <= last <= |s.log|
    requires CatchUp(s, last).Some?
    ensures CatchUp(s, first).Some?
    decreases last
  {
    if first < last {
      CatchUpPrefix(s, first, last - 1);
    }
  }
}
