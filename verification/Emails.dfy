/** Where emails are unique: per shard in every run, globally exactly when there is one shard. */
module Emails {
  import opened Wrappers
  import opened Users
  import opened Sharding
  import opened System
  import opened Frames
  import opened Invariant
  import opened Scenarios

  /** Two rows of one shard never share an email. */
  ghost predicate ShardEmails(t: Table, n: nat)
    requires n > 0
  {
    forall i, j :: i in t && j in t && ShardOf(i, n) == ShardOf(j, n) && t[i].email == t[j].email ==> i == j
  }

  /** The rows changed by one statement, which the constraints accepted. */
  ghost predicate Wrote(sh: seq<Table>, sh': seq<Table>, u: User) {
    |sh| > 0 && u.id > 0 && (UpdateRow(sh, u) == Some(sh') || InsertRow(sh, u) == Some(sh'))
  }

  ghost predicate WroteOnce(sh: seq<Table>, sh': seq<Table>) {
    sh' == sh || exists u :: Wrote(sh, sh', u)
  }

  lemma DeleteWithWrites(s: State, u: User, requester: int)
    requires HasShards(s)
    ensures WroteOnce(s.shards, DeleteWith(s, u, requester).shards)
  {
    if MayDelete(s, u, requester) && UpdateRow(s.shards, u.(deleted := true)).Some? {
      assert Wrote(s.shards, DeleteWith(s, u, requester).shards, u.(deleted := true));
    }
  }

  lemma ConsumerWrites(c: Config, s: State, e: Step)
    requires Basics(c, s) && Enabled(c, s, e) && (e.Apply? || e.Insert?)
    ensures WroteOnce(s.shards, Next(c, s, e).shards)
  {
    var sh' := Next(c, s, e).shards;
    if sh' != s.shards {
      var u := FromJson(s.log[s.consumer.pos]).value;
      assert Wrote(s.shards, sh', if e.Apply? then u else u.(id := s.consumer.id));
    }
  }

  lemma StepWrites(c: Config, s: State, e: Step)
    requires Basics(c, s) && Enabled(c, s, e)
    ensures WroteOnce(s.shards, Next(c, s, e).shards)
  {
    if e.Delete? {
      DeleteWithWrites(Read(s, c.userCache, e.id), Found(s, c.userCache, e.id), e.requester);
    } else if e.DeleteFetched? {
      DeleteWithWrites(s.(tasks := s.tasks - {e.task}), s.tasks[e.task].user, e.requester);
    } else if e.Apply? || e.Insert? {
      ConsumerWrites(c, s, e);
    } else if e.SetUp? {
      if SetUpAdmin(s).shards != s.shards {
        assert Wrote(s.shards, SetUpAdmin(s).shards, ADMIN.(id := s.nextId));
      }
    } else {
      StoreFrame(c, s, e);
    }
  }

  lemma WriteKeepsEmails(sh: seq<Table>, sh': seq<Table>, u: User)
    requires Placed(sh) && Wrote(sh, sh', u) && ShardEmails(Logical(sh), |sh|)
    ensures |sh'| == |sh| && ShardEmails(Logical(sh'), |sh'|)
  {
    UpdateRefines(sh, u);
    InsertRefines(sh, u);
    if Logical(sh') != Logical(sh) {
      forall i | i in Logical(sh) && i != u.id && ShardOf(i, |sh|) == ShardOf(u.id, |sh|)
        ensures Logical(sh)[i].email != u.email
      {
        assert !SameLoginOrEmail(Logical(sh)[i], u.login, u.email);
      }
    }
  }

  lemma StepKeepsEmails(c: Config, s: State, e: Step, s': State)
    requires Inv(c, s, false) && Does(c, s, e, s') && HasShards(s') && ShardEmails(T(s), |s.shards|)
    ensures ShardEmails(T(s'), |s'.shards|)
  {
    StepWrites(c, s, e);
    if s'.shards != s.shards {
      var u :| Wrote(s.shards, s'.shards, u);
      WriteKeepsEmails(s.shards, s'.shards, u);
    }
  }

  /** In every reachable state emails are unique within each shard. */
  lemma {:induction false} RunShardEmails(c: Config, run: seq<State>, steps: seq<Step>, k: nat)
    requires IsRun(c, run, steps) && k < |run|
    ensures HasShards(run[k]) && ShardEmails(T(run[k]), |run[k].shards|)
  {
    RunInv(c, run, steps, k, false);
    if k == 0 {
      assert T(run[0]) == map[];
    } else {
      RunShardEmails(c, run, steps, k - 1);
      RunNext(c, run, steps, k - 1);
      StepKeepsEmails(c, run[k - 1], steps[k - 1], run[k]);
    }
  }

  ghost predicate AlwaysUnique(c: Config) {
    forall s :: Reachable(c, s) && HasShards(s) ==> EmailsUnique(T(s))
  }

  /** Emails are unique in every reachable state exactly when the system has a single shard. */
  lemma EmailsUniqueExactly(c: Config)
    ensures AlwaysUnique(c) <==> c.maxShard == 0
  {
    if c.maxShard == 0 {
      forall s | Reachable(c, s) && HasShards(s)
        ensures EmailsUnique(T(s))
      {
        var run, steps :| RunTo(c, run, steps, s);
        RunShardEmails(c, run, steps, |steps|);
        ReachableInv(c, s);
      }
    } else {
      var s := EmailsCollide(c);
    }
  }
}
