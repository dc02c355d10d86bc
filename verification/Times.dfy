/** The clock, the times of entries and the log only ever move forward. */
module Times {
  import opened Users
  import opened Sharding
  import opened CacheModel
  import opened System

  /** Entries are never put in the future. */
  ghost predicate TimesOk(s: State) {
    forall key :: key in s.cache ==> s.cache[key].putAt <= s.clock
  }

  ghost predicate TimesKept(s: State, s': State) {
    TimesOk(s') && s.clock <= s'.clock && s.log <= s'.log
  }

  lemma PutUserTimes(es: Entries, now: int, on: bool, u: User)
    requires forall key :: key in es ==> es[key].putAt <= now
    ensures forall key :: key in PutUser(es, now, on, u) ==> PutUser(es, now, on, u)[key].putAt <= now
  {
  }

  lemma ReadTimes(s: State, on: bool, id: int)
    requires HasShards(s) && TimesOk(s)
    ensures TimesKept(s, Read(s, on, id))
  {
    if RowOf(s.shards, id).Some? {
      PutUserTimes(s.cache, s.clock, on, RowOf(s.shards, id).value);
    }
  }

  lemma SignInTimes(c: Config, s: State, e: Step)
    requires Enabled(c, s, e) && TimesOk(s) && e.SignIn?
    ensures TimesKept(s, Next(c, s, e))
  {
    if c.authCache {
      ReadTimes(s, true, e.answer);
      PutUserTimes(Read(s, true, e.answer).cache, s.clock, true, Found(s, true, e.answer));
    }
  }

  lemma EditTimes(c: Config, s: State, e: Step)
    requires Enabled(c, s, e) && TimesOk(s) && (e.Edit? || e.EditFetched?)
    ensures TimesKept(s, Next(c, s, e))
  {
    if e.Edit? && Id in e.changes && e.changes[Id].Num? {
      ReadTimes(s, c.userCache, e.changes[Id].n);
    }
  }

  lemma DeleteTimes(c: Config, s: State, e: Step)
    requires Enabled(c, s, e) && TimesOk(s) && (e.Delete? || e.DeleteFetched?)
    ensures TimesKept(s, Next(c, s, e))
  {
    if e.Delete? {
      ReadTimes(s, c.userCache, e.id);
    }
  }

  lemma GetTimes(c: Config, s: State, e: Step)
    requires Enabled(c, s, e) && TimesOk(s) && (e.Validate? || e.Get?)
    ensures TimesKept(s, Next(c, s, e))
  {
    match e
    case Validate(token) =>
      if token.Signed? {
        ReadTimes(s, c.authCache, token.id);
      }
    case Get(id) => ReadTimes(s, c.userCache, id);
  }

  lemma NextTimes(c: Config, s: State, e: Step)
    requires Enabled(c, s, e) && TimesOk(s)
    ensures TimesKept(s, Next(c, s, e))
  {
    if e.SignIn? {
      SignInTimes(c, s, e);
    } else if e.Edit? || e.EditFetched? {
      EditTimes(c, s, e);
    } else if e.Delete? || e.DeleteFetched? {
      DeleteTimes(c, s, e);
    } else if e.Validate? || e.Get? {
      GetTimes(c, s, e);
    }
  }

  lemma {:induction false} RunTimes(c: Config, run: seq<State>, steps: seq<Step>, k: nat)
    requires IsRun(c, run, steps) && k < |run|
    ensures TimesOk(run[k])
  {
    if k > 0 {
      RunTimes(c, run, steps, k - 1);
      assert StepAt(c, run, steps, k - 1);
      NextTimes(c, run[k - 1], steps[k - 1]);
    }
  }

  lemma {:induction false} RunLogGrows(c: Config, run: seq<State>, steps: seq<Step>, j: nat, k: nat)
    requires IsRun(c, run, steps) && j <= k < |run|
    ensures run[j].log <= run[k].log
  {
    if j < k {
      RunLogGrows(c, run, steps, j, k - 1);
      RunTimes(c, run, steps, k - 1);
      assert StepAt(c, run, steps, k - 1);
      NextTimes(c, run[k - 1], steps[k - 1]);
    }
  }

  lemma {:induction false} RunClock(c: Config, run: seq<State>, steps: seq<Step>, j: nat, k: nat)
    requires IsRun(c, run, steps) && j <= k < |run|
    ensures run[j].clock <= run[k].clock
  {
    if j < k {
      RunClock(c, run, steps, j, k - 1);
      RunTimes(c, run, steps, k - 1);
      assert StepAt(c, run, steps, k - 1);
      NextTimes(c, run[k - 1], steps[k - 1]);
    }
  }

  lemma ReachableTimes(c: Config, s: State)
    requires Reachable(c, s)
    ensures TimesOk(s)
  {
    var run, steps :| RunTo(c, run, steps, s);
    RunTimes(c, run, steps, |steps|);
  }
}
