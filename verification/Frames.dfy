/** Which parts of the state each group of steps may touch. */
module Frames {
  import opened Users
  import opened System

  /** Whole requests. */
  predicate IsRequest(e: Step) {
    e.SignUp? || e.SignIn? || e.Validate? || e.Get? || e.Search? || e.Edit? || e.Delete?
  }

  /** The parts of a cut request. */
  predicate IsTaskStep(e: Step) {
    e.Fetch? || e.Put? || e.EditFetched? || e.DeleteFetched? || e.Finish?
  }

  /** The parts of a cut search. */
  predicate IsScanStep(e: Step) {
    e.StartSearch? || e.SelectShard? || e.SaveSearch?
  }

  predicate IsConsumerStep(e: Step) {
    e.Start? || e.Poll? || e.Apply? || e.TakeId? || e.Insert? || e.Commit? || e.Crash?
  }

  lemma EditWithFrame(s: State, u: User, requester: int, body: Object, sent: bool)
    requires HasShards(s)
    ensures EditWith(s, u, requester, body, sent) == s.(log := EditWith(s, u, requester, body, sent).log)
    ensures s.log <= EditWith(s, u, requester, body, sent).log
  {
  }

  lemma DeleteWithFrame(s: State, u: User, requester: int)
    requires HasShards(s)
    ensures DeleteWith(s, u, requester) == s.(shards := DeleteWith(s, u, requester).shards)
  {
  }

  lemma RequestFrame(c: Config, s: State, e: Step, s': State)
    requires Possible(c, s, e) && s' == Next(c, s, e) && IsRequest(e)
    ensures s' == s.(shards := s'.shards, cache := s'.cache, log := s'.log) && s.log <= s'.log
    ensures !e.Delete? ==> s'.shards == s.shards
    ensures !e.SignUp? && !e.Edit? ==> s'.log == s.log
  {
    if e.Edit? {
      if Id in e.changes && e.changes[Id].Num? {
        var id := e.changes[Id].n;
        EditWithFrame(Read(s, c.userCache, id), Found(s, c.userCache, id), e.requester, e.changes, e.sent);
      }
    } else if e.Delete? {
      DeleteWithFrame(Read(s, c.userCache, e.id), Found(s, c.userCache, e.id), e.requester);
    }
  }

  lemma TaskFrame(c: Config, s: State, e: Step, s': State)
    requires Possible(c, s, e) && s' == Next(c, s, e) && IsTaskStep(e)
    ensures s' == s.(shards := s'.shards, cache := s'.cache, log := s'.log, tasks := s'.tasks) && s.log <= s'.log
    ensures !e.DeleteFetched? ==> s'.shards == s.shards
    ensures !e.EditFetched? ==> s'.log == s.log
    ensures !e.Fetch? && !e.Put? ==> s'.tasks == s.tasks - {e.task}
    ensures !e.Put? ==> s'.cache == s.cache
  {
    if e.EditFetched? {
      EditWithFrame(s.(tasks := s.tasks - {e.task}), s.tasks[e.task].user, e.requester, e.changes, e.sent);
    } else if e.DeleteFetched? {
      DeleteWithFrame(s.(tasks := s.tasks - {e.task}), s.tasks[e.task].user, e.requester);
    }
  }

  lemma ScanFrame(c: Config, s: State, e: Step, s': State)
    requires Possible(c, s, e) && s' == Next(c, s, e) && IsScanStep(e)
    ensures s' == s.(cache := s'.cache, scans := s'.scans)
    ensures !e.SaveSearch? ==> s'.cache == s.cache
  {
  }

  lemma ApplyFrame(s: State)
    requires HasShards(s) && s.consumer.Polled? && s.consumer.pos < |s.log|
    ensures ApplyPolled(s) == s.(shards := ApplyPolled(s).shards, consumer := ApplyPolled(s).consumer)
  {
  }

  lemma InsertFrame(s: State)
    requires HasShards(s) && s.consumer.Numbered? && s.consumer.pos < |s.log| && FromJson(s.log[s.consumer.pos]).Some?
    ensures InsertNumbered(s) == s.(shards := InsertNumbered(s).shards, consumer := InsertNumbered(s).consumer)
  {
  }

  lemma SetUpFrame(s: State)
    requires HasShards(s)
    ensures SetUpAdmin(s) == s.(shards := SetUpAdmin(s).shards, nextId := SetUpAdmin(s).nextId)
  {
  }

  lemma ConsumerFrame(c: Config, s: State, e: Step, s': State)
    requires Possible(c, s, e) && s' == Next(c, s, e) && (IsConsumerStep(e) || e.SetUp?)
    ensures s' == s.(shards := s'.shards, nextId := s'.nextId, consumer := s'.consumer, committed := s'.committed)
    ensures !e.Apply? && !e.Insert? && !e.SetUp? ==> s'.shards == s.shards
    ensures e.SetUp? ==> s'.consumer == s.consumer && s'.committed == s.committed
  {
    if e.Apply? {
      ApplyFrame(s);
    } else if e.Insert? {
      InsertFrame(s);
    } else if e.SetUp? {
      SetUpFrame(s);
    }
  }

  lemma RestFrame(c: Config, s: State, e: Step, s': State)
    requires Possible(c, s, e) && s' == Next(c, s, e) && (e.Grant? || e.Revoke? || e.LoseId? || e.Tick?)
    ensures s' == s.(roles := s'.roles, nextId := s'.nextId, clock := s'.clock)
    ensures e.LoseId? || e.Tick? ==> s'.roles == s.roles
  {
  }

  /** Cut requests and cut searches are only touched by their own steps, roles only by grants and revocations. */
  lemma FlightFrame(c: Config, s: State, e: Step)
    requires Possible(c, s, e)
    ensures !IsTaskStep(e) ==> Next(c, s, e).tasks == s.tasks
    ensures !IsScanStep(e) ==> Next(c, s, e).scans == s.scans
    ensures !e.Grant? && !e.Revoke? ==> Next(c, s, e).roles == s.roles
    ensures !IsRequest(e) && !e.Put? && !e.SaveSearch? ==> Next(c, s, e).cache == s.cache
  {
    if IsRequest(e) {
      RequestFrame(c, s, e, Next(c, s, e));
    } else if IsTaskStep(e) {
      TaskFrame(c, s, e, Next(c, s, e));
    } else if IsScanStep(e) {
      ScanFrame(c, s, e, Next(c, s, e));
    } else if IsConsumerStep(e) || e.SetUp? {
      ConsumerFrame(c, s, e, Next(c, s, e));
    } else {
      RestFrame(c, s, e, Next(c, s, e));
    }
  }

  predicate WritesRows(e: Step) {
    e.Delete? || e.DeleteFetched? || e.Apply? || e.Insert? || e.SetUp?
  }

  /** Rows are written by deletions, the consumer and set-ups, events appended by sign-ups and edits. */
  lemma StoreFrame(c: Config, s: State, e: Step)
    requires Possible(c, s, e)
    ensures !WritesRows(e) ==> Next(c, s, e).shards == s.shards && HasShards(Next(c, s, e))
    ensures !e.SignUp? && !e.Edit? && !e.EditFetched? ==> Next(c, s, e).log == s.log
    ensures s.log <= Next(c, s, e).log
    ensures !IsConsumerStep(e) ==> Next(c, s, e).consumer == s.consumer && Next(c, s, e).committed == s.committed
    ensures !WritesRows(e) && !e.TakeId? && !e.LoseId? && !IsConsumerStep(e) ==> Next(c, s, e).nextId == s.nextId
  {
    FlightFrame(c, s, e);
    if IsRequest(e) {
      RequestFrame(c, s, e, Next(c, s, e));
    } else if IsTaskStep(e) {
      TaskFrame(c, s, e, Next(c, s, e));
    } else if IsScanStep(e) {
      ScanFrame(c, s, e, Next(c, s, e));
    } else if IsConsumerStep(e) || e.SetUp? {
      ConsumerFrame(c, s, e, Next(c, s, e));
    } else {
      RestFrame(c, s, e, Next(c, s, e));
    }
  }
}
