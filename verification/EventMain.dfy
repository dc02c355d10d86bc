/** The event consumer's poll, apply, commit loop. */
module EventMain {
  import opened Wrappers
  import opened Users
  import opened Sharding
  import opened CacheModel
  import opened DatabaseModel
  import opened Replays
  import opened Queue
  import opened Objects
  import opened Consuming
  import System

  /** What one poll brings: nothing, an error notification, or the next record if there is one. */
  datatype Poll = Nothing | Notification(eof: bool) | NextRecord

  /** The messages from first up to last, with no id lost. */
  ghost function CleanTrail(all: seq<Json>, first: nat, last: nat): Trail
    requires first <= last <= |all|
  {
    if first == last then Begin else Record(CleanTrail(all, first, last - 1), all[last - 1], 0)
  }

  ghost predicate CleanlyReplayed(start: Replayed, all: seq<Json>, first: nat, last: nat, r: Replayed) {
    first <= last <= |all| && r == Replay(start, CleanTrail(all, first, last))
  }

  lemma CleanTrailStep(start: Replayed, all: seq<Json>, first: nat, last: nat)
    requires first <= last < |all|
    ensures Replay(start, CleanTrail(all, first, last + 1)) ==
            ApplyMessage(Replay(start, CleanTrail(all, first, last)), all[last], 0)
  {
  }

  /** Decode and save one record: the rows and the next id are those of the save, and of the meaning of the message.
      A failure leaves the rows alone but may have taken an id. */
  method ApplyRecord(db: Database, payload: Json) returns (failed: bool)
    requires db.Valid() && db.nextId > 0
    modifies db`shards, db`nextId
    ensures db.Valid() && db.nextId > 0
    ensures
      SaveMessage(old(db.shards), old(db.nextId), payload) == (if failed then None else Some(db.shards), db.nextId)
    ensures !failed ==>
              Replayed(Logical(db.shards), db.nextId) ==
              ApplyMessage(Replayed(old(Logical(db.shards)), old(db.nextId)), payload, 0)
    ensures failed ==> db.shards == old(db.shards) && old(db.nextId) <= db.nextId <= old(db.nextId) + 1
  {
    match FromJson(payload)
    case None =>
      return true;
    case Some(user) =>
      var r, _ := db.SaveToDb(user);
      return r.Err?;
  }

  /** The view of the objects while the consumer waits at a position. */
  ghost function Waiting(db: Database, cache: Cache, rest: Rest, position: nat): System.State
    reads db, cache, rest.topic
  {
    View(db, cache, rest.(consumer := System.Idle(position)))
  }

  /** One record: saved, then committed unless the save threw. */
  method SaveAndCommit(db: Database, topic: Topic, position: nat, ghost cache: Cache, ghost rest: Rest,
                       ghost before: System.State)
    returns (failed: bool)
    requires Consumes(rest.config, before, Waiting(db, cache, rest, position))
    requires db.Valid() && db.nextId > 0 && position == topic.committed < |topic.messages| && rest.topic == topic
    modifies db`shards, db`nextId, topic`committed
    ensures db.Valid() && db.nextId > 0 && topic.committed == if failed then position else position + 1
    ensures HasRecord(old(Waiting(db, cache, rest, position)))
    ensures AfterRecord(old(Waiting(db, cache, rest, position))) ==
            if failed then View(db, cache, rest.(consumer := System.Down)) else Waiting(db, cache, rest, position + 1)
    ensures failed ==> Consumes(rest.config, before, View(db, cache, rest.(consumer := System.Down)))
    ensures !failed ==> Consumes(rest.config, before, Waiting(db, cache, rest, position + 1))
    ensures !failed ==>
              Replayed(Logical(db.shards), db.nextId) ==
              ApplyMessage(Replayed(old(Logical(db.shards)), old(db.nextId)), topic.messages[position].payload, 0)
    ensures failed ==> db.shards == old(db.shards) && old(db.nextId) <= db.nextId <= old(db.nextId) + 1
    ensures SaveMessage(old(db.shards), old(db.nextId), topic.messages[position].payload) ==
            (if failed then None else Some(db.shards), db.nextId)
  {
    RecordConsumed(rest.config, before, Waiting(db, cache, rest, position));
    failed := ApplyRecord(db, topic.messages[position].payload);
    if !failed {
      topic.committed := position + 1;
    }
  }

  /** How many records these polls ask for. */
  ghost function Deliveries(polls: seq<Poll>): nat {
    multiset(polls)[NextRecord]
  }

  lemma OneMorePoll(polls: seq<Poll>, i: nat)
    requires i < |polls|
    ensures Deliveries(polls[..i + 1]) == Deliveries(polls[..i]) + if polls[i].NextRecord? then 1 else 0
    ensures Deliveries(polls[..i + 1]) <= Deliveries(polls)
  {
    assert polls[..i + 1] == polls[..i] + [polls[i]];
    assert polls == polls[..i + 1] + polls[i + 1..];
  }

  /** The consumer from start to its end, by signal when the polls are over or by an exception. Every record that a poll
      brings is consumed: it is saved and committed, up to the first record whose save throws on the rows left behind,
      which ends the consumer. The rows are those of the committed messages applied in order, once each, and the whole
      is a run of the consumer's steps. */
  method Consume(db: Database, topic: Topic, polls: seq<Poll>, ghost cache: Cache, ghost rest: Rest)
    returns (failed: bool)
    requires db.Valid() && db.nextId > 0 && topic.committed <= |topic.messages|
    requires rest.topic == topic && rest.consumer.Down?
    modifies db`shards, db`nextId, topic`committed
    ensures db.Valid() && old(topic.committed) <= topic.committed <= |topic.messages|
    ensures !failed ==>
              var asked := old(topic.committed) + Deliveries(polls);
              topic.committed == if asked < |topic.messages| then asked else |topic.messages|
    ensures failed ==> topic.committed < |topic.messages| && topic.committed - old(topic.committed) < Deliveries(polls)
    ensures
      var start := Replayed(old(Logical(db.shards)), old(db.nextId));
      var done := Replay(start, CleanTrail(Payloads(topic.messages), old(topic.committed), topic.committed));
      && Logical(db.shards) == done.table
      && (if failed then SaveMessage(db.shards, done.next, topic.messages[topic.committed].payload) == (None, db.nextId)
          else done.next == db.nextId)
    ensures Consumes(rest.config, old(View(db, cache, rest)), View(db, cache, rest))
  {
    ghost var start := Replayed(Logical(db.shards), db.nextId);
    ghost var all := Payloads(topic.messages);
    ghost var first := topic.committed;
    ghost var before := View(db, cache, rest);
    var position := topic.committed;
    Started(rest.config, before);
    assert rest.(consumer := System.Down) == rest;
    for i := 0 to |polls|
      invariant db.Valid() && db.nextId > 0
      invariant first <= topic.committed == position <= |topic.messages|
      invariant position == if first + Deliveries(polls[..i]) < |topic.messages| then first + Deliveries(polls[..i])
                            else |topic.messages|
      invariant CleanlyReplayed(start, all, first, position, Replayed(Logical(db.shards), db.nextId))
      invariant Consumes(rest.config, before, Waiting(db, cache, rest, position))
    {
      OneMorePoll(polls, i);
      if polls[i].NextRecord? && position < |topic.messages| {
        var broken := SaveAndCommit(db, topic, position, cache, rest, before);
        if broken {
          return true;
        }
        CleanTrailStep(start, all, first, position);
        position := position + 1;
      }
    }
    assert polls[..|polls|] == polls;
    Stopped(rest.config, before, Waiting(db, cache, rest, position));
    return false;
  }
}
