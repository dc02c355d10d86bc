/** The objects of the running programs as one state of the transition system. */
module Objects {
  import opened CacheModel
  import opened DatabaseModel
  import opened Queue
  import opened System

  /** What a single program does not hold: the deployment, the broker, and where the other programs are. */
  datatype Rest = Rest(config: Config, topic: Topic, consumer: Consumer, tasks: map<nat, Task>,
                       scans: map<nat, Scan>)

  /** The state of the system that the objects stand for. */
  ghost function View(db: Database, cache: Cache, rest: Rest): State
    reads db, cache, rest.topic
  {
    State(db.shards, db.roles, db.nextId, cache.entries, Payloads(rest.topic.messages), rest.topic.committed,
          rest.consumer, rest.tasks, rest.scans, cache.now)
  }

  /** The new database, cache and topic stand for an initial state, from which all runs start. */
  method Deploy(c: Config, enabled: bool, now: int) returns (db: Database, cache: Cache, topic: Topic)
    ensures fresh(db) && fresh(cache) && fresh(topic)
    ensures db.Valid() && db.maxShard == c.maxShard && cache.enabled == enabled
    ensures Init(c, View(db, cache, Rest(c, topic, Down, map[], map[])))
  {
    db := new Database(c.maxShard);
    cache := new Cache(enabled, now);
    topic := new Topic();
  }
}
