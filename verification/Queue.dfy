/** The event queue and the producer's retry loop. */
module Queue {
  import opened Users
  import opened Decimal

  const SEND_ATTEMPTS := 10
  const CREATE_EVENT := "create_event"
  const UPDATE_EVENT := "update_event"

  datatype Message = Message(key: string, eventType: string, payload: Json)

  function Payloads(ms: seq<Message>): seq<Json> {
    seq(|ms|, i requires 0 <= i < |ms| => ms[i].payload)
  }

  lemma PayloadsOneMore(ms: seq<Message>, m: Message)
    ensures Payloads(ms + [m]) == Payloads(ms) + [m.payload]
  {
  }

  class Topic {
    var messages: seq<Message>
    var committed: nat

    constructor ()
      ensures messages == [] && committed == 0
    {
      messages := [];
      committed := 0;
    }
  }

  class Producer {
    const topic: Topic
    var messageKey: int
    ghost var sentKeys: seq<int>

    /** The keys this process put on its messages, in the order of sending, strictly increase. */
    ghost predicate Valid()
      reads this
    {
      && (forall i :: 0 <= i < |sentKeys| ==> sentKeys[i] <= messageKey)
      && (forall i, j :: 0 <= i < j < |sentKeys| ==> sentKeys[i] < sentKeys[j])
    }

    constructor (topic: Topic)
      ensures Valid() && this.topic == topic && messageKey == 0 && sentKeys == []
    {
      this.topic := topic;
      messageKey := 0;
      sentKeys := [];
    }

    /** rejects(a) says whether attempt a of this call throws. */
    method SendToQueue(u: User, rejects: nat -> bool) returns (sent: bool)
      requires Valid()
      modifies this, topic`messages
      ensures Valid()
      ensures sent <==> exists a :: 0 <= a < 10 && !rejects(a)
      ensures messageKey == old(messageKey) + 1
      ensures sentKeys == if sent then old(sentKeys) + [messageKey] else old(sentKeys)
      ensures topic.messages ==
              if sent then
                old(topic.messages) +
                [Message(ToString(messageKey), if u.id > 0 then "update_event" else "create_event", Obj(ToJson(u)))]
              else old(topic.messages)
    {
      var message := Obj(ToJson(u));
      var eventType := if u.id > 0 then UPDATE_EVENT else CREATE_EVENT;
      var notSent := true;
      var attempts := 0;
      messageKey := messageKey + 1;
      var mk := ToString(messageKey);
      while notSent && attempts < SEND_ATTEMPTS
        invariant 0 <= attempts <= SEND_ATTEMPTS
        invariant forall a :: 0 <= a < attempts ==> rejects(a)
        invariant !notSent ==> attempts < SEND_ATTEMPTS && !rejects(attempts)
        invariant messageKey == old(messageKey) + 1
        invariant sentKeys == if notSent then old(sentKeys) else old(sentKeys) + [messageKey]
        invariant topic.messages ==
                  if notSent then old(topic.messages) else old(topic.messages) + [Message(mk, eventType, message)]
        decreases notSent, SEND_ATTEMPTS - attempts
      {
        if rejects(attempts) {
          attempts := attempts + 1;
        } else {
          topic.messages := topic.messages + [Message(mk, eventType, message)];
          sentKeys := sentKeys + [messageKey];
          notSent := false;
        }
      }
      return attempts < SEND_ATTEMPTS;
    }
  }
}
