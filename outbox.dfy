/**
 * The message queue the observers publish to. Publishing appends a message (a
 * topic and the JSON payload that `json_encode` is given) to the outbox.
 */
module Queue {
  import opened Json

  datatype Message = Message(topic: string, payload: Json)

  class Outbox {
    var messages: seq<Message>

    constructor ()
      ensures messages == []
    {
      messages := [];
    }

    /** `publisher->publish($topic, json_encode($payload))`. */
    method Publish(m: Message)
      modifies this`messages
      ensures messages == old(messages) + [m]
    {
      messages := messages + [m];
    }
  }
}
