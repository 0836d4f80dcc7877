/** The inbound message handlers: MessageFactory picks a variant from the `type`
    of a parsed message, and each variant's handle() writes one envelope on the
    socket it was built with. */
module Messages {
  import opened Base

  /** JoinMessage and WorkMessage, each holding the socket and data it was constructed with. */
  datatype Message =
    | JoinMessage(ws: Socket, data: Option<Json>)
    | WorkMessage(ws: Socket, data: Option<Json>)

  /** MessageFactory.createMessage(ws, message), with `JSON.parse(message)` given as
      `parsed` (None when it throws). A `type` of "join" or "work" yields a
      JoinMessage carrying the `body` member; anything else, and any exception, yields null. */
  function CreateMessage(ws: Socket, parsed: Option<Json>): Option<Message> {
    match parsed
    case None => None
    case Some(j) =>
      if j.Null? then None  // `null["type"]` throws; the catch leaves msg null
      else
        var tag := Member(j, "type");
        if tag == Some(Str("join")) then Some(JoinMessage(ws, Member(j, "body")))
        else if tag == Some(Str("work")) then Some(JoinMessage(ws, Member(j, "body")))
        else None
  }

  /** The inputs for which the factory builds a message. */
  predicate Recognised(parsed: Option<Json>) {
    parsed.Some? && Member(parsed.value, "type") in {Some(Str("join")), Some(Str("work"))}
  }

  /** The factory builds a message exactly for a "join" or "work" type, and the
      message is then always a JoinMessage bound to the given socket and carrying
      the body; it never builds a WorkMessage. */
  lemma CreateMessageSpec(ws: Socket, parsed: Option<Json>)
    ensures CreateMessage(ws, parsed).Some? <==> Recognised(parsed)
    ensures CreateMessage(ws, parsed).Some? ==>
      CreateMessage(ws, parsed).value == JoinMessage(ws, Member(parsed.value, "body"))
  {
  }

  /** JoinMessage.handle(): one `{type: "deviceId", data: ""}` on the message's own
      socket, whatever data the message was built with. */
  method HandleJoin(m: Message)
    requires m.JoinMessage?
    modifies m.ws`sent
    ensures m.ws.sent == old(m.ws.sent) + [Envelope("deviceId", Some(Str("")))]
  {
    m.ws.Send(Envelope("deviceId", Some(Str(""))));
  }

  /** WorkMessage.handle(): one `{type: "work", data}` on the message's own socket,
      the data forwarded unchanged and unchecked. */
  method HandleWork(m: Message)
    requires m.WorkMessage?
    modifies m.ws`sent
    ensures m.ws.sent == old(m.ws.sent) + [Envelope("work", m.data)]
  {
    m.ws.Send(Envelope("work", m.data));
  }

  /** `msgInstance.handle()`: dispatch on the variant. */
  method Handle(m: Message)
    modifies m.ws`sent
    ensures m.JoinMessage? ==> m.ws.sent == old(m.ws.sent) + [Envelope("deviceId", Some(Str("")))]
    ensures m.WorkMessage? ==> m.ws.sent == old(m.ws.sent) + [Envelope("work", m.data)]
  {
    if m.JoinMessage? {
      HandleJoin(m);
    } else {
      HandleWork(m);
    }
  }
}
