/** Values shared by the whole model: optional values, JSON values as JSON.parse
    delivers them, the `{type, data}` envelope written on a socket, and the socket
    itself, reduced to the list of envelopes sent on it. */
module Base {

  datatype Option<+T> = None | Some(value: T)

  /** A parsed JSON value. Numbers are kept as reals; nothing in the model inspects them. */
  datatype Json =
    | Null
    | Bool(b: bool)
    | Num(n: real)
    | Str(s: string)
    | Arr(items: seq<Json>)
    | Obj(fields: map<string, Json>)

  /** `j[key]` on a parsed value other than null: only an object has the key;
      on anything else, or when the key is absent, the lookup yields undefined (None). */
  function Member(j: Json, key: string): (r: Option<Json>)
    ensures r.Some? <==> j.Obj? && key in j.fields
    ensures r.Some? ==> r.value == j.fields[key]
  {
    if j.Obj? && key in j.fields then Some(j.fields[key]) else None
  }

  /** The envelope `{type, data}` that JSON.stringify writes on a socket; a data of
      None is an undefined `data`, which the serialisation drops. */
  datatype Envelope = Envelope(kind: string, data: Option<Json>)

  /** A WebSocket handle. Its only observable behaviour here is what was sent on it. */
  class Socket {
    var sent: seq<Envelope>

    constructor ()
      ensures sent == []
    {
      sent := [];
    }

    /** `ws.send(JSON.stringify(e))`: fire and forget, appended to the outbox. */
    method Send(e: Envelope)
      modifies this`sent
      ensures sent == old(sent) + [e]
    {
      sent := sent + [e];
    }
  }
}
