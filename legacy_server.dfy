/** The older server: a module-level list of connected-device records that grows
    by one on every connection and loses the connection's record when its socket
    closes. */
module LegacyServer {
  import opened Base
  import opened Seqs

  /** One entry of `connected_devices`. */
  datatype ConnectedDevice = ConnectedDevice(
    id: string,
    socket: Socket,
    offer: Json,
    answer: Json,
    offerDone: bool,
    answerDone: bool,
    role: string,
    ices: seq<Json>)

  /** The record a connection starts with. */
  function NewDevice(id: string, ws: Socket): (d: ConnectedDevice)
    ensures d.id == id && d.socket == ws
    ensures d.offer == Null && d.answer == Null && !d.offerDone && !d.answerDone
    ensures d.role == "" && d.ices == []
  {
    ConnectedDevice(id, ws, Null, Null, false, false, "", [])
  }

  /** `connected_devices.filter((dev) => dev.id !== id)`. */
  function Without(devices: seq<ConnectedDevice>, id: string): seq<ConnectedDevice> {
    Filter((d: ConnectedDevice) => d.id != id, devices)
  }

  /** Closing removes every record with the id, keeps every other record as often as
      before, and keeps the order: filtering a concatenation filters each part. */
  lemma WithoutSpec(devices: seq<ConnectedDevice>, more: seq<ConnectedDevice>, id: string)
    ensures forall i :: 0 <= i < |Without(devices, id)| ==> Without(devices, id)[i].id != id
    ensures forall d: ConnectedDevice :: d.id != id ==> multiset(Without(devices, id))[d] == multiset(devices)[d]
    ensures Without(devices + more, id) == Without(devices, id) + Without(more, id)
  {
    var p := (d: ConnectedDevice) => d.id != id;
    forall d: ConnectedDevice | d.id != id
      ensures multiset(Without(devices, id))[d] == multiset(devices)[d]
    {
      FilterCount(p, devices, d);
    }
    FilterConcat(p, devices, more);
  }

  /** A connection whose fresh id no other record has, once closed, leaves the list
      exactly as it was before it connected. */
  lemma ConnectThenClose(devices: seq<ConnectedDevice>, id: string, ws: Socket)
    requires forall i :: 0 <= i < |devices| ==> devices[i].id != id
    ensures Without(devices + [NewDevice(id, ws)], id) == devices
  {
    var p := (d: ConnectedDevice) => d.id != id;
    FilterConcat(p, devices, [NewDevice(id, ws)]);
    FilterKeepsAll(p, devices);
    FilterSingle(p, NewDevice(id, ws));
  }

  /** The events a connection's listeners react to. The message listener parses the
      event object itself, whose string form is never valid JSON, so it always throws
      before its switch: a `Message` carries no payload and changes nothing. */
  datatype Event = Message | Close(code: int) | Error

  class Server {
    var connectedDevices: seq<ConnectedDevice>

    constructor ()
      ensures connectedDevices == []
    {
      connectedDevices := [];
    }

    /** The `connection` handler: one new record with the fresh id is appended,
        the records already there are untouched, and the id is sent back with type 'id-'.
        The record is returned: the connection's listeners close over it. */
    method OnConnection(ws: Socket, freshId: string) returns (device: ConnectedDevice)
      modifies this`connectedDevices, ws`sent
      ensures device == NewDevice(freshId, ws)
      ensures connectedDevices == old(connectedDevices) + [device]
      ensures ws.sent == old(ws.sent) + [Envelope("id-", Some(Str(freshId)))]
    {
      device := NewDevice(freshId, ws);
      connectedDevices := connectedDevices + [device];
      ws.Send(Envelope("id-", Some(Str(device.id))));
    }

    /** The listeners of the connection whose record `OnConnection` returned: close filters its records
        out; a message (whose listener throws before touching the list) and an
        error leave the list as it was. */
    method OnEvent(device: ConnectedDevice, event: Event)
      modifies this`connectedDevices
      ensures connectedDevices == if event.Close? then Without(old(connectedDevices), device.id) else old(connectedDevices)
    {
      match event
      case Close(_) => connectedDevices := Without(connectedDevices, device.id);
      case Message =>
      case Error =>
    }
  }
}
