/** The WebSocket server's connection handler: resolve or mint the device id,
    create the record or resume it as idle, cache the status, register the socket,
    then answer inbound messages and disconnect the device when the socket closes
    or fails. The clock, the uuid generator and every store outcome are parameters. */
module Server {
  import opened Base
  import opened Store
  import opened Devices
  import opened Messages

  /** A new id is minted when the `x-device-id` header is "", null or undefined. */
  predicate MintsId(header: Option<string>) {
    header.None? || header.value == ""
  }

  /** What the listeners of one connection close over: the device id and the socket. */
  datatype Session = Session(deviceId: DeviceId, ws: Socket)

  datatype SocketEvent = Close(code: int) | Error

  /** The cached status and the socket entry of a device agree: the socket is null
      exactly when the device is cached as disconnected. */
  ghost predicate CacheMatchesSocket(repo: DeviceRepository, id: DeviceId)
    reads repo
  {
    id in repo.cache && id in repo.sockets &&
    (repo.cache[id] == Disconnected <==> repo.sockets[id] == null)
  }

  /** The `connection` handler. A minted id gets a new idle record with the given
      address (kept only if the write succeeds) and exactly one `{type: "deviceId",
      data: id}` reply, sent whether or not the write succeeded. A supplied id is
      resumed: every record with it becomes idle with a new last_login, its address
      is kept, and nothing is sent. Either way the cache says idle and the socket is
      registered under the id. */
  method OnConnection(
    repo: DeviceRepository, ws: Socket, headerId: Option<string>, address: string,
    freshId: DeviceId, now: Time, storeFails: bool, cacheFails: bool)
    returns (session: Session)
    modifies repo`devices, repo`cache, repo`sockets, repo.graph`deviceNodes, ws`sent
    ensures session == Session(if MintsId(headerId) then freshId else headerId.value, ws)
    ensures MintsId(headerId) ==>
      && repo.graph.deviceNodes == old(repo.graph.deviceNodes) +
           (if storeFails then [] else [Device(freshId, address, Idle, now)])
      && repo.devices == old(repo.devices) +
           (if storeFails then [] else [Device(freshId, address, Idle, now)])
      && ws.sent == old(ws.sent) + [Envelope("deviceId", Some(Str(freshId)))]
    ensures !MintsId(headerId) ==>
      && repo.devices == old(repo.devices)
      && ws.sent == old(ws.sent)
      && |repo.graph.deviceNodes| == |old(repo.graph.deviceNodes)|
      && forall i :: 0 <= i < |repo.graph.deviceNodes| ==>
           repo.graph.deviceNodes[i] ==
             if !storeFails && old(repo.graph.deviceNodes[i]).id == headerId.value
             then old(repo.graph.deviceNodes[i]).(status := Idle, lastLogin := now)
             else old(repo.graph.deviceNodes[i])
    ensures repo.cache == if cacheFails then old(repo.cache) else old(repo.cache)[session.deviceId := Idle]
    ensures repo.sockets == old(repo.sockets)[session.deviceId := ws]
    ensures !cacheFails ==> CacheMatchesSocket(repo, session.deviceId)
  {
    var deviceId: DeviceId;
    if MintsId(headerId) {
      deviceId := freshId;
      repo.CreateDevice(Device(deviceId, address, Idle, now), storeFails);
      ws.Send(Envelope("deviceId", Some(Str(deviceId))));
    } else {
      deviceId := headerId.value;
      repo.UpdateDevice(DevicePatch(Some(deviceId), None, Some(Idle), Some(now)), now, storeFails);
    }
    repo.SetStatus(deviceId, Idle, cacheFails);
    repo.SetSocket(deviceId, ws);
    session := Session(deviceId, ws);
  }

  /** The `message` listener: the factory's message, if any, is handled; so a
      "join" or a "work" message gets one `{type: "deviceId", data: ""}` reply and
      any other input gets none. */
  method OnMessage(session: Session, parsed: Option<Json>)
    modifies session.ws`sent
    ensures session.ws.sent == old(session.ws.sent) +
      (if Recognised(parsed) then [Envelope("deviceId", Some(Str("")))] else [])
  {
    var m := CreateMessage(session.ws, parsed);
    CreateMessageSpec(session.ws, parsed);
    if m.Some? {
      Handle(m.value);
    }
  }

  /** The `close` and `error` listeners: both disconnect the session's device. */
  method OnSocketEvent(
    repo: DeviceRepository, session: Session, event: SocketEvent,
    now: Time, storeFails: bool, cacheFails: bool)
    modifies repo`cache, repo`sockets, repo.graph`deviceNodes
    ensures |repo.graph.deviceNodes| == |old(repo.graph.deviceNodes)|
    ensures forall i :: 0 <= i < |repo.graph.deviceNodes| ==>
      repo.graph.deviceNodes[i] ==
        if !storeFails && old(repo.graph.deviceNodes[i]).id == session.deviceId
        then old(repo.graph.deviceNodes[i]).(status := Disconnected)
        else old(repo.graph.deviceNodes[i])
    ensures repo.cache == if cacheFails then old(repo.cache) else old(repo.cache)[session.deviceId := Disconnected]
    ensures repo.sockets == old(repo.sockets)[session.deviceId := null]
    ensures !cacheFails ==> CacheMatchesSocket(repo, session.deviceId)
  {
    repo.DisconnectDevice(session.deviceId, now, storeFails, cacheFails);
  }
}
