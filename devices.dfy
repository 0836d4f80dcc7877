/** DeviceRepository: the device records in the graph store, the status cache
    (Redis), the socket of every connected device and the list of devices created
    through this process. The two revisions of the class (src/device and
    src/common) agree on every operation they share; the src/device revision adds
    the task and mesh relationships, the full listing and the bulk reset. */
module Devices {
  import opened Base
  import opened Seqs
  import opened Store
  import opened EditString

  /** A `Partial<Device>`: None is a field that is absent or undefined. */
  datatype DevicePatch = DevicePatch(
    id: Option<DeviceId>,
    address: Option<string>,
    status: Option<DeviceStatus>,
    lastLogin: Option<Time>)

  /** `Object.entries(device)`, in the field order of `Device`. */
  function Entries(p: DevicePatch): seq<Entry> {
    [ Entry("id", p.id.Some?), Entry("address", p.address.Some?),
      Entry("status", p.status.Some?), Entry("last_login", p.lastLogin.Some?) ]
  }

  /** The keys the SET clause assigns, in order (see EditStringOfPatch). */
  function EditedKeys(p: DevicePatch): seq<string> {
    KeysOf(Kept(Entries(p)))
  }

  /** The keys of a list of entries, in order. */
  function KeysOf(a: seq<Entry>): (r: seq<string>)
    ensures |r| == |a|
    ensures forall i :: 0 <= i < |a| ==> r[i] == a[i].key
  {
    if a == [] then [] else [a[0].key] + KeysOf(a[1..])
  }

  lemma KeysOfConcat(a: seq<Entry>, b: seq<Entry>)
    ensures KeysOf(a + b) == KeysOf(a) + KeysOf(b)
  {
  }

  /** The string `_makeEditString(device, 'd')` passes to the update query is the
      SET clause that assigns exactly the edited keys, in order, or "" when there are
      none. */
  lemma EditStringOfPatch(p: DevicePatch)
    ensures MakeEditString(Entries(p), "d") ==
      if EditedKeys(p) == [] then ""
      else "SET " + Join(seq(|EditedKeys(p)|, i requires 0 <= i < |EditedKeys(p)| => Clause("d", EditedKeys(p)[i])), ", ") + " "
  {
    EditStringIsJoin(Entries(p), "d");
    ClausesOfKeys(Kept(Entries(p)), "d");
  }

  /** The clauses of a list of entries are the clauses of its keys. */
  lemma ClausesOfKeys(a: seq<Entry>, varName: string)
    ensures Clauses(varName, a) ==
      seq(|KeysOf(a)|, i requires 0 <= i < |KeysOf(a)| => Clause(varName, KeysOf(a)[i]))
  {
  }

  /** The parameter object of the update query, `{...device, last_login: lastLoginDate}`,
      where lastLoginDate is `device.last_login ?? new Date()`. */
  datatype EditParams = EditParams(
    id: Option<DeviceId>,
    address: Option<string>,
    status: Option<DeviceStatus>,
    lastLogin: Time)

  function Params(p: DevicePatch, now: Time): EditParams {
    EditParams(p.id, p.address, p.status, if p.lastLogin.Some? then p.lastLogin.value else now)
  }

  /** `SET d.key = $key` on one matched node. */
  function SetProperty(d: Device, key: string, ps: EditParams): Device {
    if key == "address" && ps.address.Some? then d.(address := ps.address.value)
    else if key == "status" && ps.status.Some? then d.(status := ps.status.value)
    else if key == "last_login" then d.(lastLogin := ps.lastLogin)
    else d
  }

  /** The assignments of the SET clause, left to right, on one matched node. */
  function SetProperties(d: Device, keys: seq<string>, ps: EditParams): Device
    decreases |keys|
  {
    if keys == [] then d else SetProperties(SetProperty(d, keys[0], ps), keys[1..], ps)
  }

  /** `MATCH (d:DEVICE {id: $id}) <SET clause>`: every node with the id is edited. */
  function UpdateMatching(nodes: seq<Device>, id: DeviceId, keys: seq<string>, ps: EditParams): (r: seq<Device>)
    ensures |r| == |nodes|
  {
    seq(|nodes|, i requires 0 <= i < |nodes| =>
      if nodes[i].id == id then SetProperties(nodes[i], keys, ps) else nodes[i])
  }

  /** What an update means for one record: the id is kept, and a field changes
      exactly when the patch defines it. */
  function ApplyPatch(d: Device, p: DevicePatch): Device {
    Device(
      d.id,
      if p.address.Some? then p.address.value else d.address,
      if p.status.Some? then p.status.value else d.status,
      if p.lastLogin.Some? then p.lastLogin.value else d.lastLogin)
  }

  /** The entries of a patch that survive the filter: address, status and
      last_login, each exactly when defined, in that order; never id. */
  lemma KeptOfPatch(p: DevicePatch)
    ensures Kept(Entries(p)) ==
      (if p.address.Some? then [Entry("address", true)] else []) +
      (if p.status.Some? then [Entry("status", true)] else []) +
      (if p.lastLogin.Some? then [Entry("last_login", true)] else [])
  {
    FilterFour(Eligible, Entry("id", p.id.Some?), Entry("address", p.address.Some?),
      Entry("status", p.status.Some?), Entry("last_login", p.lastLogin.Some?));
  }

  /** The SET clause of a patch names address, status and last_login, each exactly
      when the patch defines it, in that order, and never id. */
  lemma EditedKeysOfPatch(p: DevicePatch)
    ensures EditedKeys(p) ==
      (if p.address.Some? then ["address"] else []) +
      (if p.status.Some? then ["status"] else []) +
      (if p.lastLogin.Some? then ["last_login"] else [])
  {
    KeptOfPatch(p);
    var k1: seq<Entry> := if p.address.Some? then [Entry("address", true)] else [];
    var k2: seq<Entry> := if p.status.Some? then [Entry("status", true)] else [];
    var k3: seq<Entry> := if p.lastLogin.Some? then [Entry("last_login", true)] else [];
    KeysOfConcat(k1 + k2, k3);
    KeysOfConcat(k1, k2);
    assert KeysOf(k1) == if p.address.Some? then ["address"] else [];
    assert KeysOf(k2) == if p.status.Some? then ["status"] else [];
    assert KeysOf(k3) == if p.lastLogin.Some? then ["last_login"] else [];
  }

  lemma {:induction false} SetPropertiesConcat(d: Device, a: seq<string>, b: seq<string>, ps: EditParams)
    ensures SetProperties(d, a + b, ps) == SetProperties(SetProperties(d, a, ps), b, ps)
    decreases |a|
  {
    if a == [] {
      assert a + b == b;
    } else {
      assert (a + b)[1..] == a[1..] + b;
      SetPropertiesConcat(SetProperty(d, a[0], ps), a[1..], b, ps);
    }
  }

  /** Running the generated SET clause with the query's parameters writes exactly the
      fields the patch defines: the id is never written, and the defaulted last_login
      in the parameters is not written unless the patch carries one. */
  lemma UpdateWritesPatchedFieldsOnly(d: Device, p: DevicePatch, now: Time)
    ensures SetProperties(d, EditedKeys(p), Params(p, now)) == ApplyPatch(d, p)
  {
    EditedKeysOfPatch(p);
    var ps := Params(p, now);
    var a: seq<string> := if p.address.Some? then ["address"] else [];
    var s: seq<string> := if p.status.Some? then ["status"] else [];
    var l: seq<string> := if p.lastLogin.Some? then ["last_login"] else [];
    SetPropertiesConcat(d, a + s, l, ps);
    SetPropertiesConcat(d, a, s, ps);
    var d1 := SetProperties(d, a, ps);
    var d2 := SetProperties(d1, s, ps);
    assert d1 == if p.address.Some? then d.(address := p.address.value) else d;
    assert d2 == if p.status.Some? then d1.(status := p.status.value) else d1;
    assert SetProperties(d2, l, ps) == if p.lastLogin.Some? then d2.(lastLogin := p.lastLogin.value) else d2;
  }

  /** `MATCH (d:DEVICE) WHERE d.status = "idle"`, in store order. */
  function IdleDevices(nodes: seq<Device>): seq<Device> {
    Filter((d: Device) => d.status == Idle, nodes)
  }

  /** `MATCH (d:DEVICE)` with every node's status set to "disconnected". */
  function AllDisconnected(nodes: seq<Device>): (r: seq<Device>)
    ensures |r| == |nodes|
  {
    seq(|nodes|, i requires 0 <= i < |nodes| => nodes[i].(status := Disconnected))
  }

  /** The WORKS_ON relationships left after deleting those from deviceId to taskId. */
  function Unlinked(edges: seq<WorksOn>, deviceId: DeviceId, taskId: TaskId): seq<WorksOn> {
    Filter((e: WorksOn) => !(e.device == deviceId && e.task == taskId), edges)
  }

  /** Deleting the WORKS_ON relationships between one device and one task removes every
      one of them, keeps the count of every other relationship, and undoes any number
      of connectDeviceToTask calls for that pair. */
  lemma UnlinkedRemovesPairOnly(edges: seq<WorksOn>, added: nat, deviceId: DeviceId, taskId: TaskId, number: int)
    ensures forall i :: 0 <= i < |Unlinked(edges, deviceId, taskId)| ==>
      var e := Unlinked(edges, deviceId, taskId)[i]; !(e.device == deviceId && e.task == taskId)
    ensures forall e: WorksOn :: !(e.device == deviceId && e.task == taskId) ==>
      multiset(Unlinked(edges, deviceId, taskId))[e] == multiset(edges)[e]
    ensures Unlinked(edges + Copies(WorksOn(deviceId, taskId, number), added), deviceId, taskId) ==
      Unlinked(edges, deviceId, taskId)
  {
    var p := (e: WorksOn) => !(e.device == deviceId && e.task == taskId);
    forall e: WorksOn | !(e.device == deviceId && e.task == taskId)
      ensures multiset(Unlinked(edges, deviceId, taskId))[e] == multiset(edges)[e]
    {
      FilterCount(p, edges, e);
    }
    var extra := Copies(WorksOn(deviceId, taskId, number), added);
    FilterConcat(p, edges, extra);
    FilterNone(p, extra);
  }

  /** The WORKS_WITH relationships one write of makeDevicesMesh creates: none when the
      write fails, otherwise one for each pair of matched source and destination nodes. */
  function MeshWrite(nodes: seq<Device>, sourceId: DeviceId, destination: DeviceId, taskId: TaskId, fails: bool): (r: seq<WorksWith>)
    ensures forall i :: 0 <= i < |r| ==> r[i] == WorksWith(sourceId, destination, taskId)
    ensures !fails && DevicesWithId(nodes, sourceId) == 1 && DevicesWithId(nodes, destination) == 1 ==>
      r == [WorksWith(sourceId, destination, taskId)]
    ensures fails ==> r == []
  {
    if fails then []
    else Copies(WorksWith(sourceId, destination, taskId),
                DevicesWithId(nodes, sourceId) * DevicesWithId(nodes, destination))
  }

  /** The WORKS_WITH relationships makeDevicesMesh creates, one write per entry of
      otherDevicesId, in order. */
  function MeshEdges(nodes: seq<Device>, sourceId: DeviceId, others: seq<DeviceId>, taskId: TaskId, fails: seq<bool>): (r: seq<WorksWith>)
    requires |fails| == |others|
    ensures forall i :: 0 <= i < |r| ==>
      r[i].source == sourceId && r[i].taskId == taskId && r[i].destination in others
    decreases |others|
  {
    if others == [] then []
    else
      var n := |others| - 1;
      var before := MeshEdges(nodes, sourceId, others[..n], taskId, fails[..n]);
      var last := MeshWrite(nodes, sourceId, others[n], taskId, fails[n]);
      assert forall i :: 0 <= i < |before| ==> before[i].destination in others by {
        forall i | 0 <= i < |before| ensures before[i].destination in others {
          var d := before[i].destination;
          var j :| 0 <= j < n && others[..n][j] == d;
          assert others[j] == d;
        }
      }
      before + last
  }

  /** When every id names exactly one node and no write fails, the mesh adds exactly one
      relationship source -> d tagged with the task for each d, in order. */
  lemma {:induction false} MeshOneEdgePerDevice(nodes: seq<Device>, sourceId: DeviceId, others: seq<DeviceId>, taskId: TaskId, fails: seq<bool>)
    requires |fails| == |others|
    requires forall i :: 0 <= i < |fails| ==> !fails[i]
    requires DevicesWithId(nodes, sourceId) == 1
    requires forall i :: 0 <= i < |others| ==> DevicesWithId(nodes, others[i]) == 1
    ensures MeshEdges(nodes, sourceId, others, taskId, fails) ==
      seq(|others|, i requires 0 <= i < |others| => WorksWith(sourceId, others[i], taskId))
    decreases |others|
  {
    if others != [] {
      var n := |others| - 1;
      MeshOneEdgePerDevice(nodes, sourceId, others[..n], taskId, fails[..n]);
      var before := MeshEdges(nodes, sourceId, others[..n], taskId, fails[..n]);
      var last := MeshWrite(nodes, sourceId, others[n], taskId, fails[n]);
      assert last == [WorksWith(sourceId, others[n], taskId)];
      var expected := seq(|others|, i requires 0 <= i < |others| => WorksWith(sourceId, others[i], taskId));
      assert MeshEdges(nodes, sourceId, others, taskId, fails) == before + last;
      forall i | 0 <= i < |others|
        ensures (before + last)[i] == expected[i]
      {
        if i < n {
          assert before[i] == WorksWith(sourceId, others[..n][i], taskId);
        }
      }
    }
  }

  class DeviceRepository {
    const graph: Graph
    /** The Redis status cache: device id -> status. */
    var cache: map<DeviceId, DeviceStatus>
    /** `socketStore`: device id -> socket, null once the device disconnected. */
    var sockets: map<DeviceId, Socket?>
    /** The public `devices` list: every device this process stored. */
    var devices: seq<Device>

    constructor (graph: Graph, cached: map<DeviceId, DeviceStatus>)
      ensures this.graph == graph && cache == cached && sockets == map[] && devices == []
    {
      this.graph := graph;
      cache := cached;
      sockets := map[];
      devices := [];
    }

    /** createDevice: the CREATE runs first; the device is pushed onto `devices` only
        when the write succeeds, and a failed write changes nothing. */
    method CreateDevice(device: Device, storeFails: bool)
      modifies this`devices, graph`deviceNodes
      ensures graph.deviceNodes == old(graph.deviceNodes) + (if storeFails then [] else [device])
      ensures devices == old(devices) + (if storeFails then [] else [device])
    {
      if !storeFails {
        graph.deviceNodes := graph.deviceNodes + [device];
        devices := devices + [device];
      }
    }

    /** getAllDevices: every DEVICE node, or [] when the read fails. */
    method GetAllDevices(storeFails: bool) returns (r: seq<Device>)
      ensures storeFails ==> r == []
      ensures !storeFails ==> r == graph.deviceNodes
    {
      r := if storeFails then [] else graph.deviceNodes;
    }

    /** updateDevice: every node whose id is the patch's id gets exactly the fields the
        patch defines; other nodes, and everything on a failed write or a missing id
        parameter, are unchanged. */
    method UpdateDevice(p: DevicePatch, now: Time, storeFails: bool)
      modifies graph`deviceNodes
      ensures |graph.deviceNodes| == |old(graph.deviceNodes)|
      ensures forall i :: 0 <= i < |graph.deviceNodes| ==>
        graph.deviceNodes[i] ==
          if !storeFails && p.id.Some? && old(graph.deviceNodes[i]).id == p.id.value
          then ApplyPatch(old(graph.deviceNodes[i]), p)
          else old(graph.deviceNodes[i])
    {
      if !storeFails && p.id.Some? {
        var ps := Params(p, now);
        var nodes := graph.deviceNodes;
        graph.deviceNodes := UpdateMatching(nodes, p.id.value, EditedKeys(p), ps);
        forall i | 0 <= i < |nodes|
          ensures graph.deviceNodes[i] ==
            if nodes[i].id == p.id.value then ApplyPatch(nodes[i], p) else nodes[i]
        {
          UpdateWritesPatchedFieldsOnly(nodes[i], p, now);
        }
      }
    }

    /** setStatus: a cache write, lost when it fails. */
    method SetStatus(key: DeviceId, value: DeviceStatus, cacheFails: bool)
      modifies this`cache
      ensures cache == if cacheFails then old(cache) else old(cache)[key := value]
    {
      if !cacheFails {
        cache := cache[key := value];
      }
    }

    /** getStatus: the cached status, or null when the key is absent or the read fails. */
    method GetStatus(key: DeviceId, cacheFails: bool) returns (r: Option<DeviceStatus>)
      ensures r.Some? <==> !cacheFails && key in cache
      ensures r.Some? ==> r.value == cache[key]
    {
      if cacheFails || key !in cache {
        r := None;
      } else {
        r := Some(cache[key]);
      }
    }

    /** getNIdleDevices(n): `... WHERE d.status = "idle" RETURN d LIMIT $n`. At most n
        devices, every one idle and stored, the first min(n, #idle) in store order;
        [] when the read fails or n is negative (LIMIT rejects it). */
    method GetNIdleDevices(n: int, storeFails: bool) returns (r: seq<Device>)
      ensures storeFails || n < 0 ==> r == []
      ensures |r| <= n || r == []
      ensures forall i :: 0 <= i < |r| ==> r[i].status == Idle && r[i] in graph.deviceNodes
      ensures !storeFails && 0 <= n ==>
        |r| == (if n < |IdleDevices(graph.deviceNodes)| then n else |IdleDevices(graph.deviceNodes)|)
      ensures !storeFails && 0 <= n ==> r == IdleDevices(graph.deviceNodes)[..|r|]
    {
      if storeFails || n < 0 {
        r := [];
      } else {
        var idle := IdleDevices(graph.deviceNodes);
        var k := if n < |idle| then n else |idle|;
        r := idle[..k];
        assert forall i :: 0 <= i < |r| ==> r[i] == idle[i];
      }
    }

    /** connectDeviceToTask: one WORKS_ON {number} relationship per matched pair of
        device and task nodes, so exactly one when each id names one node. */
    method ConnectDeviceToTask(deviceId: DeviceId, taskId: TaskId, number: int, storeFails: bool)
      modifies graph`worksOn
      ensures graph.worksOn == old(graph.worksOn) +
        (if storeFails then []
         else Copies(WorksOn(deviceId, taskId, number),
                     DevicesWithId(graph.deviceNodes, deviceId) * TasksWithId(graph.taskNodes, taskId)))
      ensures !storeFails && DevicesWithId(graph.deviceNodes, deviceId) == 1 && TasksWithId(graph.taskNodes, taskId) == 1 ==>
        graph.worksOn == old(graph.worksOn) + [WorksOn(deviceId, taskId, number)]
    {
      if !storeFails {
        var k := DevicesWithId(graph.deviceNodes, deviceId) * TasksWithId(graph.taskNodes, taskId);
        graph.worksOn := graph.worksOn + Copies(WorksOn(deviceId, taskId, number), k);
        assert k == 1 ==> Copies(WorksOn(deviceId, taskId, number), k) == [WorksOn(deviceId, taskId, number)];
      }
    }

    /** disconnectDeviceFromTask: deletes every WORKS_ON relationship from the device
        to the task, and no other relationship. */
    method DisconnectDeviceFromTask(deviceId: DeviceId, taskId: TaskId, storeFails: bool)
      modifies graph`worksOn
      ensures graph.worksOn == if storeFails then old(graph.worksOn) else Unlinked(old(graph.worksOn), deviceId, taskId)
    {
      if !storeFails {
        graph.worksOn := Unlinked(graph.worksOn, deviceId, taskId);
      }
    }

    /** makeDevicesMesh: one write per entry of otherDevicesId, each creating the
        WORKS_WITH relationships source -> entry tagged with the task. */
    method MakeDevicesMesh(sourceId: DeviceId, otherDevicesId: seq<DeviceId>, taskId: TaskId, storeFails: seq<bool>)
      requires |storeFails| == |otherDevicesId|
      modifies graph`worksWith
      ensures graph.worksWith ==
        old(graph.worksWith) + MeshEdges(graph.deviceNodes, sourceId, otherDevicesId, taskId, storeFails)
    {
      for i := 0 to |otherDevicesId|
        invariant graph.worksWith == old(graph.worksWith) +
          MeshEdges(graph.deviceNodes, sourceId, otherDevicesId[..i], taskId, storeFails[..i])
      {
        graph.worksWith := graph.worksWith +
          MeshWrite(graph.deviceNodes, sourceId, otherDevicesId[i], taskId, storeFails[i]);
        assert otherDevicesId[..i + 1][..i] == otherDevicesId[..i];
        assert storeFails[..i + 1][..i] == storeFails[..i];
      }
      assert otherDevicesId[..|otherDevicesId|] == otherDevicesId;
      assert storeFails[..|storeFails|] == storeFails;
    }

    /** resetAllDevicesStatus: every DEVICE node becomes "disconnected"; nothing else
        about a node changes, and the cache is not touched. */
    method ResetAllDevicesStatus(storeFails: bool)
      modifies graph`deviceNodes
      ensures graph.deviceNodes == if storeFails then old(graph.deviceNodes) else AllDisconnected(old(graph.deviceNodes))
    {
      if !storeFails {
        graph.deviceNodes := AllDisconnected(graph.deviceNodes);
      }
    }

    /** getSocket: undefined (None) for an id never registered, else the stored socket or null. */
    function GetSocket(id: DeviceId): (r: Option<Socket?>)
      reads this
      ensures r.Some? <==> id in sockets
      ensures r.Some? ==> r.value == sockets[id]
    {
      if id in sockets then Some(sockets[id]) else None
    }

    /** setSocket: afterwards getSocket(id) returns s and every other id's entry is as before. */
    method SetSocket(id: DeviceId, s: Socket?)
      modifies this`sockets
      ensures sockets == old(sockets)[id := s]
      ensures GetSocket(id) == Some(s)
      ensures forall other :: other != id ==> GetSocket(other) == old(GetSocket(other))
    {
      sockets := sockets[id := s];
    }

    /** disconnectDevice: the stored status of every node with the id and the cached
        status become "disconnected" (each unless its write fails), last_login is not
        written, and the id's socket entry becomes null. */
    method DisconnectDevice(deviceId: DeviceId, now: Time, storeFails: bool, cacheFails: bool)
      modifies this`cache, this`sockets, graph`deviceNodes
      ensures |graph.deviceNodes| == |old(graph.deviceNodes)|
      ensures forall i :: 0 <= i < |graph.deviceNodes| ==>
        graph.deviceNodes[i] ==
          if !storeFails && old(graph.deviceNodes[i]).id == deviceId
          then old(graph.deviceNodes[i]).(status := Disconnected)
          else old(graph.deviceNodes[i])
      ensures cache == if cacheFails then old(cache) else old(cache)[deviceId := Disconnected]
      ensures sockets == old(sockets)[deviceId := null]
      ensures GetSocket(deviceId) == Some(null)
    {
      UpdateDevice(DevicePatch(Some(deviceId), None, Some(Disconnected), None), now, storeFails);
      SetStatus(deviceId, Disconnected, cacheFails);
      SetSocket(deviceId, null);
    }
  }
}
