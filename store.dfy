/** The graph database the repositories talk to, kept in memory: DEVICE and TASK
    nodes in creation order, and the WORKS_ON and WORKS_WITH relationships, each
    recorded by the ids of its endpoints, in creation order. Nodes are never
    deleted, and CREATE never merges with an existing node of the same id. */
module Store {
  import opened Seqs

  type DeviceId = string
  type TaskId = string

  /** A `Date`; the model never looks inside it. */
  type Time = int

  datatype DeviceStatus = Disconnected | Idle | Busy

  /** A DEVICE node, and the `Device` record the repositories pass around. */
  datatype Device = Device(id: DeviceId, address: string, status: DeviceStatus, lastLogin: Time)

  datatype TaskStatus = New | Ongoing | Succeeded | Failed

  /** A TASK node: the seven properties TaskRepository.addTask writes. */
  datatype TaskNode = TaskNode(
    id: TaskId,
    devicesCount: int,
    params: string,
    status: TaskStatus,
    dataType: string,
    dataTypeParams: string,
    multipleFiles: bool)

  /** `(d:DEVICE)-[:WORKS_ON {number}]->(t:TASK)` */
  datatype WorksOn = WorksOn(device: DeviceId, task: TaskId, number: int)

  /** `(source:DEVICE)-[:WORKS_WITH {taskId}]->(destination:DEVICE)` */
  datatype WorksWith = WorksWith(source: DeviceId, destination: DeviceId, taskId: TaskId)

  /** How many DEVICE nodes `MATCH (d:DEVICE {id: $id})` finds. */
  function DevicesWithId(nodes: seq<Device>, id: DeviceId): nat {
    |Filter((d: Device) => d.id == id, nodes)|
  }

  /** How many TASK nodes `MATCH (t:TASK {id: $id})` finds. */
  function TasksWithId(nodes: seq<TaskNode>, id: TaskId): nat {
    |Filter((t: TaskNode) => t.id == id, nodes)|
  }

  class Graph {
    var deviceNodes: seq<Device>
    var taskNodes: seq<TaskNode>
    var worksOn: seq<WorksOn>
    var worksWith: seq<WorksWith>

    constructor ()
      ensures deviceNodes == [] && taskNodes == [] && worksOn == [] && worksWith == []
    {
      deviceNodes, taskNodes, worksOn, worksWith := [], [], [], [];
    }
  }
}
