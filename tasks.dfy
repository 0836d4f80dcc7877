/** TaskRepository: the TASK nodes of the graph store. */
module Tasks {
  import opened Base
  import opened Store

  /** The `Task` record handed to addTask; chunkUrl is optional and never stored. */
  datatype Task = Task(
    id: TaskId,
    devicesCount: int,
    params: string,
    status: TaskStatus,
    multipleFiles: bool,
    chunkUrl: Option<string>,
    dataType: string,
    dataTypeParams: string)

  /** The node addTask's CREATE writes: the seven properties it sets, without chunkUrl. */
  function Stored(t: Task): TaskNode {
    TaskNode(t.id, t.devicesCount, t.params, t.status, t.dataType, t.dataTypeParams, t.multipleFiles)
  }

  /** `ORDER BY t.devices_count LIMIT 1` over the nodes, ties going to the earliest
      node; there is no filter on status. None for an empty table. */
  function MinTask(ts: seq<TaskNode>): (r: Option<TaskNode>)
    ensures r.None? <==> ts == []
    ensures r.Some? ==> r.value in ts
    ensures r.Some? ==> forall i :: 0 <= i < |ts| ==> r.value.devicesCount <= ts[i].devicesCount
  {
    if ts == [] then None
    else
      match MinTask(ts[1..])
      case None => Some(ts[0])
      case Some(m) => if m.devicesCount < ts[0].devicesCount then Some(m) else Some(ts[0])
  }

  /** `MATCH (t:TASK {id: $taskId}) SET t.status = $status` on the table. */
  function WithStatus(ts: seq<TaskNode>, taskId: TaskId, status: TaskStatus): (r: seq<TaskNode>)
    ensures |r| == |ts|
  {
    seq(|ts|, i requires 0 <= i < |ts| => if ts[i].id == taskId then ts[i].(status := status) else ts[i])
  }

  /** Nothing in the selection looks at the status: a task that is already ongoing
      is picked over a new one that needs more devices. */
  lemma MinTaskIgnoresStatus(running: TaskNode, waiting: TaskNode)
    requires running.status == Ongoing && waiting.status == New
    requires running.devicesCount < waiting.devicesCount
    ensures MinTask([running, waiting]) == Some(running)
  {
  }

  class TaskRepository {
    const graph: Graph

    constructor (graph: Graph)
      ensures this.graph == graph
    {
      this.graph := graph;
    }

    /** addTask: stores a node with the task's id, devices_count, params, status,
        dataType, dataTypeParams and multipleFiles; a failed write changes nothing. */
    method AddTask(task: Task, storeFails: bool)
      modifies graph`taskNodes
      ensures graph.taskNodes == old(graph.taskNodes) + (if storeFails then [] else [Stored(task)])
    {
      if !storeFails {
        graph.taskNodes := graph.taskNodes + [Stored(task)];
      }
    }

    /** updateTask: the status of every node with the id, and nothing else, changes;
        a failed write changes nothing. */
    method UpdateTask(taskId: TaskId, status: TaskStatus, storeFails: bool)
      modifies graph`taskNodes
      ensures |graph.taskNodes| == |old(graph.taskNodes)|
      ensures forall i :: 0 <= i < |graph.taskNodes| ==>
        graph.taskNodes[i] ==
          if !storeFails && old(graph.taskNodes[i]).id == taskId
          then old(graph.taskNodes[i]).(status := status)
          else old(graph.taskNodes[i])
    {
      if !storeFails {
        graph.taskNodes := WithStatus(graph.taskNodes, taskId, status);
      }
    }

    /** getMinTask: a stored task whose devices_count is no larger than any other's,
        whatever its status; null when the table is empty (reading `records[0]`
        throws) or the read fails. */
    method GetMinTask(storeFails: bool) returns (r: Option<TaskNode>)
      ensures r.None? <==> storeFails || graph.taskNodes == []
      ensures r.Some? ==> r.value in graph.taskNodes
      ensures r.Some? ==> forall i :: 0 <= i < |graph.taskNodes| ==>
        r.value.devicesCount <= graph.taskNodes[i].devicesCount
    {
      if storeFails {
        r := None;
      } else {
        r := MinTask(graph.taskNodes);
      }
    }
  }
}
