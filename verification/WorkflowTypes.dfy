/** The vocabulary of workflow definitions. */
module WorkflowTypes {
  import opened Graph

  datatype NodeType = ExecTask | ManualApproval | Wait | Callback | Sleep

  /** A `timeout_sec` entry: missing, present but null or not a number, or a number of seconds. */
  datatype Timeout = Absent | Unusable | Seconds(n: int)

  /** The `until` entry of a wait node: missing, unparsable, or a point in time. */
  datatype Until = NoUntil | BadUntil | At(time: int)

  datatype NodeConfig = NodeConfig(timeout: Timeout, until: Until, duration: int)

  datatype NodeDef = NodeDef(kind: NodeType, config: NodeConfig,
                             dependsOn: seq<Key>, onSuccess: seq<Key>, onFailure: seq<Key>)

  /** A loaded definition: node definitions by key, and `definition.defaults.timeout_sec`. */
  datatype Definition = Definition(nodes: map<Key, NodeDef>, defaults: Timeout)
}
