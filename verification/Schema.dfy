/**
The entities of the repository and the way their tables are linked.

Every entity has at most one one-to-many edge (its children) and at most one many-to-one edge (its parent), and the
generated code of two entities differs only in what this module lists: the names of the columns, the edges, and
whether the foreign key of an edge is a field of the child or a hidden pointer.
*/
module Schema {
  import opened Wrappers

  datatype Entity =
    | Orchestrator
    | Site
    | Host
    | DeploymentStatus
    | DeploymentComponentStatus
    | ApplicationDesc
    | DeploymentProfile
    | Component

  /** An edge, seen from one of its ends. `column` is the foreign-key column, which lives in the table of the child;
      `hidden` says that the child has no field for it. */
  datatype Edge = Edge(target: Entity, column: string, hidden: bool)

  function IdColumn(e: Entity): string {
    if e == ApplicationDesc then "app_id" else "id"
  }

  function Columns(e: Entity): seq<string> {
    match e
    case Orchestrator => ["id", "name", "type", "region", "api_endpoint", "created_at", "updated_at"]
    case Site => ["id", "site_id", "name", "description", "location", "orchestrator_id", "metadata", "created_at",
                  "updated_at"]
    case Host => ["id", "host_id", "site_id", "runtime", "last_heartbeat", "cpu_free", "status", "hostname",
                  "ip_address", "edge_url", "metadata", "created_at", "updated_at"]
    case DeploymentStatus => ["id", "state", "error_code", "error_message", "created_at", "updated_at"]
    case DeploymentComponentStatus => ["id", "name", "state", "error_code", "error_message", "created_at", "updated_at"]
    case ApplicationDesc => ["app_id", "name", "vendor", "version", "category", "description", "icon", "artifacturl",
                             "site", "tag_line", "tags", "published"]
    case DeploymentProfile => ["id", "type", "description", "cpu_cores", "memory", "storage", "cpu_architectures",
                               "peripherals", "interfaces", "app_id"]
    case Component => ["id", "deployment_profile_id", "name", "properties"]
  }

  /** The foreign-key columns that are not fields of the entity. */
  function ForeignKeys(e: Entity): seq<string> {
    if e == DeploymentComponentStatus then ["deployment_status_components"] else []
  }

  predicate ValidColumn(e: Entity, column: string) {
    column in Columns(e) || column in ForeignKeys(e)
  }

  function ManyEdge(e: Entity): Option<Edge> {
    match e
    case Orchestrator => Some(Edge(Site, "orchestrator_id", false))
    case Site => Some(Edge(Host, "site_id", false))
    case DeploymentStatus => Some(Edge(DeploymentComponentStatus, "deployment_status_components", true))
    case ApplicationDesc => Some(Edge(DeploymentProfile, "app_id", false))
    case DeploymentProfile => Some(Edge(Component, "deployment_profile_id", false))
    case _ => None
  }

  function OneEdge(e: Entity): Option<Edge> {
    match e
    case Site => Some(Edge(Orchestrator, "orchestrator_id", false))
    case Host => Some(Edge(Site, "site_id", false))
    case DeploymentComponentStatus => Some(Edge(DeploymentStatus, "deployment_status_components", true))
    case DeploymentProfile => Some(Edge(ApplicationDesc, "app_id", false))
    case Component => Some(Edge(DeploymentProfile, "deployment_profile_id", false))
    case _ => None
  }

  /** The two ends of an edge name each other and share the foreign-key column. */
  lemma {:induction false} EdgesAreInverse(e: Entity)
    ensures ManyEdge(e).Some? ==>
              var edge := ManyEdge(e).value;
              && OneEdge(edge.target) == Some(edge.(target := e))
              && ValidColumn(edge.target, edge.column)
              && (edge.hidden <==> edge.column in ForeignKeys(edge.target))
    ensures OneEdge(e).Some? ==>
              var edge := OneEdge(e).value;
              && ManyEdge(edge.target) == Some(edge.(target := e))
              && ValidColumn(e, edge.column)
              && (edge.hidden <==> edge.column in ForeignKeys(e))
  {
  }
}
