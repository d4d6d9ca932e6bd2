/** Project configuration and package worktrees as the controller sees them
    (config/models.py). */
module Project {
  import Dag
  import opened Git
  import opened Text

  /** `branch` and `tree` are the resolved `package_branch` and `package_worktree`. */
  datatype Package = Package(
    id: string,
    name: string,
    deps: seq<string>,
    owned: seq<string>,
    forbidden: seq<string>,
    riskLevel: string,
    mergePolicy: string,
    approvalRequired: bool,
    reviewRequired: bool,
    reviewerProfile: string,
    branch: string,
    tree: string)

  datatype Config = Config(
    packages: map<string, Package>,
    order: seq<string>,
    integration: string,
    concurrency: int,
    hermes: bool,
    commands: seq<Command>)

  ghost predicate ValidConfig(cfg: Config) {
    && Distinct(cfg.order)
    && (forall id {:trigger id in cfg.packages} :: id in cfg.order <==> id in cfg.packages)
    && forall id | id in cfg.packages :: cfg.packages[id].id == id
  }

  function GraphOf(cfg: Config): Dag.Graph {
    Dag.Graph(cfg.order, map id | id in cfg.packages :: cfg.packages[id].deps)
  }

  /** A path that exists on disk as some package's workspace. */
  datatype Tree = Tree(registered: bool, gitMarker: bool, usable: bool, branch: string, dirty: bool)
}
