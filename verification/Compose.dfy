/** `UpComposeStack`: reconciling the containers of a project with a Compose file. */
module Compose {
  import opened Options
  import opened Sequences
  import opened ServiceSort
  import opened DependencyGraph
  import opened Reconciliation
  import opened ContainerDaemon
  import opened ComposeEngine

  // ---------- Data ----------

  /** The labels the engine reads, and any other label. */
  datatype LabelKey = Project | LegacyProject | Service | LegacyService | ConfigHash | StackId | Plain(key: string)

  type Labels = map<LabelKey, string>

  datatype Container = Container(name: string, labels: Labels, running: bool)

  type Containers = map<nat, Container>

  datatype ServiceSpec = ServiceSpec(image: string, containerName: string, labels: Labels, dependsOn: seq<string>,
      rest: string)

  datatype NetworkSpec = NetworkSpec(external: bool, name: string)

  /** A decoded request; `spec` is absent when the YAML text does not decode. */
  datatype Request = Request(
    id: string, project: string, forcePull: bool, recreate: bool,
    decoded: bool, services: map<string, ServiceSpec>, networks: map<string, NetworkSpec>)

  /** The configuration hash, the clean-up of image names and the port parser. */
  datatype Env = Env(hash: ServiceSpec -> string, cleanImage: string -> string, portsOk: ServiceSpec -> bool)

  // ---------- What the engine reads from a container ----------

  function Label(c: Container, k: LabelKey): string {
    if k in c.labels then c.labels[k] else ""
  }

  predicate Belongs(req: Request, c: Container) {
    || (req.id != "" && Label(c, StackId) == req.id)
    || Label(c, Project) == req.project || Label(c, LegacyProject) == req.project
  }

  function ServiceOf(c: Container): string {
    if Label(c, Service) != "" then Label(c, Service) else Label(c, LegacyService)
  }

  function Effective(env: Env, svc: ServiceSpec): ServiceSpec {
    svc.(image := env.cleanImage(svc.image))
  }

  function ContainerName(project: string, service: string, svc: ServiceSpec): string {
    if svc.containerName != "" then svc.containerName else project + "-" + service + "-1"
  }

  function NameOf(req: Request, s: string): string
    requires s in req.services
  {
    ContainerName(req.project, s, req.services[s])
  }

  function HashOf(env: Env, req: Request, s: string): string
    requires s in req.services
  {
    env.hash(Effective(env, req.services[s]))
  }

  /** The container can stay as it is. */
  predicate UpToDate(env: Env, req: Request, s: string, c: Container)
    requires s in req.services
  {
    && Label(c, ConfigHash) == HashOf(env, req, s)
    && (req.id == "" || Label(c, StackId) == req.id)
    && Label(c, Project) == req.project && c.running
  }

  function NewLabels(env: Env, req: Request, s: string): Labels
    requires s in req.services
  {
    var base := map[Project := req.project, Service := s, ConfigHash := HashOf(env, req, s)];
    (if req.id != "" then base[StackId := req.id] else base) + req.services[s].labels
  }

  // ---------- What the engine promises ----------

  /** A container whose hash label is that of a service of the request bears the name this service asks for. */
  predicate NamedAsHashed(env: Env, req: Request, c: Container) {
    var s := ServiceOf(c);
    s in req.services && Label(c, Project) == req.project && Label(c, ConfigHash) == HashOf(env, req, s) ==>
      c.name == NameOf(req, s)
  }

  /** The engine's view of the daemon for one request. */
  function ViewOf(env: Env, req: Request, name: Container -> string): View<string, Container, string> {
    View(
      req.services.Keys,
      c => Belongs(req, c),
      c => NamedAsHashed(env, req, c),
      ServiceOf,
      (s, c) => s in req.services && UpToDate(env, req, s, c),
      name,
      s => if s in req.services then NameOf(req, s) else "")
  }

  function JobOf(env: Env, req: Request, name: Container -> string): Job<string, Container, string> {
    Job(
      ViewOf(env, req, name),
      c => ServiceOf(c) != "",
      s => if s in req.services then Container(NameOf(req, s), NewLabels(env, req, s), false)
        else Container("", map[], false),
      (c: Container) => c.(running := true), (c: Container) => c.(running := false),
      s => s in req.services && ImageOk(env.cleanImage(req.services[s].image)),
      s => s in req.services && env.portsOk(req.services[s]),
      req.recreate, req.forcePull)
  }

  /** Images that are empty or begin with a colon are refused. */
  predicate ImageOk(image: string) {
    image != "" && image[0] != ':'
  }

  /** The container service `s` should have: of this project and service, running, with the service's hash and name. */
  ghost predicate Wanted(env: Env, req: Request, s: string, c: Container)
    requires s in req.services
  {
    Belongs(req, c) && ServiceOf(c) == s && UpToDate(env, req, s, c) && c.name == NameOf(req, s)
  }

  /** The containers are those of the file: for each service exactly one container of the project, running, with the
      service's hash and name, and no container of a service that is not in the file. */
  ghost predicate Deployed(env: Env, req: Request, cs: Containers) {
    && (forall s | s in req.services :: exists id :: id in cs && Wanted(env, req, s, cs[id]))
    && (forall id | id in cs && Belongs(req, cs[id]) :: ServiceOf(cs[id]) in req.services)
    && (forall a, b | a in cs && b in cs && Belongs(req, cs[a]) && Belongs(req, cs[b])
         && ServiceOf(cs[a]) == ServiceOf(cs[b]) :: a == b)
  }

  /** The project's containers were made by the engine: at most one per service, each with a service label. */
  ghost predicate EngineMade(env: Env, req: Request, cs: Containers) {
    && (forall a, b | a in cs && b in cs && Belongs(req, cs[a]) && Belongs(req, cs[b])
         && ServiceOf(cs[a]) == ServiceOf(cs[b]) :: a == b)
    && (forall id | id in cs && Belongs(req, cs[id]) :: ServiceOf(cs[id]) != "" && NamedAsHashed(env, req, cs[id]))
  }

  ghost predicate InDomain(env: Env, req: Request, cs: Containers) {
    CleanSpec(req) && EngineMade(env, req, cs)
  }

  const RESERVED: set<LabelKey> := {Project, LegacyProject, Service, LegacyService, ConfigHash, StackId}

  /** Services are named, have distinct container names and leave the reserved labels alone. */
  ghost predicate CleanSpec(req: Request) {
    && "" !in req.services
    && (forall s, t | s in req.services && t in req.services && NameOf(req, s) == NameOf(req, t) :: s == t)
    && (forall s | s in req.services :: req.services[s].labels.Keys !! RESERVED)
  }

  lemma NewLabelsRead(env: Env, req: Request, s: string)
    requires CleanSpec(req) && s in req.services
    ensures var c := Container(NameOf(req, s), NewLabels(env, req, s), true);
      && Label(c, Project) == req.project && Label(c, Service) == s && Label(c, ConfigHash) == HashOf(env, req, s)
      && (req.id != "" ==> Label(c, StackId) == req.id) && ServiceOf(c) == s
  {
    assert s != "";
    assert forall k | k in RESERVED :: k !in req.services[s].labels;
  }

  lemma CleanSpecIsSound(env: Env, req: Request, name: Container -> string)
    requires CleanSpec(req) && forall c :: name(c) == c.name
    ensures Sound(JobOf(env, req, name))
  {
    var job := JobOf(env, req, name);
    forall s | s in job.view.services
      ensures Good(job.view, s, job.start(job.blank(s))) && job.view.name(job.blank(s)) == job.view.wanted(s)
    {
      NewLabelsRead(env, req, s);
      assert job.start(job.blank(s)) == Container(NameOf(req, s), NewLabels(env, req, s), true);
    }
  }

  lemma WantedIsGood(env: Env, req: Request, name: Container -> string, s: string, c: Container)
    requires s in req.services && name(c) == c.name && (Belongs(req, c) ==> NamedAsHashed(env, req, c))
    ensures Wanted(env, req, s, c) <==> Good(ViewOf(env, req, name), s, c)
  {}

  lemma WantedIsHad(env: Env, req: Request, name: Container -> string, cs: Containers, s: string)
    requires s in req.services && EngineMade(env, req, cs) && forall c :: name(c) == c.name
    ensures (exists id :: id in cs && Wanted(env, req, s, cs[id])) <==> HasGood(ViewOf(env, req, name), s, cs)
  {
    hide Wanted, Good, NamedAsHashed, ViewOf;
    var v := ViewOf(env, req, name);
    if id :| id in cs && Wanted(env, req, s, cs[id]) { WantedIsGood(env, req, name, s, cs[id]); }
    if HasGood(v, s, cs) {
      var id :| id in cs && Good(v, s, cs[id]);
      WantedIsGood(env, req, name, s, cs[id]);
    }
  }

  lemma DeployedIsConverged(env: Env, req: Request, name: Container -> string, cs: Containers)
    requires CleanSpec(req) && EngineMade(env, req, cs) && forall c :: name(c) == c.name
    ensures Deployed(env, req, cs) <==> Converged(ViewOf(env, req, name), cs)
  {
    hide Wanted, Good, HasGood, CleanSpec, EngineMade, UpToDate, NamedAsHashed;
    forall s | s in req.services
      ensures (exists id :: id in cs && Wanted(env, req, s, cs[id])) <==> HasGood(ViewOf(env, req, name), s, cs)
    {
      WantedIsHad(env, req, name, cs, s);
    }
  }

  lemma ConvergedIsDeployed(env: Env, req: Request, name: Container -> string, cs: Containers)
    requires CleanSpec(req) && Converged(ViewOf(env, req, name), cs) && forall c :: name(c) == c.name
    ensures Deployed(env, req, cs) && EngineMade(env, req, cs)
  {
    var job := JobOf(env, req, name);
    ConvergedIsEngineState(job, cs);
    assert EngineMade(env, req, cs);
    DeployedIsConverged(env, req, name, cs);
  }

  ghost predicate HashSeparates(env: Env) {
    forall a, b | env.hash(Effective(env, a)) == env.hash(Effective(env, b)) :: a.containerName == b.containerName
  }

  /** The container was created for this service specification. */
  ghost predicate MadeFrom(env: Env, c: Container, svc: ServiceSpec) {
    && Label(c, ConfigHash) == env.hash(Effective(env, svc)) && ServiceOf(c) != ""
    && c.name == ContainerName(Label(c, Project), ServiceOf(c), svc)
  }

  ghost predicate HasOrigin(env: Env, c: Container) {
    exists svc :: MadeFrom(env, c, svc)
  }

  /**
   * The project's containers were made by this engine, from whatever file: at most one for each service, each created
   * for some service specification. Of the request only its id and its project name matter.
   */
  ghost predicate EngineBuilt(env: Env, req: Request, cs: Containers) {
    && OnePerLabel(req, cs)
    && (forall id | id in cs && Belongs(req, cs[id]) :: HasOrigin(env, cs[id]))
  }

  ghost predicate OnePerLabel(req: Request, cs: Containers) {
    forall a, b | a in cs && b in cs && Belongs(req, cs[a]) && Belongs(req, cs[b])
      && ServiceOf(cs[a]) == ServiceOf(cs[b]) :: a == b
  }

  predicate SameProject(a: Request, b: Request) {
    a.id == b.id && a.project == b.project
  }

  /** With a collision-free hash, every container the engine ever created is named as it is hashed. */
  lemma EngineNamesAsHashed(env: Env, req: Request, c: Container, svc: ServiceSpec)
    requires HashSeparates(env) && MadeFrom(env, c, svc)
    ensures NamedAsHashed(env, req, c)
  {
    var s := ServiceOf(c);
    if s in req.services && Label(c, ConfigHash) == HashOf(env, req, s) {
      assert svc.containerName == req.services[s].containerName;
    }
  }

  /** What the engine built from one file is in the domain of every later file of the project. */
  lemma BuiltIsInDomain(env: Env, before: Request, req: Request, cs: Containers)
    requires HashSeparates(env) && SameProject(before, req) && CleanSpec(req) && EngineBuilt(env, before, cs)
    ensures InDomain(env, req, cs)
  {
    forall id | id in cs && Belongs(req, cs[id]) ensures ServiceOf(cs[id]) != "" && NamedAsHashed(env, req, cs[id]) {
      assert Belongs(before, cs[id]) && HasOrigin(env, cs[id]);
      var svc :| MadeFrom(env, cs[id], svc);
      EngineNamesAsHashed(env, req, cs[id], svc);
    }
    assert forall c :: Belongs(req, c) <==> Belongs(before, c);
  }

  /** What a request has deployed was built by the engine. */
  lemma DeployedIsBuilt(env: Env, req: Request, cs: Containers)
    requires CleanSpec(req) && Deployed(env, req, cs)
    ensures EngineBuilt(env, req, cs)
  {
    forall id | id in cs && Belongs(req, cs[id]) ensures HasOrigin(env, cs[id]) {
      var s := ServiceOf(cs[id]);
      var other :| other in cs && Wanted(env, req, s, cs[other]);
      assert other == id;
      assert MadeFrom(env, cs[id], req.services[s]);
    }
  }

  lemma PartIsBuilt(env: Env, req: Request, before: Containers, after: Containers)
    requires EngineBuilt(env, req, before) && forall x | x in after :: x in before && after[x] == before[x]
    ensures EngineBuilt(env, req, after)
  {
    forall id | id in after && Belongs(req, after[id]) ensures HasOrigin(env, after[id]) {
      assert HasOrigin(env, before[id]);
    }
  }

  /** Deploy a file, edit it, deploy again: the second request is in its domain. */
  lemma EditedFileIsInDomain(env: Env, first: Request, second: Request, cs: Containers)
    requires HashSeparates(env) && SameProject(first, second) && CleanSpec(first) && CleanSpec(second)
    requires Deployed(env, first, cs)
    ensures InDomain(env, second, cs)
  {
    DeployedIsBuilt(env, first, cs);
    BuiltIsInDomain(env, first, second, cs);
  }

  lemma NothingIsBuilt(env: Env, req: Request, cs: Containers)
    requires forall id | id in cs :: !Belongs(req, cs[id])
    ensures EngineBuilt(env, req, cs)
  {}

  /**
   * Every return keeps what the engine has built. An error does unless a removal has failed; success does, and deploys
   * the file, for a clean file and a collision-free hash unless a removal or a listing has failed.
   */
  ghost predicate KeepsBuilt(env: Env, req: Request, before: Containers, after: Containers, err: UpError,
          removeFailed: bool, listFailed: bool)
  {
    EngineBuilt(env, req, before) && !removeFailed ==>
      && (!err.NoError? ==> EngineBuilt(env, req, after))
      && (err.NoError? && HashSeparates(env) && CleanSpec(req) && !listFailed ==>
           EngineBuilt(env, req, after) && Deployed(env, req, after))
  }

  lemma PromiseKeepsBuilt(env: Env, req: Request, before: Containers, after: Containers, err: UpError,
          cleanupFailed: bool, removeFailed: bool, listFailed: bool)
    requires Promised(env, req, before, after, err, cleanupFailed, removeFailed, listFailed)
    ensures KeepsBuilt(env, req, before, after, err, removeFailed, listFailed)
  {
    if EngineBuilt(env, req, before) && !removeFailed {
      if !err.NoError? {
        PartIsBuilt(env, req, before, after);
      } else if HashSeparates(env) && CleanSpec(req) && !listFailed {
        BuiltIsInDomain(env, req, req, before);
        DeployedIsBuilt(env, req, after);
      }
    }
  }

  lemma SameProjectBuilt(env: Env, a: Request, b: Request, cs: Containers)
    requires SameProject(a, b) && EngineBuilt(env, a, cs)
    ensures EngineBuilt(env, b, cs)
  {
    assert forall c :: Belongs(a, c) <==> Belongs(b, c);
  }

  /** One call with its outcome, in which no removal and no listing failed. */
  datatype Call = Call(req: Request, err: UpError)

  /** Calls for one project, from a daemon without containers of the project, which only these calls change. */
  ghost predicate History(env: Env, first: Request, calls: seq<Call>, states: seq<Containers>) {
    && |states| == |calls| + 1
    && (forall x | x in states[0] :: !Belongs(first, states[0][x]))
    && (forall n | 0 <= n < |calls| :: IsCall(env, first, calls[n], states[n], states[n + 1]))
  }

  ghost predicate IsCall(env: Env, first: Request, call: Call, before: Containers, after: Containers) {
    && SameProject(first, call.req) && (call.err.NoError? ==> CleanSpec(call.req))
    && KeepsBuilt(env, call.req, before, after, call.err, false, false)
  }

  /**
   * Over every history of deployments, edits and failures: each state was built by the engine, each clean request finds
   * itself in its domain, and each success has deployed its file.
   */
  lemma {:induction false} HistoryStaysBuilt(env: Env, first: Request, calls: seq<Call>, states: seq<Containers>,
          n: nat)
    requires HashSeparates(env) && History(env, first, calls, states) && n <= |calls|
    ensures EngineBuilt(env, first, states[n])
    ensures n < |calls| && CleanSpec(calls[n].req) ==> InDomain(env, calls[n].req, states[n])
    ensures n > 0 && calls[n - 1].err.NoError? ==> Deployed(env, calls[n - 1].req, states[n])
    decreases n
  {
    if n == 0 {
      NothingIsBuilt(env, first, states[0]);
    } else {
      HistoryStaysBuilt(env, first, calls, states, n - 1);
      assert IsCall(env, first, calls[n - 1], states[n - 1], states[n]);
      SameProjectBuilt(env, first, calls[n - 1].req, states[n - 1]);
      SameProjectBuilt(env, calls[n - 1].req, first, states[n]);
    }
    if n < |calls| && CleanSpec(calls[n].req) {
      assert IsCall(env, first, calls[n], states[n], states[n + 1]);
      BuiltIsInDomain(env, first, calls[n].req, states[n]);
    }
  }

  // ---------- The call ----------

  function DependsOn(req: Request): Services<string> {
    map s | s in req.services :: req.services[s].dependsOn
  }

  function NetworkName(req: Request, key: string): string
    requires key in req.networks
  {
    if req.networks[key].name != "" then req.networks[key].name else req.project + "_" + key
  }

  /** The names of the networks of the request: the default one and those of the file that are not external. */
  ghost function OwnNames(req: Request): set<string> {
    {req.project + "_default"} + set k | k in req.networks && !req.networks[k].external :: NetworkName(req, k)
  }

  ghost predicate HasNetwork(networks: map<nat, string>, name: string) {
    exists n :: n in networks && networks[n] == name
  }

  ghost predicate ListedFor(networks: map<nat, string>, ids: seq<nat>, name: string) {
    exists n :: n in ids && n in networks && networks[n] == name
  }

  /** What is known of the networks while they are being ensured; `done` are the names seen so far. */
  ghost predicate Ensured(req: Request, before: map<nat, string>, cur: map<nat, string>, ids: seq<nat>,
          done: set<string>, listFailed: bool)
  {
    && (forall n | n in before :: n in cur && cur[n] == before[n])
    && (forall n | n in cur :: n in before || n in ids)
    && (forall n | n in ids :: n in cur && cur[n] in OwnNames(req))
    && (forall name | name in done :: ListedFor(cur, ids, name))
    && (listFailed || forall n | n in ids && n !in before :: !HasNetwork(before, cur[n]))
  }

  lemma EnsuredNext(req: Request, before: map<nat, string>, cur: map<nat, string>, ids: seq<nat>, done: set<string>,
          listFailed: bool, id: nat, name: string, next: map<nat, string>, nextFailed: bool)
    requires Ensured(req, before, cur, ids, done, listFailed) && name in OwnNames(req)
    requires id in next && next[id] == name && (listFailed ==> nextFailed)
    requires if id in cur then next == cur else next == cur[id := name] && (nextFailed || !HasNetwork(cur, name))
    ensures Ensured(req, before, next, ids + [id], done + {name}, nextFailed)
  {
    forall other | other in done + {name} ensures ListedFor(next, ids + [id], other) {
      if other == name {
        assert id in ids + [id];
      } else {
        var n :| n in ids && n in cur && cur[n] == other;
        assert n in ids + [id];
      }
    }
    forall n | n in ids + [id] && n !in before && !nextFailed ensures !HasNetwork(before, next[n]) {
      HasStays(before, cur, next[n]);
    }
  }

  lemma HasStays(before: map<nat, string>, cur: map<nat, string>, name: string)
    requires forall n | n in before :: n in cur && cur[n] == before[n]
    ensures HasNetwork(before, name) ==> HasNetwork(cur, name)
  {}

  /** Ensures one network and records it. */
  method EnsureOne(req: Request, d: Daemon<Container, string>, name: string, ids0: seq<nat>,
          ghost before: map<nat, string>, ghost done: set<string>)
    returns (ok: bool, ids: seq<nat>)
    requires d.Valid() && name in OwnNames(req) && Ensured(req, before, d.networks, ids0, done, d.networkListFailed)
    modifies d`networks, d`nextNetwork, d`refused, d`networkListFailed
    ensures d.Valid() && (old(d.refused) ==> d.refused) && (!ok ==> d.refused)
    ensures old(d.networkListFailed) ==> d.networkListFailed
    ensures Ensured(req, before, d.networks, ids, if ok then done + {name} else done, d.networkListFailed)
  {
    hide Ensured, OwnNames;
    ghost var cur, failed := d.networks, d.networkListFailed;
    var r := d.EnsureNetwork(name);
    if r.NotCreated? {
      FewerEnsured(req, before, d.networks, ids0, done, done, failed, d.networkListFailed);
      return false, ids0;
    }
    EnsuredNext(req, before, cur, ids0, done, failed, r.id, name, d.networks, d.networkListFailed);
    return true, ids0 + [r.id];
  }

  /** Ensures the default network and every network of the file that is not external. */
  method EnsureNetworks(req: Request, d: Daemon<Container, string>) returns (ok: bool, ids: seq<nat>)
    requires d.Valid()
    modifies d`networks, d`nextNetwork, d`refused, d`networkListFailed
    ensures d.Valid() && (old(d.refused) ==> d.refused) && (!ok ==> d.refused)
    ensures old(d.networkListFailed) ==> d.networkListFailed
    ensures Ensured(req, old(d.networks), d.networks, ids, if ok then OwnNames(req) else {}, d.networkListFailed)
  {
    hide Ensured;
    ids := [];
    ghost var before := d.networks;
    ghost var done: set<string> := {};
    NoneEnsured(req, before, d.networkListFailed);
    ok, ids := EnsureOne(req, d, req.project + "_default", ids, before, done);
    if !ok { return; }
    done := done + {req.project + "_default"};
    var keys := IterationOrder(req.networks.Keys);
    for i := 0 to |keys|
      invariant d.Valid() && (old(d.refused) ==> d.refused) && (old(d.networkListFailed) ==> d.networkListFailed)
      invariant Ensured(req, before, d.networks, ids, done, d.networkListFailed)
      invariant req.project + "_default" in done
      invariant forall j | 0 <= j < i && !req.networks[keys[j]].external :: NetworkName(req, keys[j]) in done
    {
      assert keys[i] in Elements(keys);
      if req.networks[keys[i]].external { continue; }
      var name := NetworkName(req, keys[i]);
      ok, ids := EnsureOne(req, d, name, ids, before, done);
      if !ok {
        FewerEnsured(req, before, d.networks, ids, done, {}, d.networkListFailed, d.networkListFailed);
        return;
      }
      done := done + {name};
    }
    AllNamesDone(req, keys, done);
    FewerEnsured(req, before, d.networks, ids, done, OwnNames(req), d.networkListFailed, d.networkListFailed);
    ok := true;
  }

  lemma NoneEnsured(req: Request, cur: map<nat, string>, listFailed: bool)
    ensures Ensured(req, cur, cur, [], {}, listFailed)
  {}

  lemma FewerEnsured(req: Request, before: map<nat, string>, cur: map<nat, string>, ids: seq<nat>, done: set<string>,
          fewer: set<string>, failed: bool, failed': bool)
    requires Ensured(req, before, cur, ids, done, failed) && fewer <= done && (failed ==> failed')
    ensures Ensured(req, before, cur, ids, fewer, failed')
  {}

  lemma AllNamesDone(req: Request, keys: seq<string>, done: set<string>)
    requires Elements(keys) == req.networks.Keys && req.project + "_default" in done
    requires forall j | 0 <= j < |keys| && !req.networks[keys[j]].external :: NetworkName(req, keys[j]) in done
    ensures OwnNames(req) <= done
  {
    forall name | name in OwnNames(req) ensures name in done {
      if name != req.project + "_default" {
        var k :| k in req.networks && !req.networks[k].external && NetworkName(req, k) == name;
        assert k in Elements(keys);
        var j :| 0 <= j < |keys| && keys[j] == k;
      }
    }
  }

  /** A network whose name no other network has. */
  ghost predicate OnlyOne(networks: map<nat, string>, n: nat) {
    n in networks && forall m | m in networks && networks[m] == networks[n] :: m == n
  }

  /**
   * What one call does to the networks. Networks that are not the request's stay. The request's own exist afterwards
   * unless an error comes before they are all ensured or the call cleans up after itself; a cycle leaves them in place.
   * The clean-up after a failure on a new project removes the own networks: of those that were there before the call
   * one for each name, and none of the new ones stays.
   */
  ghost predicate NetworksAfter(req: Request, before: map<nat, string>, after: map<nat, string>, err: UpError,
          brandNew: bool, left: bool, listFailed: bool)
  {
    && (forall n | n in before && before[n] !in OwnNames(req) :: n in after && after[n] == before[n])
    && (err.NoError? || err.DependencyCycle? || (FromServiceLoop(err) && !brandNew) ==>
          forall name | name in OwnNames(req) :: HasNetwork(after, name))
    && (err.NoError? || !FromServiceLoop(err) || !brandNew ==>
         forall n | n in before :: n in after && after[n] == before[n])
    && (!err.NoError? && FromServiceLoop(err) && brandNew && !left ==>
          && after.Keys <= before.Keys
          && (!listFailed ==> forall n | n in before && before[n] in OwnNames(req) :: LosesNetwork(before, after, n)))
  }

  /** A network of before with the name of `n` is gone; it is `n` when no other bears this name. */
  ghost predicate LosesNetwork(before: map<nat, string>, after: map<nat, string>, n: nat)
    requires n in before
  {
    && (exists m :: m in before && before[m] == before[n] && m !in after)
    && (OnlyOne(before, n) ==> n !in after)
  }

  lemma EnsuredExist(req: Request, before: map<nat, string>, cur: map<nat, string>, ids: seq<nat>, listFailed: bool)
    requires Ensured(req, before, cur, ids, OwnNames(req), listFailed)
    ensures forall name | name in OwnNames(req) :: HasNetwork(cur, name)
  {
    forall name | name in OwnNames(req) ensures HasNetwork(cur, name) {
      assert ListedFor(cur, ids, name);
    }
  }

  /** Of the networks found under one of the names, one is recorded as if it had been created. */
  lemma FoundIsRecorded(req: Request, before: map<nat, string>, cur: map<nat, string>, ids: seq<nat>, n: nat)
    returns (m: nat)
    requires Ensured(req, before, cur, ids, OwnNames(req), false)
    requires n in before && before[n] in OwnNames(req)
    ensures m in ids && m in before && before[m] == before[n]
    ensures OnlyOne(before, n) ==> m == n
  {
    assert ListedFor(cur, ids, before[n]);
    m :| m in ids && m in cur && cur[m] == before[n];
    assert HasNetwork(before, cur[m]);
  }

  /** A container of another project whose name no service of the request asks for. */
  ghost predicate Unrelated(req: Request, c: Container) {
    !Belongs(req, c) && forall s | s in req.services :: c.name != NameOf(req, s)
  }

  /** What one call promises about containers, between the states `before` and `after`. */
  ghost predicate Promised(env: Env, req: Request, before: Containers, after: Containers, err: UpError,
          cleanupFailed: bool, removeFailed: bool, listFailed: bool)
  {
    // Convergence
    && (err.NoError? && InDomain(env, req, before) && !removeFailed && !listFailed ==>
          Deployed(env, req, after) && EngineMade(env, req, after))
    // Repeating a request changes nothing
    && (InDomain(env, req, before) && Deployed(env, req, before) && !req.recreate && !req.forcePull && !listFailed ==>
         after == before)
    // Other projects are left alone, whatever fails
    && (forall x | x in before && Unrelated(req, before[x]) :: x in after && after[x] == before[x])
    // Rollback
    && (!err.NoError? && !cleanupFailed ==> after.Keys <= before.Keys)
    && (!err.NoError? && !removeFailed ==> forall x | x in after :: x in before && after[x] == before[x])
  }

  /** Cleaned up, the image name is empty or starts with a colon. */
  predicate RefusedImage(env: Env, req: Request, s: string)
    requires s in req.services
  {
    var image := env.cleanImage(req.services[s].image);
    image == "" || image[..1] == ":"
  }

  /** A service error has a reason. */
  ghost predicate ServiceReason(env: Env, req: Request, refused: bool, err: UpError) {
    && (err.BadImage? ==> exists s :: s in req.services && RefusedImage(env, req, s))
    && (err.BadPorts? ==> exists s :: s in req.services && !env.portsOk(req.services[s]))
    && (Refusal(err) ==> refused)
  }

  /** Why a call fails: exactly the unusable requests, a cycle, an unacceptable service, or a refusal of the daemon. */
  ghost predicate Reason(env: Env, req: Request, refused: bool, err: UpError) {
    && (err.EmptyProject? <==> req.project == "")
    && (err.BadYaml? <==> req.project != "" && !req.decoded)
    && (err.NoServices? <==> req.project != "" && req.decoded && |req.services| == 0)
    && (err.NetworkFailed? ==> refused)
    && (err.DependencyCycle? ==> Cyclic(ServiceGraph(DependsOn(req))))
    && ServiceReason(env, req, refused, err)
  }

  // ---------- What a call takes away ----------

  /** The container is the service's, up to date and running. */
  predicate IsCurrent(env: Env, req: Request, c: Container, s: string)
    requires s in req.services
  {
    Belongs(req, c) && ServiceOf(c) == s && UpToDate(env, req, s, c)
  }

  /** The service has such a container and the request does not ask for a new one. */
  ghost predicate CanStay(env: Env, req: Request, cs: Containers, s: string)
    requires s in req.services
  {
    !req.recreate && !req.forcePull && exists x :: x in cs && IsCurrent(env, req, cs[x], s)
  }

  /** A container of the project whose service is not in the file or has been cleared. */
  predicate OfCleared(req: Request, cleared: set<string>, c: Container) {
    Belongs(req, c) && (ServiceOf(c) !in req.services || ServiceOf(c) in cleared)
  }

  /** A container, of whatever project, that bears the name of a cleared service. */
  ghost predicate BearsName(req: Request, cleared: set<string>, c: Container) {
    exists s :: s in cleared && s in req.services && c.name == NameOf(req, s)
  }

  ghost predicate DistinctNames(cs: Containers) {
    forall a, b | a in cs && b in cs && cs[a].name == cs[b].name :: a == b
  }

  /**
   * Of the containers of before, those are gone that were orphans, belonged to a cleared service or bore its name, and
   * no other; those that are left are as they were.
   */
  ghost predicate TakesAway(req: Request, before: Containers, after: Containers, cleared: set<string>) {
    && (forall x | x in before && x in after :: after[x] == before[x] && !OfCleared(req, cleared, before[x]))
    && (forall x | x in before && x !in after ::
         OfCleared(req, cleared, before[x]) || BearsName(req, cleared, before[x]))
    && (DistinctNames(before) ==> forall x | x in before && x in after :: !BearsName(req, cleared, before[x]))
  }

  /**
   * The services that a call clears: those that cannot stay, after an error only those before the service `at` which it
   * stopped at, in the order of the call, and that one if the call broke off at it.
   */
  ghost function ClearedBy(env: Env, req: Request, before: Containers, order: seq<string>, err: UpError,
          at: Option<string>): set<string>
  {
    set s | s in req.services &&
      if err.NoError? || at.None? then !CanStay(env, req, before, s)
      else (s in UpTo(order, at.value) && !CanStay(env, req, before, s)) || (BrokeOff(err) && s == at.value)
  }

  /** Only services that cannot stay are cleared, and these are the ones. */
  ghost predicate ClearsWhatChanged(env: Env, req: Request, before: Containers, order: seq<string>, err: UpError,
          at: Option<string>, cleared: set<string>)
  {
    cleared == ClearedBy(env, req, before, order, err, at) && forall s | s in cleared :: !CanStay(env, req, before, s)
  }

  /** The service a failed call stopped at explains the error, and is cleared exactly if the call broke off at it. */
  ghost predicate StoppedBy(env: Env, req: Request, err: UpError, at: Option<string>, cleared: set<string>) {
    if err.NoError? then at.None?
    else
      && at.Some? && at.value in req.services && (at.value in cleared <==> BrokeOff(err))
      && (err.BadImage? <==> RefusedImage(env, req, at.value))
      && (err.BadPorts? ==> !env.portsOk(req.services[at.value]))
  }

  /** What one call takes away from the containers of before, success and errors alike. */
  ghost predicate Accounts(env: Env, req: Request, before: Containers, after: Containers, order: seq<string>,
          err: UpError, at: Option<string>, cleared: set<string>, removeFailed: bool, listFailed: bool)
  {
    if !FromServiceLoop(err) then after == before && cleared == {}
    else
      && NoDup(order) && Elements(order) == req.services.Keys && StoppedBy(env, req, err, at, cleared)
      && (InDomain(env, req, before) && !listFailed ==>
            ClearsWhatChanged(env, req, before, order, err, at, cleared))
      && (InDomain(env, req, before) && !removeFailed && !listFailed ==>
            TakesAway(req, before, after, cleared) && NewOnes(env, req, before, after))
  }

  // ---------- In terms of the labels ----------

  /** The label has this value; one that is absent reads as empty. */
  predicate Says(c: Container, k: LabelKey, value: string) {
    if k in c.labels then c.labels[k] == value else value == ""
  }

  /** The service label names the service; the older label counts only when the other is absent or empty. */
  predicate SaysService(c: Container, s: string) {
    if Service in c.labels && c.labels[Service] != "" then c.labels[Service] == s else Says(c, LegacyService, s)
  }

  function ConfiguredHash(env: Env, svc: ServiceSpec): string {
    env.hash(svc.(image := env.cleanImage(svc.image)))
  }

  function ConfiguredName(req: Request, s: string, svc: ServiceSpec): string {
    if svc.containerName == "" then req.project + "-" + s + "-1" else svc.containerName
  }

  /** The container runs and says that it is the one of service `s` in its present configuration. */
  predicate RunsFor(env: Env, req: Request, s: string, c: Container)
    requires s in req.services
  {
    && c.running
    && Says(c, Project, req.project) && SaysService(c, s)
    && Says(c, ConfigHash, ConfiguredHash(env, req.services[s]))
    && (req.id != "" ==> Says(c, StackId, req.id))
  }

  /** A container as a call creates and starts it: its own labels and those of the file, which come last. */
  predicate StartedFor(env: Env, req: Request, s: string, c: Container)
    requires s in req.services
  {
    var svc := req.services[s];
    var own := {Project, Service, ConfigHash} + (if req.id != "" then {StackId} else {});
    && c.running && c.name == ConfiguredName(req, s, svc) && c.labels.Keys == own + svc.labels.Keys
    && (forall k | k in svc.labels :: c.labels[k] == svc.labels[k])
    && (Project !in svc.labels ==> c.labels[Project] == req.project)
    && (Service !in svc.labels ==> c.labels[Service] == s)
    && (ConfigHash !in svc.labels ==> c.labels[ConfigHash] == ConfiguredHash(env, svc))
    && (req.id != "" && StackId !in svc.labels ==> c.labels[StackId] == req.id)
  }

  /** Some label ties the container to the project. */
  predicate SaysProject(req: Request, c: Container) {
    (req.id != "" && Says(c, StackId, req.id)) || Says(c, Project, req.project) || Says(c, LegacyProject, req.project)
  }

  ghost predicate HasRunning(env: Env, req: Request, cs: Containers, s: string)
    requires s in req.services
  {
    exists id :: id in cs && RunsFor(env, req, s, cs[id]) && cs[id].name == ConfiguredName(req, s, req.services[s])
  }

  /** The project is up: each service has one running container with its labels and name, and nobody else has any. */
  ghost predicate IsUp(env: Env, req: Request, cs: Containers) {
    && (forall s | s in req.services :: HasRunning(env, req, cs, s))
    && (forall id | id in cs && SaysProject(req, cs[id]) :: exists s :: s in req.services && SaysService(cs[id], s))
    && (forall a, b, s | a in cs && b in cs && SaysProject(req, cs[a]) && SaysProject(req, cs[b])
         && SaysService(cs[a], s) && SaysService(cs[b], s) :: a == b)
  }

  /** The service has no running container in its present configuration, or the request asks for new ones. */
  ghost predicate NeedsNew(env: Env, req: Request, before: Containers, s: string)
    requires s in req.services
  {
    req.recreate || req.forcePull || forall x | x in before :: !RunsFor(env, req, s, before[x])
  }

  /** A successful call leaves the project up, with new containers for exactly the services that need one. */
  ghost predicate BringsUp(env: Env, req: Request, before: Containers, after: Containers, cleared: set<string>) {
    && IsUp(env, req, after)
    && (forall s | s in req.services :: s in cleared <==> NeedsNew(env, req, before, s))
    && (forall s | s in cleared && s in req.services ::
         exists id :: id in after && id !in before && StartedFor(env, req, s, after[id]))
  }

  lemma ServiceIsSaid(c: Container, s: string)
    ensures SaysService(c, s) <==> ServiceOf(c) == s
  {}

  lemma CurrentIsRunning(env: Env, req: Request, s: string, c: Container)
    requires s in req.services
    ensures RunsFor(env, req, s, c) <==> IsCurrent(env, req, c, s)
  {
    ServiceIsSaid(c, s);
  }

  lemma DeployedIsUp(env: Env, req: Request, cs: Containers)
    requires Deployed(env, req, cs)
    ensures IsUp(env, req, cs)
  {
    hide UpToDate, SaysService, ServiceOf, RunsFor;
    forall s | s in req.services
      ensures HasRunning(env, req, cs, s)
    {
      var id :| id in cs && Wanted(env, req, s, cs[id]);
      CurrentIsRunning(env, req, s, cs[id]);
    }
    forall c: Container, s: string ensures SaysService(c, s) <==> ServiceOf(c) == s { ServiceIsSaid(c, s); }
    assert forall c :: SaysProject(req, c) <==> Belongs(req, c);
  }

  /** A service can stay exactly when it does not need a new container. */
  lemma StaysUnlessNeeded(env: Env, req: Request, before: Containers, s: string)
    requires s in req.services
    ensures CanStay(env, req, before, s) <==> !NeedsNew(env, req, before, s)
  {
    hide RunsFor, IsCurrent;
    forall x | x in before ensures RunsFor(env, req, s, before[x]) <==> IsCurrent(env, req, before[x], s) {
      CurrentIsRunning(env, req, s, before[x]);
    }
  }

  /** What a call made. */
  ghost predicate MadeFor(env: Env, req: Request, s: string, c: Container)
    requires s in req.services
  {
    c == Container(NameOf(req, s), NewLabels(env, req, s), c.running)
  }

  ghost predicate NewOnes(env: Env, req: Request, before: Containers, after: Containers) {
    forall x | x in after && x !in before :: exists s :: s in req.services && MadeFor(env, req, s, after[x])
  }

  lemma MadeIsStarted(env: Env, req: Request, s: string, c: Container)
    requires s in req.services && MadeFor(env, req, s, c) && c.running
    ensures StartedFor(env, req, s, c)
  {}

  lemma MadeSaysService(env: Env, req: Request, s: string, c: Container)
    requires CleanSpec(req) && s in req.services && MadeFor(env, req, s, c)
    ensures ServiceOf(c) == s
  {
    NewLabelsRead(env, req, s);
  }

  lemma ClearedAreStarted(env: Env, req: Request, before: Containers, after: Containers, cleared: set<string>,
          s: string)
    requires CleanSpec(req) && Deployed(env, req, after) && TakesAway(req, before, after, cleared)
    requires NewOnes(env, req, before, after) && s in cleared && s in req.services
    ensures exists id :: id in after && id !in before && StartedFor(env, req, s, after[id])
  {
    hide CleanSpec, MadeFor, StartedFor, ServiceOf, Belongs;
    var id :| id in after && Wanted(env, req, s, after[id]);
    assert OfCleared(req, cleared, after[id]);
    var t :| t in req.services && MadeFor(env, req, t, after[id]);
    MadeSaysService(env, req, t, after[id]);
    MadeIsStarted(env, req, s, after[id]);
  }

  lemma SuccessBringsUp(env: Env, req: Request, before: Containers, after: Containers, order: seq<string>,
          cleared: set<string>)
    requires InDomain(env, req, before) && Deployed(env, req, after)
    requires Accounts(env, req, before, after, order, NoError, None, cleared, false, false)
    ensures BringsUp(env, req, before, after, cleared)
  {
    hide EngineMade, Deployed, CanStay, NeedsNew, StartedFor, TakesAway, NewOnes, IsUp;
    DeployedIsUp(env, req, after);
    forall s | s in req.services ensures s in cleared <==> NeedsNew(env, req, before, s) {
      StaysUnlessNeeded(env, req, before, s);
    }
    forall s | s in cleared && s in req.services
      ensures exists id :: id in after && id !in before && StartedFor(env, req, s, after[id])
    {
      ClearedAreStarted(env, req, before, after, cleared, s);
    }
  }

  /** The default network of the project, or one of the file that is not external, named there or after its key. */
  ghost predicate IsOwnNetwork(req: Request, name: string) {
    || name == req.project + "_default"
    || exists k :: k in req.networks && !req.networks[k].external
         && name == (if req.networks[k].name == "" then req.project + "_" + k else req.networks[k].name)
  }

  lemma OwnNamesAre(req: Request, name: string)
    ensures name in OwnNames(req) <==> IsOwnNetwork(req, name)
  {}

  ghost predicate Precedes(order: seq<string>, a: string, b: string) {
    exists i, j :: 0 <= i < j < |order| && order[i] == a && order[j] == b
  }

  /** Every service once, each after the services of the file that it depends on. */
  ghost predicate DependenciesFirst(req: Request, order: seq<string>) {
    && |order| == |req.services| && (forall s | s in req.services :: s in order)
    && forall s, d | s in req.services && d in req.services[s].dependsOn && d in req.services :: Precedes(order, d, s)
  }

  /** Services of the file in a circle, each one depending on the one before it. */
  ghost predicate HasCycle(req: Request) {
    exists c: seq<string> :: IsCircle(req, c)
  }

  ghost predicate IsCircle(req: Request, c: seq<string>) {
    && |c| >= 2 && c[0] == c[|c| - 1] && (forall s <- c :: s in req.services)
    && forall i, j | 0 <= i && j == i + 1 < |c| :: c[i] in req.services[c[j]].dependsOn
  }

  lemma CyclicHasCycle(req: Request)
    ensures Cyclic(ServiceGraph(DependsOn(req))) <==> HasCycle(req)
  {
    var g := ServiceGraph(DependsOn(req));
    forall c ensures IsCycle(g, c) <==> IsCircle(req, c) {
      forall i, j | 0 <= i && j == i + 1 < |c| && IsCycle(g, c) ensures c[i] in req.services[c[j]].dependsOn {
        assert (c[i], c[i + 1]) in g.edges;
      }
    }
  }

  lemma OrderIsDependenciesFirst(req: Request, order: seq<string>)
    requires TopologicalOrder(ServiceGraph(DependsOn(req)), order)
    ensures DependenciesFirst(req, order)
  {
    NoDupSize(order);
    assert req.services.Keys == Elements(order);
    forall s | s in req.services ensures s in order { assert s in Elements(order); }
    forall s, d | s in req.services && d in req.services[s].dependsOn && d in req.services
      ensures Precedes(order, d, s)
    {
      assert (d, s) in ServiceGraph(DependsOn(req)).edges;
      var j :| 0 <= j < |order| && order[j] == s;
      assert d in order[..j];
      var i :| 0 <= i < j && order[..j][i] == d;
      assert order[i] == d;
    }
  }

  /** Every up-to-date container of a service that need not be recreated is still there, as it was. */
  ghost predicate KeptStay(env: Env, req: Request, before: Containers, after: Containers) {
    forall s, x | s in req.services && x in before && CanStay(env, req, before, s)
      && IsCurrent(env, req, before[x], s) ::
      x in after && after[x] == before[x]
  }

  /** Whatever the outcome, editing some services does not touch the others. */
  lemma AccountsKeep(env: Env, req: Request, before: Containers, after: Containers, order: seq<string>, err: UpError,
          at: Option<string>, cleared: set<string>)
    requires InDomain(env, req, before) && Accounts(env, req, before, after, order, err, at, cleared, false, false)
    ensures KeptStay(env, req, before, after)
  {
    hide StoppedBy, ClearedBy, NoDup, Elements;
    if FromServiceLoop(err) {
      forall s, x | s in req.services && x in before && CanStay(env, req, before, s)
        && IsCurrent(env, req, before[x], s)
        ensures x in after && after[x] == before[x]
      {
        assert s !in cleared && !OfCleared(req, cleared, before[x]);
        assert before[x].name == NameOf(req, s);
        assert !BearsName(req, cleared, before[x]);
      }
    }
  }

  /**
   * A failed call has lost nothing exactly when no container of before was an orphan, of one of the services named by
   * the order, the error and what had changed, or a holder of such a service's name.
   */
  lemma ErrorLosesNothingIff(env: Env, req: Request, before: Containers, after: Containers, order: seq<string>,
          err: UpError, at: Option<string>, cleared: set<string>)
    requires InDomain(env, req, before) && DistinctNames(before) && FromServiceLoop(err)
    requires Accounts(env, req, before, after, order, err, at, cleared, false, false)
    requires forall x | x in after :: x in before && after[x] == before[x]
    ensures var changed := ClearedBy(env, req, before, order, err, at);
      after == before <==>
        forall x | x in before :: !OfCleared(req, changed, before[x]) && !BearsName(req, changed, before[x])
  {
    if forall x | x in before :: !OfCleared(req, cleared, before[x]) && !BearsName(req, cleared, before[x]) {
      assert forall x | x in before :: x in after;
      assert after.Keys == before.Keys;
    }
  }

  /** The service that a call broke off at has no container afterwards. */
  lemma BrokenHasNone(env: Env, req: Request, before: Containers, after: Containers, order: seq<string>, err: UpError,
          at: Option<string>, cleared: set<string>)
    requires InDomain(env, req, before) && BrokeOff(err)
    requires Accounts(env, req, before, after, order, err, at, cleared, false, false)
    requires forall x | x in after :: x in before && after[x] == before[x]
    ensures at.Some? && forall x | x in after && Belongs(req, after[x]) :: ServiceOf(after[x]) != at.value
  {
    forall x | x in after && Belongs(req, after[x]) ensures ServiceOf(after[x]) != at.value {
      assert !OfCleared(req, cleared, before[x]);
    }
  }

  method ReconcileRequest(env: Env, req: Request, d: Daemon<Container, string>, order: seq<string>)
    returns (err: UpError, brandNew: bool, ghost cleanupFailed: bool, ghost at: Option<string>,
            ghost cleared: set<string>)
    requires d.Valid() && (forall c :: d.name(c) == c.name) && NoDup(order) && Elements(order) == req.services.Keys
    modifies d`containers, d`removeFailed, d`listFailed, d`nextId, d`refused, d`pulls
    ensures FromServiceLoop(err) && (old(d.refused) ==> d.refused) && ServiceReason(env, req, d.refused, err)
    ensures cleanupFailed ==> !err.NoError? && d.removeFailed
    ensures !d.listFailed ==> (brandNew <==> forall x | x in old(d.containers) :: !Belongs(req, old(d.containers)[x]))
    ensures d.Valid() && Promised(env, req, old(d.containers), d.containers, err, cleanupFailed, d.removeFailed,
      d.listFailed)
    ensures Accounts(env, req, old(d.containers), d.containers, order, err, at, cleared, d.removeFailed, d.listFailed)
    ensures err.NoError? && req.forcePull ==> d.pulls == old(d.pulls) + |order|
  {
    ghost var before := d.containers;
    var job := JobOf(env, req, d.name);
    if InDomain(env, req, before) { DomainOfJob(env, req, d.name, before); }
    err, brandNew, cleanupFailed, at, cleared := Reconcile(job, d, order);
    SparedAreUnrelated(env, req, d.name, before, d.containers);
    CulpritStops(env, req, d.name, err, at, cleared);
    if InDomain(env, req, before) && !d.listFailed {
      ClearsOnlyChanged(env, req, d.name, before, order, err, at, cleared);
      if !d.removeFailed {
        LeavesAccount(env, req, d.name, before, d.containers, cleared);
        if err.NoError? { ConvergedIsDeployed(env, req, d.name, d.containers); }
      }
    }
  }

  lemma CulpritStops(env: Env, req: Request, name: Container -> string, err: UpError, at: Option<string>,
          cleared: set<string>)
    requires NamesCulprit(JobOf(env, req, name), err, at, cleared)
    ensures StoppedBy(env, req, err, at, cleared)
  {}

  lemma ClearsOnlyChanged(env: Env, req: Request, name: Container -> string, before: Containers, order: seq<string>,
          err: UpError, at: Option<string>, cleared: set<string>)
    requires ClearsOnly(JobOf(env, req, name), before, order, err, at, cleared) && (err.NoError? <==> at.None?)
    ensures ClearsWhatChanged(env, req, before, order, err, at, cleared)
  {
    var job := JobOf(env, req, name);
    forall s | s in req.services ensures Stays(job, before, s) <==> CanStay(env, req, before, s) {
      if x :| x in before && Current(job, before[x], s) { assert IsCurrent(env, req, before[x], s); }
      if x :| x in before && IsCurrent(env, req, before[x], s) { assert Current(job, before[x], s); }
    }
  }

  lemma LostMeans(env: Env, req: Request, name: Container -> string, cleared: set<string>, c: Container)
    requires name(c) == c.name && cleared <= req.services.Keys
    ensures LostOwn(JobOf(env, req, name), cleared, c) <==> OfCleared(req, cleared, c)
    ensures LostName(JobOf(env, req, name), cleared, c) <==> BearsName(req, cleared, c)
  {
    var v := JobOf(env, req, name).view;
    if s :| s in cleared && v.name(c) == v.wanted(s) { assert c.name == NameOf(req, s); }
    if s :| s in cleared && s in req.services && c.name == NameOf(req, s) { assert v.name(c) == v.wanted(s); }
  }

  lemma LeavesTakesAway(env: Env, req: Request, name: Container -> string, before: Containers, after: Containers,
          cleared: set<string>)
    requires CleanSpec(req) && (forall c :: name(c) == c.name) && cleared <= req.services.Keys
    requires Leaves(JobOf(env, req, name), cleared, before, after)
    ensures TakesAway(req, before, after, cleared)
  {
    hide LostOwn, LostName, OfCleared, BearsName, CleanSpec, MakesGood;
    CleanSpecIsSound(env, req, name);
    forall c: Container { LostMeans(env, req, name, cleared, c); }
    assert DistinctNames(before) ==> UniqueNames(JobOf(env, req, name).view.name, before);
  }

  lemma LeavesAccount(env: Env, req: Request, name: Container -> string, before: Containers, after: Containers,
          cleared: set<string>)
    requires CleanSpec(req) && (forall c :: name(c) == c.name) && cleared <= req.services.Keys
    requires Leaves(JobOf(env, req, name), cleared, before, after)
    ensures TakesAway(req, before, after, cleared) && NewOnes(env, req, before, after)
  {
    LeavesTakesAway(env, req, name, before, after, cleared);
    NewOnesWereMade(env, req, name, before, after);
  }

  lemma NewOnesWereMade(env: Env, req: Request, name: Container -> string, before: Containers, after: Containers)
    requires forall x | x in after && x !in before :: MadeHere(JobOf(env, req, name), after[x])
    ensures NewOnes(env, req, before, after)
  {
    forall x | x in after && x !in before ensures exists s :: s in req.services && MadeFor(env, req, s, after[x]) {
      var job := JobOf(env, req, name);
      var t :| t in job.view.services && (after[x] == job.blank(t) || after[x] == job.start(job.blank(t)));
      assert MadeFor(env, req, t, after[x]);
    }
  }

  lemma SparedAreUnrelated(env: Env, req: Request, name: Container -> string, before: Containers, after: Containers)
    requires Spared(JobOf(env, req, name), before, after) && forall c :: name(c) == c.name
    ensures forall x | x in before && Unrelated(req, before[x]) :: x in after && after[x] == before[x]
  {
    forall x | x in before && Unrelated(req, before[x]) ensures x in after && after[x] == before[x] {
      assert Foreign(JobOf(env, req, name), before[x]);
    }
  }

  lemma DomainOfJob(env: Env, req: Request, name: Container -> string, cs: Containers)
    requires InDomain(env, req, cs) && forall c :: name(c) == c.name
    ensures Sound(JobOf(env, req, name)) && EngineState(JobOf(env, req, name), cs)
    ensures Deployed(env, req, cs) ==> Converged(JobOf(env, req, name).view, cs)
  {
    CleanSpecIsSound(env, req, name);
    DeployedIsConverged(env, req, name, cs);
  }

  /** Reconciles the containers; when that fails on a new project its networks are removed again. */
  method ReconcileOrUndo(env: Env, req: Request, d: Daemon<Container, string>, order: seq<string>, networkIds: seq<nat>,
          ghost before: map<nat, string>)
    returns (err: UpError, brandNew: bool, ghost cleanupFailed: bool, ghost networksLeft: bool,
            ghost at: Option<string>, ghost cleared: set<string>)
    requires d.Valid() && (forall c :: d.name(c) == c.name) && NoDup(order) && Elements(order) == req.services.Keys
    requires Ensured(req, before, d.networks, networkIds, OwnNames(req), d.networkListFailed)
    modifies d`containers, d`removeFailed, d`listFailed, d`nextId, d`refused, d`pulls, d`networks
    ensures FromServiceLoop(err) && (old(d.refused) ==> d.refused) && ServiceReason(env, req, d.refused, err)
    ensures (cleanupFailed ==> !err.NoError? && d.removeFailed) && (networksLeft ==> d.refused)
    ensures !d.listFailed ==> (brandNew <==> forall x | x in old(d.containers) :: !Belongs(req, old(d.containers)[x]))
    ensures d.Valid() && Promised(env, req, old(d.containers), d.containers, err, cleanupFailed, d.removeFailed,
      d.listFailed)
    ensures Accounts(env, req, old(d.containers), d.containers, order, err, at, cleared, d.removeFailed, d.listFailed)
    ensures NetworksAfter(req, before, d.networks, err, brandNew, networksLeft, d.networkListFailed)
    ensures err.NoError? && req.forcePull ==> d.pulls == old(d.pulls) + |order|
  {
    hide Promised, Accounts, InDomain, NetworksAfter;
    err, brandNew, cleanupFailed, at, cleared := ReconcileRequest(env, req, d, order);
    networksLeft := UndoNetworks(req, d, networkIds, err, brandNew, before);
  }

  /** Removes the recorded networks after a failure on a new project. */
  method UndoNetworks(ghost req: Request, d: Daemon<Container, string>, networkIds: seq<nat>, err: UpError,
          brandNew: bool, ghost before: map<nat, string>)
    returns (ghost left: bool)
    requires d.Valid() && FromServiceLoop(err)
    requires Ensured(req, before, d.networks, networkIds, OwnNames(req), d.networkListFailed)
    modifies d`networks, d`refused
    ensures d.Valid() && (old(d.refused) ==> d.refused) && (left ==> d.refused)
    ensures NetworksAfter(req, before, d.networks, err, brandNew, left, d.networkListFailed)
  {
    left := false;
    ghost var cur := d.networks;
    if !err.NoError? && brandNew { left := RemoveNetworks(d, networkIds); }
    NetworksUndone(req, before, cur, d.networks, networkIds, err, brandNew, left, d.networkListFailed);
  }

  lemma NetworksUndone(req: Request, before: map<nat, string>, cur: map<nat, string>, after: map<nat, string>,
          ids: seq<nat>, err: UpError, brandNew: bool, left: bool, listFailed: bool)
    requires Ensured(req, before, cur, ids, OwnNames(req), listFailed) && FromServiceLoop(err)
    requires err.NoError? || !brandNew ==> after == cur
    requires after.Keys <= cur.Keys && forall n | n in cur && n !in ids :: n in after && after[n] == cur[n]
    requires !err.NoError? && brandNew && !left ==> forall n <- ids :: n !in after
    ensures NetworksAfter(req, before, after, err, brandNew, left, listFailed)
  {
    EnsuredExist(req, before, cur, ids, listFailed);
    if !err.NoError? && brandNew && !left && !listFailed {
      forall n | n in before && before[n] in OwnNames(req) ensures LosesNetwork(before, after, n) {
        var m := FoundIsRecorded(req, before, cur, ids, n);
      }
    }
  }

  /** Prepares, reconciles and cleans up. */
  method Deploy(env: Env, req: Request, d: Daemon<Container, string>)
    returns (err: UpError, brandNew: bool, ghost cleanupFailed: bool, ghost networksLeft: bool,
            ghost order: seq<string>, ghost at: Option<string>, ghost cleared: set<string>)
    requires d.Valid() && forall c :: d.name(c) == c.name
    modifies d`containers, d`removeFailed, d`listFailed, d`nextId, d`refused, d`pulls, d`networks, d`nextNetwork,
      d`networkListFailed
    ensures d.Valid()
    ensures Promised(env, req, old(d.containers), d.containers, err, cleanupFailed, d.removeFailed, d.listFailed)
    ensures Accounts(env, req, old(d.containers), d.containers, order, err, at, cleared, d.removeFailed, d.listFailed)
    ensures NetworksAfter(req, old(d.networks), d.networks, err, brandNew, networksLeft, d.networkListFailed)
    ensures FromServiceLoop(err) && !d.listFailed ==>
      (brandNew <==> forall x | x in old(d.containers) :: !Belongs(req, old(d.containers)[x]))
    ensures Reason(env, req, d.refused, err)
    ensures (cleanupFailed ==> !err.NoError? && d.removeFailed) && (networksLeft ==> d.refused)
    ensures err.NoError? ==> !Cyclic(ServiceGraph(DependsOn(req)))
    ensures FromServiceLoop(err) ==> TopologicalOrder(ServiceGraph(DependsOn(req)), order)
    ensures err.NoError? && req.forcePull ==> d.pulls == old(d.pulls) + |order|
  {
    hide NetworksAfter, Ensured, Promised, Accounts, Reason, TopologicalOrder, OwnNames;
    brandNew, cleanupFailed, networksLeft, at, cleared := false, false, false, None, {};
    var sorted, networkIds;
    err, sorted, networkIds := Prepare(env, req, d);
    order := sorted;
    if !err.NoError? {
      RefusalKeepsPromise(env, req, d.containers, order, err, cleanupFailed, d.removeFailed, d.listFailed);
    } else {
      ServiceErrors(env, req, d.refused);
      err, brandNew, cleanupFailed, networksLeft, at, cleared :=
        ReconcileOrUndo(env, req, d, sorted, networkIds, old(d.networks));
    }
  }

  /** Reconciles the daemon with the request; the daemon's flags speak of this call. */
  method UpComposeStack(env: Env, req: Request, d: Daemon<Container, string>)
    returns (err: UpError, brandNew: bool, ghost cleanupFailed: bool, ghost networksLeft: bool,
            ghost order: seq<string>, ghost at: Option<string>, ghost cleared: set<string>)
    requires d.Valid() && forall c :: d.name(c) == c.name
    modifies d
    ensures d.Valid()
    ensures Promised(env, req, old(d.containers), d.containers, err, cleanupFailed, d.removeFailed, d.listFailed)
    ensures Accounts(env, req, old(d.containers), d.containers, order, err, at, cleared, d.removeFailed, d.listFailed)
    ensures InDomain(env, req, old(d.containers)) && !d.removeFailed && !d.listFailed ==>
      KeptStay(env, req, old(d.containers), d.containers)
    ensures err.NoError? && InDomain(env, req, old(d.containers)) && !d.removeFailed && !d.listFailed ==>
      BringsUp(env, req, old(d.containers), d.containers, cleared)
    ensures KeepsBuilt(env, req, old(d.containers), d.containers, err, d.removeFailed, d.listFailed)
    ensures NetworksAfter(req, old(d.networks), d.networks, err, brandNew, networksLeft, d.networkListFailed)
    ensures FromServiceLoop(err) && !d.listFailed ==>
      (brandNew <==> forall x | x in old(d.containers) :: !Belongs(req, old(d.containers)[x]))
    ensures Reason(env, req, d.refused, err)
    ensures (cleanupFailed ==> !err.NoError? && d.removeFailed) && (networksLeft ==> d.refused)
    ensures err.NoError? ==> !Cyclic(ServiceGraph(DependsOn(req)))
    ensures FromServiceLoop(err) ==> TopologicalOrder(ServiceGraph(DependsOn(req)), order)
    ensures FromServiceLoop(err) ==> DependenciesFirst(req, order) && !HasCycle(req)
    ensures err.DependencyCycle? ==> HasCycle(req)
    ensures err.NoError? ==> forall name | IsOwnNetwork(req, name) :: HasNetwork(d.networks, name)
    ensures err.NoError? && req.forcePull ==> d.pulls == |req.services|
  {
    hide Promised, Accounts, InDomain, KeepsBuilt, KeptStay, NetworksAfter, Reason, BringsUp;
    ghost var cs := d.containers;
    d.Observe();
    err, brandNew, cleanupFailed, networksLeft, order, at, cleared := Deploy(env, req, d);
    PlainlyOrdered(env, req, old(d.networks), d.networks, order, err, brandNew, networksLeft, d.refused,
      d.networkListFailed);
    PromiseKeepsBuilt(env, req, cs, d.containers, err, cleanupFailed, d.removeFailed, d.listFailed);
    if InDomain(env, req, cs) && !d.removeFailed && !d.listFailed {
      AccountsKeep(env, req, cs, d.containers, order, err, at, cleared);
      if err.NoError? { PromiseBringsUp(env, req, cs, d.containers, order, at, cleared, cleanupFailed); }
    }
  }

  lemma PlainlyOrdered(env: Env, req: Request, before: map<nat, string>, after: map<nat, string>, order: seq<string>,
          err: UpError, brandNew: bool, left: bool, refused: bool, listFailed: bool)
    requires NetworksAfter(req, before, after, err, brandNew, left, listFailed) && Reason(env, req, refused, err)
    requires FromServiceLoop(err) ==> TopologicalOrder(ServiceGraph(DependsOn(req)), order)
    ensures FromServiceLoop(err) ==> DependenciesFirst(req, order) && !HasCycle(req)
    ensures err.DependencyCycle? ==> HasCycle(req)
    ensures err.NoError? ==> forall name | IsOwnNetwork(req, name) :: HasNetwork(after, name)
  {
    hide TopologicalOrder, Cyclic, HasCycle, DependenciesFirst, IsOwnNetwork, OwnNames, ServiceGraph;
    CyclicHasCycle(req);
    forall name: string { OwnNamesAre(req, name); }
    if FromServiceLoop(err) {
      OrderIsDependenciesFirst(req, order);
      OrderedIsAcyclic(req, order);
    }
  }

  lemma OrderedIsAcyclic(req: Request, order: seq<string>)
    requires TopologicalOrder(ServiceGraph(DependsOn(req)), order)
    ensures !Cyclic(ServiceGraph(DependsOn(req)))
  {
    TopologicalIsAcyclic(ServiceGraph(DependsOn(req)), order);
  }

  lemma PromiseBringsUp(env: Env, req: Request, before: Containers, after: Containers, order: seq<string>,
          at: Option<string>, cleared: set<string>, cleanupFailed: bool)
    requires InDomain(env, req, before) && Promised(env, req, before, after, NoError, cleanupFailed, false, false)
    requires Accounts(env, req, before, after, order, NoError, at, cleared, false, false)
    ensures BringsUp(env, req, before, after, cleared)
  {
    hide InDomain, Deployed, EngineMade, ClearsWhatChanged, TakesAway, NewOnes;
    SuccessBringsUp(env, req, before, after, order, cleared);
  }

  lemma RefusalKeepsPromise(env: Env, req: Request, cs: Containers, order: seq<string>, err: UpError,
          cleanupFailed: bool, removeFailed: bool, listFailed: bool)
    requires !FromServiceLoop(err)
    ensures Promised(env, req, cs, cs, err, cleanupFailed, removeFailed, listFailed)
    ensures Accounts(env, req, cs, cs, order, err, None, {}, removeFailed, listFailed)
  {}

  /** Once a request is usable, the reasons left are those of the service loop. */
  lemma ServiceErrors(env: Env, req: Request, refused: bool)
    requires Reason(env, req, refused, NoError)
    ensures forall err: UpError, later: bool | FromServiceLoop(err) && ServiceReason(env, req, later, err) ::
      Reason(env, req, later, err)
  {}

  /** Everything before the containers are looked at. */
  method Prepare(ghost env: Env, req: Request, d: Daemon<Container, string>)
    returns (err: UpError, order: seq<string>, networkIds: seq<nat>)
    requires d.Valid()
    modifies d`networks, d`nextNetwork, d`refused, d`networkListFailed
    ensures d.Valid() && (old(d.refused) ==> d.refused) && Reason(env, req, d.refused, err)
    ensures err.NoError? ==>
      && !Cyclic(ServiceGraph(DependsOn(req))) && req.decoded && req.project != "" && |req.services| != 0
      && TopologicalOrder(ServiceGraph(DependsOn(req)), order) && Elements(order) == req.services.Keys && NoDup(order)
      && Ensured(req, old(d.networks), d.networks, networkIds, OwnNames(req), d.networkListFailed)
    ensures !err.NoError? ==> NetworksAfter(req, old(d.networks), d.networks, err, false, false, d.networkListFailed)
    ensures err in {NoError, EmptyProject, BadYaml, NoServices, NetworkFailed, DependencyCycle}
  {
    hide Ensured, OwnNames, TopologicalOrder, Cyclic, ServiceGraph, NetworksAfter;
    ghost var before := d.networks;
    order, networkIds := [], [];
    SameNetworks(req, before, d.networkListFailed);
    if req.project == "" { return EmptyProject, order, networkIds; }
    if !req.decoded { return BadYaml, order, networkIds; }
    if |req.services| == 0 { return NoServices, order, networkIds; }
    var ok;
    ok, networkIds := EnsureNetworks(req, d);
    if !ok {
      PartEnsured(req, before, d.networks, networkIds, d.networkListFailed);
      return NetworkFailed, order, networkIds;
    }
    AllEnsured(req, before, d.networks, networkIds, d.networkListFailed);
    err, order := SortRequest(req);
  }

  lemma SameNetworks(req: Request, networks: map<nat, string>, listFailed: bool)
    ensures forall err: UpError | err.EmptyProject? || err.BadYaml? || err.NoServices? ::
      NetworksAfter(req, networks, networks, err, false, false, listFailed)
  {}

  lemma PartEnsured(req: Request, before: map<nat, string>, cur: map<nat, string>, ids: seq<nat>, listFailed: bool)
    requires Ensured(req, before, cur, ids, {}, listFailed)
    ensures NetworksAfter(req, before, cur, NetworkFailed, false, false, listFailed)
  {}

  lemma AllEnsured(req: Request, before: map<nat, string>, cur: map<nat, string>, ids: seq<nat>, listFailed: bool)
    requires Ensured(req, before, cur, ids, OwnNames(req), listFailed)
    ensures NetworksAfter(req, before, cur, DependencyCycle, false, false, listFailed)
  {
    EnsuredExist(req, before, cur, ids, listFailed);
  }

  method SortRequest(req: Request) returns (err: UpError, order: seq<string>)
    ensures err.NoError? || err.DependencyCycle?
    ensures err.DependencyCycle? <==> Cyclic(ServiceGraph(DependsOn(req)))
    ensures err.NoError? ==>
      TopologicalOrder(ServiceGraph(DependsOn(req)), order) && Elements(order) == req.services.Keys && NoDup(order)
  {
    var names := IterationOrder(req.services.Keys);
    var sorted := SortServicesByDependencies(DependsOn(req), names);
    if sorted.CycleFound? { return DependencyCycle, []; }
    return NoError, sorted.order;
  }
}
