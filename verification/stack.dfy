/**
  The `KthwStack` constructor (lib/kthw-stack.ts) with the cloud constructs
  abstracted away: what it hands to each construct — names, private addresses,
  rendered start-up scripts, pod routes and the load balancer's dependency
  edges — computed from the two count inputs and the three template texts.
 */
module Stack {
  import opened Wrappers
  import opened Decimal
  import opened Text
  import opened AddressPlan
  import opened Placeholders

  /** `new Array(n)` accepts exactly the lengths 0 .. 2^32 - 1 and throws a RangeError otherwise. */
  const MaxArrayLength: int := 0x1_0000_0000

  predicate ValidArrayLength(n: int) {
    0 <= n < MaxArrayLength
  }

  /** The parsed environment: `parseInt(process.env.X || '')`, `None` when it is not an integer. */
  datatype Settings = Settings(workerCount: Option<int>, controllerCount: Option<int>)

  /** The three user-data templates read from the assets directory. */
  datatype Templates = Templates(loadBalancer: string, controller: string, worker: string)

  datatype NodeId = LoadBalancer | Controller(index: nat) | Worker(index: nat)

  /** What one `ec2.Instance` receives: its construct id and name, private IP and user data. */
  datatype NodeSpec = NodeSpec(id: NodeId, name: string, privateAddress: Option<string>, script: string)

  /** What one `ec2.CfnRoute` receives: construct id, destination CIDR and target instance. */
  datatype PodRoute = PodRoute(name: string, destination: string, target: NodeId)

  datatype StackModel = StackModel(
    loadBalancer: NodeSpec,
    controllers: seq<NodeSpec>,
    workers: seq<NodeSpec>,
    routes: seq<PodRoute>,
    dependencies: set<NodeId>)

  datatype StackError = InvalidArrayLength(length: int)

  /** `Number.isInteger(v) ? v : 1`. */
  function ResolveCount(parsed: Option<int>): int {
    match parsed
    case None => 1
    case Some(n) => n
  }

  /** `node.addDependency(d)`: dependencies form a set. */
  function AddDependency(deps: set<NodeId>, d: NodeId): (r: set<NodeId>)
    ensures d in r && deps <= r
    ensures forall e :: e in r ==> e == d || e in deps
  {
    deps + {d}
  }

  lemma AddDependencyIdempotent(deps: set<NodeId>, d: NodeId)
    ensures AddDependency(AddDependency(deps, d), d) == AddDependency(deps, d)
    ensures d in deps ==> AddDependency(deps, d) == deps
  {
  }

  function RouteName(i: nat): string {
    WorkerName(i) + "PodRoute"
  }

  function ControllerSpec(shared: string, i: nat): NodeSpec {
    NodeSpec(Controller(i), ControllerName(i), Some(ControllerAddress(i)), ControllerScript(shared, i))
  }

  function WorkerSpec(shared: string, i: nat): NodeSpec {
    NodeSpec(Worker(i), WorkerName(i), Some(WorkerAddress(i)), WorkerScript(shared, i))
  }

  /** Every pod route targets the first worker, whatever its own index. */
  function RouteSpec(i: nat): PodRoute {
    PodRoute(RouteName(i), PodCidr(i), Worker(0))
  }

  /** The load balancer's edges: controller 0 once a controller exists, worker 0 once a worker exists. */
  function LoadBalancerDependencies(c: nat, w: nat): set<NodeId> {
    (if 1 <= c then {Controller(0)} else {}) + (if 1 <= w then {Worker(0)} else {})
  }

  /** The controllers in index order. */
  function ControllerSpecs(shared: string, c: nat): (xs: seq<NodeSpec>)
    ensures |xs| == c
    ensures forall k :: 0 <= k < c ==> xs[k] == ControllerSpec(shared, k)
  {
    if c == 0 then [] else ControllerSpecs(shared, c - 1) + [ControllerSpec(shared, c - 1)]
  }

  /** The workers in index order. */
  function WorkerSpecs(shared: string, w: nat): (xs: seq<NodeSpec>)
    ensures |xs| == w
    ensures forall k :: 0 <= k < w ==> xs[k] == WorkerSpec(shared, k)
  {
    if w == 0 then [] else WorkerSpecs(shared, w - 1) + [WorkerSpec(shared, w - 1)]
  }

  /** The pod routes in worker order. */
  function RouteSpecs(w: nat): (xs: seq<PodRoute>)
    ensures |xs| == w
    ensures forall k :: 0 <= k < w ==> xs[k] == RouteSpec(k)
  {
    if w == 0 then [] else RouteSpecs(w - 1) + [RouteSpec(w - 1)]
  }

  /**
    The stack described declaratively for valid counts: each part given by
    what it is rather than by the loop that builds it.
   */
  function Assemble(templates: Templates, c: nat, w: nat): StackModel {
    var controllerShared := ControllerShared(templates.controller, c, w);
    var workerShared := WorkerShared(templates.worker, c, w);
    StackModel(
      NodeSpec(LoadBalancer, ApiLbName, None, LoadBalancerScript(templates.loadBalancer, c, w)),
      ControllerSpecs(controllerShared, c),
      WorkerSpecs(workerShared, w),
      RouteSpecs(w),
      LoadBalancerDependencies(c, w))
  }

  /** The outcome of the constructor for the given inputs. */
  function Plan(settings: Settings, templates: Templates): Result<StackModel, StackError> {
    var w := ResolveCount(settings.workerCount);
    var c := ResolveCount(settings.controllerCount);
    if !ValidArrayLength(w) then Failure(InvalidArrayLength(w))
    else if !ValidArrayLength(c) then Failure(InvalidArrayLength(c))
    else Success(Assemble(templates, c, w))
  }

  /** One pass of the controller loop: copy the shared text, replace LOCALIP, then INSTANCE. */
  method RenderController(shared: string, i: nat) returns (node: NodeSpec)
    ensures node == ControllerSpec(shared, i)
  {
    var name := ControllerName(i);
    var localIp := ControllerAddress(i);
    var script := ReplaceAll(shared, LocalIpToken, localIp);
    script := ReplaceAll(script, InstanceToken, name);
    ControllerScriptSteps(shared, i);
    node := NodeSpec(Controller(i), name, Some(localIp), script);
  }

  /** One pass of the worker loop: copy the shared text, replace PODCIDR, LOCALIP, then INSTANCE. */
  method RenderWorker(shared: string, i: nat) returns (node: NodeSpec)
    ensures node == WorkerSpec(shared, i)
  {
    var name := WorkerName(i);
    var localIp := WorkerAddress(i);
    var podCidr := PodCidr(i);
    var script := ReplaceAll(shared, PodCidrToken, podCidr);
    script := ReplaceAll(script, LocalIpToken, localIp);
    script := ReplaceAll(script, InstanceToken, name);
    WorkerScriptSteps(shared, i);
    node := NodeSpec(Worker(i), name, Some(localIp), script);
  }

  /** Lines 223-245: the controllers in index order, `apilb.node.addDependency(controllers[0])` on every pass. */
  method ControllerLoop(shared: string, c: nat, deps0: set<NodeId>) returns (controllers: seq<NodeSpec>, deps: set<NodeId>)
    ensures controllers == ControllerSpecs(shared, c)
    ensures deps == deps0 + LoadBalancerDependencies(c, 0)
  {
    controllers := [];
    deps := deps0;
    var i := 0;
    while i < c
      invariant 0 <= i <= c
      invariant |controllers| == i
      invariant forall k :: 0 <= k < i ==> controllers[k] == ControllerSpec(shared, k)
      invariant deps == deps0 + LoadBalancerDependencies(i, 0)
    {
      var node := RenderController(shared, i);
      controllers := controllers + [node];
      deps := AddDependency(deps, controllers[0].id);
      i := i + 1;
    }
    assert controllers == ControllerSpecs(shared, c);
  }

  /** Lines 268-297: the workers and their pod routes, `apilb.node.addDependency(workers[0])` on every pass. */
  method WorkerLoop(shared: string, w: nat, deps0: set<NodeId>)
    returns (workers: seq<NodeSpec>, routes: seq<PodRoute>, deps: set<NodeId>)
    ensures workers == WorkerSpecs(shared, w) && routes == RouteSpecs(w)
    ensures deps == deps0 + LoadBalancerDependencies(0, w)
  {
    workers := [];
    routes := [];
    deps := deps0;
    var i := 0;
    while i < w
      invariant 0 <= i <= w
      invariant |workers| == i && |routes| == i
      invariant forall k :: 0 <= k < i ==> workers[k] == WorkerSpec(shared, k)
      invariant forall k :: 0 <= k < i ==> routes[k] == RouteSpec(k)
      invariant deps == deps0 + LoadBalancerDependencies(0, i)
    {
      var node := RenderWorker(shared, i);
      workers := workers + [node];
      routes := routes + [PodRoute(node.name + "PodRoute", PodCidr(i), workers[0].id)];
      deps := AddDependency(deps, workers[0].id);
      i := i + 1;
    }
    assert workers == WorkerSpecs(shared, w);
    assert routes == RouteSpecs(w);
  }

  /** Lines 110-297 once both counts are valid lengths: the three templates rendered and the node loops run. */
  method Build(templates: Templates, c: nat, w: nat) returns (m: StackModel)
    ensures m == Assemble(templates, c, w)
  {
    ChainsApplicable(c, w);
    var lbScript := ApplyInOrder(templates.loadBalancer, LoadBalancerSubstitutions(c, w));
    var loadBalancer := NodeSpec(LoadBalancer, ApiLbName, None, lbScript);
    var controllerShared := ApplyInOrder(templates.controller, ControllerSharedSubstitutions(c, w));
    var controllers, deps := ControllerLoop(controllerShared, c, {});
    var workerShared := ApplyInOrder(templates.worker, WorkerSharedSubstitutions(c, w));
    var workers, routes, deps' := WorkerLoop(workerShared, w, deps);
    m := StackModel(loadBalancer, controllers, workers, routes, deps');
  }

  /**
    The constructor's statements in order: the worker count's array is built
    first (line 118), then the controllers' (line 125), and a length `new Array`
    rejects stops the constructor.
   */
  method Synthesize(settings: Settings, templates: Templates) returns (r: Result<StackModel, StackError>)
    ensures r == Plan(settings, templates)
  {
    var w := ResolveCount(settings.workerCount);
    var c := ResolveCount(settings.controllerCount);
    if !ValidArrayLength(w) {
      return Failure(InvalidArrayLength(w));
    }
    if !ValidArrayLength(c) {
      return Failure(InvalidArrayLength(c));
    }
    var m := Build(templates, c, w);
    r := Success(m);
  }

  // ---------------------------------------------------------------------------
  // What the synthesized stack satisfies

  /** Construct ids of pod routes are told apart by the worker index they carry. */
  lemma RouteNamesInjective(i: nat, j: nat)
    ensures RouteName(i) == RouteName(j) <==> i == j
  {
    if RouteName(i) == RouteName(j) {
      assert |WorkerName(i)| == |WorkerName(j)|;
      assert WorkerName(i) == RouteName(i)[..|WorkerName(i)|];
      assert WorkerName(j) == RouteName(j)[..|WorkerName(j)|];
      NamesInjective(i, j);
    }
  }

  /** No two constructs of different kinds share an id: instance names end in a digit, route names do not. */
  lemma NamesOfDifferentKinds(i: nat, j: nat)
    ensures RouteName(i) != WorkerName(j) && RouteName(i) != ControllerName(j)
    ensures ApiLbName != WorkerName(j) && ApiLbName != ControllerName(j) && ApiLbName != RouteName(i)
  {
    var route := RouteName(i);
    var worker := WorkerName(j);
    assert route[|route| - 1] == 'e';
    assert worker[|worker| - 1] == NatToString(j)[|NatToString(j)| - 1];
    assert IsDigit(worker[|worker| - 1]);
    assert route[0] == 'w' && ControllerName(j)[0] == 'c' && ApiLbName[0] == 'a';
    NamesDisjoint(j, j);
  }

  /** The stack's layout, position by position: which node sits where and under what name and address. */
  predicate Shaped(m: StackModel, c: nat, w: nat) {
    && m.loadBalancer.id == LoadBalancer && m.loadBalancer.name == ApiLbName
    && m.loadBalancer.privateAddress == None
    && |m.controllers| == c && |m.workers| == w && |m.routes| == w
    && (forall k :: 0 <= k < c ==>
          m.controllers[k].id == Controller(k) && m.controllers[k].name == ControllerName(k)
          && m.controllers[k].privateAddress == Some(ControllerAddress(k)))
    && (forall k :: 0 <= k < w ==>
          m.workers[k].id == Worker(k) && m.workers[k].name == WorkerName(k)
          && m.workers[k].privateAddress == Some(WorkerAddress(k)))
    && (forall k :: 0 <= k < w ==> m.routes[k] == PodRoute(RouteName(k), PodCidr(k), Worker(0)))
    && m.dependencies == LoadBalancerDependencies(c, w)
  }

  lemma AssembledShape(templates: Templates, c: nat, w: nat)
    ensures Shaped(Assemble(templates, c, w), c, w)
  {
  }

  /** Every construct the stack creates gets an id no other construct of the stack has. */
  lemma IdsDistinct(m: StackModel, c: nat, w: nat)
    requires Shaped(m, c, w)
    ensures forall j, k :: 0 <= j < c && 0 <= k < c ==> (m.controllers[j].name == m.controllers[k].name <==> j == k)
    ensures forall j, k :: 0 <= j < w && 0 <= k < w ==> (m.workers[j].name == m.workers[k].name <==> j == k)
    ensures forall j, k :: 0 <= j < w && 0 <= k < w ==> (m.routes[j].name == m.routes[k].name <==> j == k)
    ensures forall j, k :: 0 <= j < c && 0 <= k < w ==> m.controllers[j].name != m.workers[k].name
    ensures forall j, k :: 0 <= j < w && 0 <= k < c ==> m.routes[j].name != m.controllers[k].name
    ensures forall j, k :: 0 <= j < w && 0 <= k < w ==> m.routes[j].name != m.workers[k].name
    ensures forall k :: 0 <= k < c ==> m.loadBalancer.name != m.controllers[k].name
    ensures forall k :: 0 <= k < w ==> m.loadBalancer.name != m.workers[k].name && m.loadBalancer.name != m.routes[k].name
  {
    forall j, k | 0 <= j < c && 0 <= k < c
      ensures m.controllers[j].name == m.controllers[k].name <==> j == k
    {
      NamesInjective(j, k);
    }
    forall j, k | 0 <= j < w && 0 <= k < w
      ensures m.workers[j].name == m.workers[k].name <==> j == k
      ensures m.routes[j].name == m.routes[k].name <==> j == k
      ensures m.routes[j].name != m.workers[k].name
    {
      NamesInjective(j, k);
      RouteNamesInjective(j, k);
      NamesOfDifferentKinds(j, k);
    }
    forall j, k | 0 <= j < c && 0 <= k < w
      ensures m.controllers[j].name != m.workers[k].name
      ensures m.routes[k].name != m.controllers[j].name
    {
      NamesDisjoint(j, k);
      NamesOfDifferentKinds(k, j);
    }
    forall k | 0 <= k < c
      ensures m.loadBalancer.name != m.controllers[k].name
    {
      NamesOfDifferentKinds(0, k);
    }
    forall k | 0 <= k < w
      ensures m.loadBalancer.name != m.workers[k].name && m.loadBalancer.name != m.routes[k].name
    {
      NamesOfDifferentKinds(k, k);
    }
  }

  /** Every instance with a private address has its own: no address is handed out twice. */
  lemma AddressesDistinct(m: StackModel, c: nat, w: nat)
    requires Shaped(m, c, w)
    ensures forall j, k :: 0 <= j < c && 0 <= k < c ==>
              (m.controllers[j].privateAddress == m.controllers[k].privateAddress <==> j == k)
    ensures forall j, k :: 0 <= j < w && 0 <= k < w ==>
              (m.workers[j].privateAddress == m.workers[k].privateAddress <==> j == k)
    ensures forall j, k :: 0 <= j < c && 0 <= k < w ==> m.controllers[j].privateAddress != m.workers[k].privateAddress
  {
    forall j, k | 0 <= j < c && 0 <= k < c
      ensures m.controllers[j].privateAddress == m.controllers[k].privateAddress <==> j == k
    {
      AddressesInjective(j, k);
    }
    forall j, k | 0 <= j < w && 0 <= k < w
      ensures m.workers[j].privateAddress == m.workers[k].privateAddress <==> j == k
    {
      AddressesInjective(j, k);
    }
    forall j, k | 0 <= j < c && 0 <= k < w
      ensures m.controllers[j].privateAddress != m.workers[k].privateAddress
    {
      AddressesDisjoint(j, k);
    }
  }

  /**
    Route `k` sends worker `k`'s pod CIDR, and only that, to the first worker:
    destinations never repeat, and the target is always an instance of the stack.
   */
  lemma RoutesToFirstWorker(m: StackModel, c: nat, w: nat)
    requires Shaped(m, c, w)
    ensures forall j, k :: 0 <= j < w && 0 <= k < w ==> (m.routes[j].destination == m.routes[k].destination <==> j == k)
    ensures forall k :: 0 <= k < w ==> m.routes[k].destination == PodCidr(m.workers[k].id.index)
    ensures forall k :: 0 <= k < w ==> m.routes[k].target == m.workers[0].id
  {
    forall j, k | 0 <= j < w && 0 <= k < w
      ensures m.routes[j].destination == m.routes[k].destination <==> j == k
    {
      PodCidrsInjective(j, k);
    }
  }

  /**
    The load balancer waits on exactly the first controller and the first
    worker that exist, however many passes the loops make, and never on itself.
   */
  lemma DependenciesExist(m: StackModel, c: nat, w: nat)
    requires Shaped(m, c, w)
    ensures forall d :: d in m.dependencies <==>
              (1 <= c && d == m.controllers[0].id) || (1 <= w && d == m.workers[0].id)
    ensures m.loadBalancer.id !in m.dependencies
  {
  }

  /** A parsed count the constructor accepts: absent (so 1), or a length `new Array` takes. */
  predicate CountAccepted(parsed: Option<int>) {
    parsed.None? || ValidArrayLength(parsed.value)
  }

  /**
    The constructor's outcome from its inputs: it fails exactly when a parsed
    count is a length `new Array` rejects, reporting the worker count first;
    otherwise it builds one controller per count unit (one when the count is
    absent) and likewise for workers, laid out as `Shaped` describes.
   */
  lemma PlanOutcome(settings: Settings, templates: Templates)
    ensures var r := Plan(settings, templates);
      && (r.Success? <==> CountAccepted(settings.workerCount) && CountAccepted(settings.controllerCount))
      && (!CountAccepted(settings.workerCount) ==> r == Failure(InvalidArrayLength(settings.workerCount.value)))
      && (CountAccepted(settings.workerCount) && !CountAccepted(settings.controllerCount) ==>
            r == Failure(InvalidArrayLength(settings.controllerCount.value)))
      && (r.Success? ==>
            && |r.value.controllers| == (if settings.controllerCount.None? then 1 else settings.controllerCount.value)
            && |r.value.workers| == (if settings.workerCount.None? then 1 else settings.workerCount.value)
            && Shaped(r.value, |r.value.controllers|, |r.value.workers|))
  {
    var w := ResolveCount(settings.workerCount);
    var c := ResolveCount(settings.controllerCount);
    if ValidArrayLength(w) && ValidArrayLength(c) {
      AssembledShape(templates, c, w);
    }
  }

  /** With neither count set, the stack has one controller, one worker and one route, and both edges. */
  lemma DefaultStack(templates: Templates)
    ensures var r := Plan(Settings(None, None), templates);
      && r.Success?
      && |r.value.controllers| == 1 && |r.value.workers| == 1 && |r.value.routes| == 1
      && r.value.dependencies == {Controller(0), Worker(0)}
  {
    AssembledShape(templates, 1, 1);
  }

  /**
    With at least one controller and one worker, no script the stack hands to
    an instance still contains a placeholder its template chain replaces.
   */
  lemma AssembledScriptsResolved(templates: Templates, c: nat, w: nat)
    requires 1 <= c && 1 <= w
    ensures var m := Assemble(templates, c, w);
      && (forall k :: 0 <= k < |LoadBalancerVocabulary| ==> !Occurs(m.loadBalancer.script, LoadBalancerVocabulary[k]))
      && (forall i, k :: 0 <= i < c && 0 <= k < |ControllerVocabulary| ==>
            !Occurs(m.controllers[i].script, ControllerVocabulary[k]))
      && (forall i, k :: 0 <= i < w && 0 <= k < |WorkerVocabulary| ==>
            !Occurs(m.workers[i].script, WorkerVocabulary[k]))
  {
    var m := Assemble(templates, c, w);
    LoadBalancerScriptResolved(templates.loadBalancer, c, w);
    forall i | 0 <= i < c
      ensures forall k :: 0 <= k < |ControllerVocabulary| ==> !Occurs(m.controllers[i].script, ControllerVocabulary[k])
    {
      ControllerScriptResolved(templates.controller, c, w, i);
    }
    forall i | 0 <= i < w
      ensures forall k :: 0 <= k < |WorkerVocabulary| ==> !Occurs(m.workers[i].script, WorkerVocabulary[k])
    {
      WorkerScriptResolved(templates.worker, c, w, i);
    }
  }
}
