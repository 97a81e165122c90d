# KthwStack in Dafny

A model of the `KthwStack` constructor (lib/kthw-stack.ts). The constructor provisions a "Kubernetes the
Hard Way" cluster on AWS: one API load balancer, `n` controllers and `m` workers. Apart from the
cloud constructs, it is a deterministic pipeline over two counts and three start-up script templates:

- it resolves the controller and worker counts from the environment;
- it gives each node a name and a private address, and each worker a pod CIDR block;
- it renders comma-, space- and newline-joined lists of those (peer lists, etcd cluster strings,
  the nginx backend block, `/etc/hosts` lines);
- it substitutes them into the templates with literal `replace(/TOKEN/g, value)` chains, first on a
  shared copy and then per node (`LOCALIP`, `INSTANCE`, `PODCIDR`);
- it records the pod routes and the load balancer's `addDependency` edges.

The modules follow that pipeline:

- `Wrappers`: `Option` and `Result`.
- `Decimal`: `NatToString`, the decimal numeral JavaScript writes for an index.
- `Text`: literal replace-all, `split` and `join`, and chains of replace-alls.
- `AddressPlan`: names, private addresses and pod CIDRs per index.
- `Placeholders`: list values, the five substitution chains and the scripts they produce.
- `Stack`:
  - the constructor as a method, `Synthesize`, whose loops mirror the source;
  - the same outcome as a declarative definition, `Plan` and `Assemble`;
  - lemmas about the stack it describes.

Each node is rendered from its own copy of the shared text (`slice()` in the source). In the model,
rendering is a pure function of the shared text and the index, so rendering one node cannot change the
shared text or another node's script.

Inputs the constructor takes from outside are parameters:

- the counts are `parseInt` results, as `Option<int>` (`None` when the result is not an integer);
- the three templates are strings.

## Model

| member | source | states |
|---|---|---|
| Decimal.NatToString | lib/kthw-stack.ts:224-225 | the text `'…' + i` appends for index `i`: non-empty, digits only, no leading zero |
| Decimal.ParseRendered | lib/kthw-stack.ts:225 | reading the rendered numeral back as decimal gives the index again (round trip) |
| Decimal.NatToStringInjective | lib/kthw-stack.ts:224-225 | different indices render as different numerals |
| Text.ReplaceAll | lib/kthw-stack.ts:114 | definition: `s.replace(/TOK/g, v)` for a literal token, a leftmost, non-overlapping scan that replaces every match by `v`; characterised by `Text.ReplaceIsSplitJoin`, `Text.ReplaceAbsent` and `Text.NoNewOccurrence` |
| Text.Split | lib/kthw-stack.ts:114 | reference definition of the text between the leftmost non-overlapping matches of a token; there is always at least one piece. It is the independent partner of `Text.ReplaceAll` and `Text.Join` |
| Text.Join | lib/kthw-stack.ts:121 | definition: `xs.join(sep)`; characterised by `Text.JoinSplit` and `Text.SplitJoin` |
| Text.Chain | lib/kthw-stack.ts:114-143 | definition: consecutive `.replace` statements applied in list order; characterised by `Text.ApplyInOrder`, `Text.ChainAppend` and `Text.ChainResolves` |
| Text.ReplaceIsSplitJoin | lib/kthw-stack.ts:114 | a replace-all equals splitting on the token and joining the pieces with the value, so the text between matches is kept, in order |
| Text.JoinSplit | lib/kthw-stack.ts:114 | splitting on a separator and joining with it again gives the original text |
| Text.SplitJoin | lib/kthw-stack.ts:116-122 | joining pieces that avoid the separator's first character and splitting again gives the same pieces |
| Text.SplitPiecesFree | lib/kthw-stack.ts:114 | no piece between matches contains the token |
| Text.SplitSingleIff | lib/kthw-stack.ts:114 | the text is a single piece exactly when the token does not occur in it |
| Text.ReplaceAbsent | lib/kthw-stack.ts:114 | a replace-all of a token that does not occur leaves the text unchanged |
| Text.ReplaceBySelf | lib/kthw-stack.ts:114 | replacing a token by itself leaves the text unchanged |
| Text.PrefixBeforeValue | lib/kthw-stack.ts:114 | for a non-empty value, every prefix of the output either equals the same prefix of the input or already holds a character of the value |
| Text.NoNewOccurrence | lib/kthw-stack.ts:114-143 | if the value is non-empty and shares no character with a token, then after the replace that token occurs nowhere, whether it is the replaced token or one absent before (an empty value can join the text around a match into a new match) |
| Text.ApplyInOrder | lib/kthw-stack.ts:114-143 | running the `.replace` statements one at a time gives the chain's result |
| Text.ChainAppend | lib/kthw-stack.ts:226-228 | running the shared chain and then a node's chain is running their concatenation |
| Text.ChainKeepsAbsent | lib/kthw-stack.ts:114-143 | a chain whose values are all non-empty and avoid a token's characters never creates that token |
| Text.ChainResolves | lib/kthw-stack.ts:114-143 | a chain whose values are all non-empty and avoid every token's characters leaves none of its tokens in the text, whatever the template |
| AddressPlan.ControllerName | lib/kthw-stack.ts:224 | definition: `'controller' + i`; characterised by `AddressPlan.NamesInjective` and `AddressPlan.NamesDisjoint` |
| AddressPlan.WorkerName | lib/kthw-stack.ts:269 | definition: `'worker' + i`; characterised by `AddressPlan.NamesInjective` and `AddressPlan.NamesDisjoint` |
| AddressPlan.ControllerAddress | lib/kthw-stack.ts:225 | definition: `'10.240.0.1' + i`; characterised by `AddressPlan.AddressesInjective` and `AddressPlan.AddressesDisjoint` |
| AddressPlan.WorkerAddress | lib/kthw-stack.ts:270 | definition: `'10.240.0.2' + i`; characterised by `AddressPlan.AddressesInjective` and `AddressPlan.AddressesDisjoint` |
| AddressPlan.PodCidr | lib/kthw-stack.ts:271 | definition: `'10.200.' + i + '.0/24'`; characterised by `AddressPlan.PodCidrsInjective` |
| AddressPlan.NamesInjective | lib/kthw-stack.ts:224-269 | controller names are pairwise distinct, and so are worker names |
| AddressPlan.NamesDisjoint | lib/kthw-stack.ts:224-269 | no controller name equals a worker name |
| AddressPlan.AddressesInjective | lib/kthw-stack.ts:225-270 | controller addresses are pairwise distinct, and so are worker addresses |
| AddressPlan.AddressesDisjoint | lib/kthw-stack.ts:225-270 | no controller address equals a worker address |
| AddressPlan.PodCidrsInjective | lib/kthw-stack.ts:271 | different workers get different pod CIDR blocks |
| Placeholders.Entry | lib/kthw-stack.ts:120-264 | definition: the `.map((_, i) => …)` callbacks of lines 120, 127, 134, 141, 195, 202, 211, 218 and 257 (lines 188 and 264 repeat 134 and 218), one per list kind; characterised by `Placeholders.ListValueEntries` |
| Placeholders.Separator | lib/kthw-stack.ts:121-265 | definition: the `.join` separators, `' '`, `','`, `'\n'` followed by sixteen blanks, and `'\n'`; characterised by `Placeholders.ListValueEntries` |
| Placeholders.ListValue | lib/kthw-stack.ts:116-266 | definition: `new Array(n).fill(0).map(entry).join(separator)`; characterised by `Placeholders.ListValueEntries` and `Placeholders.ListValuePlain` |
| Placeholders.LoadBalancerSubstitutions | lib/kthw-stack.ts:114-143 | definition: the six load-balancer replaces with their values, in source order; characterised by `Placeholders.LoadBalancerScriptResolved` |
| Placeholders.ControllerSharedSubstitutions | lib/kthw-stack.ts:183-220 | definition: the seven shared controller replaces with their values, in source order; characterised by `Placeholders.ControllerScriptResolved` |
| Placeholders.ControllerNodeSubstitutions | lib/kthw-stack.ts:227-228 | definition: LOCALIP then INSTANCE for controller `i`; characterised by `Placeholders.ControllerScriptSteps` |
| Placeholders.WorkerSharedSubstitutions | lib/kthw-stack.ts:251-266 | definition: the three shared worker replaces with their values, in source order; characterised by `Placeholders.WorkerScriptResolved` and `Placeholders.WorkerSideHostsClash` |
| Placeholders.WorkerNodeSubstitutions | lib/kthw-stack.ts:273-275 | definition: PODCIDR, LOCALIP, then INSTANCE for worker `i`; characterised by `Placeholders.WorkerScriptSteps` |
| Placeholders.LoadBalancerScript | lib/kthw-stack.ts:110-143 | definition: the load-balancer template after its chain; characterised by `Placeholders.LoadBalancerScriptResolved` |
| Placeholders.ControllerShared | lib/kthw-stack.ts:179-220 | definition: the controller template after its shared chain; characterised by `Placeholders.ControllerScriptResolved` |
| Placeholders.ControllerScript | lib/kthw-stack.ts:226-228 | definition: controller `i`'s copy of the shared text after its node chain; characterised by `Placeholders.ControllerScriptSteps` |
| Placeholders.WorkerShared | lib/kthw-stack.ts:247-266 | definition: the worker template after its shared chain; characterised by `Placeholders.WorkerScriptResolved` |
| Placeholders.WorkerScript | lib/kthw-stack.ts:272-275 | definition: worker `i`'s copy of the shared text after its node chain; characterised by `Placeholders.WorkerScriptSteps` |
| Placeholders.Entries | lib/kthw-stack.ts:116-122 | `new Array(n).fill(0).map(f)` has exactly `n` entries, entry `i` being `f(i)` |
| Placeholders.ListValueEntries | lib/kthw-stack.ts:116-220 | a joined list is empty for `n = 0`; otherwise splitting it on its separator gives exactly the `n` entries in index order, with `n - 1` separators |
| Placeholders.ListValuePlain | lib/kthw-stack.ts:116-220 | a joined list holds no placeholder character and no `$`, and is non-empty exactly when `n >= 1` |
| Placeholders.TwoControllerPeers | lib/kthw-stack.ts:123-129 | with two controllers, CONTROLLERS becomes `controller0=10.240.0.10 controller1=10.240.0.11` |
| Placeholders.WorkerSideHostsClash | lib/kthw-stack.ts:253-266 | in the worker script, every line `j` of CONTROLLER_NAMES is controller `j`'s address followed by `worker{j}`, and every line `j` of WORKER_NAMES is worker `j`'s address followed by `worker{j}`; so line `i` of the two blocks binds the same name to two different addresses, and no CONTROLLER_NAMES line equals any controller's hosts line |
| Placeholders.HostLineNamesNoController | lib/kthw-stack.ts:253-259 | a worker-side CONTROLLER_NAMES line `10.240.0.1{j}  worker{j}` never equals a controller-side line `10.240.0.1{k}  controller{k}`, for any `j` and `k` |
| Placeholders.ControllerScriptSteps | lib/kthw-stack.ts:226-228 | controller `i`'s script is the shared text with LOCALIP and then INSTANCE replaced |
| Placeholders.WorkerScriptSteps | lib/kthw-stack.ts:272-275 | worker `i`'s script is the shared text with PODCIDR, LOCALIP and then INSTANCE replaced |
| Placeholders.LoadBalancerScriptResolved | lib/kthw-stack.ts:114-143 | with at least one controller and one worker, none of the load balancer's six placeholders is left in its script, whatever the template |
| Placeholders.ControllerScriptResolved | lib/kthw-stack.ts:183-228 | with at least one controller and one worker, none of the controller's nine placeholders is left in any controller's script |
| Placeholders.WorkerScriptResolved | lib/kthw-stack.ts:251-275 | with at least one controller and one worker, none of the worker's six placeholders is left in any worker's script |
| Stack.ResolveCount | lib/kthw-stack.ts:14-17 | definition: an absent parse result gives 1, and an integer is used as given; characterised by `Stack.PlanOutcome` and `Stack.DefaultStack` |
| Stack.ControllerSpec | lib/kthw-stack.ts:224-243 | definition: what controller `i`'s `ec2.Instance` receives; characterised by `Stack.RenderController` and `Stack.IdsDistinct` |
| Stack.WorkerSpec | lib/kthw-stack.ts:269-290 | definition: what worker `i`'s `ec2.Instance` receives; characterised by `Stack.RenderWorker` and `Stack.IdsDistinct` |
| Stack.RouteName | lib/kthw-stack.ts:291 | definition: `name + 'PodRoute'`; characterised by `Stack.RouteNamesInjective` and `Stack.NamesOfDifferentKinds` |
| Stack.RouteSpec | lib/kthw-stack.ts:291-295 | definition: route `i` sends worker `i`'s pod CIDR to worker 0; characterised by `Stack.RoutesToFirstWorker` |
| Stack.LoadBalancerDependencies | lib/kthw-stack.ts:244-296 | definition: the edges the two loops leave on the load balancer; characterised by `Stack.ControllerLoop`, `Stack.WorkerLoop` and `Stack.DependenciesExist` |
| Stack.Assemble | lib/kthw-stack.ts:110-297 | definition: the declarative stack for valid counts; characterised by `Stack.Build`, `Stack.AssembledShape` and `Stack.AssembledScriptsResolved` |
| Stack.Plan | lib/kthw-stack.ts:14-297 | definition: the constructor's outcome, failure included; characterised by `Stack.Synthesize` and `Stack.PlanOutcome` |
| Stack.AddDependency | lib/kthw-stack.ts:244 | after `addDependency(d)` the set holds `d` and everything it held before, and nothing else |
| Stack.AddDependencyIdempotent | lib/kthw-stack.ts:244 | repeating `addDependency` with the same node changes nothing |
| Stack.ControllerSpecs | lib/kthw-stack.ts:223-245 | the controllers, `c` of them in index order |
| Stack.WorkerSpecs | lib/kthw-stack.ts:268-290 | the workers, `w` of them in index order |
| Stack.RouteSpecs | lib/kthw-stack.ts:291-295 | the pod routes, one per worker in index order |
| Stack.RenderController | lib/kthw-stack.ts:224-243 | one controller pass yields controller `i`'s name, address and chain-rendered script |
| Stack.RenderWorker | lib/kthw-stack.ts:269-290 | one worker pass yields worker `i`'s name, address and chain-rendered script |
| Stack.ControllerLoop | lib/kthw-stack.ts:223-245 | the loop builds exactly the controller list, and its repeated `addDependency(controllers[0])` adds only controller 0, and only when a controller exists |
| Stack.WorkerLoop | lib/kthw-stack.ts:268-297 | the loop builds exactly the worker and route lists; every route targets worker 0, and only worker 0 is added as a dependency |
| Stack.Build | lib/kthw-stack.ts:110-297 | with valid counts, the statement-by-statement construction equals the declarative stack |
| Stack.Synthesize | lib/kthw-stack.ts:8-299 | the constructor's outcome, including its failure, equals the declarative `Plan` |
| Stack.PlanOutcome | lib/kthw-stack.ts:14-17 | it fails exactly when a parsed count is negative or at least 2^32, reporting the worker count first; otherwise an absent count means 1, a present count is used as given, and the nodes are laid out by index |
| Stack.DefaultStack | lib/kthw-stack.ts:14-17 | with neither count set: one controller, one worker, one route, and edges to both |
| Stack.AssembledShape | lib/kthw-stack.ts:146-296 | the declarative stack has the per-index layout of names, addresses, routes and edges |
| Stack.IdsDistinct | lib/kthw-stack.ts:146-291 | all construct ids are pairwise distinct: load balancer, controllers, workers and pod routes |
| Stack.AddressesDistinct | lib/kthw-stack.ts:225-270 | no private address is given to two instances |
| Stack.RoutesToFirstWorker | lib/kthw-stack.ts:291-295 | route `k` carries worker `k`'s pod CIDR; no destination repeats; every route targets the first worker |
| Stack.DependenciesExist | lib/kthw-stack.ts:244-296 | the load balancer depends exactly on the first controller and the first worker that exist, and never on itself |
| Stack.AssembledScriptsResolved | lib/kthw-stack.ts:114-275 | with at least one controller and one worker, no instance script keeps a placeholder its chain replaces |

## Where the model follows the code

Some behaviour one might expect of this stack is not in the code, so the model leaves it out:

- There is no capacity limit on the counts. Index 10 and above give addresses such as `10.240.0.110`, and worker 56
  gets the octet `256`. Addresses are kept as strings, and nothing checks them.
- A placeholder left in a script is not an error. The no-leftover theorems need at least one controller and one
  worker: an empty list value can splice the text around a token into a new token.
- The load balancer depends on the first controller and the first worker only, not on every node. The
  `addDependency` calls sit inside the loops but always name element 0.
- The only failure is `new Array(n)` rejecting a negative count or one of at least 2^32 (a `RangeError`). The
  worker count's array is built first (line 118), so an invalid worker count is the one reported.
- The worker template's CONTROLLER_NAMES block pairs controller addresses with the names `worker{i}` (lines
  253-259). The model reproduces this; `Placeholders.WorkerSideHostsClash` states the resulting clash.

## Left out

- CDK construct creation (VPC, security group and ingress rules, IAM roles, instance properties): this is
  declarative provisioning through a library outside the model. Only the names, addresses, scripts, routes and
  edges passed to it are kept.
- Reading the templates from the assets directory, and `console.log`: I/O. The template texts are inputs.
- Reading `process.env` and full `parseInt` behaviour (prefix parsing, `NaN`): the parse result is an
  `Option<int>` input. `-0` is 0.
- The SSM AMI lookup, the instance types and the route table id: static literals or foreign calls.
- General regular-expression semantics: every token is a literal word of capitals and `_`, and no value contains `$`.
  `Text.ReplaceAll` needs a non-empty token, which all of them are.
- Deploy-time ordering and parallelism: CloudFormation behaviour, outside the constructor.
- Construct-id collision checks inside CDK: the model proves instead that the ids of the load balancer, the
  instances and the pod routes never collide (`Stack.IdsDistinct`). The fixed ids `Vpc`, `clusterSG`, `albrole` and
  `clusterrole` belong to constructs the model leaves out.
