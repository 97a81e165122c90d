/**
  The values the stack substitutes into its three bootstrap templates, and the
  fixed replace-all chains that substitute them (lib/kthw-stack.ts).

  Each list-valued placeholder is built the same way in the source:
  `new Array(n).fill(0).map((_, i) => entry(i)).join(separator)`. `ListKind`
  names the nine such lists, `Entry` gives entry `i` of each and `Separator`
  the string it is joined with.
 */
module Placeholders {
  import opened Decimal
  import opened Text
  import opened AddressPlan

  const BucketName := "magictraining-bucket"
  const KeyName := "kthw"
  const ApiLbName := "api-load-balancer"

  const BucketNameToken := "BUCKET_NAME"
  const KeyNameToken := "KEY_NAME"
  const WorkersToken := "WORKERS"
  const ControllersToken := "CONTROLLERS"
  const ControllerIpsToken := "CONTROLLERIPS"
  const NginxBackendToken := "NGINXBACKEND"
  const ApiLbNameToken := "APILBNAME"
  const EtcdInitialToken := "ETCDINITIAL"
  const EtcdClusterToken := "ETCDCLUSTER"
  const ControllerNamesToken := "CONTROLLER_NAMES"
  const WorkerNamesToken := "WORKER_NAMES"
  const PodCidrToken := "PODCIDR"
  const LocalIpToken := "LOCALIP"
  const InstanceToken := "INSTANCE"

  datatype ListKind =
    | WorkerPeers               // WORKERS in the load-balancer template
    | ControllerPeers           // CONTROLLERS in the load-balancer template
    | ControllerIps             // CONTROLLERIPS in the load-balancer and controller templates
    | EtcdInitial               // ETCDINITIAL in the controller template
    | EtcdCluster               // ETCDCLUSTER in the controller template
    | NginxBackend              // NGINXBACKEND in the load-balancer template
    | ControllerHosts           // CONTROLLER_NAMES in the controller template
    | WorkerHosts               // WORKER_NAMES in the controller and worker templates
    | WorkerSideControllerHosts // CONTROLLER_NAMES in the worker template

  function Entry(kind: ListKind, i: nat): string {
    match kind
    case WorkerPeers => WorkerName(i) + "=" + WorkerAddress(i)
    case ControllerPeers => ControllerName(i) + "=" + ControllerAddress(i)
    case ControllerIps => ControllerAddress(i)
    case EtcdInitial => ControllerName(i) + "=https://" + ControllerAddress(i) + ":2380"
    case EtcdCluster => "https://" + ControllerAddress(i) + ":2379"
    case NginxBackend => "server " + ControllerAddress(i) + ":6443;"
    case ControllerHosts => ControllerAddress(i) + "  " + ControllerName(i)
    case WorkerHosts => WorkerAddress(i) + " " + WorkerName(i)
    // As written in the source: controller addresses paired with worker names.
    case WorkerSideControllerHosts => ControllerAddress(i) + "  " + WorkerName(i)
  }

  function Separator(kind: ListKind): string {
    match kind
    case WorkerPeers | ControllerPeers => " "
    case ControllerIps | EtcdInitial | EtcdCluster => ","
    case NginxBackend => "\n                "
    case ControllerHosts | WorkerHosts | WorkerSideControllerHosts => "\n"
  }

  /** `new Array(n).fill(0).map((_, i) => Entry(kind, i))`: n entries, in index order. */
  function Entries(kind: ListKind, n: nat): (xs: seq<string>)
    ensures |xs| == n
    ensures forall i :: 0 <= i < n ==> xs[i] == Entry(kind, i)
  {
    if n == 0 then [] else Entries(kind, n - 1) + [Entry(kind, n - 1)]
  }

  function ListValue(kind: ListKind, n: nat): string {
    Join(Entries(kind, n), Separator(kind))
  }

  // ---------------------------------------------------------------------------
  // Character classes: tokens are upper-case words, values never contain
  // upper-case letters, `_` or the `$` that would start a replacement pattern.

  predicate TokenChar(c: char) {
    'A' <= c <= 'Z' || c == '_'
  }

  predicate TokenWord(s: string) {
    s != [] && forall i :: 0 <= i < |s| ==> TokenChar(s[i])
  }

  predicate Plain(s: string) {
    forall c :: c in s ==> !TokenChar(c) && c != '$'
  }

  lemma PlainAvoidsToken(v: string, tok: string)
    requires Plain(v) && TokenWord(tok)
    ensures Disjoint(v, tok)
  {
  }

  /** Plainness checked position by position, the cheap way to check a literal. */
  lemma PlainByIndex(s: string)
    requires forall i :: 0 <= i < |s| ==> !TokenChar(s[i]) && s[i] != '$'
    ensures Plain(s)
  {
  }

  lemma FixedValuesPlain()
    ensures Plain(BucketName) && Plain(KeyName + ".pem") && Plain(ApiLbName)
  {
    PlainByIndex(BucketName);
    PlainByIndex(KeyName + ".pem");
    PlainByIndex(ApiLbName);
  }

  lemma LoadBalancerTokensAreWords()
    ensures TokenWord(BucketNameToken) && TokenWord(KeyNameToken) && TokenWord(WorkersToken)
    ensures TokenWord(ControllersToken) && TokenWord(ControllerIpsToken) && TokenWord(NginxBackendToken)
  {
  }

  lemma ControllerTokensAreWords()
    ensures TokenWord(ApiLbNameToken) && TokenWord(EtcdInitialToken) && TokenWord(EtcdClusterToken)
    ensures TokenWord(ControllerNamesToken) && TokenWord(WorkerNamesToken)
  {
  }

  lemma NodeTokensAreWords()
    ensures TokenWord(PodCidrToken) && TokenWord(LocalIpToken) && TokenWord(InstanceToken)
  {
  }

  lemma NumeralPlain(n: nat)
    ensures Plain(NatToString(n))
  {
    forall c | c in NatToString(n)
      ensures !TokenChar(c) && c != '$'
    {
      NumeralChars(n, c);
    }
  }

  lemma {:induction false} JoinPlain(xs: seq<string>, sep: string)
    requires Plain(sep)
    requires forall i :: 0 <= i < |xs| ==> Plain(xs[i])
    ensures Plain(Join(xs, sep))
    decreases |xs|
  {
    if 2 <= |xs| {
      JoinPlain(xs[1..], sep);
    }
  }

  lemma PlainConcat(a: string, b: string)
    requires Plain(a) && Plain(b)
    ensures Plain(a + b)
  {
  }

  /** Host names and addresses are plain. */
  lemma PlanPlain(i: nat)
    ensures Plain(ControllerName(i)) && Plain(WorkerName(i))
    ensures Plain(ControllerAddress(i)) && Plain(WorkerAddress(i)) && Plain(PodCidr(i))
  {
    NumeralPlain(i);
    PlainByIndex("controller");
    PlainByIndex("worker");
    PlainByIndex("10.240.0.1");
    PlainByIndex("10.240.0.2");
    PlainByIndex("10.200.");
    PlainByIndex(".0/24");
    PlainConcat("controller", NatToString(i));
    PlainConcat("worker", NatToString(i));
    PlainConcat("10.240.0.1", NatToString(i));
    PlainConcat("10.240.0.2", NatToString(i));
    PlainConcat("10.200.", NatToString(i));
    PlainConcat("10.200." + NatToString(i), ".0/24");
  }

  /** Every entry consists of plain characters and is not empty. */
  lemma EntryPlain(kind: ListKind, i: nat)
    ensures Plain(Entry(kind, i)) && Entry(kind, i) != []
  {
    PlanPlain(i);
    var name, addr := ControllerName(i), ControllerAddress(i);
    match kind
    case WorkerPeers =>
      PlainByIndex("=");
      PlainConcat(WorkerName(i), "=");
      PlainConcat(WorkerName(i) + "=", WorkerAddress(i));
    case ControllerPeers =>
      PlainByIndex("=");
      PlainConcat(name, "=");
      PlainConcat(name + "=", addr);
    case ControllerIps =>
    case EtcdInitial =>
      PlainByIndex("=https://");
      PlainByIndex(":2380");
      PlainConcat(name, "=https://");
      PlainConcat(name + "=https://", addr);
      PlainConcat(name + "=https://" + addr, ":2380");
    case EtcdCluster =>
      PlainByIndex("https://");
      PlainByIndex(":2379");
      PlainConcat("https://", addr);
      PlainConcat("https://" + addr, ":2379");
    case NginxBackend =>
      PlainByIndex("server ");
      PlainByIndex(":6443;");
      PlainConcat("server ", addr);
      PlainConcat("server " + addr, ":6443;");
    case ControllerHosts =>
      PlainByIndex("  ");
      PlainConcat(addr, "  ");
      PlainConcat(addr + "  ", name);
    case WorkerHosts =>
      PlainByIndex(" ");
      PlainConcat(WorkerAddress(i), " ");
      PlainConcat(WorkerAddress(i) + " ", WorkerName(i));
    case WorkerSideControllerHosts =>
      PlainByIndex("  ");
      PlainConcat(addr, "  ");
      PlainConcat(addr + "  ", WorkerName(i));
  }

  /**
    `s` has no character `c`, checked position by position. This says the same
    as `c !in s` (`LacksNotIn`), but in the positional form the solver checks
    cheaply on concatenations of literals and numerals; membership on those
    makes the proofs below run out of resource.
   */
  predicate Lacks(s: string, c: char) {
    forall i :: 0 <= i < |s| ==> s[i] != c
  }

  lemma LacksConcat(a: string, b: string, c: char)
    requires Lacks(a, c) && Lacks(b, c)
    ensures Lacks(a + b, c)
  {
  }

  lemma LacksNotIn(s: string, c: char)
    requires Lacks(s, c)
    ensures c !in s
  {
  }

  /** Host names and addresses have no blank, comma or line break. */
  lemma PlanLacks(i: nat, c: char)
    requires c == ' ' || c == ',' || c == '\n'
    ensures Lacks(ControllerName(i), c) && Lacks(WorkerName(i), c)
    ensures Lacks(ControllerAddress(i), c) && Lacks(WorkerAddress(i), c)
  {
    LacksConcat("controller", NatToString(i), c);
    LacksConcat("worker", NatToString(i), c);
    LacksConcat("10.240.0.1", NatToString(i), c);
    LacksConcat("10.240.0.2", NatToString(i), c);
  }

  /** No peer or endpoint entry contains a blank or a comma. */
  lemma ListEntryLacks(kind: ListKind, i: nat)
    requires kind.WorkerPeers? || kind.ControllerPeers? || kind.ControllerIps? || kind.EtcdInitial? || kind.EtcdCluster?
    ensures Lacks(Entry(kind, i), Separator(kind)[0])
  {
    var c := Separator(kind)[0];
    PlanLacks(i, c);
    var name, addr := ControllerName(i), ControllerAddress(i);
    match kind
    case WorkerPeers =>
      LacksConcat(WorkerName(i), "=", c);
      LacksConcat(WorkerName(i) + "=", WorkerAddress(i), c);
    case ControllerPeers =>
      LacksConcat(name, "=", c);
      LacksConcat(name + "=", addr, c);
    case ControllerIps =>
    case EtcdInitial =>
      LacksConcat(name, "=https://", c);
      LacksConcat(name + "=https://", addr, c);
      LacksConcat(name + "=https://" + addr, ":2380", c);
    case EtcdCluster =>
      LacksConcat("https://", addr, c);
      LacksConcat("https://" + addr, ":2379", c);
  }

  /** No line of a hosts or backend block contains a line break. */
  lemma LineEntryLacks(kind: ListKind, i: nat)
    requires kind.NginxBackend? || kind.ControllerHosts? || kind.WorkerHosts? || kind.WorkerSideControllerHosts?
    ensures Lacks(Entry(kind, i), '\n')
  {
    var c := '\n';
    PlanLacks(i, c);
    var name, addr := ControllerName(i), ControllerAddress(i);
    match kind
    case NginxBackend =>
      LacksConcat("server ", addr, c);
      LacksConcat("server " + addr, ":6443;", c);
    case ControllerHosts =>
      LacksConcat(addr, "  ", c);
      LacksConcat(addr + "  ", name, c);
    case WorkerHosts =>
      LacksConcat(WorkerAddress(i), " ", c);
      LacksConcat(WorkerAddress(i) + " ", WorkerName(i), c);
    case WorkerSideControllerHosts =>
      LacksConcat(addr, "  ", c);
      LacksConcat(addr + "  ", WorkerName(i), c);
  }

  /** No entry contains the first character of the separator it is joined with. */
  lemma EntryAvoidsSeparator(kind: ListKind, i: nat)
    ensures Separator(kind)[0] !in Entry(kind, i)
  {
    if kind.WorkerPeers? || kind.ControllerPeers? || kind.ControllerIps? || kind.EtcdInitial? || kind.EtcdCluster? {
      ListEntryLacks(kind, i);
    } else {
      LineEntryLacks(kind, i);
    }
    LacksNotIn(Entry(kind, i), Separator(kind)[0]);
  }

  /** A list value is plain, and non-empty exactly when its list is. */
  lemma ListValuePlain(kind: ListKind, n: nat)
    ensures Plain(ListValue(kind, n))
    ensures ListValue(kind, n) != [] <==> 1 <= n
  {
    var xs := Entries(kind, n);
    forall i | 0 <= i < |xs|
      ensures Plain(xs[i])
    {
      EntryPlain(kind, i);
    }
    JoinPlain(xs, Separator(kind));
    if 1 <= n {
      EntryPlain(kind, 0);
      JoinStartsWithFirst(xs, Separator(kind));
    }
  }

  /**
    A list value holds exactly its n entries, in index order, with n - 1
    separators between them; with no entries it is the empty string.
   */
  lemma ListValueEntries(kind: ListKind, n: nat)
    ensures n == 0 ==> ListValue(kind, n) == []
    ensures 1 <= n ==> |Split(ListValue(kind, n), Separator(kind))| == n
    ensures 1 <= n ==> forall i :: 0 <= i < n ==>
              Split(ListValue(kind, n), Separator(kind))[i] == Entry(kind, i)
    ensures 1 <= n ==> Matches(ListValue(kind, n), Separator(kind)) == n - 1
  {
    if 1 <= n {
      var xs := Entries(kind, n);
      forall i | 0 <= i < |xs|
        ensures Separator(kind)[0] !in xs[i]
      {
        EntryAvoidsSeparator(kind, i);
      }
      SplitJoin(xs, Separator(kind));
    }
  }

  /** A two-entry list value is the first entry, the separator, and the second entry. */
  lemma TwoEntryValue(kind: ListKind)
    ensures ListValue(kind, 2) == Entry(kind, 0) + Separator(kind) + Entry(kind, 1)
  {
    var xs := Entries(kind, 2);
    assert xs[1..] == [Entry(kind, 1)];
  }

  /** The first two controllers' addresses, as the source renders them. */
  lemma FirstControllers()
    ensures ControllerName(0) == "controller0" && ControllerName(1) == "controller1"
    ensures ControllerAddress(0) == "10.240.0.10" && ControllerAddress(1) == "10.240.0.11"
  {
    assert NatToString(0) == "0" && NatToString(1) == "1";
  }

  /** The peer list for two controllers. */
  lemma TwoControllerPeers()
    ensures ListValue(ControllerPeers, 2) == "controller0=10.240.0.10 controller1=10.240.0.11"
  {
    TwoEntryValue(ControllerPeers);
    FirstControllers();
  }

  /**
    The worker template's CONTROLLER_NAMES block, as written, maps the host name
    `worker{i}` to controller `i`'s address, while its WORKER_NAMES block maps
    the same name to worker `i`'s address: line `i` of the two blocks binds one
    name to two different addresses, and no line is any controller's hosts line.
   */
  lemma WorkerSideHostsClash(c: nat, w: nat, i: nat)
    requires i < c && i < w
    ensures |Split(ListValue(WorkerSideControllerHosts, c), "\n")| == c
    ensures |Split(ListValue(WorkerHosts, w), "\n")| == w
    ensures forall j :: 0 <= j < c ==>
              Split(ListValue(WorkerSideControllerHosts, c), "\n")[j] == ControllerAddress(j) + "  " + WorkerName(j)
    ensures forall j :: 0 <= j < w ==>
              Split(ListValue(WorkerHosts, w), "\n")[j] == WorkerAddress(j) + " " + WorkerName(j)
    ensures ControllerAddress(i) != WorkerAddress(i)
    ensures forall j, k :: 0 <= j < c && 0 <= k ==>
              Split(ListValue(WorkerSideControllerHosts, c), "\n")[j] != ControllerAddress(k) + "  " + ControllerName(k)
  {
    ListValueEntries(WorkerSideControllerHosts, c);
    ListValueEntries(WorkerHosts, w);
    AddressesDisjoint(i, i);
    forall j, k | 0 <= j < c && 0 <= k
      ensures Entry(WorkerSideControllerHosts, j) != ControllerAddress(k) + "  " + ControllerName(k)
    {
      HostLineNamesNoController(j, k);
    }
  }

  /**
    A worker-side CONTROLLER_NAMES line is never a controller's hosts line: the
    address ends at the first blank, and what follows the two blanks is a
    worker's name, never a controller's.
   */
  lemma HostLineNamesNoController(j: nat, k: nat)
    ensures ControllerAddress(j) + "  " + WorkerName(j) != ControllerAddress(k) + "  " + ControllerName(k)
  {
    var a, b := ControllerAddress(j), ControllerAddress(k);
    var line, other := a + "  " + WorkerName(j), b + "  " + ControllerName(k);
    PlanLacks(j, ' ');
    PlanLacks(k, ' ');
    if |a| == |b| {
      assert line[|a| + 2] == WorkerName(j)[0] == 'w';
      assert other[|b| + 2] == ControllerName(k)[0] == 'c';
    } else if |a| < |b| {
      assert line[|a|] == ' ' && other[|a|] == b[|a|];
    } else {
      assert other[|b|] == ' ' && line[|b|] == a[|b|];
    }
  }

  // ---------------------------------------------------------------------------
  // The replace-all chains, in source order

  /** Load-balancer template: lines 114-143. */
  function LoadBalancerSubstitutions(c: nat, w: nat): seq<Substitution> {
    [ Substitution(BucketNameToken, BucketName),
      Substitution(KeyNameToken, KeyName + ".pem"),
      Substitution(WorkersToken, ListValue(WorkerPeers, w)),
      Substitution(ControllersToken, ListValue(ControllerPeers, c)),
      Substitution(ControllerIpsToken, ListValue(ControllerIps, c)),
      Substitution(NginxBackendToken, ListValue(NginxBackend, c)) ]
  }

  /** Controller template, shared part: lines 183-220. */
  function ControllerSharedSubstitutions(c: nat, w: nat): seq<Substitution> {
    [ Substitution(ApiLbNameToken, ApiLbName),
      Substitution(ControllerIpsToken, ListValue(ControllerIps, c)),
      Substitution(EtcdInitialToken, ListValue(EtcdInitial, c)),
      Substitution(EtcdClusterToken, ListValue(EtcdCluster, c)),
      Substitution(BucketNameToken, BucketName),
      Substitution(ControllerNamesToken, ListValue(ControllerHosts, c)),
      Substitution(WorkerNamesToken, ListValue(WorkerHosts, w)) ]
  }

  /** Controller template, per-node part: lines 227-228. */
  function ControllerNodeSubstitutions(i: nat): seq<Substitution> {
    [ Substitution(LocalIpToken, ControllerAddress(i)),
      Substitution(InstanceToken, ControllerName(i)) ]
  }

  /** Worker template, shared part: lines 251-266. */
  function WorkerSharedSubstitutions(c: nat, w: nat): seq<Substitution> {
    [ Substitution(ApiLbNameToken, ApiLbName),
      Substitution(ControllerNamesToken, ListValue(WorkerSideControllerHosts, c)),
      Substitution(WorkerNamesToken, ListValue(WorkerHosts, w)) ]
  }

  /** Worker template, per-node part: lines 273-275. */
  function WorkerNodeSubstitutions(i: nat): seq<Substitution> {
    [ Substitution(PodCidrToken, PodCidr(i)),
      Substitution(LocalIpToken, WorkerAddress(i)),
      Substitution(InstanceToken, WorkerName(i)) ]
  }

  function LoadBalancerScript(template: string, c: nat, w: nat): string {
    Chain(template, LoadBalancerSubstitutions(c, w))
  }

  function ControllerShared(template: string, c: nat, w: nat): string {
    Chain(template, ControllerSharedSubstitutions(c, w))
  }

  function ControllerScript(shared: string, i: nat): string {
    Chain(shared, ControllerNodeSubstitutions(i))
  }

  function WorkerShared(template: string, c: nat, w: nat): string {
    Chain(template, WorkerSharedSubstitutions(c, w))
  }

  function WorkerScript(shared: string, i: nat): string {
    Chain(shared, WorkerNodeSubstitutions(i))
  }

  /**
    Applicability of a chain of at most seven substitutions, stated over
    abstract elements. Proving `Applicable` of a substitution list display
    directly makes the solver unfold every list value inside it; going through
    this lemma keeps those values opaque.
   */
  lemma SubstitutionsApplicable(subs: seq<Substitution>)
    requires |subs| <= 7
    requires 0 < |subs| ==> subs[0].token != []
    requires 1 < |subs| ==> subs[1].token != []
    requires 2 < |subs| ==> subs[2].token != []
    requires 3 < |subs| ==> subs[3].token != []
    requires 4 < |subs| ==> subs[4].token != []
    requires 5 < |subs| ==> subs[5].token != []
    requires 6 < |subs| ==> subs[6].token != []
    ensures Applicable(subs)
  {
  }

  /** Every token the source replaces is non-empty, so each chain can be run. */
  lemma ChainsApplicable(c: nat, w: nat)
    ensures Applicable(LoadBalancerSubstitutions(c, w))
    ensures Applicable(ControllerSharedSubstitutions(c, w))
    ensures Applicable(WorkerSharedSubstitutions(c, w))
  {
    LoadBalancerTokensAreWords();
    ControllerTokensAreWords();
    SubstitutionsApplicable(LoadBalancerSubstitutions(c, w));
    SubstitutionsApplicable(ControllerSharedSubstitutions(c, w));
    SubstitutionsApplicable(WorkerSharedSubstitutions(c, w));
  }

  /** A controller's script is the shared text with LOCALIP, then INSTANCE, replaced. */
  lemma ControllerScriptSteps(shared: string, i: nat)
    ensures ControllerScript(shared, i)
         == ReplaceAll(ReplaceAll(shared, LocalIpToken, ControllerAddress(i)), InstanceToken, ControllerName(i))
  {
    var local := Substitution(LocalIpToken, ControllerAddress(i));
    var instance := Substitution(InstanceToken, ControllerName(i));
    var shared' := ReplaceAll(shared, local.token, local.value);
    ChainCons(shared, local, [instance]);
    ChainCons(shared', instance, []);
  }

  /** A worker's script is the shared text with PODCIDR, LOCALIP, then INSTANCE, replaced. */
  lemma WorkerScriptSteps(shared: string, i: nat)
    ensures WorkerScript(shared, i)
         == ReplaceAll(ReplaceAll(ReplaceAll(shared, PodCidrToken, PodCidr(i)), LocalIpToken, WorkerAddress(i)),
                       InstanceToken, WorkerName(i))
  {
    var pod := Substitution(PodCidrToken, PodCidr(i));
    var local := Substitution(LocalIpToken, WorkerAddress(i));
    var instance := Substitution(InstanceToken, WorkerName(i));
    var s1 := ReplaceAll(shared, pod.token, pod.value);
    var s2 := ReplaceAll(s1, local.token, local.value);
    ChainCons(shared, pod, [local, instance]);
    ChainCons(s1, local, [instance]);
    ChainCons(s2, instance, []);
  }

  // ---------------------------------------------------------------------------
  // Rendered scripts carry no placeholder of their own vocabulary

  /** A plain, non-empty value for an upper-case token. */
  predicate WordSub(sub: Substitution) {
    TokenWord(sub.token) && Plain(sub.value) && sub.value != []
  }

  predicate WordChain(subs: seq<Substitution>) {
    forall k :: 0 <= k < |subs| ==> WordSub(subs[k])
  }

  lemma WordChainSeparable(subs: seq<Substitution>)
    requires WordChain(subs)
    ensures Separable(subs)
  {
    forall j, k | 0 <= j < |subs| && 0 <= k < |subs|
      ensures Disjoint(subs[j].value, subs[k].token)
    {
      PlainAvoidsToken(subs[j].value, subs[k].token);
    }
  }

  lemma WordChainAppend(a: seq<Substitution>, b: seq<Substitution>)
    requires WordChain(a) && WordChain(b)
    ensures WordChain(a + b)
  {
  }

  /** The placeholders each template's chain resolves, in the order the source replaces them. */
  const LoadBalancerVocabulary := [BucketNameToken, KeyNameToken, WorkersToken, ControllersToken,
                                   ControllerIpsToken, NginxBackendToken]
  const ControllerVocabulary := [ApiLbNameToken, ControllerIpsToken, EtcdInitialToken, EtcdClusterToken,
                                 BucketNameToken, ControllerNamesToken, WorkerNamesToken,
                                 LocalIpToken, InstanceToken]
  const WorkerVocabulary := [ApiLbNameToken, ControllerNamesToken, WorkerNamesToken,
                             PodCidrToken, LocalIpToken, InstanceToken]

  function Tokens(subs: seq<Substitution>): (toks: seq<string>)
    ensures |toks| == |subs|
    ensures forall k :: 0 <= k < |subs| ==> toks[k] == subs[k].token
  {
    seq(|subs|, k requires 0 <= k < |subs| => subs[k].token)
  }

  lemma LoadBalancerVocabularyOf(c: nat, w: nat)
    ensures Tokens(LoadBalancerSubstitutions(c, w)) == LoadBalancerVocabulary
  {
    var subs := LoadBalancerSubstitutions(c, w);
    forall k | 0 <= k < |subs|
      ensures subs[k].token == LoadBalancerVocabulary[k]
    {
    }
  }

  lemma ControllerVocabularyOf(c: nat, w: nat, i: nat)
    ensures Tokens(ControllerSharedSubstitutions(c, w) + ControllerNodeSubstitutions(i)) == ControllerVocabulary
  {
    var subs := ControllerSharedSubstitutions(c, w) + ControllerNodeSubstitutions(i);
    forall k | 0 <= k < |subs|
      ensures subs[k].token == ControllerVocabulary[k]
    {
    }
  }

  lemma WorkerVocabularyOf(c: nat, w: nat, i: nat)
    ensures Tokens(WorkerSharedSubstitutions(c, w) + WorkerNodeSubstitutions(i)) == WorkerVocabulary
  {
    var subs := WorkerSharedSubstitutions(c, w) + WorkerNodeSubstitutions(i);
    forall k | 0 <= k < |subs|
      ensures subs[k].token == WorkerVocabulary[k]
    {
    }
  }

  lemma ListValueWord(kind: ListKind, n: nat)
    requires 1 <= n
    ensures Plain(ListValue(kind, n)) && ListValue(kind, n) != []
  {
    ListValuePlain(kind, n);
  }

  lemma LoadBalancerChainWords(c: nat, w: nat)
    requires 1 <= c && 1 <= w
    ensures WordChain(LoadBalancerSubstitutions(c, w))
  {
    var subs := LoadBalancerSubstitutions(c, w);
    FixedSubWords();
    ListSubWord(WorkersToken, WorkerPeers, w);
    ListSubWord(ControllersToken, ControllerPeers, c);
    ListSubWord(ControllerIpsToken, ControllerIps, c);
    ListSubWord(NginxBackendToken, NginxBackend, c);
    SixWords(subs[0], subs[1], subs[2], subs[3], subs[4], subs[5]);
  }

  lemma ListSubWord(token: string, kind: ListKind, n: nat)
    requires 1 <= n
    requires token in [WorkersToken, ControllersToken, ControllerIpsToken, NginxBackendToken,
                       EtcdInitialToken, EtcdClusterToken, ControllerNamesToken, WorkerNamesToken]
    ensures WordSub(Substitution(token, ListValue(kind, n)))
  {
    ListValuePlain(kind, n);
    LoadBalancerTokensAreWords();
    ControllerTokensAreWords();
  }

  lemma FixedSubWords()
    ensures WordSub(Substitution(ApiLbNameToken, ApiLbName))
    ensures WordSub(Substitution(BucketNameToken, BucketName))
    ensures WordSub(Substitution(KeyNameToken, KeyName + ".pem"))
  {
    ControllerTokensAreWords();
    LoadBalancerTokensAreWords();
    FixedValuesPlain();
  }

  /**
    `SixWords` and `SevenWords` serve the same purpose as `SubstitutionsApplicable`:
    they close `WordChain` of a six- or seven-element display from facts about
    its elements, without the solver seeing what the elements are.
   */
  lemma SixWords(a: Substitution, b: Substitution, c: Substitution, d: Substitution,
                 e: Substitution, f: Substitution)
    requires WordSub(a) && WordSub(b) && WordSub(c) && WordSub(d)
    requires WordSub(e) && WordSub(f)
    ensures WordChain([a, b, c, d, e, f])
  {
  }

  lemma SevenWords(a: Substitution, b: Substitution, c: Substitution, d: Substitution,
                   e: Substitution, f: Substitution, g: Substitution)
    requires WordSub(a) && WordSub(b) && WordSub(c) && WordSub(d)
    requires WordSub(e) && WordSub(f) && WordSub(g)
    ensures WordChain([a, b, c, d, e, f, g])
  {
  }

  lemma ControllerSharedWords(c: nat, w: nat)
    requires 1 <= c && 1 <= w
    ensures WordChain(ControllerSharedSubstitutions(c, w))
  {
    var subs := ControllerSharedSubstitutions(c, w);
    FixedSubWords();
    ListSubWord(ControllerIpsToken, ControllerIps, c);
    ListSubWord(EtcdInitialToken, EtcdInitial, c);
    ListSubWord(EtcdClusterToken, EtcdCluster, c);
    ListSubWord(ControllerNamesToken, ControllerHosts, c);
    ListSubWord(WorkerNamesToken, WorkerHosts, w);
    SevenWords(subs[0], subs[1], subs[2], subs[3], subs[4], subs[5], subs[6]);
  }

  lemma WorkerSharedWords(c: nat, w: nat)
    requires 1 <= c && 1 <= w
    ensures WordChain(WorkerSharedSubstitutions(c, w))
  {
    var subs := WorkerSharedSubstitutions(c, w);
    forall k | 0 <= k < |subs|
      ensures WordSub(subs[k])
    {
      ControllerTokensAreWords();
      if k == 0 {
        FixedValuesPlain();
      } else if k == 1 {
        ListValueWord(WorkerSideControllerHosts, c);
      } else {
        ListValueWord(WorkerHosts, w);
      }
    }
  }

  lemma ControllerNodeWords(i: nat)
    ensures WordChain(ControllerNodeSubstitutions(i))
  {
    var subs := ControllerNodeSubstitutions(i);
    NodeTokensAreWords();
    PlanPlain(i);
    assert WordSub(subs[0]) && WordSub(subs[1]);
  }

  lemma WorkerNodeWords(i: nat)
    ensures WordChain(WorkerNodeSubstitutions(i))
  {
    var subs := WorkerNodeSubstitutions(i);
    NodeTokensAreWords();
    PlanPlain(i);
    assert WordSub(subs[0]) && WordSub(subs[1]) && WordSub(subs[2]);
  }

  /**
    With at least one controller and one worker, the load-balancer script has
    none of its six placeholders left, whatever the template text.
   */
  lemma LoadBalancerScriptResolved(template: string, c: nat, w: nat)
    requires 1 <= c && 1 <= w
    ensures forall k :: 0 <= k < |LoadBalancerVocabulary| ==>
              !Occurs(LoadBalancerScript(template, c, w), LoadBalancerVocabulary[k])
  {
    var subs := LoadBalancerSubstitutions(c, w);
    LoadBalancerChainWords(c, w);
    LoadBalancerVocabularyOf(c, w);
    WordChainSeparable(subs);
    ChainResolves(template, subs);
  }

  /**
    With at least one controller and one worker, a controller's script has none
    of its nine placeholders left, whatever the template text.
   */
  lemma ControllerScriptResolved(template: string, c: nat, w: nat, i: nat)
    requires 1 <= c && 1 <= w && i < c
    ensures forall k :: 0 <= k < |ControllerVocabulary| ==>
              !Occurs(ControllerScript(ControllerShared(template, c, w), i), ControllerVocabulary[k])
  {
    var shared := ControllerSharedSubstitutions(c, w);
    var node := ControllerNodeSubstitutions(i);
    ControllerSharedWords(c, w);
    ControllerNodeWords(i);
    WordChainAppend(shared, node);
    ControllerVocabularyOf(c, w, i);
    WordChainSeparable(shared + node);
    ChainAppend(template, shared, node);
    ChainResolves(template, shared + node);
  }

  /**
    With at least one controller and one worker, a worker's script has none of
    its six placeholders left, whatever the template text.
   */
  lemma WorkerScriptResolved(template: string, c: nat, w: nat, i: nat)
    requires 1 <= c && 1 <= w && i < w
    ensures forall k :: 0 <= k < |WorkerVocabulary| ==>
              !Occurs(WorkerScript(WorkerShared(template, c, w), i), WorkerVocabulary[k])
  {
    var shared := WorkerSharedSubstitutions(c, w);
    var node := WorkerNodeSubstitutions(i);
    WorkerSharedWords(c, w);
    WorkerNodeWords(i);
    WordChainAppend(shared, node);
    WorkerVocabularyOf(c, w, i);
    WordChainSeparable(shared + node);
    ChainAppend(template, shared, node);
    ChainResolves(template, shared + node);
  }
}
