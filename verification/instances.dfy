/** `UltraMsgManager`: the table of UltraMsg instances (one WhatsApp line each) the relay can send
    through. The table is built once, from the client registry or, failing that, from numbered
    environment variables; a send or status request picks the instance it names, or the default
    one, and fails before any request when there is none. */
module Instances {
  import opened Wrappers
  import opened Text
  import Commands

  datatype Instance = Instance(
    token: string,
    instanceId: string,
    name: string,
    clientId: Option<string>,
    webhookToken: Option<string>)

  /** A JavaScript `Map` from instance id to instance, in insertion order. Every key the
      manager sets is the instance's own `instanceId`, so the entries are the instances. */
  type Table = seq<Instance>

  function Keys(m: Table): (r: set<string>)
    ensures forall x :: x in m ==> x.instanceId in r
    ensures r == {} <==> |m| == 0
  {
    if |m| == 0 then {} else {m[0].instanceId} + Keys(m[1..])
  }

  ghost predicate UniqueKeys(m: Table) {
    forall i, j :: 0 <= i < j < |m| ==> m[i].instanceId != m[j].instanceId
  }

  /** `map.get(id)`. */
  function Get(m: Table, id: string): (r: Option<Instance>)
    ensures r.None? <==> id !in Keys(m)
    ensures r.Some? ==> r.value in m && r.value.instanceId == id
  {
    if |m| == 0 then None
    else if m[0].instanceId == id then Some(m[0])
    else Get(m[1..], id)
  }

  /** `map.set(inst.instanceId, inst)`: a new key goes last, an existing key keeps its place
      and takes the new value. */
  function Put(m: Table, inst: Instance): (r: Table)
    ensures Keys(r) == Keys(m) + {inst.instanceId}
    ensures Get(r, inst.instanceId) == Some(inst)
    ensures forall k :: k != inst.instanceId ==> Get(r, k) == Get(m, k)
    ensures |m| > 0 ==> r[0] == (if m[0].instanceId == inst.instanceId then inst else m[0])
    ensures |r| > 0
  {
    if |m| == 0 then [inst]
    else if m[0].instanceId == inst.instanceId then
      assert ([inst] + m[1..])[1..] == m[1..];
      [inst] + m[1..]
    else
      var rest := Put(m[1..], inst);
      assert ([m[0]] + rest)[1..] == rest;
      [m[0]] + rest
  }

  /** `Map.set` keeps insertion order: a new key is appended after every other entry, and an
      existing key keeps its place, with every other entry left where it was. */
  lemma {:induction false} PutPlaces(m: Table, inst: Instance)
    ensures inst.instanceId !in Keys(m) ==> Put(m, inst) == m + [inst]
    ensures inst.instanceId in Keys(m) ==>
      && |Put(m, inst)| == |m|
      && forall i :: 0 <= i < |m| ==>
           Put(m, inst)[i].instanceId == m[i].instanceId && (m[i].instanceId != inst.instanceId ==> Put(m, inst)[i] == m[i])
    decreases |m|
  {
    if |m| > 0 && m[0].instanceId != inst.instanceId {
      PutPlaces(m[1..], inst);
      var rest := Put(m[1..], inst);
      assert Put(m, inst) == [m[0]] + rest;
      assert Keys(m) == {m[0].instanceId} + Keys(m[1..]);
      if inst.instanceId !in Keys(m) {
        assert m == [m[0]] + m[1..];
      }
    }
  }

  /** A key is in the table at most once. */
  lemma PutKeepsKeysUnique(m: Table, inst: Instance)
    requires UniqueKeys(m)
    ensures UniqueKeys(Put(m, inst))
  {
    PutPlaces(m, inst);
    var r := Put(m, inst);
    if inst.instanceId !in Keys(m) {
      forall i, j | 0 <= i < j < |r| ensures r[i].instanceId != r[j].instanceId {
        if j == |m| {
          assert r[i] == m[i] && m[i] in m;
        }
      }
    }
  }

  /** `map.set` for each instance in turn. */
  function PutAll(m: Table, xs: seq<Instance>): (r: Table)
    ensures Keys(r) == Keys(m) + set x | x in xs :: x.instanceId
    ensures |m| > 0 ==> |r| > 0 && r[0].instanceId == m[0].instanceId
    ensures |xs| > 0 ==> |r| > 0
    ensures |m| == 0 && |xs| > 0 ==> r[0].instanceId == xs[0].instanceId
    decreases |xs|
  {
    if |xs| == 0 then m
    else
      var init := xs[..|xs| - 1];
      assert forall x :: x in xs <==> x in init || x == xs[|xs| - 1] by {
        assert xs == init + [xs[|xs| - 1]];
      }
      Put(PutAll(m, init), xs[|xs| - 1])
  }

  /** A key ends with the value of the last instance set under it. */
  lemma {:induction false} PutAllLastWins(m: Table, xs: seq<Instance>, i: nat)
    requires i < |xs|
    requires forall j :: i < j < |xs| ==> xs[j].instanceId != xs[i].instanceId
    ensures Get(PutAll(m, xs), xs[i].instanceId) == Some(xs[i])
    decreases |xs|
  {
    if i < |xs| - 1 {
      PutAllLastWins(m, xs[..|xs| - 1], i);
    }
  }

  lemma {:induction false} PutAllKeepsKeysUnique(m: Table, xs: seq<Instance>)
    requires UniqueKeys(m)
    ensures UniqueKeys(PutAll(m, xs))
    decreases |xs|
  {
    if |xs| > 0 {
      PutAllKeepsKeysUnique(m, xs[..|xs| - 1]);
      PutKeepsKeysUnique(PutAll(m, xs[..|xs| - 1]), xs[|xs| - 1]);
    }
  }

  datatype Manager = Manager(instances: Table, defaultInstance: Option<Instance>, initialized: bool)

  function NewManager(): (m: Manager)
    ensures m.instances == [] && m.defaultInstance.None? && !m.initialized
  {
    Manager([], None, false)
  }

  // ---------------------------------------------------------------------------
  // Instances from the client registry

  /** One entry of `Object.entries(getAllClients())`, with the fields the manager reads. */
  datatype ClientEntry = ClientEntry(
    clientId: string,
    token: Option<string>,
    instanceId: Option<string>,
    name: Option<string>,
    webhookToken: Option<string>)

  /** A client yields an instance only with both a token and an instance id. */
  predicate Eligible(c: ClientEntry) {
    Truthy(c.token) && Truthy(c.instanceId)
  }

  /** The instance built for an eligible client: its name defaults to `Cliente_<id>`, its
      webhook token to the send token. */
  function ClientInstance(c: ClientEntry): (r: Instance)
    requires Eligible(c)
    ensures r.instanceId == c.instanceId.value && r.token == c.token.value
    ensures r.name == (if Truthy(c.name) then c.name.value else "Cliente_" + c.clientId)
    ensures r.webhookToken == Some(if Truthy(c.webhookToken) then c.webhookToken.value else c.token.value)
    ensures r.clientId == Some(c.clientId)
  {
    Instance(c.token.value, c.instanceId.value, OrElse(c.name, Some("Cliente_" + c.clientId)).value,
      Some(c.clientId), OrElse(c.webhookToken, c.token))
  }

  /** The instances the loop over the registry's clients sets, in order. */
  function RegistryInstances(clients: seq<ClientEntry>): (r: seq<Instance>)
    ensures forall x :: x in r ==> exists c :: c in clients && Eligible(c) && x == ClientInstance(c)
    ensures forall c :: c in clients && Eligible(c) ==> ClientInstance(c) in r
  {
    if |clients| == 0 then []
    else
      var c := clients[0];
      var rest := RegistryInstances(clients[1..]);
      assert forall x :: x in clients <==> x == c || x in clients[1..];
      if Eligible(c) then
        assert forall x :: x in [ClientInstance(c)] + rest <==> x == ClientInstance(c) || x in rest;
        [ClientInstance(c)] + rest
      else rest
  }

  /** How many of the clients are eligible. */
  function CountEligible(cs: seq<ClientEntry>): nat {
    if |cs| == 0 then 0 else (if Eligible(cs[0]) then 1 else 0) + CountEligible(cs[1..])
  }

  /** The loop sets one instance per eligible client. */
  lemma {:induction false} RegistryInstancesCount(clients: seq<ClientEntry>)
    ensures |RegistryInstances(clients)| == CountEligible(clients)
    decreases |clients|
  {
    if |clients| > 0 {
      RegistryInstancesCount(clients[1..]);
    }
  }

  /** The eligible client at position `i` gives the entry that follows those of the eligible
      clients before it, so the instances come in the clients' order. */
  lemma {:induction false} RegistryInstanceAt(clients: seq<ClientEntry>, i: nat)
    requires i < |clients| && Eligible(clients[i])
    ensures CountEligible(clients[..i]) < |RegistryInstances(clients)|
    ensures RegistryInstances(clients)[CountEligible(clients[..i])] == ClientInstance(clients[i])
    decreases i
  {
    var head := RegistryHead(clients[0]);
    var rest := RegistryInstances(clients[1..]);
    RegistryStep(clients);
    if i == 0 {
      assert clients[..0] == [];
    } else {
      RegistryInstanceAt(clients[1..], i - 1);
      var n := CountEligible(clients[1..][..i - 1]);
      CountStep(clients, i);
      assert (head + rest)[|head| + n] == rest[n];
    }
  }

  lemma CountStep(clients: seq<ClientEntry>, i: nat)
    requires 0 < i <= |clients|
    ensures CountEligible(clients[..i]) == |RegistryHead(clients[0])| + CountEligible(clients[1..][..i - 1])
  {
    assert clients[..i][1..] == clients[1..][..i - 1];
  }

  /** The instance the loop sets for one client, if any. */
  function RegistryHead(c: ClientEntry): seq<Instance> {
    if Eligible(c) then [ClientInstance(c)] else []
  }

  lemma RegistryStep(clients: seq<ClientEntry>)
    requires |clients| > 0
    ensures RegistryInstances(clients) == RegistryHead(clients[0]) + RegistryInstances(clients[1..])
  {
  }

  /** No eligible client before position `i` means none is counted there. */
  lemma {:induction false} NoneEligibleBefore(clients: seq<ClientEntry>, i: nat)
    requires i <= |clients|
    requires forall j :: 0 <= j < i ==> !Eligible(clients[j])
    ensures CountEligible(clients[..i]) == 0
    decreases i
  {
    if i > 0 {
      assert clients[..i][1..] == clients[1..][..i - 1];
      NoneEligibleBefore(clients[1..], i - 1);
    }
  }

  // ---------------------------------------------------------------------------
  // Instances from the environment

  const EnvToken: string := "ULTRAMSG_TOKEN"
  const EnvInstanceId: string := "ULTRAMSG_INSTANCE_ID"
  const IndexedPrefix: string := "ULTRAMSG_INSTANCE_"
  const TokenSuffix: string := "_TOKEN"
  const IdSuffix: string := "_ID"
  const NameSuffix: string := "_NAME"
  const DefaultName: string := "default"

  /** `ULTRAMSG_INSTANCE_<i><suffix>`. */
  function IndexedKey(i: nat, suffix: string): string {
    IndexedPrefix + NatToString(i) + suffix
  }

  lemma IndexedKeyInjective(i: nat, j: nat, suffix: string)
    requires IndexedKey(i, suffix) == IndexedKey(j, suffix)
    ensures i == j
  {
    var a := NatToString(i);
    var b := NatToString(j);
    assert |a| == |b|;
    var n := |IndexedPrefix|;
    assert a == IndexedKey(i, suffix)[n..n + |a|];
    assert b == IndexedKey(j, suffix)[n..n + |b|];
    NatToStringInjective(i, j);
  }

  /** The variables that describe numbered instance `i`, and the name it gets without one. */
  datatype Names = Names(token: string, id: string, name: string, fallbackName: string)

  function IndexNames(i: nat): (r: Names)
    ensures r.token == IndexedKey(i, TokenSuffix) && r.id == IndexedKey(i, IdSuffix)
    ensures r.name == IndexedKey(i, NameSuffix) && r.fallbackName == "instance_" + NatToString(i)
  {
    Names(IndexedKey(i, TokenSuffix), IndexedKey(i, IdSuffix), IndexedKey(i, NameSuffix), "instance_" + NatToString(i))
  }

  /** An instance is configured when both its token and its id are non-empty. */
  predicate ConfiguredBy(env: Commands.Env, n: Names) {
    Truthy(Commands.EnvGet(env, n.token)) && Truthy(Commands.EnvGet(env, n.id))
  }

  predicate Configured(env: Commands.Env, i: nat) {
    ConfiguredBy(env, IndexNames(i))
  }

  /** The instance a configured set of variables describes. */
  function InstanceBy(env: Commands.Env, n: Names): (r: Instance)
    requires ConfiguredBy(env, n)
    ensures r.token == Commands.EnvGet(env, n.token).value
    ensures r.instanceId == Commands.EnvGet(env, n.id).value
    ensures r.name == OrElse(Commands.EnvGet(env, n.name), Some(n.fallbackName)).value
    ensures r.clientId.None? && r.webhookToken.None?
  {
    Instance(Commands.EnvGet(env, n.token).value, Commands.EnvGet(env, n.id).value,
      OrElse(Commands.EnvGet(env, n.name), Some(n.fallbackName)).value, None, None)
  }

  /** The instance `ULTRAMSG_INSTANCE_<i>_*` describes; its name defaults to `instance_<i>`. */
  function EnvInstance(env: Commands.Env, i: nat): Instance
    requires Configured(env, i)
  {
    InstanceBy(env, IndexNames(i))
  }

  /** The instance the variables `n` describe, if they are configured. */
  function Described(env: Commands.Env, n: Names): Option<Instance> {
    if ConfiguredBy(env, n) then Some(InstanceBy(env, n)) else None
  }

  /** The `while (true)` loop of `initializeFromEnv` from index `i`, for at most `fuel`
      indices, where `describe` gives the instance each index describes: the instances it sets,
      up to the first index that describes none. */
  function EnvScan(describe: nat -> Option<Instance>, i: nat, fuel: nat): (r: seq<Instance>)
    ensures |r| <= fuel
    ensures |r| < fuel ==> describe(i + |r|).None?
    decreases fuel
  {
    if fuel == 0 || describe(i).None? then []
    else
      var rest := EnvScan(describe, i + 1, fuel - 1);
      assert i + |[describe(i).value] + rest| == i + 1 + |rest|;
      [describe(i).value] + rest
  }

  /** The `k`-th instance of the scan is the one index `i + k` describes. */
  lemma {:induction false} EnvScanAt(describe: nat -> Option<Instance>, i: nat, fuel: nat, k: nat)
    requires k < |EnvScan(describe, i, fuel)|
    ensures describe(i + k) == Some(EnvScan(describe, i, fuel)[k])
    decreases k
  {
    var rest := EnvScan(describe, i + 1, fuel - 1);
    assert EnvScan(describe, i, fuel) == [describe(i).value] + rest;
    if k > 0 {
      EnvScanAt(describe, i + 1, fuel - 1, k - 1);
      assert i + 1 + (k - 1) == i + k;
    }
  }

  /** The instance each numbered index describes. */
  function IndexDescribed(env: Commands.Env): nat -> Option<Instance> {
    (j: nat) => Described(env, IndexNames(j))
  }

  /** The loop of `initializeFromEnv`, from index 1. It never runs for more indices than the
      environment has entries (see `EnvInstancesStop`), so that bound only makes the end of the
      loop evident. */
  function EnvInstances(env: Commands.Env): seq<Instance> {
    EnvScan(IndexDescribed(env), 1, |env| + 1)
  }

  /** Every instance the loop sets comes from a configured index, and they come in index order. */
  lemma EnvInstancesAt(env: Commands.Env, k: nat)
    requires k < |EnvInstances(env)|
    ensures Configured(env, k + 1) && EnvInstances(env)[k] == EnvInstance(env, k + 1)
  {
    EnvScanAt(IndexDescribed(env), 1, |env| + 1, k);
    assert 1 + k == k + 1;
  }

  function EnvKeys(env: Commands.Env): (r: set<string>)
    ensures |r| <= |env|
    ensures forall j :: 0 <= j < |env| ==> env[j].0 in r
  {
    if |env| == 0 then {} else {env[0].0} + EnvKeys(env[1..])
  }

  /** The token keys of the first `n` indices. */
  function TokenKeys(n: nat): set<string> {
    if n == 0 then {} else TokenKeys(n - 1) + {IndexedKey(n, TokenSuffix)}
  }

  lemma {:induction false} TokenKeyIndex(n: nat, key: string) returns (j: nat)
    requires key in TokenKeys(n)
    ensures 1 <= j <= n && key == IndexedKey(j, TokenSuffix)
    decreases n
  {
    if key == IndexedKey(n, TokenSuffix) {
      j := n;
    } else {
      j := TokenKeyIndex(n - 1, key);
    }
  }

  /** Different indices have different token keys. */
  lemma {:induction false} TokenKeysCard(n: nat)
    ensures |TokenKeys(n)| == n
    decreases n
  {
    if n > 0 {
      TokenKeysCard(n - 1);
      var key := IndexedKey(n, TokenSuffix);
      if key in TokenKeys(n - 1) {
        var j := TokenKeyIndex(n - 1, key);
        IndexedKeyInjective(j, n, TokenSuffix);
      }
    }
  }

  /** The environment is finite and every index has its own token key, so the loop stops at an
      index that is not configured. */
  lemma EnvInstancesStop(env: Commands.Env)
    ensures !Configured(env, 1 + |EnvInstances(env)|)
  {
    var r := EnvInstances(env);
    if |r| == |env| + 1 {
      assert TokenKeys(|env| + 1) <= EnvKeys(env) by {
        forall key | key in TokenKeys(|env| + 1) ensures key in EnvKeys(env) {
          var j := TokenKeyIndex(|env| + 1, key);
          EnvInstancesAt(env, j - 1);
          Commands.EnvGetFound(env, key);
        }
      }
      TokenKeysCard(|env| + 1);
      SubsetCard(TokenKeys(|env| + 1), EnvKeys(env));
    }
  }

  lemma SubsetCard(a: set<string>, b: set<string>)
    requires a <= b
    ensures |a| <= |b|
  {
    assert b == a + (b - a);
  }

  /** The unnumbered instance `ULTRAMSG_TOKEN`/`ULTRAMSG_INSTANCE_ID`, named `default`. */
  function EnvDefault(env: Commands.Env): (r: Option<Instance>)
    ensures r.Some? <==> Truthy(Commands.EnvGet(env, EnvToken)) && Truthy(Commands.EnvGet(env, EnvInstanceId))
    ensures r.Some? ==> r.value.name == DefaultName && r.value.instanceId == Commands.EnvGet(env, EnvInstanceId).value
  {
    var t := Commands.EnvGet(env, EnvToken);
    var id := Commands.EnvGet(env, EnvInstanceId);
    if Truthy(t) && Truthy(id) then Some(Instance(t.value, id.value, DefaultName, None, None)) else None
  }

  /** `initializeFromEnv()`: the unnumbered instance first (it also becomes the default), then
      the numbered ones, all added to what the table already holds. */
  function InitializeFromEnv(mgr: Manager, env: Commands.Env): (r: Manager)
    ensures r.initialized == mgr.initialized
    ensures r.defaultInstance == (if EnvDefault(env).Some? then EnvDefault(env) else mgr.defaultInstance)
    ensures Keys(r.instances) ==
      Keys(mgr.instances)
      + (if EnvDefault(env).Some? then {EnvDefault(env).value.instanceId} else {})
      + set x | x in EnvInstances(env) :: x.instanceId
  {
    match EnvDefault(env)
    case Some(d) => Manager(PutAll(Put(mgr.instances, d), EnvInstances(env)), Some(d), mgr.initialized)
    case None => Manager(PutAll(mgr.instances, EnvInstances(env)), mgr.defaultInstance, mgr.initialized)
  }

  /** `initializeInstances()`. `clients` is what `getAllClients` answered: a failure falls back to
      the environment and leaves the manager uninitialised, so a later call tries again. */
  function InitializeInstances(mgr: Manager, clients: Result<seq<ClientEntry>, string>, env: Commands.Env): (r: Manager)
    ensures mgr.initialized ==> r == mgr
    ensures !mgr.initialized && clients.Failure? ==> r == InitializeFromEnv(mgr, env) && !r.initialized
    ensures !mgr.initialized && clients.Success? ==> r.initialized
    ensures !mgr.initialized && clients.Success? && |r.instances| > 0 ==> r.defaultInstance == Some(r.instances[0])
  {
    if mgr.initialized then mgr
    else
      match clients
      case Failure(_) => InitializeFromEnv(mgr, env)
      case Success(cs) =>
        var fromRegistry := mgr.(instances := PutAll(mgr.instances, RegistryInstances(cs)));
        var filled := if |fromRegistry.instances| == 0 then InitializeFromEnv(fromRegistry, env) else fromRegistry;
        var withDefault := if |filled.instances| > 0 then filled.(defaultInstance := Some(filled.instances[0])) else filled;
        withDefault.(initialized := true)
  }

  /** Once initialised, the manager ignores later initialisations. */
  lemma InitializeIdempotent(mgr: Manager, c1: Result<seq<ClientEntry>, string>, c2: Result<seq<ClientEntry>, string>, env: Commands.Env)
    requires c1.Success?
    ensures var once := InitializeInstances(mgr, c1, env);
      InitializeInstances(once, c2, env) == once
  {
  }

  /** A fresh manager whose registry has eligible clients takes exactly their instances, never
      consults the environment, and defaults to the first of them. */
  lemma RegistryInstancesOnly(clients: seq<ClientEntry>, env: Commands.Env)
    requires exists c :: c in clients && Eligible(c)
    ensures var r := InitializeInstances(NewManager(), Success(clients), env);
      && r.initialized
      && r.instances == PutAll([], RegistryInstances(clients))
      && |r.instances| > 0 && r.defaultInstance == Some(r.instances[0])
  {
    var xs := RegistryInstances(clients);
    RegistryEmpty(clients);
    var t := PutAll([], xs);
    assert |t| > 0;
    var fromRegistry := NewManager().(instances := t);
    assert InitializeInstances(NewManager(), Success(clients), env) == fromRegistry.(defaultInstance := Some(t[0])).(initialized := true);
  }

  /** The default a fresh manager takes is the instance of the first eligible client (the value
      stored under its instance id, which a later client with the same id may have replaced). */
  lemma DefaultIsFirstEligible(clients: seq<ClientEntry>, env: Commands.Env, i: nat)
    requires i < |clients| && Eligible(clients[i])
    requires forall j :: 0 <= j < i ==> !Eligible(clients[j])
    ensures var r := InitializeInstances(NewManager(), Success(clients), env);
      r.defaultInstance.Some? && r.defaultInstance.value.instanceId == clients[i].instanceId.value
  {
    assert clients[i] in clients;
    RegistryInstancesOnly(clients, env);
    NoneEligibleBefore(clients, i);
    RegistryInstanceAt(clients, i);
  }

  /** The registry's instances are keyed by the instance ids of exactly the eligible clients. */
  lemma RegistryKeys(clients: seq<ClientEntry>)
    ensures Keys(PutAll([], RegistryInstances(clients))) == set c | c in clients && Eligible(c) :: c.instanceId.value
  {
    var xs := RegistryInstances(clients);
    var ids := set c | c in clients && Eligible(c) :: c.instanceId.value;
    forall k | k in ids ensures k in set x | x in xs :: x.instanceId {
      var c :| c in clients && Eligible(c) && c.instanceId.value == k;
      assert ClientInstance(c) in xs;
    }
  }

  /** The registry yields no instance exactly when no client is eligible. */
  lemma RegistryEmpty(clients: seq<ClientEntry>)
    ensures RegistryInstances(clients) == [] <==> forall c :: c in clients ==> !Eligible(c)
  {
    var xs := RegistryInstances(clients);
    if xs != [] {
      assert xs[0] in xs;
    }
  }

  /** A fresh manager whose registry yields no instance takes the environment's. */
  lemma EmptyRegistryUsesEnv(clients: seq<ClientEntry>, env: Commands.Env)
    requires forall c :: c in clients ==> !Eligible(c)
    ensures var r := InitializeInstances(NewManager(), Success(clients), env);
      && r.initialized
      && r.instances == InitializeFromEnv(NewManager(), env).instances
  {
    RegistryEmpty(clients);
  }

  // ---------------------------------------------------------------------------
  // Choosing an instance

  /** `getDefaultInstance()`: the recorded default, else the first instance. */
  function GetDefaultInstance(mgr: Manager): (r: Option<Instance>)
    ensures mgr.defaultInstance.Some? ==> r == mgr.defaultInstance
    ensures mgr.defaultInstance.None? && |mgr.instances| > 0 ==> r == Some(mgr.instances[0])
    ensures r.None? <==> mgr.defaultInstance.None? && |mgr.instances| == 0
  {
    if mgr.defaultInstance.Some? then mgr.defaultInstance
    else if |mgr.instances| > 0 then Some(mgr.instances[0])
    else None
  }

  const NotFoundPrefix: string := "No se encontró la instancia UltraMsg: "

  /** The message of the guard every request goes through: the requested id, or `default`. */
  function NotFoundMessage(instanceId: Option<string>): string {
    NotFoundPrefix + OrElse(instanceId, Some(DefaultName)).value
  }

  /** `instanceId ? getInstance(instanceId) : getDefaultInstance()`, then the guard. */
  function Resolve(mgr: Manager, instanceId: Option<string>): (r: Result<Instance, string>)
    ensures Truthy(instanceId) ==>
      (r.Success? <==> instanceId.value in Keys(mgr.instances)) &&
      (r.Success? ==> r.value in mgr.instances && r.value.instanceId == instanceId.value)
    ensures !Truthy(instanceId) ==> (r.Success? <==> GetDefaultInstance(mgr).Some?)
    ensures !Truthy(instanceId) && r.Success? ==> Some(r.value) == GetDefaultInstance(mgr)
    ensures r.Failure? ==> r.error == NotFoundMessage(instanceId)
  {
    var found := if Truthy(instanceId) then Get(mgr.instances, instanceId.value) else GetDefaultInstance(mgr);
    match found
    case None => Failure(NotFoundMessage(instanceId))
    case Some(inst) => Success(inst)
  }

  /** The UltraMsg endpoints the manager calls. */
  datatype Request =
    | SendChat(instanceId: string, token: string, to: string, body: string)
    | GetStatus(instanceId: string, token: string)
    | GetInfo(instanceId: string, token: string)
    | GetMessages(instanceId: string, token: string)

  /** What a request answered, tagged with the instance it went through. */
  datatype Answer = Answer(data: string, instanceName: string, instanceId: string)

  /** The HTTP client, as an oracle: the response body of a request, or the error it threw. */
  type Api = Request -> Result<string, string>

  datatype Call = Call(requests: seq<Request>, answer: Result<Answer, string>)

  /** `sendMessage`, `getInstanceStatus`, `getInstanceInfo` and `getMessages`: resolve the
      instance, make the one request `build` describes for it, and tag the answer. */
  function Dispatch(mgr: Manager, instanceId: Option<string>, build: Instance -> Request, api: Api): (r: Call)
    ensures Resolve(mgr, instanceId).Failure? ==> r == Call([], Failure(NotFoundMessage(instanceId)))
    ensures Resolve(mgr, instanceId).Success? ==>
      var inst := Resolve(mgr, instanceId).value;
      && r.requests == [build(inst)]
      && (r.answer.Success? <==> api(build(inst)).Success?)
      && (r.answer.Success? ==> r.answer.value == Answer(api(build(inst)).value, inst.name, inst.instanceId))
  {
    match Resolve(mgr, instanceId)
    case Failure(e) => Call([], Failure(e))
    case Success(inst) =>
      var req := build(inst);
      match api(req)
      case Failure(e) => Call([req], Failure(e))
      case Success(data) => Call([req], Success(Answer(data, inst.name, inst.instanceId)))
  }

  /** `sendMessage(to, message, instanceId)`: an unresolved instance fails before any request;
      otherwise one chat request goes through the resolved instance, and its answer, or its
      error, comes back. */
  function SendMessage(mgr: Manager, to: string, message: string, instanceId: Option<string>, api: Api): (r: Call)
    ensures Resolve(mgr, instanceId).Failure? ==> r == Call([], Failure(NotFoundMessage(instanceId)))
    ensures Resolve(mgr, instanceId).Success? ==>
      var inst := Resolve(mgr, instanceId).value;
      var req := SendChat(inst.instanceId, inst.token, to, message);
      && r.requests == [req]
      && (api(req).Success? ==> r.answer == Success(Answer(api(req).value, inst.name, inst.instanceId)))
      && (api(req).Failure? ==> r.answer == Failure(api(req).error))
  {
    Dispatch(mgr, instanceId, (inst: Instance) => SendChat(inst.instanceId, inst.token, to, message), api)
  }

  /** A request for a missing instance fails with the guard's message and reaches no endpoint. */
  lemma MissingInstanceSendsNothing(mgr: Manager, id: string, to: string, message: string, api: Api)
    requires id != "" && id !in Keys(mgr.instances)
    ensures SendMessage(mgr, to, message, Some(id), api) == Call([], Failure(NotFoundPrefix + id))
  {
  }

  /** The status answer, as far as `isConnected` reads it: `status.accountStatus.substatus`, or
      `None` when that path is missing. */
  type StatusApi = Instance -> Result<Option<string>, string>

  /** `isConnected(instanceId)`: true exactly when the instance exists, the status request
      succeeds and the substatus is `connected`; every error reads as false. */
  function IsConnected(mgr: Manager, instanceId: Option<string>, status: StatusApi): (r: bool)
    ensures r <==> Resolve(mgr, instanceId).Success? &&
                   status(Resolve(mgr, instanceId).value) == Success(Some("connected"))
  {
    match Resolve(mgr, instanceId)
    case Failure(_) => false
    case Success(inst) =>
      match status(inst)
      case Failure(_) => false
      case Success(sub) => sub == Some("connected")
  }

  /** No status is asked for an instance the manager cannot resolve, and a status request that
      fails reads as disconnected: only a resolved instance can be connected. */
  lemma ConnectedOnlyWhenResolved(mgr: Manager, instanceId: Option<string>, status: StatusApi)
    ensures Truthy(instanceId) && instanceId.value !in Keys(mgr.instances) ==>
      !IsConnected(mgr, instanceId, status)
    ensures !Truthy(instanceId) && mgr.defaultInstance.None? && |mgr.instances| == 0 ==>
      !IsConnected(mgr, instanceId, status)
    ensures (forall inst :: status(inst).Failure?) ==> !IsConnected(mgr, instanceId, status)
  {
  }
}
