/** External networks, RBAC policies and router gateways: the handlers of the
    external-network mixin and the runs they take part in. */
module ExternalNet {
  import opened Prelude
  import MQ = ModelQuery

  const ACCESS_EXTERNAL := "access_as_external"

  type Id = string

  datatype Network = Network(tenant: Id)

  /** A network RBAC entry. */
  datatype Policy = Policy(project: Id, objectId: Id, action: string, target: Id)

  /** `gateway`: the device owner is router_gateway. */
  datatype Port = Port(networkId: Id, gateway: bool)

  datatype Router = Router(project: Id, gwPort: Option<Id>)

  /** The tables. `external` maps a network to its `is_default` column. */
  datatype Store = Store(networks: map<Id, Network>, external: map<Id, bool>, policies: map<Id, Policy>,
                         ports: map<Id, Port>, routers: map<Id, Router>)

  datatype Error =
    NotFound | Refused | InvalidInput | Duplicate | ExternalNetworkInUse | PolicyInUse | DefaultMustBeShared

  type Outcome = Result<(), Error>

  const DONE: Outcome := Ok(())

  /** The tables after an operation, which an error may have left half done. */
  datatype Step = Step(store: Store, outcome: Outcome)

  // ---------------------------------------------------------------- table queries

  predicate IsExternalEntry(p: Policy, n: Id) {
    p.objectId == n && p.action == ACCESS_EXTERNAL
  }

  predicate HasExternalEntry(s: Store, n: Id) {
    exists i :: i in s.policies && IsExternalEntry(s.policies[i], n)
  }

  predicate HasWildcardEntry(s: Store, n: Id) {
    exists i :: i in s.policies && IsExternalEntry(s.policies[i], n) && s.policies[i].target == MQ.WILDCARD
  }

  predicate HasGateway(s: Store, n: Id) {
    exists p :: p in s.ports && s.ports[p].gateway && s.ports[p].networkId == n
  }

  function GatewayPorts(s: Store, n: Id): set<Id> {
    set p | p in s.ports && s.ports[p].gateway && s.ports[p].networkId == n
  }

  /** The projects named by a network's external entries. */
  function EntryProjects(s: Store, n: Id): set<Id> {
    set i | i in s.policies && IsExternalEntry(s.policies[i], n) :: s.policies[i].target
  }

  /** Who makes a request. `scoped`: it finds only the networks its project may see.
      `limited`: of tables whose rows belong to projects it finds its own project's rows
      only. Callers of a project are both, admins and services neither. */
  datatype Caller = Caller(admin: bool, scoped: bool, limited: bool, project: Id)

  function Admin(project: Id): Caller {
    Caller(true, false, false, project)
  }

  function Member(project: Id): Caller {
    Caller(false, true, true, project)
  }

  /** A look-up of policies or routers finds the project's rows. */
  predicate Reaches(caller: Caller, project: Id) {
    !caller.limited || project == caller.project
  }

  /** The external entries that the caller counts. */
  predicate CountsEntry(s: Store, caller: Caller, n: Id) {
    exists i :: i in s.policies && IsExternalEntry(s.policies[i], n) && Reaches(caller, s.policies[i].project)
  }

  predicate CountsWildcard(s: Store, caller: Caller, n: Id) {
    exists i :: i in s.policies && IsExternalEntry(s.policies[i], n) && Reaches(caller, s.policies[i].project)
                && s.policies[i].target == MQ.WILDCARD
  }

  /** The actions whose entries open a network to the project they name. */
  const GRANTING := {ACCESS_EXTERNAL, MQ.ACCESS_SHARED, MQ.ACCESS_READONLY}

  /** The entry lets the project see its network. */
  predicate Opens(p: Policy, project: Id) {
    p.target == MQ.WILDCARD || (p.target == project && p.action in GRANTING)
  }

  predicate OpenTo(s: Store, project: Id, n: Id) {
    exists i :: i in s.policies && s.policies[i].objectId == n && Opens(s.policies[i], project)
  }

  /** A look-up by id finds the network: it goes through the caller's scoped query. */
  predicate Sees(s: Store, caller: Caller, n: Id) {
    n in s.networks && (!caller.scoped || s.networks[n].tenant == caller.project || OpenTo(s, caller.project, n))
  }

  predicate SameGrant(p: Policy, q: Policy) {
    p.objectId == q.objectId && p.action == q.action && p.target == q.target
  }

  /** Inserting a policy fails on the unique key (object, action, target). */
  function AddPolicy(s: Store, id: Id, p: Policy): Step {
    if exists i :: i in s.policies && SameGrant(s.policies[i], p) then Step(s, Err(Duplicate))
    else Step(s.(policies := s.policies[id := p]), DONE)
  }

  function AddExternal(s: Store, n: Id): Step {
    if n in s.external then Step(s, Err(Duplicate)) else Step(s.(external := s.external[n := false]), DONE)
  }

  /** The external row goes, and those external entries that the caller finds. */
  function DropExternal(s: Store, caller: Caller, n: Id): Store {
    s.(external := s.external - {n},
       policies := map i | i in s.policies && !Drops(caller, s.policies[i], n) :: s.policies[i])
  }

  predicate Drops(caller: Caller, p: Policy, n: Id) {
    IsExternalEntry(p, n) && Reaches(caller, p.project)
  }

  // ---------------------------------------------------------------- handler specifications

  function L3Create(s: Store, n: Id, tenant: Id, value: Option<bool>, policyId: Id): Step {
    if value != Some(true) then Step(s, DONE)
    else
      var e := AddExternal(s, n);
      if e.outcome.Err? then e else AddPolicy(e.store, policyId, Policy(tenant, n, ACCESS_EXTERNAL, MQ.WILDCARD))
  }

  /** `current` is the external flag of the caller's network data, if it has one. */
  function L3Update(s: Store, caller: Caller, n: Id, tenant: Id, current: Option<bool>, value: Option<bool>,
                    allowAll: bool, policyId: Id): Step {
    if value.None? || value == current then Step(s, DONE)
    else if value.value then
      var e := AddExternal(s, n);
      if e.outcome.Err? || !allowAll then e
      else AddPolicy(e.store, policyId, Policy(tenant, n, ACCESS_EXTERNAL, MQ.WILDCARD))
    else if HasGateway(s, n) then Step(s, Err(ExternalNetworkInUse))
    else Step(DropExternal(s, caller, n), DONE)
  }

  /** BEFORE_CREATE of a policy. */
  function BeforePolicyCreate(s: Store, caller: Caller, p: Policy): Step {
    if p.action != ACCESS_EXTERNAL then Step(s, DONE)
    else if !Sees(s, caller, p.objectId) then Step(s, Err(NotFound))
    else
      var tenant := s.networks[p.objectId].tenant;
      if !caller.admin && tenant != caller.project then Step(s, Err(InvalidInput))
      else if p.objectId in s.external then Step(s, DONE)
      else L3Update(s, caller, p.objectId, tenant, Some(false), Some(true), false, "")
  }

  /** AFTER_DELETE of a policy, `p` being the deleted row. */
  function AfterPolicyDelete(s: Store, caller: Caller, p: Policy): Step {
    if p.action != ACCESS_EXTERNAL || CountsEntry(s, caller, p.objectId) then Step(s, DONE)
    else if !Sees(s, caller, p.objectId) then Step(s, Err(NotFound))
    else
      var tenant := s.networks[p.objectId].tenant;
      L3Update(s, caller, p.objectId, tenant, Some(p.objectId in s.external), Some(false), true, "")
  }

  // ---------------------------------------------------------------- the mixin

  /** The dictionary a caller holds for one network. */
  class NetData {
    const id: Id
    const tenant: Id
    var external: Option<bool>

    constructor (id: Id, tenant: Id, external: Option<bool>)
      ensures this.id == id && this.tenant == tenant && this.external == external
    {
      this.id, this.tenant, this.external := id, tenant, external;
    }
  }

  class ExternalNetMixin {
    var networks: map<Id, Network>
    var external: map<Id, bool>
    var policies: map<Id, Policy>
    var ports: map<Id, Port>
    var routers: map<Id, Router>

    function Tables(): Store
      reads this
    {
      Store(networks, external, policies, ports, routers)
    }

    constructor (s: Store)
      ensures Tables() == s
    {
      networks, external, policies, ports, routers := s.networks, s.external, s.policies, s.ports, s.routers;
    }

    method CreateExternalRow(n: Id) returns (r: Outcome)
      modifies this`external
      ensures Step(Tables(), r) == AddExternal(old(Tables()), n)
    {
      if n in external {
        return Err(Duplicate);
      }
      external := external[n := false];
      return DONE;
    }

    method CreatePolicyRow(id: Id, p: Policy) returns (r: Outcome)
      modifies this`policies
      ensures Step(Tables(), r) == AddPolicy(old(Tables()), id, p)
    {
      if exists i :: i in policies && SameGrant(policies[i], p) {
        return Err(Duplicate);
      }
      policies := policies[id := p];
      return DONE;
    }

    method ProcessL3Create(net: NetData, value: Option<bool>, policyId: Id) returns (r: Outcome)
      modifies this`external, this`policies, net
      ensures Step(Tables(), r) == L3Create(old(Tables()), net.id, net.tenant, value, policyId)
      ensures net.external == if r.Ok? && value.Some? then value else old(net.external)
    {
      if value.None? {
        return DONE;
      }
      if value.value {
        r := CreateExternalRow(net.id);
        if r.Err? { return; }
        r := CreatePolicyRow(policyId, Policy(net.tenant, net.id, ACCESS_EXTERNAL, MQ.WILDCARD));
        if r.Err? { return; }
      }
      net.external := value;
      return DONE;
    }

    /** In place: the rows and, once the external row is settled, the caller's dictionary. */
    method ProcessL3Update(caller: Caller, net: NetData, value: Option<bool>, allowAll: bool, policyId: Id)
      returns (r: Outcome)
      modifies this`external, this`policies, net
      ensures Step(Tables(), r) ==
              L3Update(old(Tables()), caller, net.id, net.tenant, old(net.external), value, allowAll, policyId)
      ensures r.Ok? ==> net.external == if value.Some? then value else old(net.external)
    {
      if value.None? || net.external == value {
        return DONE;
      }
      if value.value {
        r := CreateExternalRow(net.id);
        if r.Err? { return; }
        net.external := Some(true);
        if allowAll {
          r := CreatePolicyRow(policyId, Policy(net.tenant, net.id, ACCESS_EXTERNAL, MQ.WILDCARD));
        }
      } else {
        if exists p :: p in ports && ports[p].gateway && ports[p].networkId == net.id {
          return Err(ExternalNetworkInUse);
        }
        external := external - {net.id};
        policies := map i | i in policies && !Drops(caller, policies[i], net.id) :: policies[i];
        net.external := Some(false);
        return DONE;
      }
    }

    /** The network's data, if the caller sees it. */
    method GetNetwork(caller: Caller, n: Id) returns (net: NetData?)
      ensures net == null <==> !Sees(Tables(), caller, n)
      ensures net != null ==> fresh(net) && net.id == n && net.tenant == networks[n].tenant
      ensures net != null ==> net.external == Some(n in external)
    {
      if !Sees(Tables(), caller, n) {
        return null;
      }
      net := new NetData(n, networks[n].tenant, Some(n in external));
    }

    method ProcessExtPolicyCreate(caller: Caller, p: Policy) returns (r: Outcome)
      modifies this`external, this`policies
      ensures Step(Tables(), r) == BeforePolicyCreate(old(Tables()), caller, p)
    {
      if p.action != ACCESS_EXTERNAL {
        return DONE;
      }
      var net := GetNetwork(caller, p.objectId);
      if net == null {
        return Err(NotFound);
      }
      if !caller.admin && net.tenant != caller.project {
        return Err(InvalidInput);
      }
      if p.objectId !in external {
        r := ProcessL3Update(caller, net, Some(true), false, "");
      } else {
        r := DONE;
      }
    }

    method ProcessExtPolicyDelete(caller: Caller, p: Policy) returns (r: Outcome)
      modifies this`external, this`policies
      ensures Step(Tables(), r) == AfterPolicyDelete(old(Tables()), caller, p)
    {
      if p.action != ACCESS_EXTERNAL {
        return DONE;
      }
      if CountsEntry(Tables(), caller, p.objectId) {
        return DONE;
      }
      var net := GetNetwork(caller, p.objectId);
      if net == null {
        return Err(NotFound);
      }
      r := ProcessL3Update(caller, net, Some(false), true, "");
    }

    /** BEFORE_UPDATE (with a new target) and BEFORE_DELETE of a policy. Ports, the
        projects named by entries and the routers outside a list of projects are read
        without regard to the caller. */
    method ValidateNotInUse(caller: Caller, p: Policy, update: Option<Id>) returns (r: Outcome)
      ensures r == Validate(Tables(), caller, p, update)
    {
      if p.action != ACCESS_EXTERNAL {
        return DONE;
      }
      if update.Some? && update.value == p.target {
        return DONE;
      }
      var gwPorts := GatewayPorts(Tables(), p.objectId);
      var inUse: bool;
      if p.target != MQ.WILDCARD {
        if CountsWildcard(Tables(), caller, p.objectId) {
          return DONE;
        }
        inUse := exists x :: x in routers && AttachedTo(routers[x], gwPorts) && routers[x].project == p.target
                             && Reaches(caller, routers[x].project);
      } else {
        if p.objectId in external && external[p.objectId] {
          return Err(DefaultMustBeShared);
        }
        var projects := EntryProjects(Tables(), p.objectId) - {MQ.WILDCARD};
        if update.Some? && update.value != "" {
          projects := projects + {update.value};
        }
        inUse := exists x :: x in routers && AttachedTo(routers[x], gwPorts) && routers[x].project !in projects;
      }
      if inUse {
        return Err(PolicyInUse);
      }
      return DONE;
    }
  }

  predicate AttachedTo(r: Router, gwPorts: set<Id>) {
    r.gwPort.Some? && r.gwPort.value in gwPorts
  }

  /** A router with a gateway on the network. */
  predicate UsesNetwork(s: Store, r: Router, n: Id) {
    r.gwPort.Some? && r.gwPort.value in s.ports && s.ports[r.gwPort.value] == Port(n, true)
  }

  predicate SomeUser(s: Store, n: Id, project: Id) {
    exists x :: x in s.routers && UsesNetwork(s, s.routers[x], n) && s.routers[x].project == project
  }

  /** When a policy may be retargeted or deleted: not while a router that the caller
      finds depends on it. */
  function Validate(s: Store, caller: Caller, p: Policy, update: Option<Id>): Outcome {
    if p.action != ACCESS_EXTERNAL || update == Some(p.target) then DONE
    else if p.target != MQ.WILDCARD then
      if CountsWildcard(s, caller, p.objectId) then DONE
      else if SomeUser(s, p.objectId, p.target) && Reaches(caller, p.target) then Err(PolicyInUse) else DONE
    else if p.objectId in s.external && s.external[p.objectId] then Err(DefaultMustBeShared)
    else if exists x :: x in s.routers && UsesNetwork(s, s.routers[x], p.objectId) &&
                        !NamedBesidesWildcard(s, s.routers[x].project, p.objectId, update)
      then Err(PolicyInUse) else DONE
  }

  predicate NamedBesidesWildcard(s: Store, project: Id, n: Id, update: Option<Id>) {
    (project != MQ.WILDCARD && project in EntryProjects(s, n)) || (update == Some(project) && project != "")
  }
}
