/** Runs of network, policy and router operations around the external-network
    handlers, and what every run keeps. */
module ExternalNetRuns {
  import opened Prelude
  import MQ = ModelQuery
  import opened ExternalNet

  // ---------------------------------------------------------------- operations

  /** Policy and network operations call the handlers in the order the callback
      registry does. Gateway and default-network selection, and who may touch a
      policy, are environment steps with the guards written here. Operations do
      not overlap. */
  datatype Operation =
    | CreateNetwork(n: Id, tenant: Id, value: Option<bool>, policyId: Id)
    | UpdateNetwork(caller: Caller, n: Id, value: Option<bool>, policyId: Id)
    | DeleteNetwork(n: Id)
    | SelectDefault(n: Id)
    | CreatePolicy(caller: Caller, id: Id, policy: Policy)
    | UpdatePolicy(caller: Caller, id: Id, target: Id)
    | DeletePolicy(caller: Caller, id: Id)
    | AddPort(port: Id, n: Id)
    | AddRouter(router: Id, project: Id)
    | AttachGateway(router: Id, port: Id, n: Id)
    | DetachGateway(router: Id)
    | RemoveRouter(router: Id)

  /** The project may use the external network: an entry names it or everyone. */
  predicate Covered(s: Store, project: Id, n: Id) {
    exists i :: i in s.policies && IsExternalEntry(s.policies[i], n) && Serves(s.policies[i], project)
  }

  predicate Serves(p: Policy, project: Id) {
    p.target == project || p.target == MQ.WILDCARD
  }

  /** Policies are updated and deleted by the project that made them and by callers not
      limited to a project. */
  predicate MayTouch(s: Store, caller: Caller, id: Id) {
    id in s.policies && (!caller.scoped || s.policies[id].project == caller.project)
  }

  predicate GrantTaken(s: Store, id: Id, target: Id)
    requires id in s.policies
  {
    exists i :: i in s.policies && i != id && SameGrant(s.policies[i], s.policies[id].(target := target))
  }

  function Next(s: Store, op: Operation): Step {
    match op
    case CreateNetwork(n, tenant, value, policyId) =>
      if n in s.networks || policyId in s.policies then Step(s, Err(Refused))
      else
        var e := L3Create(s.(networks := s.networks[n := Network(tenant)]), n, tenant, value, policyId);
        if e.outcome.Err? then Step(s, e.outcome) else e      // one transaction
    case UpdateNetwork(caller, n, value, policyId) =>
      if !Sees(s, caller, n) then Step(s, Err(NotFound))
      else if policyId in s.policies then Step(s, Err(Refused))
      else
        var e := L3Update(s, caller, n, s.networks[n].tenant, Some(n in s.external), value, true, policyId);
        if e.outcome.Err? then Step(s, e.outcome) else e      // one transaction
    case DeleteNetwork(n) =>
      if n !in s.networks then Step(s, Err(NotFound))
      else if exists p :: p in s.ports && s.ports[p].networkId == n then Step(s, Err(Refused))
      else Step(s.(networks := s.networks - {n}, external := s.external - {n},
                   policies := map i | i in s.policies && s.policies[i].objectId != n :: s.policies[i]), DONE)
    case SelectDefault(n) =>
      if n in s.external && HasWildcardEntry(s, n) then Step(s.(external := s.external[n := true]), DONE)
      else Step(s, Err(Refused))
    case CreatePolicy(caller, id, policy) =>
      if id in s.policies then Step(s, Err(Refused))
      else
        var before := BeforePolicyCreate(s, caller, policy);
        if before.outcome.Err? then before
        else if policy.objectId !in s.networks then Step(before.store, Err(NotFound))
        else AddPolicy(before.store, id, policy)
    case UpdatePolicy(caller, id, target) =>
      if !MayTouch(s, caller, id) then Step(s, Err(NotFound))
      else
        var valid := Validate(s, caller, s.policies[id], Some(target));
        if valid.Err? then Step(s, valid)
        else if GrantTaken(s, id, target) then Step(s, Err(Duplicate))
        else Step(Retarget(s, id, target), DONE)
    case DeletePolicy(caller, id) =>
      if !MayTouch(s, caller, id) then Step(s, Err(NotFound))
      else
        var p := s.policies[id];
        var valid := Validate(s, caller, p, None);
        if valid.Err? then Step(s, valid)
        else AfterPolicyDelete(WithoutPolicy(s, id), caller, p)
    case AddPort(port, n) =>
      if port in s.ports || n !in s.networks then Step(s, Err(Refused))
      else Step(s.(ports := s.ports[port := Port(n, false)]), DONE)
    case AddRouter(router, project) =>
      if router in s.routers then Step(s, Err(Refused))
      else Step(s.(routers := s.routers[router := Router(project, None)]), DONE)
    case AttachGateway(router, port, n) =>
      if router !in s.routers || s.routers[router].gwPort.Some? || port in s.ports || n !in s.networks
         || !Covered(s, s.routers[router].project, n) then Step(s, Err(Refused))
      else Step(s.(ports := s.ports[port := Port(n, true)],
                   routers := s.routers[router := s.routers[router].(gwPort := Some(port))]), DONE)
    case DetachGateway(router) =>
      if router !in s.routers || s.routers[router].gwPort.None? then Step(s, Err(Refused))
      else Step(s.(ports := s.ports - {s.routers[router].gwPort.value},
                   routers := s.routers[router := s.routers[router].(gwPort := None)]), DONE)
    case RemoveRouter(router) =>
      if router !in s.routers || s.routers[router].gwPort.Some? then Step(s, Err(Refused))
      else Step(s.(routers := s.routers - {router}), DONE)
  }

  function Retarget(s: Store, id: Id, target: Id): Store
    requires id in s.policies
  {
    s.(policies := s.policies[id := s.policies[id].(target := target)])
  }

  function WithoutPolicy(s: Store, id: Id): Store {
    s.(policies := s.policies - {id})
  }

  /** Failed operations included: their partial effects stay. */
  function Run(s: Store, ops: seq<Operation>): Store {
    if ops == [] then s else Next(Run(s, ops[..|ops| - 1]), ops[|ops| - 1]).store
  }

  const EMPTY := Store(map[], map[], map[], map[], map[])

  // ---------------------------------------------------------------- invariant and claims

  ghost predicate RowsPlaced(s: Store) {
    && (forall n :: n in s.external ==> n in s.networks)
    && (forall i :: i in s.policies ==> s.policies[i].objectId in s.networks)
  }

  ghost predicate UniqueGrants(s: Store) {
    forall i, j :: i in s.policies && j in s.policies && SameGrant(s.policies[i], s.policies[j]) ==> i == j
  }

  /** Gateway ports and routers belong to each other one to one. */
  ghost predicate GatewaysOwned(s: Store) {
    && (forall p :: p in s.ports ==> s.ports[p].networkId in s.networks)
    && (forall p :: p in s.ports && s.ports[p].gateway ==>
          exists r :: r in s.routers && s.routers[r].gwPort == Some(p))
    && (forall r :: r in s.routers && s.routers[r].gwPort.Some? ==>
          s.routers[r].gwPort.value in s.ports && s.ports[s.routers[r].gwPort.value].gateway)
    && (forall r, q | r in s.routers && q in s.routers ::
          s.routers[r].gwPort.Some? && s.routers[r].gwPort == s.routers[q].gwPort ==> r == q)
  }

  ghost predicate DefaultsShared(s: Store) {
    forall n :: n in s.external && s.external[n] ==> HasWildcardEntry(s, n)
  }

  /** What every run keeps, whoever calls. */
  ghost predicate Inv(s: Store) {
    RowsPlaced(s) && UniqueGrants(s) && GatewaysOwned(s) && DefaultsShared(s)
  }

  /** A network that some external entry names is external. */
  ghost predicate EntriesExternal(s: Store) {
    forall i :: i in s.policies && s.policies[i].action == ACCESS_EXTERNAL ==> s.policies[i].objectId in s.external
  }

  /** The other direction: every external network has an external entry. */
  ghost predicate NoOrphans(s: Store) {
    forall n :: n in s.external ==> HasExternalEntry(s, n)
  }

  /** Every router with a gateway may use the gateway's network. */
  ghost predicate GatewaysCovered(s: Store) {
    forall r, n :: r in s.routers && UsesNetwork(s, s.routers[r], n) ==> Covered(s, s.routers[r].project, n)
  }

  /** What the handlers are for, and what look-ups limited to the caller's rows can break. */
  datatype Claim = EntryMakesExternal | ExternalHasEntry | GatewayIsCovered

  ghost predicate Claimed(c: Claim, s: Store) {
    match c
    case EntryMakesExternal => EntriesExternal(s)
    case ExternalHasEntry => NoOrphans(s)
    case GatewayIsCovered => GatewaysCovered(s)
  }

  ghost predicate KeepsClaims(s: Store, s': Store) {
    && (EntriesExternal(s) ==> EntriesExternal(s'))
    && (NoOrphans(s) ==> NoOrphans(s'))
    && (GatewaysCovered(s) ==> GatewaysCovered(s'))
  }

  // ---------------------------------------------------------------- which steps break a claim

  predicate Allowed(s: Store, caller: Caller, id: Id, update: Option<Id>) {
    && MayTouch(s, caller, id) && Validate(s, caller, s.policies[id], update) == DONE
    && (update.Some? ==> !GrantTaken(s, id, update.value))
  }

  /** The entry is its network's only external one. */
  predicate LastEntry(s: Store, id: Id) {
    && id in s.policies && s.policies[id].action == ACCESS_EXTERNAL
    && !HasExternalEntry(WithoutPolicy(s, id), s.policies[id].objectId)
  }

  /** AFTER_DELETE makes the network internal: the deleter finds no other entry, sees the
      network, and no gateway is on it. */
  predicate Internalises(s: Store, caller: Caller, id: Id)
    requires id in s.policies
  {
    var n, gone := s.policies[id].objectId, WithoutPolicy(s, id);
    && s.policies[id].action == ACCESS_EXTERNAL && n in s.external
    && !CountsEntry(gone, caller, n) && Sees(gone, caller, n) && !HasGateway(s, n)
  }

  predicate HasHiddenEntry(s: Store, caller: Caller, n: Id) {
    exists i :: i in s.policies && IsExternalEntry(s.policies[i], n) && !Reaches(caller, s.policies[i].project)
  }

  /** The network becomes internal while an entry that the caller does not find is left. */
  predicate LeavesEntries(s: Store, op: Operation) {
    match op
    case UpdateNetwork(caller, n, value, policyId) =>
      && value == Some(false) && policyId !in s.policies && Sees(s, caller, n) && n in s.external
      && !HasGateway(s, n) && HasHiddenEntry(s, caller, n)
    case DeletePolicy(caller, id) =>
      && Allowed(s, caller, id, None) && Internalises(s, caller, id)
      && HasExternalEntry(WithoutPolicy(s, id), s.policies[id].objectId)
    case _ => false
  }

  /** The last entry goes and the network stays external: the deleter does not see it any
      more, or a gateway is on it. */
  predicate Orphans(s: Store, op: Operation) {
    && op.DeletePolicy? && Allowed(s, op.caller, op.id, None) && LastEntry(s, op.id)
    && var n := s.policies[op.id].objectId;
       n in s.external && (!Sees(WithoutPolicy(s, op.id), op.caller, n) || HasGateway(s, n))
  }

  /** Without the entry, or with its new target, some gateway router is not covered. */
  predicate Stranding(s: Store, p: Policy, update: Option<Id>) {
    && p.action == ACCESS_EXTERNAL && update != Some(p.target)
    && if p.target != MQ.WILDCARD
       then update != Some(MQ.WILDCARD) && !HasWildcardEntry(s, p.objectId) && SomeUser(s, p.objectId, p.target)
       else exists r :: r in s.routers && UsesNetwork(s, s.routers[r], p.objectId) &&
                        !ServedBesides(s, s.routers[r].project, p.objectId, update)
  }

  predicate ServedBesides(s: Store, project: Id, n: Id, update: Option<Id>) {
    (project != MQ.WILDCARD && project in EntryProjects(s, n)) || update == Some(project)
  }

  /** A stranding change that the validator lets through: the router is of another project
      than the caller's, and not found. */
  predicate Unseen(s: Store, caller: Caller, p: Policy, update: Option<Id>) {
    p.target != MQ.WILDCARD && !Reaches(caller, p.target) && Stranding(s, p, update)
  }

  predicate Strands(s: Store, op: Operation) {
    match op
    case UpdatePolicy(caller, id, target) =>
      Allowed(s, caller, id, Some(target)) && Unseen(s, caller, s.policies[id], Some(target))
    case DeletePolicy(caller, id) => Allowed(s, caller, id, None) && Unseen(s, caller, s.policies[id], None)
    case _ => false
  }

  predicate Breaks(c: Claim, s: Store, op: Operation) {
    match c
    case EntryMakesExternal => LeavesEntries(s, op)
    case ExternalHasEntry => Orphans(s, op)
    case GatewayIsCovered => Strands(s, op)
  }

  // ---------------------------------------------------------------- what carries over

  /** The external entries of one network are all still there. */
  ghost predicate Survive(s: Store, s': Store, n: Id) {
    forall i :: i in s.policies && IsExternalEntry(s.policies[i], n) ==>
      i in s'.policies && s'.policies[i] == s.policies[i]
  }

  lemma SurvivorsServe(s: Store, s': Store, n: Id)
    requires Survive(s, s', n)
    ensures HasExternalEntry(s, n) ==> HasExternalEntry(s', n)
    ensures HasWildcardEntry(s, n) ==> HasWildcardEntry(s', n)
    ensures forall project :: Covered(s, project, n) ==> Covered(s', project, n)
  {
  }

  /** Every gateway router of `s'` was one of `s`, on a network whose entries survive. */
  ghost predicate UsersCarry(s: Store, s': Store) {
    forall r, n :: UserCarries(s, s', r, n)
  }

  ghost predicate UserCarries(s: Store, s': Store, r: Id, n: Id) {
    r in s'.routers && UsesNetwork(s', s'.routers[r], n) ==>
      r in s.routers && s.routers[r] == s'.routers[r] && UsesNetwork(s, s.routers[r], n) && Survive(s, s', n)
  }

  lemma CoverageCarries(s: Store, s': Store)
    requires UsersCarry(s, s')
    ensures GatewaysCovered(s) ==> GatewaysCovered(s')
  {
    forall r, n | GatewaysCovered(s) && r in s'.routers && UsesNetwork(s', s'.routers[r], n)
      ensures Covered(s', s'.routers[r].project, n)
    {
      assert UserCarries(s, s', r, n);
      assert Covered(s, s.routers[r].project, n);
      SurvivorsServe(s, s', n);
    }
  }

  ghost predicate SubPolicies(s: Store, s': Store) {
    forall i :: i in s'.policies ==> i in s.policies && s'.policies[i] == s.policies[i]
  }

  lemma FewerGrantsUnique(s: Store, s': Store)
    requires UniqueGrants(s) && SubPolicies(s, s')
    ensures UniqueGrants(s')
  {
  }

  lemma AddedGrantUnique(s: Store, s': Store, id: Id, p: Policy)
    requires UniqueGrants(s) && id !in s.policies && s'.policies == s.policies[id := p]
    requires !exists i :: i in s.policies && SameGrant(s.policies[i], p)
    ensures UniqueGrants(s')
    ensures forall n :: Survive(s, s', n)
  {
  }

  /** Adding an entry, with the external row it needs, keeps the invariant. */
  lemma AddEntryKeeps(s: Store, s': Store, id: Id, p: Policy)
    requires Inv(s) && id !in s.policies && p.objectId in s'.networks
    requires !exists i :: i in s.policies && SameGrant(s.policies[i], p)
    requires s'.policies == s.policies[id := p] && s'.ports == s.ports && s'.routers == s.routers
    requires s.networks.Keys <= s'.networks.Keys
    requires if p.action != ACCESS_EXTERNAL || p.objectId in s.external then s'.external == s.external
             else s'.external == s.external[p.objectId := false]
    ensures Inv(s') && KeepsClaims(s, s')
  {
    AddedGrantUnique(s, s', id, p);
    CoverageCarries(s, s');
    forall n | n in s'.external
      ensures n in s'.networks && (NoOrphans(s) ==> HasExternalEntry(s', n))
      ensures s'.external[n] ==> HasWildcardEntry(s', n)
    {
      if n in s.external {
        assert Survive(s, s', n);
        SurvivorsServe(s, s', n);
      } else {
        assert IsExternalEntry(s'.policies[id], n);
      }
    }
  }

  /** Policies, ports and routers untouched; networks and external rows only added. */
  lemma SameEntriesKeep(s: Store, s': Store)
    requires Inv(s) && s'.policies == s.policies && s'.ports == s.ports && s'.routers == s.routers
    requires s.networks.Keys <= s'.networks.Keys && s.external.Keys <= s'.external.Keys <= s'.networks.Keys
    requires forall n :: n in s'.external && n !in s.external ==> HasExternalEntry(s, n)
    requires forall n :: n in s'.external && s'.external[n] && !(n in s.external && s.external[n]) ==>
      HasWildcardEntry(s, n)
    ensures Inv(s') && KeepsClaims(s, s')
  {
    CoverageCarries(s, s');
    forall n | n in s'.external
      ensures NoOrphans(s) ==> HasExternalEntry(s', n)
      ensures s'.external[n] ==> HasWildcardEntry(s', n)
    {
      assert Survive(s, s', n);
      SurvivorsServe(s, s', n);
    }
  }

  /** Policies of one network without gateways are removed, and its external row. */
  lemma FewerEntriesKeep(s: Store, s': Store, n: Id)
    requires Inv(s) && !HasGateway(s, n)
    requires SubPolicies(s, s') && s'.ports == s.ports && s'.routers == s.routers
    requires forall i :: i in s.policies && s.policies[i].objectId != n ==> i in s'.policies
    requires s'.external == s.external - {n}
    requires s'.networks == s.networks ||
             (s'.networks == s.networks - {n} && (forall i :: i in s'.policies ==> s'.policies[i].objectId != n)
              && forall p :: p in s.ports ==> s.ports[p].networkId != n)
    ensures Inv(s') && (NoOrphans(s) ==> NoOrphans(s')) && (GatewaysCovered(s) ==> GatewaysCovered(s'))
    ensures EntriesExternal(s) ==> (EntriesExternal(s') <==> !HasExternalEntry(s', n))
  {
    FewerGrantsUnique(s, s');
    forall r, m ensures UserCarries(s, s', r, m) {
      if r in s'.routers && UsesNetwork(s', s'.routers[r], m) {
        assert m != n;
      }
    }
    CoverageCarries(s, s');
    forall m | m in s'.external
      ensures NoOrphans(s) ==> HasExternalEntry(s', m)
      ensures s'.external[m] ==> HasWildcardEntry(s', m)
    {
      assert Survive(s, s', m);
      SurvivorsServe(s, s', m);
    }
  }

  // ---------------------------------------------------------------- single operations

  lemma CreateNetworkKeepsInv(s: Store, op: Operation)
    requires Inv(s) && op.CreateNetwork?
    ensures Inv(Next(s, op).store) && KeepsClaims(s, Next(s, op).store)
    ensures op.n !in s.networks && op.policyId !in s.policies ==> Next(s, op).outcome == DONE
  {
    var s' := Next(s, op).store;
    if op.n !in s.networks && op.policyId !in s.policies {
      var base := s.(networks := s.networks[op.n := Network(op.tenant)]);
      if op.value == Some(true) {
        var p := Policy(op.tenant, op.n, ACCESS_EXTERNAL, MQ.WILDCARD);
        assert !exists i :: i in s.policies && SameGrant(s.policies[i], p);
        AddEntryKeeps(s, s', op.policyId, p);
      } else {
        SameEntriesKeep(s, base);
      }
    }
  }

  /** A network update keeps the invariant. It leaves entries of a network that it makes
      internal if and only if the caller does not find some of them. */
  lemma UpdateNetworkKeepsInv(s: Store, op: Operation)
    requires Inv(s) && op.UpdateNetwork?
    ensures var s' := Next(s, op).store;
      && Inv(s') && (NoOrphans(s) ==> NoOrphans(s')) && (GatewaysCovered(s) ==> GatewaysCovered(s'))
      && (EntriesExternal(s) ==> (EntriesExternal(s') <==> !LeavesEntries(s, op)))
    ensures EntriesExternal(s) ==> Next(s, op).outcome != Err(Duplicate)
  {
    var s' := Next(s, op).store;
    if s' != s {
      if op.n in s.external {
        FewerEntriesKeep(s, s', op.n);
        HiddenEntriesStay(s, op.caller, op.n);
      } else {
        var p := Policy(s.networks[op.n].tenant, op.n, ACCESS_EXTERNAL, MQ.WILDCARD);
        AddEntryKeeps(s, s', op.policyId, p);
      }
    }
  }

  lemma HiddenEntriesStay(s: Store, caller: Caller, n: Id)
    ensures HasExternalEntry(DropExternal(s, caller, n), n) <==> HasHiddenEntry(s, caller, n)
  {
    var s' := DropExternal(s, caller, n);
    if i :| i in s.policies && IsExternalEntry(s.policies[i], n) && !Reaches(caller, s.policies[i].project) {
      assert i in s'.policies && IsExternalEntry(s'.policies[i], n);
    }
  }

  lemma DeleteNetworkKeepsInv(s: Store, op: Operation)
    requires Inv(s) && op.DeleteNetwork?
    ensures Inv(Next(s, op).store) && KeepsClaims(s, Next(s, op).store)
  {
    var s' := Next(s, op).store;
    if s' != s {
      FewerEntriesKeep(s, s', op.n);
    }
  }

  /** An external row made by BEFORE_CREATE has an entry, even if the policy itself turns
      out to be a duplicate; while entries make networks external it never does. */
  lemma CreatePolicyKeepsInv(s: Store, op: Operation)
    requires Inv(s) && op.CreatePolicy?
    ensures Inv(Next(s, op).store) && KeepsClaims(s, Next(s, op).store)
    ensures var before := BeforePolicyCreate(s, op.caller, op.policy);
      EntriesExternal(s) && op.id !in s.policies && before.store != s ==> Next(s, op).outcome == DONE
  {
    var before := BeforePolicyCreate(s, op.caller, op.policy);
    if op.id !in s.policies && before.outcome.Ok? && op.policy.objectId in s.networks {
      if i :| i in s.policies && SameGrant(s.policies[i], op.policy) {
        DuplicateKeeps(s, before.store, op.policy);
      } else {
        AddEntryKeeps(s, Next(s, op).store, op.id, op.policy);
      }
    }
  }

  lemma DuplicateKeeps(s: Store, s': Store, p: Policy)
    requires Inv(s) && (exists i :: i in s.policies && SameGrant(s.policies[i], p)) && p.objectId in s.networks
    requires s' == s || (p.action == ACCESS_EXTERNAL && p.objectId !in s.external
                         && s' == s.(external := s.external[p.objectId := false]))
    ensures Inv(s') && KeepsClaims(s, s')
  {
    var i :| i in s.policies && SameGrant(s.policies[i], p);
    if s' != s {
      assert IsExternalEntry(s.policies[i], p.objectId);
    }
    SameEntriesKeep(s, s');
  }

  // ---------------------------------------------------------------- the validator

  /** One entry of the network is gone or retargeted; the others are as before. */
  ghost predicate OneEntryChanged(s: Store, s': Store, id: Id, update: Option<Id>) {
    && id in s.policies
    && s' == if update.Some? then Retarget(s, id, update.value) else WithoutPolicy(s, id)
  }

  lemma CoverageOutlives(s: Store, id: Id, update: Option<Id>, s': Store, r: Id, n: Id)
    requires OneEntryChanged(s, s', id, update) && !Stranding(s, s.policies[id], update)
    requires r in s.routers && UsesNetwork(s, s.routers[r], n) && Covered(s, s.routers[r].project, n)
    ensures Covered(s', s.routers[r].project, n)
  {
    var p, project := s.policies[id], s.routers[r].project;
    var i :| i in s.policies && IsExternalEntry(s.policies[i], n) && Serves(s.policies[i], project);
    if i != id || update == Some(p.target) {
      assert IsExternalEntry(s'.policies[i], n);
    } else if p.target != MQ.WILDCARD {
      assert SomeUser(s, n, p.target);
      if update == Some(MQ.WILDCARD) {
        assert IsExternalEntry(s'.policies[id], n);
      } else {
        var w :| w in s.policies && IsExternalEntry(s.policies[w], n) && s.policies[w].target == MQ.WILDCARD;
        assert IsExternalEntry(s'.policies[w], n);
      }
    } else {
      assert ServedBesides(s, project, n, update);
      if update == Some(project) {
        assert IsExternalEntry(s'.policies[id], n);
      } else {
        var k :| k in s.policies && IsExternalEntry(s.policies[k], n) && s.policies[k].target == project;
        assert IsExternalEntry(s'.policies[k], n);
      }
    }
  }

  /** Without another entry that serves it a project is left uncovered. */
  lemma LeftUncovered(s: Store, id: Id, update: Option<Id>, s': Store, project: Id)
    requires UniqueGrants(s) && OneEntryChanged(s, s', id, update)
    requires var p := s.policies[id];
      && p.action == ACCESS_EXTERNAL && update != Some(MQ.WILDCARD) && update != Some(project)
      && (if p.target != MQ.WILDCARD then project == p.target && !HasWildcardEntry(s, p.objectId)
          else project == MQ.WILDCARD || project !in EntryProjects(s, p.objectId))
    ensures !Covered(s', project, s.policies[id].objectId)
  {
  }

  /** What becomes of coverage when an entry goes or changes its target. */
  lemma CoverageExactly(s: Store, id: Id, update: Option<Id>, s': Store)
    requires UniqueGrants(s) && GatewaysCovered(s) && OneEntryChanged(s, s', id, update)
    ensures GatewaysCovered(s') <==> !Stranding(s, s.policies[id], update)
  {
    var p := s.policies[id];
    if Stranding(s, p, update) {
      var r :| r in s.routers && UsesNetwork(s, s.routers[r], p.objectId) &&
        if p.target != MQ.WILDCARD then s.routers[r].project == p.target
        else !ServedBesides(s, s.routers[r].project, p.objectId, update);
      assert UsesNetwork(s', s'.routers[r], p.objectId);
      LeftUncovered(s, id, update, s', s.routers[r].project);
    } else {
      forall r, n | r in s'.routers && UsesNetwork(s', s'.routers[r], n)
        ensures Covered(s', s'.routers[r].project, n)
      {
        assert UsesNetwork(s, s.routers[r], n);
        CoverageOutlives(s, id, update, s', r, n);
      }
    }
  }

  /** A default network is still shared to everyone, unless its wildcard entry goes. */
  lemma DefaultsOutlive(s: Store, caller: Caller, id: Id, update: Option<Id>, s': Store)
    requires UniqueGrants(s) && DefaultsShared(s) && OneEntryChanged(s, s', id, update)
    ensures Validate(s, caller, s.policies[id], update) == Err(DefaultMustBeShared) <==> !DefaultsShared(s')
  {
    var p := s.policies[id];
    if Validate(s, caller, p, update) == Err(DefaultMustBeShared) {
      assert !HasWildcardEntry(s', p.objectId);
    } else {
      forall n | n in s'.external && s'.external[n] ensures HasWildcardEntry(s', n) {
        var w :| w in s.policies && IsExternalEntry(s.policies[w], n) && s.policies[w].target == MQ.WILDCARD;
        assert IsExternalEntry(s'.policies[w], n);
      }
    }
  }

  /** The changes that strand no router, or need not, and are refused all the same: those of an
      entry whose project has a gateway, if they widen it to everyone or if the wildcard
      entry is one that the caller does not find; and retargeting the wildcard to an empty
      name that has one. */
  predicate Overcautious(s: Store, caller: Caller, p: Policy, update: Option<Id>) {
    && p.action == ACCESS_EXTERNAL && update != Some(p.target)
    && if p.target != MQ.WILDCARD
       then
         && Reaches(caller, p.target) && SomeUser(s, p.objectId, p.target) && !CountsWildcard(s, caller, p.objectId)
         && (update == Some(MQ.WILDCARD) || HasWildcardEntry(s, p.objectId))
       else update == Some("") && SomeUser(s, p.objectId, "") && "" !in EntryProjects(s, p.objectId)
  }

  /** The validator lets a deletion or retargeting through if and only if it strands no
      router that the caller finds and takes no default network's wildcard, refusals in
      error aside. */
  lemma ValidateRefusesExactlyStranding(s: Store, caller: Caller, id: Id, update: Option<Id>, s': Store)
    requires UniqueGrants(s) && DefaultsShared(s) && GatewaysCovered(s) && OneEntryChanged(s, s', id, update)
    ensures var p := s.policies[id];
      && (Validate(s, caller, p, update) == DONE <==>
            && (GatewaysCovered(s') || Unseen(s, caller, p, update))
            && DefaultsShared(s') && !Overcautious(s, caller, p, update))
      && (Validate(s, caller, p, update) == Err(DefaultMustBeShared) <==> !DefaultsShared(s'))
      && (Unseen(s, caller, p, update) ==> !GatewaysCovered(s'))
  {
    DefaultsOutlive(s, caller, id, update, s');
    CoverageExactly(s, id, update, s');
    if DefaultsShared(s') {
      ValidateAgainstStranding(s, caller, s.policies[id], update);
    }
  }

  /** The validator's answer against the truth. */
  lemma ValidateAgainstStranding(s: Store, caller: Caller, p: Policy, update: Option<Id>)
    requires Validate(s, caller, p, update) != Err(DefaultMustBeShared)
    ensures Validate(s, caller, p, update) == DONE <==>
            && (!Stranding(s, p, update) || Unseen(s, caller, p, update))
            && !Overcautious(s, caller, p, update)
  {
    if p.action == ACCESS_EXTERNAL && p.target == MQ.WILDCARD && update != Some(p.target) {
      forall r | r in s.routers && UsesNetwork(s, s.routers[r], p.objectId)
        ensures var project := s.routers[r].project;
          !NamedBesidesWildcard(s, project, p.objectId, update) <==>
          !ServedBesides(s, project, p.objectId, update) ||
          (update == Some("") && project == "" && "" !in EntryProjects(s, p.objectId))
      {
      }
    }
  }

  /** What the validator lets through keeps every gateway covered if and only if it is not
      a stranding that the caller cannot see; an unlimited caller sees all. */
  lemma ValidatedKeepsCovered(s: Store, caller: Caller, id: Id, update: Option<Id>, s': Store)
    requires UniqueGrants(s) && DefaultsShared(s) && GatewaysCovered(s) && OneEntryChanged(s, s', id, update)
    requires Validate(s, caller, s.policies[id], update) == DONE
    ensures GatewaysCovered(s') <==> !Unseen(s, caller, s.policies[id], update)
    ensures !caller.limited ==> GatewaysCovered(s')
  {
    ValidateRefusesExactlyStranding(s, caller, id, update, s');
  }

  /** A widening to everyone strands nobody, but is let through exactly when deleting the
      entry is. */
  lemma WideningJudgedAsDeletion(s: Store, caller: Caller, id: Id)
    requires Inv(s) && GatewaysCovered(s) && id in s.policies && s.policies[id].target != MQ.WILDCARD
    ensures GatewaysCovered(Retarget(s, id, MQ.WILDCARD))
    ensures var p, gone := s.policies[id], WithoutPolicy(s, id);
      Validate(s, caller, p, Some(MQ.WILDCARD)) == DONE <==>
      (GatewaysCovered(gone) || Unseen(s, caller, p, None)) && !Overcautious(s, caller, p, None)
    ensures !caller.limited ==>
      (Validate(s, caller, s.policies[id], Some(MQ.WILDCARD)) == DONE <==> GatewaysCovered(WithoutPolicy(s, id)))
  {
    CoverageExactly(s, id, Some(MQ.WILDCARD), Retarget(s, id, MQ.WILDCARD));
    ValidateRefusesExactlyStranding(s, caller, id, None, WithoutPolicy(s, id));
  }

  // ---------------------------------------------------------------- policy changes

  lemma RetargetKeepsEntries(s: Store, id: Id, target: Id)
    requires id in s.policies
    ensures var s' := Retarget(s, id, target);
      && (RowsPlaced(s) ==> RowsPlaced(s'))
      && (EntriesExternal(s) ==> EntriesExternal(s')) && (NoOrphans(s) ==> NoOrphans(s'))
  {
    var s' := Retarget(s, id, target);
    forall n | HasExternalEntry(s, n) ensures HasExternalEntry(s', n) {
      var i :| i in s.policies && IsExternalEntry(s.policies[i], n);
      assert IsExternalEntry(s'.policies[i], n);
    }
  }

  lemma RetargetKeepsUnique(s: Store, id: Id, target: Id)
    requires UniqueGrants(s) && id in s.policies && !GrantTaken(s, id, target)
    ensures UniqueGrants(Retarget(s, id, target))
  {
  }

  lemma UpdatePolicyKeepsInv(s: Store, op: Operation)
    requires Inv(s) && op.UpdatePolicy?
    ensures var s' := Next(s, op).store;
      && Inv(s') && (EntriesExternal(s) ==> EntriesExternal(s')) && (NoOrphans(s) ==> NoOrphans(s'))
      && (GatewaysCovered(s) ==> (GatewaysCovered(s') <==> !Strands(s, op)))
  {
    if Allowed(s, op.caller, op.id, Some(op.target)) {
      var s' := Retarget(s, op.id, op.target);
      if GatewaysCovered(s) {
        ValidatedKeepsCovered(s, op.caller, op.id, Some(op.target), s');
      }
      RetargetKeepsEntries(s, op.id, op.target);
      DefaultsOutlive(s, op.caller, op.id, Some(op.target), s');
      RetargetKeepsUnique(s, op.id, op.target);
    }
  }

  /** What AFTER_DELETE does after an allowed deletion: which entries and external rows are
      left, and how it ends. */
  lemma DeletePolicyOutcome(s: Store, caller: Caller, id: Id)
    requires RowsPlaced(s) && Allowed(s, caller, id, None)
    ensures var e, gone, n := Next(s, DeletePolicy(caller, id)), WithoutPolicy(s, id), s.policies[id].objectId;
            var alone := s.policies[id].action == ACCESS_EXTERNAL && !CountsEntry(gone, caller, n);
      && e.store == gone.(external := if Internalises(s, caller, id) then s.external - {n} else s.external)
      && (e.outcome == Err(NotFound) <==> alone && !Sees(gone, caller, n))
      && (e.outcome == Err(ExternalNetworkInUse) <==>
            alone && Sees(gone, caller, n) && n in s.external && HasGateway(s, n))
      && (e.outcome == DONE || e.outcome == Err(NotFound) || e.outcome == Err(ExternalNetworkInUse))
  {
    var gone, n := WithoutPolicy(s, id), s.policies[id].objectId;
    if Internalises(s, caller, id) {
      assert DropExternal(gone, caller, n).policies == gone.policies;
    }
  }

  lemma EntryGone(s: Store, id: Id)
    requires RowsPlaced(s) && UniqueGrants(s) && GatewaysOwned(s) && id in s.policies
    ensures var gone := WithoutPolicy(s, id);
      && RowsPlaced(gone) && UniqueGrants(gone) && GatewaysOwned(gone)
      && (EntriesExternal(s) ==> EntriesExternal(gone))
      && forall n | n != s.policies[id].objectId || s.policies[id].action != ACCESS_EXTERNAL ::
           HasExternalEntry(s, n) ==> HasExternalEntry(gone, n)
  {
    var gone := WithoutPolicy(s, id);
    FewerGrantsUnique(s, gone);
    forall n | (n != s.policies[id].objectId || s.policies[id].action != ACCESS_EXTERNAL) && HasExternalEntry(s, n)
      ensures HasExternalEntry(gone, n)
    {
      assert Survive(s, gone, n);
      SurvivorsServe(s, gone, n);
    }
  }

  /** Coverage is a matter of policies, ports and routers. */
  lemma SameCoverage(s: Store, s': Store)
    requires s'.policies == s.policies && s'.ports == s.ports && s'.routers == s.routers
    ensures GatewaysCovered(s) <==> GatewaysCovered(s')
  {
    CoverageCarries(s, s');
    CoverageCarries(s', s);
  }

  lemma DeletionKeepsCoverage(s: Store, op: Operation)
    requires Inv(s) && GatewaysCovered(s) && op.DeletePolicy?
    ensures GatewaysCovered(Next(s, op).store) <==> !Strands(s, op)
  {
    if Allowed(s, op.caller, op.id, None) {
      DeletePolicyOutcome(s, op.caller, op.id);
      ValidatedKeepsCovered(s, op.caller, op.id, None, WithoutPolicy(s, op.id));
      SameCoverage(WithoutPolicy(s, op.id), Next(s, op).store);
    }
  }

  /** A policy deletion keeps the invariant, and breaks each claim exactly when said. */
  lemma DeletePolicyKeepsInv(s: Store, op: Operation)
    requires Inv(s) && op.DeletePolicy?
    ensures var s' := Next(s, op).store;
      && Inv(s')
      && (EntriesExternal(s) ==> (EntriesExternal(s') <==> !LeavesEntries(s, op)))
      && (NoOrphans(s) ==> (NoOrphans(s') <==> !Orphans(s, op)))
      && (GatewaysCovered(s) ==> (GatewaysCovered(s') <==> !Strands(s, op)))
  {
    if GatewaysCovered(s) {
      DeletionKeepsCoverage(s, op);
    }
    if Allowed(s, op.caller, op.id, None) {
      var gone, s' := WithoutPolicy(s, op.id), Next(s, op).store;
      DeletePolicyOutcome(s, op.caller, op.id);
      EntryGone(s, op.id);
      DefaultsOutlive(s, op.caller, op.id, None, gone);
      ExternalAfter(gone, s', s.policies[op.id].objectId);
    }
  }

  /** What an external row less makes of the claims. */
  lemma ExternalAfter(s: Store, s': Store, n: Id)
    requires s' == s.(external := s'.external) && (s'.external == s.external || s'.external == s.external - {n})
    ensures forall m :: HasExternalEntry(s', m) == HasExternalEntry(s, m)
    ensures DefaultsShared(s) ==> DefaultsShared(s')
    ensures RowsPlaced(s) ==> RowsPlaced(s')
    ensures EntriesExternal(s) && s'.external != s.external ==> (EntriesExternal(s') <==> !HasExternalEntry(s, n))
  {
    assert forall m :: HasWildcardEntry(s', m) == HasWildcardEntry(s, m);
  }

  lemma AddPortKeepsInv(s: Store, op: Operation)
    requires Inv(s) && op.AddPort?
    ensures Inv(Next(s, op).store) && KeepsClaims(s, Next(s, op).store)
  {
    var s' := Next(s, op).store;
    if s' != s {
      EntriesUntouched(s, s');
      CoverageCarries(s, s');
    }
  }

  lemma AddOrRemoveRouterKeepsInv(s: Store, op: Operation)
    requires Inv(s) && (op.AddRouter? || op.RemoveRouter?)
    ensures Inv(Next(s, op).store) && KeepsClaims(s, Next(s, op).store)
  {
    var s' := Next(s, op).store;
    if s' != s {
      EntriesUntouched(s, s');
      forall p | p in s'.ports && s'.ports[p].gateway
        ensures exists r :: r in s'.routers && s'.routers[r].gwPort == Some(p)
      {
        var r :| r in s.routers && s.routers[r].gwPort == Some(p);
        assert r in s'.routers && s'.routers[r].gwPort == Some(p);
      }
      CoverageCarries(s, s');
    }
  }

  lemma EntriesUntouched(s: Store, s': Store)
    requires RowsPlaced(s) && UniqueGrants(s) && DefaultsShared(s)
    requires s'.networks == s.networks && s'.external == s.external && s'.policies == s.policies
    ensures RowsPlaced(s') && UniqueGrants(s') && DefaultsShared(s')
    ensures (EntriesExternal(s) ==> EntriesExternal(s')) && (NoOrphans(s) ==> NoOrphans(s'))
    ensures forall n :: Survive(s, s', n)
  {
  }

  lemma AttachedGatewaysOwned(s: Store, s': Store, router: Id, port: Id, n: Id)
    requires GatewaysOwned(s) && router in s.routers && s.routers[router].gwPort.None?
    requires port !in s.ports && n in s.networks
    requires s'.networks == s.networks && s'.ports == s.ports[port := Port(n, true)]
    requires s'.routers == s.routers[router := s.routers[router].(gwPort := Some(port))]
    ensures GatewaysOwned(s')
  {
    assert forall r :: r in s.routers ==> s.routers[r].gwPort != Some(port);
    forall p | p in s'.ports && s'.ports[p].gateway
      ensures exists r :: r in s'.routers && s'.routers[r].gwPort == Some(p)
    {
      if p == port {
        assert s'.routers[router].gwPort == Some(p);
      } else {
        var r :| r in s.routers && s.routers[r].gwPort == Some(p);
        assert r in s'.routers && s'.routers[r].gwPort == Some(p);
      }
    }
  }

  lemma AttachGatewayKeepsInv(s: Store, op: Operation)
    requires Inv(s) && op.AttachGateway?
    ensures Inv(Next(s, op).store) && KeepsClaims(s, Next(s, op).store)
  {
    var s' := Next(s, op).store;
    if Next(s, op).outcome.Ok? {
      EntriesUntouched(s, s');
      AttachedGatewaysOwned(s, s', op.router, op.port, op.n);
      forall r, n | GatewaysCovered(s) && r in s'.routers && UsesNetwork(s', s'.routers[r], n)
        ensures Covered(s', s'.routers[r].project, n)
      {
        SurvivorsServe(s, s', n);
        if r != op.router {
          assert UsesNetwork(s, s.routers[r], n);
        }
      }
    }
  }

  lemma DetachGatewayKeepsInv(s: Store, op: Operation)
    requires Inv(s) && op.DetachGateway?
    ensures Inv(Next(s, op).store) && KeepsClaims(s, Next(s, op).store)
  {
    var s' := Next(s, op).store;
    if s' != s {
      var port := s.routers[op.router].gwPort.value;
      EntriesUntouched(s, s');
      assert forall r :: r in s.routers && r != op.router ==> s.routers[r].gwPort != Some(port);
      forall p | p in s'.ports && s'.ports[p].gateway
        ensures exists r :: r in s'.routers && s'.routers[r].gwPort == Some(p)
      {
        var r :| r in s.routers && s.routers[r].gwPort == Some(p);
        assert r in s'.routers && s'.routers[r].gwPort == Some(p);
      }
      CoverageCarries(s, s');
    }
  }

  // ---------------------------------------------------------------- runs

  lemma NextKeepsInv(s: Store, op: Operation)
    requires Inv(s)
    ensures var s' := Next(s, op).store;
      && Inv(s')
      && (EntriesExternal(s) ==> (EntriesExternal(s') <==> !LeavesEntries(s, op)))
      && (NoOrphans(s) ==> (NoOrphans(s') <==> !Orphans(s, op)))
      && (GatewaysCovered(s) ==> (GatewaysCovered(s') <==> !Strands(s, op)))
  {
    match op
    case CreateNetwork(_, _, _, _) => CreateNetworkKeepsInv(s, op);
    case UpdateNetwork(_, _, _, _) => UpdateNetworkKeepsInv(s, op);
    case DeleteNetwork(_) => DeleteNetworkKeepsInv(s, op);
    case SelectDefault(_) => SameEntriesKeep(s, Next(s, op).store);
    case CreatePolicy(_, _, _) => CreatePolicyKeepsInv(s, op);
    case UpdatePolicy(_, _, _) => UpdatePolicyKeepsInv(s, op);
    case DeletePolicy(_, _) => DeletePolicyKeepsInv(s, op);
    case AttachGateway(_, _, _) => AttachGatewayKeepsInv(s, op);
    case DetachGateway(_) => DetachGatewayKeepsInv(s, op);
    case AddPort(_, _) => AddPortKeepsInv(s, op);
    case _ => AddOrRemoveRouterKeepsInv(s, op);
  }

  lemma StepBreaksExactly(c: Claim, s: Store, op: Operation)
    requires Inv(s) && Claimed(c, s)
    ensures Claimed(c, Next(s, op).store) <==> !Breaks(c, s, op)
  {
    NextKeepsInv(s, op);
  }

  /** Every run from empty tables keeps the invariant, failed operations included. */
  lemma {:induction false} RunKeepsInv(ops: seq<Operation>)
    ensures Inv(Run(EMPTY, ops))
  {
    if ops != [] {
      RunKeepsInv(ops[..|ops| - 1]);
      NextKeepsInv(Run(EMPTY, ops[..|ops| - 1]), ops[|ops| - 1]);
    }
  }

  /** The claim holds in every state that the run passes through. */
  ghost predicate Throughout(c: Claim, ops: seq<Operation>) {
    forall k :: 0 <= k <= |ops| ==> Claimed(c, StateAt(ops, k))
  }

  /** The state after the first `k` operations. */
  function StateAt(ops: seq<Operation>, k: nat): Store
    requires k <= |ops|
  {
    Run(EMPTY, ops[..k])
  }

  /** No step of the run breaks the claim. */
  ghost predicate NeverBroken(c: Claim, ops: seq<Operation>) {
    ops != [] ==>
      var front := ops[..|ops| - 1]; NeverBroken(c, front) && !Breaks(c, Run(EMPTY, front), ops[|ops| - 1])
  }

  lemma FrontStates(ops: seq<Operation>)
    requires ops != []
    ensures forall k :: 0 <= k < |ops| ==> StateAt(ops, k) == StateAt(ops[..|ops| - 1], k)
    ensures StateAt(ops, |ops|) == Run(EMPTY, ops)
  {
    forall k | 0 <= k < |ops| ensures StateAt(ops, k) == StateAt(ops[..|ops| - 1], k) {
      assert ops[..|ops| - 1][..k] == ops[..k];
    }
    assert ops[..|ops|] == ops;
  }

  lemma ThroughoutLast(c: Claim, ops: seq<Operation>)
    requires ops != []
    ensures Throughout(c, ops) <==> Throughout(c, ops[..|ops| - 1]) && Claimed(c, Run(EMPTY, ops))
  {
    FrontStates(ops);
    var front := ops[..|ops| - 1];
    forall k | 0 <= k < |ops| ensures Claimed(c, StateAt(front, k)) <==> Claimed(c, StateAt(ops, k)) {
    }
  }

  /** Each claim holds all through a run if and only if no step of the run breaks it. */
  lemma {:induction false} ClaimUnlessBroken(c: Claim, ops: seq<Operation>)
    ensures Throughout(c, ops) <==> NeverBroken(c, ops)
    ensures NeverBroken(c, ops) ==> Claimed(c, Run(EMPTY, ops))
  {
    if ops == [] {
      assert ops[..0] == ops;
    } else {
      var front, last := ops[..|ops| - 1], ops[|ops| - 1];
      ClaimUnlessBroken(c, front);
      ThroughoutLast(c, ops);
      RunKeepsInv(front);
      if Claimed(c, Run(EMPTY, front)) {
        StepBreaksExactly(c, Run(EMPTY, front), last);
      }
      assert front[..|front|] == front;
    }
  }

  // ---------------------------------------------------------------- callers not limited to their rows

  predicate Unlimited(op: Operation) {
    match op
    case UpdateNetwork(caller, _, _, _) => !caller.limited
    case UpdatePolicy(caller, _, _) => !caller.limited
    case DeletePolicy(caller, _) => !caller.limited
    case _ => true
  }

  /** The last entry goes by the hand of someone who then no longer sees the network: not
      unscoped, not its owner, and no other entry opens it. */
  predicate Blind(s: Store, op: Operation) {
    && op.DeletePolicy? && Allowed(s, op.caller, op.id, None) && LastEntry(s, op.id)
    && var n := s.policies[op.id].objectId; n in s.external && !Sees(WithoutPolicy(s, op.id), op.caller, n)
  }

  /** Where gateways are covered, an unlimited caller leaves no entry behind, strands no
      router and meets no ExternalNetworkInUse: the last entry gone, no gateway is left. */
  lemma UnlimitedBreaksNothing(s: Store, op: Operation)
    requires Inv(s) && GatewaysCovered(s) && Unlimited(op)
    ensures !LeavesEntries(s, op) && !Strands(s, op) && (Orphans(s, op) <==> Blind(s, op))
    ensures op.DeletePolicy? ==> Next(s, op).outcome != Err(ExternalNetworkInUse)
  {
    if op.DeletePolicy? && Allowed(s, op.caller, op.id, None) {
      var p, gone := s.policies[op.id], WithoutPolicy(s, op.id);
      var n := p.objectId;
      DeletePolicyOutcome(s, op.caller, op.id);
      ValidatedKeepsCovered(s, op.caller, op.id, None, gone);
      assert CountsEntry(gone, op.caller, n) <==> HasExternalEntry(gone, n);
      if HasGateway(s, n) {
        GatewayHasEntry(gone, n);
      }
    }
  }

  /** Where the claims hold, an unlimited caller's deletion completes if and only if the
      last entry is not gone or the caller still sees the network; otherwise its look-up
      fails and the network stays external without an entry. */
  lemma DeletePolicyCompletes(s: Store, caller: Caller, id: Id)
    requires Inv(s) && GatewaysCovered(s) && EntriesExternal(s)
    requires Allowed(s, caller, id, None) && !caller.limited
    ensures var e, gone, n := Next(s, DeletePolicy(caller, id)), WithoutPolicy(s, id), s.policies[id].objectId;
            var internal := LastEntry(s, id) && e.outcome == DONE;
      && (e.outcome == DONE <==>
            LastEntry(s, id) ==>
              !caller.scoped || s.networks[n].tenant == caller.project || OpenTo(gone, caller.project, n))
      && (LastEntry(s, id) ==> !HasGateway(s, n))
      && e.store == gone.(external := if internal then s.external - {n} else s.external)
      && (e.outcome != DONE ==>
            e.outcome == Err(NotFound) && n in e.store.external && !HasExternalEntry(e.store, n))
  {
    var gone, n := WithoutPolicy(s, id), s.policies[id].objectId;
    DeletePolicyOutcome(s, caller, id);
    EntryGone(s, id);
    ValidatedKeepsCovered(s, caller, id, None, gone);
    assert CountsEntry(gone, caller, n) <==> HasExternalEntry(gone, n);
    if HasGateway(gone, n) {
      GatewayHasEntry(gone, n);
    }
  }

  lemma GatewayHasEntry(s: Store, n: Id)
    requires GatewaysOwned(s) && GatewaysCovered(s) && HasGateway(s, n)
    ensures HasExternalEntry(s, n)
  {
    var g :| g in s.ports && s.ports[g].gateway && s.ports[g].networkId == n;
    var r :| r in s.routers && s.routers[r].gwPort == Some(g);
    assert UsesNetwork(s, s.routers[r], n);
    assert Covered(s, s.routers[r].project, n);
  }

  ghost predicate AllUnlimited(ops: seq<Operation>) {
    forall k :: 0 <= k < |ops| ==> Unlimited(ops[k])
  }

  ghost predicate NoBlindDeletion(ops: seq<Operation>) {
    ops != [] ==>
      var front := ops[..|ops| - 1]; NoBlindDeletion(front) && !Blind(Run(EMPTY, front), ops[|ops| - 1])
  }

  /** In runs of unlimited callers entries always make their network external and gateways
      are always covered; external networks always have an entry if and only if no
      deletion is blind. */
  lemma {:induction false} UnlimitedRuns(ops: seq<Operation>)
    requires AllUnlimited(ops)
    ensures NeverBroken(EntryMakesExternal, ops) && NeverBroken(GatewayIsCovered, ops)
    ensures NeverBroken(ExternalHasEntry, ops) <==> NoBlindDeletion(ops)
  {
    if ops != [] {
      var front := ops[..|ops| - 1];
      UnlimitedRuns(front);
      ClaimUnlessBroken(GatewayIsCovered, front);
      RunKeepsInv(front);
      UnlimitedBreaksNothing(Run(EMPTY, front), ops[|ops| - 1]);
    }
  }

  // ---------------------------------------------------------------- reachable states

  ghost predicate ExternalIffEntry(s: Store) {
    forall n :: n in s.networks.Keys + s.external.Keys ==> (n in s.external <==> HasExternalEntry(s, n))
  }

  lemma ExternalIffEntryMeans(s: Store)
    requires RowsPlaced(s)
    ensures ExternalIffEntry(s) <==> EntriesExternal(s) && NoOrphans(s)
  {
    if ExternalIffEntry(s) {
      forall i | i in s.policies && s.policies[i].action == ACCESS_EXTERNAL
        ensures s.policies[i].objectId in s.external
      {
        assert IsExternalEntry(s.policies[i], s.policies[i].objectId);
        assert s.policies[i].objectId in s.networks.Keys + s.external.Keys;
      }
      forall n | n in s.external ensures HasExternalEntry(s, n) {
        assert n in s.networks.Keys + s.external.Keys;
      }
    }
  }

  /** "External iff some external entry names it" holds all through a run if and only if
      no step leaves entries behind or takes the last one from an external network. */
  lemma ExternalIffEntryExactly(ops: seq<Operation>)
    ensures (forall k :: 0 <= k <= |ops| ==> ExternalIffEntry(StateAt(ops, k))) <==>
            NeverBroken(EntryMakesExternal, ops) && NeverBroken(ExternalHasEntry, ops)
  {
    ClaimUnlessBroken(EntryMakesExternal, ops);
    ClaimUnlessBroken(ExternalHasEntry, ops);
    forall k | 0 <= k <= |ops|
      ensures var s := StateAt(ops, k);
        ExternalIffEntry(s) <==> Claimed(EntryMakesExternal, s) && Claimed(ExternalHasEntry, s)
    {
      RunKeepsInv(ops[..k]);
      ExternalIffEntryMeans(StateAt(ops, k));
    }
  }

  /** In runs of unlimited callers this is so if and only if no deletion is blind. */
  lemma ExternalIffEntryUnlessBlind(ops: seq<Operation>)
    requires AllUnlimited(ops)
    ensures (forall k :: 0 <= k <= |ops| ==> ExternalIffEntry(StateAt(ops, k))) <==> NoBlindDeletion(ops)
  {
    UnlimitedRuns(ops);
    ExternalIffEntryExactly(ops);
  }

  /** Reachable states, whoever calls: unless some step before stranded a router, every
      gateway is on a network its project may use, external unless some step left entries
      behind, and no unlimited caller's deletion ends in ExternalNetworkInUse. */
  lemma ReachableStates(ops: seq<Operation>)
    ensures var s := Run(EMPTY, ops);
      && Inv(s)
      && (NeverBroken(GatewayIsCovered, ops) ==>
            && (forall r, n :: r in s.routers && UsesNetwork(s, s.routers[r], n) ==>
                  && Covered(s, s.routers[r].project, n)
                  && (NeverBroken(EntryMakesExternal, ops) ==> n in s.external))
            && (forall caller: Caller, id :: !caller.limited ==>
                  Next(s, DeletePolicy(caller, id)).outcome != Err(ExternalNetworkInUse)))
  {
    RunKeepsInv(ops);
    ClaimUnlessBroken(GatewayIsCovered, ops);
    ClaimUnlessBroken(EntryMakesExternal, ops);
    var s := Run(EMPTY, ops);
    if NeverBroken(GatewayIsCovered, ops) {
      forall caller: Caller, id | !caller.limited
        ensures Next(s, DeletePolicy(caller, id)).outcome != Err(ExternalNetworkInUse)
      {
        UnlimitedBreaksNothing(s, DeletePolicy(caller, id));
      }
      forall r, n | r in s.routers && UsesNetwork(s, s.routers[r], n)
        ensures Covered(s, s.routers[r].project, n) && (NeverBroken(EntryMakesExternal, ops) ==> n in s.external)
      {
        assert Covered(s, s.routers[r].project, n);
      }
    }
  }
}
