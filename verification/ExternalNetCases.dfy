/** What single operations do to a network, states and runs in which the claims about
    external networks fail, and interleavings with the validator. */
module ExternalNetCases {
  import opened Prelude
  import MQ = ModelQuery
  import opened ExternalNet
  import opened ExternalNetRuns

  // ---------------------------------------------------------------- effects

  /** The external entries of a network. */
  ghost function EntriesOf(s: Store, n: Id): set<Id> {
    set i | i in s.policies && IsExternalEntry(s.policies[i], n)
  }

  /** A creation adds the network row, and only when asked for an external network the
      external row and one entry: created, a network is external if and only if that was
      asked for. */
  lemma CreatedAsAsked(s: Store, op: Operation)
    requires Inv(s) && op.CreateNetwork? && op.n !in s.networks && op.policyId !in s.policies
    ensures var e, row := Next(s, op), Network(op.tenant);
      && e.outcome == DONE && e.store.networks == s.networks[op.n := row]
      && (op.n in e.store.external <==> op.value == Some(true))
      && (HasExternalEntry(e.store, op.n) <==> op.value == Some(true))
      && (op.value != Some(true) ==> e.store == s.(networks := s.networks[op.n := row]))
  {
    var s' := Next(s, op).store;
    CreateNetworkKeepsInv(s, op);
    if op.value == Some(true) {
      assert IsExternalEntry(s'.policies[op.policyId], op.n);
    }
  }

  /** An update that names no value, or the one the network has, changes nothing. */
  lemma UpdateToSameChangesNothing(s: Store, op: Operation)
    requires op.UpdateNetwork? && (op.value == None || op.value == Some(op.n in s.external))
    ensures Next(s, op).store == s
    ensures Sees(s, op.caller, op.n) && op.policyId !in s.policies ==> Next(s, op).outcome == DONE
  {
  }

  /** Data without the external key counts as having the other value: whatever is asked for
      is done. */
  lemma UpdateWithoutKey(s: Store, caller: Caller, n: Id, tenant: Id, value: bool, allowAll: bool, policyId: Id)
    requires value != (n in s.external)
    ensures var e := L3Update(s, caller, n, tenant, None, Some(value), allowAll, policyId);
      e.outcome == DONE ==> (n in e.store.external) == value
    ensures L3Update(s, caller, n, tenant, None, Some(true), false, policyId).outcome == Err(Duplicate) <==>
            n in s.external
  {
  }

  /** A policy of another action is no concern of the handlers: it is added, retargeted and
      deleted without a look at the network's external row, which stays. */
  lemma OtherPoliciesLeaveExternal(s: Store, op: Operation)
    requires RowsPlaced(s)
    requires match op
             case CreatePolicy(_, _, p) => p.action != ACCESS_EXTERNAL
             case UpdatePolicy(_, id, _) => id in s.policies && s.policies[id].action != ACCESS_EXTERNAL
             case DeletePolicy(_, id) => id in s.policies && s.policies[id].action != ACCESS_EXTERNAL
             case _ => false
    ensures var e := Next(s, op);
      && e.store.external == s.external && e.store.networks == s.networks
      && (forall n :: EntriesOf(e.store, n) == EntriesOf(s, n))
      && (op.UpdatePolicy? && MayTouch(s, op.caller, op.id) && !GrantTaken(s, op.id, op.target) ==> e.outcome == DONE)
      && (op.DeletePolicy? && MayTouch(s, op.caller, op.id) ==>
            e.outcome == DONE && op.id !in e.store.policies)
  {
  }

  /** Made external by its own request, at creation or update, a network is open to every
      project through one more entry, the wildcard of its tenant. */
  lemma MadeExternalForEveryone(s: Store, op: Operation)
    requires Inv(s) && Next(s, op).outcome == DONE
    requires (op.CreateNetwork? || (op.UpdateNetwork? && op.n !in s.external)) && op.value == Some(true)
    ensures var s' := Next(s, op).store;
      && op.n in s'.networks && op.n in s'.external && !s'.external[op.n]
      && op.policyId !in s.policies && EntriesOf(s', op.n) == EntriesOf(s, op.n) + {op.policyId}
      && (EntriesExternal(s) ==> EntriesOf(s, op.n) == {})
      && s'.policies[op.policyId] == Policy(s'.networks[op.n].tenant, op.n, ACCESS_EXTERNAL, MQ.WILDCARD)
      && forall project :: Covered(s', project, op.n)
  {
    var s' := Next(s, op).store;
    var p := Policy(s'.networks[op.n].tenant, op.n, ACCESS_EXTERNAL, MQ.WILDCARD);
    assert s'.policies == s.policies[op.policyId := p];
    assert IsExternalEntry(s'.policies[op.policyId], op.n);
  }

  /** Made external by a policy, a network has one more entry; without others it is open
      to that policy's target alone. */
  lemma MadeExternalByPolicy(s: Store, op: Operation)
    requires Inv(s) && op.CreatePolicy? && Next(s, op).outcome == DONE
    requires op.policy.action == ACCESS_EXTERNAL && op.policy.objectId !in s.external
    ensures var s' := Next(s, op).store; var n := op.policy.objectId;
      && n in s'.external && EntriesOf(s', n) == EntriesOf(s, n) + {op.id} && s'.policies[op.id] == op.policy
      && (EntriesExternal(s) ==>
            && EntriesOf(s, n) == {}
            && forall project :: Covered(s', project, n) <==> Serves(op.policy, project))
  {
    var s', n := Next(s, op).store, op.policy.objectId;
    assert s'.policies == s.policies[op.id := op.policy];
    assert IsExternalEntry(s'.policies[op.id], n);
  }

  /** Un-externalised, a network loses its external row, the external entries that the
      caller finds, and nothing else; it is refused exactly while a gateway is on it. */
  lemma MadeInternal(s: Store, op: Operation)
    requires op.UpdateNetwork? && op.value == Some(false) && op.policyId !in s.policies
    requires op.n in s.external && Sees(s, op.caller, op.n)
    ensures var e := Next(s, op);
      && (e.outcome == Err(ExternalNetworkInUse) <==> HasGateway(s, op.n))
      && (e.outcome != DONE ==> HasGateway(s, op.n) && e.store == s)
      && (e.outcome == DONE ==>
            && e.store.external == s.external - {op.n}
            && (forall i :: i in s.policies && i !in e.store.policies ==>
                  IsExternalEntry(s.policies[i], op.n) && Reaches(op.caller, s.policies[i].project))
            && (forall i :: i in e.store.policies ==> i in s.policies && e.store.policies[i] == s.policies[i])
            && (EntriesOf(e.store, op.n) == {} <==> !HasHiddenEntry(s, op.caller, op.n)))
  {
    if !HasGateway(s, op.n) {
      var s' := DropExternal(s, op.caller, op.n);
      HiddenEntriesStay(s, op.caller, op.n);
      if i :| i in s'.policies && IsExternalEntry(s'.policies[i], op.n) {
        assert i in EntriesOf(s', op.n);
      }
    }
  }

  /** An external policy on a network that the caller cannot see is not found; on one it
      sees, it is invalid unless the caller is an admin or the owner. Neither changes anything. */
  lemma OnlyOwnersAndAdmins(s: Store, op: Operation)
    requires op.CreatePolicy? && op.id !in s.policies && op.policy.action == ACCESS_EXTERNAL
    ensures var e, n := Next(s, op), op.policy.objectId;
      && (e.outcome == Err(NotFound) <==> !Sees(s, op.caller, n))
      && (e.outcome == Err(InvalidInput) <==>
            Sees(s, op.caller, n) && !op.caller.admin && s.networks[n].tenant != op.caller.project)
      && (e.outcome == Err(NotFound) || e.outcome == Err(InvalidInput) ==> e.store == s)
      && (e.outcome == DONE ==> op.caller.admin || s.networks[n].tenant == op.caller.project)
  {
  }

  // ---------------------------------------------------------------- refusals in error

  /** One external network with one entry, and a router of `project` with a gateway on it. */
  function OneGateway(n: Id, id: Id, router: Id, port: Id, owner: Id, target: Id, project: Id): Store {
    Store(map[n := Network(owner)], map[n := false], map[id := Policy(owner, n, ACCESS_EXTERNAL, target)],
          map[port := Port(n, true)], map[router := Router(project, Some(port))])
  }

  ghost predicate Sound(s: Store) {
    Inv(s) && EntriesExternal(s) && NoOrphans(s) && GatewaysCovered(s)
  }

  lemma OneGatewayGood(n: Id, id: Id, router: Id, port: Id, owner: Id, target: Id, project: Id)
    requires target == project || target == MQ.WILDCARD
    ensures Sound(OneGateway(n, id, router, port, owner, target, project))
  {
    var s := OneGateway(n, id, router, port, owner, target, project);
    assert IsExternalEntry(s.policies[id], n) && Serves(s.policies[id], project);
    assert s.routers[router].gwPort == Some(port);
  }

  /** A state for each of two refusals that strand nobody: widening an entry to everyone, and
      retargeting the wildcard to an empty name. */
  lemma HarmlessChangesRefused(n: Id, id: Id, router: Id, port: Id, owner: Id, target: Id, update: Id, caller: Caller)
    requires (target != MQ.WILDCARD && update == MQ.WILDCARD && Reaches(caller, target))
             || (target == MQ.WILDCARD && update == "")
    ensures var project := if target == MQ.WILDCARD then update else target;
            var s := OneGateway(n, id, router, port, owner, target, project);
      && Sound(s) && Sound(Retarget(s, id, update))
      && Validate(s, caller, s.policies[id], Some(update)) == Err(PolicyInUse)
  {
    var project := if target == MQ.WILDCARD then update else target;
    OneGatewayGood(n, id, router, port, owner, target, project);
    OneGatewayGood(n, id, router, port, owner, update, project);
    var s := OneGateway(n, id, router, port, owner, target, project);
    assert Retarget(s, id, update) == OneGateway(n, id, router, port, owner, update, project);
    assert UsesNetwork(s, s.routers[router], n);
  }

  /** A router's gateway, its project's own entry, and another project's wildcard entry. */
  function WithWildcard(n: Id, id: Id, wild: Id, router: Id, port: Id, other: Id, project: Id): Store {
    var s := OneGateway(n, id, router, port, project, project, project);
    s.(policies := s.policies[wild := Policy(other, n, ACCESS_EXTERNAL, MQ.WILDCARD)])
  }

  lemma WithWildcardSound(n: Id, id: Id, wild: Id, router: Id, port: Id, other: Id, project: Id)
    requires project != MQ.WILDCARD && id != wild
    ensures Sound(WithWildcard(n, id, wild, router, port, other, project))
  {
    OneGatewayGood(n, id, router, port, project, project, project);
    AddEntryKeeps(OneGateway(n, id, router, port, project, project, project),
                  WithWildcard(n, id, wild, router, port, other, project),
                  wild, Policy(other, n, ACCESS_EXTERNAL, MQ.WILDCARD));
  }

  lemma WildcardAloneSound(n: Id, id: Id, wild: Id, router: Id, port: Id, other: Id, project: Id)
    requires id != wild
    ensures Sound(WithoutPolicy(WithWildcard(n, id, wild, router, port, other, project), id))
  {
    var s := WithoutPolicy(WithWildcard(n, id, wild, router, port, other, project), id);
    assert s.policies == map[wild := Policy(other, n, ACCESS_EXTERNAL, MQ.WILDCARD)];
    assert IsExternalEntry(s.policies[wild], n) && Serves(s.policies[wild], project);
    assert s.routers[router].gwPort == Some(port);
  }

  /** And one for the third: deleting the project's own entry beside a wildcard entry that
      the project does not count. */
  lemma HiddenWildcardIgnored(n: Id, id: Id, wild: Id, router: Id, port: Id, other: Id, project: Id)
    requires project != other && project != MQ.WILDCARD && id != wild
    ensures var s := WithWildcard(n, id, wild, router, port, other, project);
      && Sound(s) && Sound(WithoutPolicy(s, id))
      && Validate(s, Member(project), s.policies[id], None) == Err(PolicyInUse)
      && Validate(s, Admin(project), s.policies[id], None) == DONE
  {
    var s := WithWildcard(n, id, wild, router, port, other, project);
    WithWildcardSound(n, id, wild, router, port, other, project);
    WildcardAloneSound(n, id, wild, router, port, other, project);
    assert IsExternalEntry(s.policies[wild], n);
    assert UsesNetwork(s, s.routers[router], n);
  }

  // ---------------------------------------------------------------- runs that break a claim

  lemma RunStep(ops: seq<Operation>, op: Operation)
    ensures Run(EMPTY, ops + [op]) == Next(Run(EMPTY, ops), op).store
  {
    assert (ops + [op])[..|ops|] == ops;
  }

  /** A network whose owner, or an admin for another project, gives it a first entry. */
  function FirstEntryRun(n: Id, owner: Id, networkPolicy: Id, caller: Caller, id: Id, p: Policy): seq<Operation> {
    [CreateNetwork(n, owner, None, networkPolicy)] + [CreatePolicy(caller, id, p)]
  }

  lemma FirstEntry(n: Id, owner: Id, networkPolicy: Id, caller: Caller, id: Id, p: Policy)
    requires IsExternalEntry(p, n) && (caller == Admin(owner) || caller == Member(owner))
    ensures Run(EMPTY, FirstEntryRun(n, owner, networkPolicy, caller, id, p)) ==
            Store(map[n := Network(owner)], map[n := false], map[id := p], map[], map[])
  {
    var create := CreateNetwork(n, owner, None, networkPolicy);
    RunStep([], create);
    assert [] + [create] == [create];
    RunStep([create], CreatePolicy(caller, id, p));
  }

  /** An admin makes a network external for one project and leaves the entry to it; that
      project deletes the entry. This ends in NotFound: the network stays external and
      nobody's entry names it. */
  lemma BlindDeletionOrphans(n: Id, owner: Id, networkPolicy: Id, id: Id, project: Id, target: Id)
    requires project != owner
    ensures var p := Policy(project, n, ACCESS_EXTERNAL, target);
            var s := Run(EMPTY, FirstEntryRun(n, owner, networkPolicy, Admin(owner), id, p));
            var op := DeletePolicy(Member(project), id);
      && Blind(s, op) && Next(s, op).outcome == Err(NotFound)
      && n in Next(s, op).store.external && Next(s, op).store.policies == map[]
  {
    var p := Policy(project, n, ACCESS_EXTERNAL, target);
    FirstEntry(n, owner, networkPolicy, Admin(owner), id, p);
    var s := Store(map[n := Network(owner)], map[n := false], map[id := p], map[], map[]);
    assert WithoutPolicy(s, id).policies == map[];
  }

  /** A network with an entry of its owner and one that another project made. */
  function TwoEntries(n: Id, owner: Id, id: Id, target: Id, other: Id, otherId: Id, otherTarget: Id): Store {
    Store(map[n := Network(owner)], map[n := false],
          map[id := Policy(owner, n, ACCESS_EXTERNAL, target),
              otherId := Policy(other, n, ACCESS_EXTERNAL, otherTarget)], map[], map[])
  }

  function TwoEntriesRun(n: Id, owner: Id, networkPolicy: Id, id: Id, target: Id, other: Id, otherId: Id,
                         otherTarget: Id): seq<Operation>
  {
    FirstEntryRun(n, owner, networkPolicy, Member(owner), id, Policy(owner, n, ACCESS_EXTERNAL, target))
    + [CreatePolicy(Admin(owner), otherId, Policy(other, n, ACCESS_EXTERNAL, otherTarget))]
  }

  lemma TwoEntriesReached(n: Id, owner: Id, networkPolicy: Id, id: Id, target: Id, other: Id, otherId: Id,
                          otherTarget: Id)
    requires id != otherId && target != otherTarget
    ensures Run(EMPTY, TwoEntriesRun(n, owner, networkPolicy, id, target, other, otherId, otherTarget)) ==
            TwoEntries(n, owner, id, target, other, otherId, otherTarget)
  {
    var p, q := Policy(owner, n, ACCESS_EXTERNAL, target), Policy(other, n, ACCESS_EXTERNAL, otherTarget);
    FirstEntry(n, owner, networkPolicy, Member(owner), id, p);
    RunStep(FirstEntryRun(n, owner, networkPolicy, Member(owner), id, p), CreatePolicy(Admin(owner), otherId, q));
  }

  lemma OtherEntryStays(n: Id, owner: Id, id: Id, target: Id, other: Id, otherId: Id, otherTarget: Id)
    requires id != otherId && other != owner
    ensures var gone := WithoutPolicy(TwoEntries(n, owner, id, target, other, otherId, otherTarget), id);
      && gone.policies == map[otherId := Policy(other, n, ACCESS_EXTERNAL, otherTarget)]
      && HasExternalEntry(gone, n) && !CountsEntry(gone, Member(owner), n)
  {
    var gone := WithoutPolicy(TwoEntries(n, owner, id, target, other, otherId, otherTarget), id);
    assert IsExternalEntry(gone.policies[otherId], n);
  }

  /** The owner deletes its own entry and counts no other: the network becomes internal
      while the other project's external entry stays. */
  lemma OthersEntryLeftBehind(n: Id, owner: Id, networkPolicy: Id, id: Id, target: Id, other: Id, otherId: Id,
                              otherTarget: Id)
    requires id != otherId && other != owner && target != otherTarget
    ensures var s := Run(EMPTY, TwoEntriesRun(n, owner, networkPolicy, id, target, other, otherId, otherTarget));
            var op := DeletePolicy(Member(owner), id); var e := Next(s, op);
      && LeavesEntries(s, op) && e.outcome == DONE
      && n !in e.store.external && HasExternalEntry(e.store, n)
  {
    TwoEntriesReached(n, owner, networkPolicy, id, target, other, otherId, otherTarget);
    OtherEntryStays(n, owner, id, target, other, otherId, otherTarget);
    var s := TwoEntries(n, owner, id, target, other, otherId, otherTarget);
    assert Validate(s, Member(owner), s.policies[id], None) == DONE;
    DeletePolicyOutcome(s, Member(owner), id);
    var gone := WithoutPolicy(s, id);
    assert IsExternalEntry(gone.policies[otherId], n);
  }

  /** The same with a gateway of the other entry's project on the network: the deletion
      ends in ExternalNetworkInUse, though an entry that serves the gateway is left. */
  lemma OthersGatewayRaises(n: Id, owner: Id, networkPolicy: Id, id: Id, target: Id, other: Id, otherId: Id,
                            project: Id, router: Id, port: Id)
    requires id != otherId && other != owner && target != project && project != MQ.WILDCARD
    ensures var ops := TwoEntriesRun(n, owner, networkPolicy, id, target, other, otherId, project)
                       + [AddRouter(router, project)] + [AttachGateway(router, port, n)];
            var e := Next(Run(EMPTY, ops), DeletePolicy(Member(owner), id));
      e.outcome == Err(ExternalNetworkInUse) && GatewaysCovered(e.store) && id !in e.store.policies
  {
    var ops := TwoEntriesRun(n, owner, networkPolicy, id, target, other, otherId, project);
    var two := TwoEntries(n, owner, id, target, other, otherId, project);
    TwoEntriesReached(n, owner, networkPolicy, id, target, other, otherId, project);
    OtherEntryStays(n, owner, id, target, other, otherId, project);
    RunStep(ops, AddRouter(router, project));
    RunStep(ops + [AddRouter(router, project)], AttachGateway(router, port, n));
    assert IsExternalEntry(two.policies[otherId], n) && Serves(two.policies[otherId], project);
    var s := two.(ports := map[port := Port(n, true)], routers := map[router := Router(project, Some(port))]);
    GatewayAttached(two, router, project, port, n, s);
    OtherGateway(s, id, otherId, n, owner, project, router, port);
  }

  lemma GatewayAttached(s: Store, router: Id, project: Id, port: Id, n: Id, s': Store)
    requires s.ports == map[] && s.routers == map[] && n in s.networks && Covered(s, project, n)
    requires s' == s.(ports := map[port := Port(n, true)], routers := map[router := Router(project, Some(port))])
    ensures Next(Next(s, AddRouter(router, project)).store, AttachGateway(router, port, n)).store == s'
  {
    var added := Next(s, AddRouter(router, project)).store;
    assert added == s.(routers := map[router := Router(project, None)]);
    assert Covered(added, project, n) by {
      assert Survive(s, added, n);
      SurvivorsServe(s, added, n);
    }
  }

  lemma OtherGateway(s: Store, id: Id, otherId: Id, n: Id, owner: Id, project: Id, router: Id, port: Id)
    requires id in s.policies && otherId in s.policies && id != otherId && s.policies.Keys == {id, otherId}
    requires IsExternalEntry(s.policies[id], n) && IsExternalEntry(s.policies[otherId], n)
    requires s.policies[id].project == owner != s.policies[otherId].project
    requires s.policies[id].target != project && s.policies[otherId].target == project != MQ.WILDCARD
    requires n in s.networks && s.networks[n] == Network(owner) && s.external == map[n := false]
    requires s.ports == map[port := Port(n, true)] && s.routers == map[router := Router(project, Some(port))]
    ensures var e := Next(s, DeletePolicy(Member(owner), id));
      e.outcome == Err(ExternalNetworkInUse) && GatewaysCovered(e.store) && id !in e.store.policies
  {
    var gone := WithoutPolicy(s, id);
    assert gone.policies.Keys == {otherId} && gone.policies[otherId] == s.policies[otherId];
    assert Validate(s, Member(owner), s.policies[id], None) == DONE;
    assert s.ports[port].gateway && HasGateway(gone, n);
    assert Serves(gone.policies[otherId], project);
  }

  /** The owner deletes the entry of another project, whose routers it does not find: the
      gateway is left uncovered and the deletion ends in ExternalNetworkInUse. */
  lemma UnseenRouterStranded(n: Id, owner: Id, networkPolicy: Id, id: Id, project: Id, router: Id, port: Id)
    requires project != owner && project != MQ.WILDCARD
    ensures var p := Policy(owner, n, ACCESS_EXTERNAL, project);
            var ops := FirstEntryRun(n, owner, networkPolicy, Member(owner), id, p)
                       + [AddRouter(router, project)] + [AttachGateway(router, port, n)];
            var s, op := Run(EMPTY, ops), DeletePolicy(Member(owner), id);
      && Strands(s, op) && Orphans(s, op) && Next(s, op).outcome == Err(ExternalNetworkInUse)
      && Validate(s, Admin(owner), s.policies[id], None) == Err(PolicyInUse)
  {
    var p := Policy(owner, n, ACCESS_EXTERNAL, project);
    var ops := FirstEntryRun(n, owner, networkPolicy, Member(owner), id, p);
    var first := Store(map[n := Network(owner)], map[n := false], map[id := p], map[], map[]);
    FirstEntry(n, owner, networkPolicy, Member(owner), id, p);
    RunStep(ops, AddRouter(router, project));
    RunStep(ops + [AddRouter(router, project)], AttachGateway(router, port, n));
    assert IsExternalEntry(first.policies[id], n) && Serves(first.policies[id], project);
    var s := OneGateway(n, id, router, port, owner, project, project);
    GatewayAttached(first, router, project, port, n, s);
    assert UsesNetwork(s, s.routers[router], n);
    assert WithoutPolicy(s, id).policies == map[];
    assert s.ports[port].gateway && HasGateway(s, n);
    assert Validate(s, Member(owner), s.policies[id], None) == DONE;
    DeletePolicyOutcome(s, Member(owner), id);
  }

  // ---------------------------------------------------------------- interleavings

  /** A deletion that goes ahead on an earlier validation, in any state reached by whatever
      ran in between: whether it strands a router, and how AFTER_DELETE ends. For an
      unlimited caller both follow from what the validator would say now. */
  lemma DeletionOnStaleValidation(s: Store, caller: Caller, id: Id)
    requires Inv(s) && GatewaysCovered(s) && MayTouch(s, caller, id) && s.policies[id].action == ACCESS_EXTERNAL
    ensures var p, gone := s.policies[id], WithoutPolicy(s, id); var e := AfterPolicyDelete(gone, caller, p);
      && (GatewaysCovered(gone) <==> !Stranding(s, p, None))
      && (e.outcome == Err(NotFound) <==> !CountsEntry(gone, caller, p.objectId) && !Sees(gone, caller, p.objectId))
      && (e.outcome == Err(ExternalNetworkInUse) <==>
            && !CountsEntry(gone, caller, p.objectId) && Sees(gone, caller, p.objectId)
            && p.objectId in s.external && HasGateway(s, p.objectId))
      && (!caller.limited && Validate(s, caller, p, None) != Err(DefaultMustBeShared) ==>
            (GatewaysCovered(gone) <==> Validate(s, caller, p, None) == DONE))
      && (!caller.limited && e.outcome == Err(ExternalNetworkInUse) ==> Validate(s, caller, p, None) != DONE)
  {
    CoverageExactly(s, id, None, WithoutPolicy(s, id));
    ValidateRefusesExactlyStranding(s, caller, id, None, WithoutPolicy(s, id));
    if Validate(s, caller, s.policies[id], None) == DONE && !caller.limited {
      UnlimitedBreaksNothing(s, DeletePolicy(caller, id));
      DeletePolicyOutcome(s, caller, id);
    }
  }

  /** One network open to one project, which has a router and no gateway yet. */
  function OpenToOne(n: Id, id: Id, router: Id, owner: Id, project: Id): Store {
    Store(map[n := Network(owner)], map[n := false], map[id := Policy(owner, n, ACCESS_EXTERNAL, project)],
          map[], map[router := Router(project, None)])
  }

  lemma OpenToOneGood(n: Id, id: Id, router: Id, owner: Id, project: Id, caller: Caller)
    requires project != MQ.WILDCARD
    ensures var s := OpenToOne(n, id, router, owner, project);
      Sound(s) && Validate(s, caller, s.policies[id], None) == DONE && Covered(s, project, n)
  {
    var s := OpenToOne(n, id, router, owner, project);
    assert IsExternalEntry(s.policies[id], n);
  }

  /** Such a race exists: a validated deletion, then a gateway attached as its entry
      allows, then the deletion itself. */
  lemma AttachOvertakesDeletion(n: Id, id: Id, router: Id, port: Id, owner: Id, project: Id, caller: Caller)
    requires project != MQ.WILDCARD && (!caller.scoped || caller.project == owner)
    ensures var s := OpenToOne(n, id, router, owner, project);
            var e := Next(s, AttachGateway(router, port, n));
      && Sound(s) && Validate(s, caller, s.policies[id], None) == DONE
      && e.outcome == DONE && Sound(e.store)
      && AfterPolicyDelete(WithoutPolicy(e.store, id), caller, s.policies[id]).outcome == Err(ExternalNetworkInUse)
  {
    var s := OpenToOne(n, id, router, owner, project);
    OpenToOneGood(n, id, router, owner, project, caller);
    var op := AttachGateway(router, port, n);
    AttachGatewayKeepsInv(s, op);
    var gone := WithoutPolicy(Next(s, op).store, id);
    assert gone.policies == map[];
    assert gone.ports[port] == Port(n, true);
  }

  /** The coverage the attach step guards is needed: a gateway of an uncovered
      project lets a validated deletion end in ExternalNetworkInUse, the network
      external with no entry left. */
  lemma UncoveredGatewayBreaksDeletion(n: Id, id: Id, port: Id, router: Id, a: Id, b: Id, caller: Caller)
    returns (s: Store)
    requires a != b && a != MQ.WILDCARD && (!caller.scoped || caller.project == a)
    ensures Inv(s) && EntriesExternal(s) && NoOrphans(s) && !GatewaysCovered(s)
    ensures var e := Next(s, DeletePolicy(caller, id));
      e.outcome == Err(ExternalNetworkInUse) && n in e.store.external && !HasExternalEntry(e.store, n)
  {
    var entry := Policy(a, n, ACCESS_EXTERNAL, a);
    s := OneGateway(n, id, router, port, a, a, b);
    assert s.policies == map[id := entry];
    assert IsExternalEntry(s.policies[id], n);
    assert UsesNetwork(s, s.routers[router], n) && !Covered(s, b, n);
    var gone := WithoutPolicy(s, id);
    assert gone.policies == map[];
    assert gone.ports[port].gateway && HasGateway(gone, n);
    assert Validate(s, caller, entry, None) == DONE;
  }
}
