/** Who sees a network: the query builder with the external-network hook, over the
    tables that the external-network handlers keep. */
module NetworkVisibility {
  import opened Prelude
  import Sql
  import MQ = ModelQuery
  import opened QueryMeaning
  import opened ExternalNet
  import opened ExternalNetRuns

  const EXTERNAL_KEY := "router:external"

  // ---------------------------------------------------------------- the registered hook

  /** `(action == external & target == tenant) | target == '*'`: the wildcard
      disjunct does not look at the action. */
  function TenantAllowed(ctx: MQ.Context): Sql.Cond {
    Sql.Disj(Sql.Conj(Sql.Equals(Sql.EntryAction, Sql.Text(ACCESS_EXTERNAL)), Sql.Equals(Sql.EntryTarget, ctx.tenant)),
             Sql.Equals(Sql.EntryTarget, Sql.Text(MQ.WILDCARD)))
  }

  /** A scoped call without conditions cannot unpack None; an unscoped call with
      conditions would return a tuple, which is no clause. */
  function NetworkFilterHook(ctx: MQ.Context, model: MQ.Model, conditions: Option<Sql.Cond>)
    : Result<Option<Sql.Cond>, MQ.Error>
  {
    if ctx.scoped then
      if conditions.None? then Err(MQ.HookError) else Ok(Some(Sql.Disj(TenantAllowed(ctx), conditions.value)))
    else if conditions.Some? then Err(MQ.HookError)
    else Ok(None)
  }

  function NetworkResultFilterHook(filters: MQ.Filters): Option<Sql.Cond> {
    var vals := MQ.Lookup(filters, EXTERNAL_KEY);
    if vals.None? || vals.value == [] then None
    else if MQ.Truthy(vals.value[0]) then Some(Sql.HasExternal)
    else Some(Sql.Negate(Sql.HasExternal))
  }

  function ExternalHook(): MQ.Hook {
    MQ.Hook(None, Some(NetworkFilterHook), Some(NetworkResultFilterHook))
  }

  function Hooks(): seq<MQ.Hook> {
    [ExternalHook()]
  }

  /** What building the mixin registers, once or again, is what the queries run. */
  lemma MixinRegistersHook()
    ensures var once := MQ.Upsert([], "external_net", ExternalHook());
      MQ.HooksOf(once) == Hooks() && MQ.Upsert(once, "external_net", ExternalHook()) == once
  {
    RegisteredHooksInOrder([], "external_net", ExternalHook());
    UpsertTwice([], "external_net", ExternalHook(), ExternalHook());
  }

  function ContextOf(caller: Caller): MQ.Context {
    MQ.Context(caller.scoped, Sql.Text(caller.project))
  }

  function CallerOf(project: Id): MQ.Context {
    ContextOf(Member(project))
  }

  /** The hook widens the filter by a condition no NULL-extended row satisfies. */
  lemma ExternalHookWidens(ctx: MQ.Context)
    requires ctx.scoped
    ensures AllWiden(Hooks(), ctx, NETWORK, [TenantAllowed(ctx)])
    ensures NullRejecting(TenantAllowed(ctx))
  {
    forall c ensures WidensAt(Some(NetworkFilterHook), ctx, NETWORK, TenantAllowed(ctx), c) {
      forall row, db ensures Sql.Holds(Sql.Disj(TenantAllowed(ctx), c), row, db) <==>
                             Sql.Holds(TenantAllowed(ctx), row, db) || Sql.Holds(c, row, db) {
        Sql.HoldsDisj(TenantAllowed(ctx), c, row, db);
      }
    }
    forall o, db ensures !Sql.Holds(TenantAllowed(ctx), Sql.Row(o, None), db) {
      TenantAllowedMeans(ctx, Sql.Row(o, None), db);
    }
  }

  lemma TenantAllowedMeans(ctx: MQ.Context, row: Sql.Row, db: Sql.Db)
    ensures Sql.Holds(TenantAllowed(ctx), row, db) <==>
            || (Sql.ValueOf(row, Sql.EntryAction) == Sql.Text(ACCESS_EXTERNAL)
                && Sql.ValueOf(row, Sql.EntryTarget) == ctx.tenant)
            || Sql.ValueOf(row, Sql.EntryTarget) == Sql.Text(MQ.WILDCARD)
  {
    var action := Sql.Equals(Sql.EntryAction, Sql.Text(ACCESS_EXTERNAL));
    var target := Sql.Equals(Sql.EntryTarget, ctx.tenant);
    Sql.HoldsDisj(Sql.Conj(action, target), Sql.Equals(Sql.EntryTarget, Sql.Text(MQ.WILDCARD)), row, db);
    Sql.HoldsConj(action, target, row, db);
  }

  /** With the hook registered the rewritten query equals the outer-join form for every
      scoped caller and all filters without `shared`. */
  lemma NetworkRewriteKeepsMeaning(ctx: MQ.Context, filters: MQ.Filters, db: Sql.Db)
    requires ctx.scoped && NoSharedKey(filters)
    ensures MQ.BuildQuery(ctx, NETWORK, Hooks(), filters).Ok? && OuterJoinQuery(ctx, NETWORK, Hooks()).Ok?
    ensures Sql.Objects(MQ.BuildQuery(ctx, NETWORK, Hooks(), filters).value, db) ==
            Sql.Objects(OuterJoinQuery(ctx, NETWORK, Hooks()).value, db)
  {
    ExternalHookWidens(ctx);
    RewriteKeepsMeaning(ctx, NETWORK, Hooks(), [TenantAllowed(ctx)], filters, db);
  }

  // ---------------------------------------------------------------- the tables as rows

  function NetworkRow(s: Store, n: Id): Sql.Obj
    requires n in s.networks
  {
    Sql.Obj(n, Sql.Text(s.networks[n].tenant), Sql.Null)
  }

  function PolicyRow(s: Store, i: Id): Sql.Entry
    requires i in s.policies
  {
    Sql.Entry(i, s.policies[i].objectId, Sql.Text(s.policies[i].action), Sql.Text(s.policies[i].target))
  }

  ghost function TablesOf(s: Store): (db: Sql.Db)
    ensures forall o :: o in db.objs <==> o.id in s.networks && o == NetworkRow(s, o.id)
    ensures forall e :: e in db.entries <==> e.id in s.policies && e == PolicyRow(s, e.id)
    ensures db.externals == s.external.Keys
    ensures Sql.Keyed(db)
  {
    Sql.Db(Listed(set n | n in s.networks :: NetworkRow(s, n)), Listed(set i | i in s.policies :: PolicyRow(s, i)),
           s.external.Keys)
  }

  /** The networks a caller's query without filters returns. */
  ghost function VisibleIn(s: Store, caller: Caller): set<Id> {
    var built := MQ.BuildQuery(ContextOf(caller), NETWORK, Hooks(), []);
    if built.Err? then {} else set o | o in Sql.Objects(built.value, TablesOf(s)) :: o.id
  }

  ghost function VisibleTo(s: Store, project: Id): set<Id> {
    VisibleIn(s, Member(project))
  }

  // ---------------------------------------------------------------- visibility

  lemma EntryOpens(s: Store, project: Id, o: Sql.Obj, i: Id, db: Sql.Db)
    requires i in s.policies
    ensures var ctx := CallerOf(project);
      GrantsBy(PolicyRow(s, i), o, ctx, [TenantAllowed(ctx)], db) <==> Opens(s.policies[i], project)
  {
    var ctx := CallerOf(project);
    var row := Sql.Row(o, Some(PolicyRow(s, i)));
    TenantAllowedMeans(ctx, row, db);
    var listed := Sql.OneOf(Sql.EntryAction, [Sql.Text(MQ.ACCESS_SHARED), Sql.Text(MQ.ACCESS_READONLY)]);
    Sql.HoldsConj(listed, MQ.ForCaller(ctx), row, db);
    Sql.HoldsDisj(Sql.Equals(Sql.EntryTarget, ctx.tenant), Sql.Equals(Sql.EntryTarget, Sql.Text(MQ.WILDCARD)), row, db);
    assert SomeHolds([TenantAllowed(ctx)], row, db) <==> Sql.Holds(TenantAllowed(ctx), row, db) by {
      if Sql.Holds(TenantAllowed(ctx), row, db) { assert Sql.Holds([TenantAllowed(ctx)][0], row, db); }
    }
  }

  /** A project sees its own networks and those some entry opens to it. */
  lemma VisibleIff(s: Store, project: Id, n: Id)
    ensures n in VisibleTo(s, project) <==>
            n in s.networks && (s.networks[n].tenant == project || OpenTo(s, project, n))
  {
    var ctx, db := CallerOf(project), TablesOf(s);
    var added := [TenantAllowed(ctx)];
    ExternalHookWidens(ctx);
    ScopedQueryShows(ctx, NETWORK, Hooks(), added, [], db, Sql.Obj("", Sql.Null, Sql.Null));
    var q := MQ.BuildQuery(ctx, NETWORK, Hooks(), []).value;
    forall o | o in Sql.Objects(q, db) ensures o.id in s.networks && o == NetworkRow(s, o.id) {
      ScopedQueryShows(ctx, NETWORK, Hooks(), added, [], db, o);
    }
    if n in s.networks {
      var o := NetworkRow(s, n);
      ScopedQueryShows(ctx, NETWORK, Hooks(), added, [], db, o);
      forall i | i in s.policies
        ensures GrantsBy(PolicyRow(s, i), o, ctx, added, db) <==> Opens(s.policies[i], project)
        ensures PolicyRow(s, i) in db.entries
      {
        EntryOpens(s, project, o, i, db);
      }
      assert n in VisibleTo(s, project) <==> o in Sql.Objects(q, db);
      assert Granted(o, ctx, added, db) <==> OpenTo(s, project, n) by {
        if Granted(o, ctx, added, db) {
          var e :| e in db.entries && e.objectId == o.id && GrantsBy(e, o, ctx, added, db);
          assert e == PolicyRow(s, e.id) && s.policies[e.id].objectId == n && Opens(s.policies[e.id], project);
        }
        if i :| i in s.policies && s.policies[i].objectId == n && Opens(s.policies[i], project) {
          assert PolicyRow(s, i) in db.entries && PolicyRow(s, i).objectId == o.id;
        }
      }
    }
  }

  /** The look-up by id in the policy handlers goes through this query: what the caller
      sees is what its query returns, and for an unscoped caller that is every network. */
  lemma SeesIsVisible(s: Store, caller: Caller, n: Id)
    ensures Sees(s, caller, n) <==> n in VisibleIn(s, caller)
    ensures !caller.scoped ==> VisibleIn(s, caller) == s.networks.Keys
  {
    if !caller.scoped {
      var db := TablesOf(s);
      assert AllQuiet(Hooks(), ContextOf(caller), NETWORK);
      QuietHooks(Hooks(), ContextOf(caller), NETWORK, None);
      assert MQ.BuildQuery(ContextOf(caller), NETWORK, Hooks(), []) == Ok(Sql.Table);
      forall k ensures k in VisibleIn(s, caller) <==> k in s.networks {
        if k in s.networks {
          Sql.InTable(db.objs, Sql.Row(NetworkRow(s, k), None));
        }
      }
    } else {
      VisibleIff(s, caller.project, n);
    }
  }

  /** A table whose rows belong to projects and that has neither entries nor a `shared`
      column, as rows of the query model. */
  ghost function OwnedTable(owners: map<Id, Id>): Sql.Db {
    Sql.Db(Listed(set i | i in owners :: Sql.Obj(i, Sql.Text(owners[i]), Sql.Null)), [], {})
  }

  /** The builder, for such a model and a limited caller, returns the caller's rows only;
      for others all. This is what the policy handlers' counts and look-ups reach. */
  lemma LookUpsReach(owners: map<Id, Id>, caller: Caller, name: string, filters: MQ.Filters, i: Id)
    ensures var built := MQ.BuildQuery(MQ.Context(caller.limited, Sql.Text(caller.project)),
                                       MQ.Model(name, MQ.OwnedOnly), [], filters);
      && built.Ok?
      && ((exists o :: o in Sql.Objects(built.value, OwnedTable(owners)) && o.id == i) <==>
          i in owners && Reaches(caller, owners[i]))
  {
    var ctx, db := MQ.Context(caller.limited, Sql.Text(caller.project)), OwnedTable(owners);
    var built := MQ.BuildQuery(ctx, MQ.Model(name, MQ.OwnedOnly), [], filters).value;
    assert built == if caller.limited then Sql.Filter(Sql.Table, MQ.Owned(ctx)) else Sql.Table;
    forall o ensures o in Sql.Objects(built, db) <==> o in db.objs && Reaches(caller, owners[o.id]) {
      Sql.TableObjects(db, MQ.Owned(ctx), o);
      Sql.InTable(db.objs, Sql.Row(o, None));
    }
    if i in owners {
      assert Sql.Obj(i, Sql.Text(owners[i]), Sql.Null) in db.objs;
    }
  }

  lemma CoveredSees(s: Store, project: Id, n: Id)
    requires n in s.networks && Covered(s, project, n)
    ensures n in VisibleTo(s, project)
  {
    VisibleIff(s, project, n);
    var i :| i in s.policies && IsExternalEntry(s.policies[i], n) && Serves(s.policies[i], project);
    assert Opens(s.policies[i], project);
  }

  /** In every state reached without stranding a router, a project whose router has a
      gateway on a network sees that network. */
  lemma GatewayOwnerSeesNetwork(ops: seq<Operation>, r: Id, n: Id)
    requires NeverBroken(GatewayIsCovered, ops)
    requires var s := Run(EMPTY, ops); r in s.routers && UsesNetwork(s, s.routers[r], n)
    ensures var s := Run(EMPTY, ops); n in VisibleTo(s, s.routers[r].project)
  {
    ClaimUnlessBroken(GatewayIsCovered, ops);
    RunKeepsInv(ops);
    var s := Run(EMPTY, ops);
    assert Covered(s, s.routers[r].project, n);
    CoveredSees(s, s.routers[r].project, n);
  }

  /** What one project sees after an entry is gone. */
  lemma VisibleWithoutPolicy(s: Store, s': Store, id: Id, project: Id)
    requires id in s.policies && s.policies[id].target != MQ.WILDCARD
    requires s'.networks == s.networks && s'.policies == s.policies - {id}
    ensures project != s.policies[id].target ==> VisibleTo(s', project) == VisibleTo(s, project)
    ensures VisibleTo(s, project) - {s.policies[id].objectId} <= VisibleTo(s', project) <= VisibleTo(s, project)
  {
    var p := s.policies[id];
    forall n
      ensures n in VisibleTo(s', project) ==> n in VisibleTo(s, project)
      ensures (n != p.objectId || project != p.target) && n in VisibleTo(s, project) ==> n in VisibleTo(s', project)
    {
      VisibleIff(s, project, n);
      VisibleIff(s', project, n);
      if (n != p.objectId || project != p.target) && n in VisibleTo(s, project) && s.networks[n].tenant != project {
        var i :| i in s.policies && s.policies[i].objectId == n && Opens(s.policies[i], project);
        assert i in s'.policies && s'.policies[i] == s.policies[i];
      }
    }
  }

  lemma DeletionOnlyRemovesEntry(s: Store, caller: Caller, id: Id)
    requires RowsPlaced(s)
    ensures var s' := Next(s, DeletePolicy(caller, id)).store;
      s' == s || (s'.networks == s.networks && s'.policies == s.policies - {id})
  {
    if Allowed(s, caller, id, None) {
      DeletePolicyOutcome(s, caller, id);
    }
  }

  /** In every reachable state, deleting an entry for one project, un-externalising
      step included, changes no other project's list and takes at most that one
      network off the project's own. */
  lemma DeletionAffectsTargetOnly(ops: seq<Operation>, caller: Caller, id: Id, project: Id)
    requires var s := Run(EMPTY, ops); id in s.policies && s.policies[id].target != MQ.WILDCARD
    ensures var s := Run(EMPTY, ops);
            var s' := Next(s, DeletePolicy(caller, id)).store;
      && (project != s.policies[id].target ==> VisibleTo(s', project) == VisibleTo(s, project))
      && VisibleTo(s, project) - {s.policies[id].objectId} <= VisibleTo(s', project) <= VisibleTo(s, project)
  {
    var s := Run(EMPTY, ops);
    RunKeepsInv(ops);
    DeletionOnlyRemovesEntry(s, caller, id);
    var s' := Next(s, DeletePolicy(caller, id)).store;
    if s' != s {
      VisibleWithoutPolicy(s, s', id, project);
    }
  }

  /** `router:external=[wanted]`. */
  function ExternalFilter(wanted: bool): MQ.Filters {
    [(EXTERNAL_KEY, [Sql.Flag(wanted)])]
  }

  lemma ExternalFilterPasses(row: Sql.Row, db: Sql.Db, wanted: bool)
    ensures MQ.Passes(row, db, NETWORK, Hooks(), ExternalFilter(wanted)) <==> (row.obj.id in db.externals) == wanted
  {
    assert NetworkResultFilterHook(ExternalFilter(wanted)) ==
           Some(if wanted then Sql.HasExternal else Sql.Negate(Sql.HasExternal));
    assert forall k, vs :: (k, vs) in ExternalFilter(wanted) ==> k == EXTERNAL_KEY;
    var has, hasNot := Sql.HasExternal, Sql.Negate(Sql.HasExternal);
    assert Sql.Holds(has, row, db) <==> row.obj.id in db.externals;
    assert Sql.Holds(hasNot, row, db) <==> row.obj.id !in db.externals;
    assert MQ.PassesResult(row, db, Hooks()[0], ExternalFilter(wanted)) <==>
           Sql.Holds(if wanted then has else hasNot, row, db);
  }

  lemma ExternalFilterBuilds(project: Id, wanted: bool)
    ensures var built := MQ.BuildQuery(CallerOf(project), NETWORK, Hooks(), ExternalFilter(wanted));
      built.Ok? && built == MQ.BuildQuery(CallerOf(project), NETWORK, Hooks(), [])
  {
    var ctx := CallerOf(project);
    ExternalHookWidens(ctx);
    var added := [TenantAllowed(ctx)];
    ScopedQueryShows(ctx, NETWORK, Hooks(), added, [], Sql.Db([], [], {}), Sql.Obj("", Sql.Null, Sql.Null));
    assert MQ.Lookup(ExternalFilter(wanted), "shared") == None;
  }

  /** The networks that a list query with that filter returns. */
  ghost function ExternalListed(s: Store, project: Id, wanted: bool): set<Id> {
    ExternalFilterBuilds(project, wanted);
    var selected := MQ.SelectedObjects(TablesOf(s), CallerOf(project), NETWORK, Hooks(), ExternalFilter(wanted));
    set o | o in selected :: o.id
  }

  /** [True] lists the visible networks with an external row, [False] those without. */
  lemma ListedIff(s: Store, project: Id, wanted: bool, n: Id)
    ensures n in ExternalListed(s, project, wanted) <==> n in VisibleTo(s, project) && (n in s.external) == wanted
  {
    ExternalFilterBuilds(project, wanted);
    var db := TablesOf(s);
    var query := MQ.BuildQuery(CallerOf(project), NETWORK, Hooks(), []).value;
    forall row
      ensures MQ.Passes(row, db, NETWORK, Hooks(), ExternalFilter(wanted)) <==> (row.obj.id in s.external) == wanted
    {
      ExternalFilterPasses(row, db, wanted);
    }
    if n in VisibleTo(s, project) && (n in s.external) == wanted {
      var o :| o in Sql.Objects(query, db) && o.id == n;
      assert o in MQ.SelectedObjects(db, CallerOf(project), NETWORK, Hooks(), ExternalFilter(wanted));
    }
  }

  /** Listing external networks returns only networks that some external entry names, if no
      step took the last one from an external network, and all visible ones of those, if no
      step left entries behind. */
  lemma ExternalListing(ops: seq<Operation>, project: Id, n: Id)
    ensures var s := Run(EMPTY, ops);
      && (NeverBroken(ExternalHasEntry, ops) ==>
            (n in ExternalListed(s, project, true) ==> n in VisibleTo(s, project) && HasExternalEntry(s, n)))
      && (NeverBroken(EntryMakesExternal, ops) ==>
            (n in VisibleTo(s, project) && HasExternalEntry(s, n) ==> n in ExternalListed(s, project, true)))
  {
    var s := Run(EMPTY, ops);
    ClaimUnlessBroken(ExternalHasEntry, ops);
    ClaimUnlessBroken(EntryMakesExternal, ops);
    ListedIff(s, project, true, n);
  }
}
