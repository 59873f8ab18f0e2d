/** What the built queries return: the union rewrite against the outer-join form
    it replaced, the `shared` filter, and exact counts. */
module QueryMeaning {
  import opened Prelude
  import opened Sql
  import opened ModelQuery

  // ---------------------------------------------------------------- hook laws

  /** A condition that no NULL-extended row satisfies. */
  ghost predicate NullRejecting(c: Cond) {
    forall o, db :: !Holds(c, Row(o, None), db)
  }

  ghost predicate WidensAt(hook: Option<FilterHook>, ctx: Context, model: Model, added: Cond, c: Cond) {
    var r := RunHook(hook, ctx, model, Some(c));
    && r.Ok? && r.value.Some?
    && forall row, db :: Holds(r.value.value, row, db) <==> Holds(added, row, db) || Holds(c, row, db)
  }

  /** The hook lets through `added` besides what its argument lets through. */
  ghost predicate Widens(hook: Option<FilterHook>, ctx: Context, model: Model, added: Cond) {
    forall c :: WidensAt(hook, ctx, model, added, c)
  }

  /** Hooks that only widen the RBAC filter, the i-th by `added[i]`. */
  ghost predicate AllWiden(hooks: seq<Hook>, ctx: Context, model: Model, added: seq<Cond>) {
    && |hooks| == |added|
    && forall i :: 0 <= i < |hooks| ==> hooks[i].filter.None? && Widens(hooks[i].rbacFilter, ctx, model, added[i])
  }

  /** Hooks that leave an unscoped caller's absent filters absent. */
  ghost predicate AllQuiet(hooks: seq<Hook>, ctx: Context, model: Model) {
    forall i :: 0 <= i < |hooks| ==> hooks[i].filter.None? && RunHook(hooks[i].rbacFilter, ctx, model, None) == Ok(None)
  }

  ghost predicate SomeHolds(added: seq<Cond>, row: Row, db: Db) {
    exists i :: 0 <= i < |added| && Holds(added[i], row, db)
  }

  lemma SomeHoldsCons(added: seq<Cond>, row: Row, db: Db)
    requires added != []
    ensures SomeHolds(added, row, db) <==> Holds(added[0], row, db) || SomeHolds(added[1..], row, db)
  {
  }

  /** Widening hooks run without error and yield a filter that holds where the
      original does or one of the additions does. */
  lemma {:induction false} WideningHooks(hooks: seq<Hook>, ctx: Context, model: Model, added: seq<Cond>,
                                         own: Option<Cond>, c: Cond)
    requires AllWiden(hooks, ctx, model, added)
    ensures var r := RunHooks(hooks, ctx, model, own, Some(c));
      && r.Ok? && r.value.0 == own && r.value.1.Some?
      && forall row, db :: Holds(r.value.1.value, row, db) <==> Holds(c, row, db) || SomeHolds(added, row, db)
  {
    if hooks != [] {
      assert WidensAt(hooks[0].rbacFilter, ctx, model, added[0], c);
      var c' := RunHook(hooks[0].rbacFilter, ctx, model, Some(c)).value.value;
      assert AllWiden(hooks[1..], ctx, model, added[1..]);
      WideningHooks(hooks[1..], ctx, model, added[1..], own, c');
      forall row, db ensures SomeHolds(added, row, db) <==> Holds(added[0], row, db) || SomeHolds(added[1..], row, db) {
        SomeHoldsCons(added, row, db);
      }
    }
  }

  lemma {:induction false} QuietHooks(hooks: seq<Hook>, ctx: Context, model: Model, own: Option<Cond>)
    requires AllQuiet(hooks, ctx, model)
    ensures RunHooks(hooks, ctx, model, own, None) == Ok((own, None))
  {
    if hooks != [] {
      assert AllQuiet(hooks[1..], ctx, model);
      QuietHooks(hooks[1..], ctx, model, own);
    }
  }

  /** A hook that fails whatever filter it is given. */
  ghost predicate Fails(hook: Option<FilterHook>, ctx: Context, model: Model) {
    forall c :: RunHook(hook, ctx, model, c).Err?
  }

  lemma {:induction false} FailingHookStops(hooks: seq<Hook>, ctx: Context, model: Model, own: Option<Cond>,
                                            rbac: Option<Cond>, i: nat)
    requires i < |hooks| && (Fails(hooks[i].filter, ctx, model) || Fails(hooks[i].rbacFilter, ctx, model))
    ensures RunHooks(hooks, ctx, model, own, rbac).Err?
  {
    var own', rbac' := RunHook(hooks[0].filter, ctx, model, own), RunHook(hooks[0].rbacFilter, ctx, model, rbac);
    if i > 0 && own'.Ok? && rbac'.Ok? {
      FailingHookStops(hooks[1..], ctx, model, own'.value, rbac'.value, i - 1);
    }
  }

  /** One failing hook fails the query. */
  lemma FailingHookFails(ctx: Context, model: Model, hooks: seq<Hook>, filters: Filters, i: nat)
    requires i < |hooks| && (Fails(hooks[i].filter, ctx, model) || Fails(hooks[i].rbacFilter, ctx, model))
    ensures BuildQuery(ctx, model, hooks, filters).Err?
  {
    var rbac := if JoinsEntries(ctx, model) then Some(EntryGrants(ctx)) else None;
    FailingHookStops(hooks, ctx, model, ScopeFilter(ctx, model), rbac, i);
  }

  /** With hooks that widen, or leave absent filters absent, only an empty `shared` list
      on a model with entries fails. */
  lemma FailsOnEmptyShared(ctx: Context, model: Model, hooks: seq<Hook>, added: seq<Cond>, filters: Filters)
    requires if JoinsEntries(ctx, model) then AllWiden(hooks, ctx, model, added) else AllQuiet(hooks, ctx, model)
    ensures var built := BuildQuery(ctx, model, hooks, filters);
      && (built.Err? <==> model.kind == WithEntries && Lookup(filters, "shared") == Some([]))
      && (built.Err? ==> built.error == IndexError)
  {
    if JoinsEntries(ctx, model) {
      WideningHooks(hooks, ctx, model, added, None, EntryGrants(ctx));
    } else {
      QuietHooks(hooks, ctx, model, ScopeFilter(ctx, model));
    }
  }

  // ---------------------------------------------------------------- plain filters

  ghost predicate Allows(c: Option<Cond>, row: Row, db: Db) {
    c.Some? ==> Holds(c.value, row, db)
  }

  ghost predicate NarrowsAt(hook: Option<FilterHook>, ctx: Context, model: Model, extra: Cond, c: Option<Cond>) {
    var r := RunHook(hook, ctx, model, c);
    && r.Ok? && r.value.Some?
    && forall row, db :: Holds(r.value.value, row, db) <==> Allows(c, row, db) && Holds(extra, row, db)
  }

  /** Hooks whose plain filter, where they have one, adds the condition `extra[i]`. */
  ghost predicate AllNarrow(hooks: seq<Hook>, ctx: Context, model: Model, extra: seq<Option<Cond>>) {
    && |hooks| == |extra|
    && forall i :: 0 <= i < |hooks| ==>
         if extra[i].None? then hooks[i].filter.None?
         else forall c :: NarrowsAt(hooks[i].filter, ctx, model, extra[i].value, c)
  }

  ghost predicate AllAllow(extra: seq<Option<Cond>>, row: Row, db: Db) {
    forall i :: 0 <= i < |extra| ==> Allows(extra[i], row, db)
  }

  function WithoutFilters(hooks: seq<Hook>): (r: seq<Hook>)
    ensures |r| == |hooks| && forall i :: 0 <= i < |r| ==> r[i] == hooks[i].(filter := None)
  {
    if hooks == [] then [] else [hooks[0].(filter := None)] + WithoutFilters(hooks[1..])
  }

  lemma {:induction false} NarrowingHooks(hooks: seq<Hook>, ctx: Context, model: Model, extra: seq<Option<Cond>>,
                                          own: Option<Cond>, own': Option<Cond>, rbac: Option<Cond>)
    requires AllNarrow(hooks, ctx, model, extra)
    ensures var full := RunHooks(hooks, ctx, model, own', rbac);
            var bare := RunHooks(WithoutFilters(hooks), ctx, model, own, rbac);
      && (full.Ok? <==> bare.Ok?)
      && (full.Ok? ==>
            && full.value.1 == bare.value.1 && bare.value.0 == own
            && forall row, db :: Allows(full.value.0, row, db) <==>
                                 Allows(own', row, db) && AllAllow(extra, row, db))
  {
    if hooks != [] {
      assert extra[0].Some? ==> NarrowsAt(hooks[0].filter, ctx, model, extra[0].value, own');
      var next := RunHook(hooks[0].filter, ctx, model, own').value;
      var rbac' := RunHook(hooks[0].rbacFilter, ctx, model, rbac);
      if rbac'.Ok? {
        assert AllNarrow(hooks[1..], ctx, model, extra[1..]);
        NarrowingHooks(hooks[1..], ctx, model, extra[1..], own, next, rbac'.value);
        forall row, db
          ensures AllAllow(extra, row, db) <==> Allows(extra[0], row, db) && AllAllow(extra[1..], row, db)
        {
          AllAllowCons(extra, row, db);
        }
      }
    }
  }

  lemma AllAllowCons(extra: seq<Option<Cond>>, row: Row, db: Db)
    requires extra != []
    ensures AllAllow(extra, row, db) <==> Allows(extra[0], row, db) && AllAllow(extra[1..], row, db)
  {
  }

  lemma NarrowRows(q: Query, c: Option<Cond>, db: Db, row: Row)
    ensures row in Rows(Narrow(q, c), db) <==> row in Rows(q, db) && Allows(c, row, db)
  {
    if c.Some? { FilterRows(q, c.value); }
  }

  /** Plain filters of hooks restrict the whole result, own rows included: for every
      caller, model and filter list, the rows are those without them that satisfy all. */
  lemma PlainFiltersNarrow(ctx: Context, model: Model, hooks: seq<Hook>, extra: seq<Option<Cond>>, filters: Filters,
                           db: Db, row: Row)
    requires AllNarrow(hooks, ctx, model, extra)
    ensures var full := BuildQuery(ctx, model, hooks, filters);
            var bare := BuildQuery(ctx, model, WithoutFilters(hooks), filters);
      && (full.Ok? <==> bare.Ok?)
      && (full.Ok? ==>
            (row in Rows(full.value, db) <==> row in Rows(bare.value, db) && AllAllow(extra, row, db)))
  {
    var own := ScopeFilter(ctx, model);
    var rbac := if JoinsEntries(ctx, model) then Some(EntryGrants(ctx)) else None;
    NarrowingHooks(hooks, ctx, model, extra, own, own, rbac);
    var full, bare := BuildQuery(ctx, model, hooks, filters), BuildQuery(ctx, model, WithoutFilters(hooks), filters);
    if full.Ok? && bare.Ok? {
      var hooked := RunHooks(hooks, ctx, model, own, rbac).value;
      var q := Unnarrowed(ctx, model, hooked.1, filters);
      assert full.value == Narrow(q, hooked.0) && bare.value == Narrow(q, own);
      NarrowRows(q, hooked.0, db, row);
      NarrowRows(q, own, db, row);
    }
  }

  /** The built query before the model filter. */
  function Unnarrowed(ctx: Context, model: Model, rbac: Option<Cond>, filters: Filters): Query
    requires model.kind == WithEntries ==> Lookup(filters, "shared") != Some([])
  {
    var joined := JoinsEntries(ctx, model);
    var base := if joined then Join(Table) else Table;
    var wanted := if model.kind == WithEntries then Lookup(filters, "shared") else None;
    if wanted.None? then WithOwnRows(Narrow(base, rbac), joined, ctx)
    else if Truthy(wanted.value[0]) then
      Filter(if joined then base else Filter(Join(Table), EntryShares(ctx)), AndAlso(rbac, EntryShares(ctx)))
    else WithOwnRows(Filter(base, AndAlso(rbac, Negate(IdInEntries(EntryShares(ctx))))), joined, ctx)
  }

  // ---------------------------------------------------------------- models without entries

  /** Without entries a scoped caller gets its own objects, and those with a true `shared`
      column if the model has one; an unscoped caller gets all. */
  lemma ColumnModelShows(ctx: Context, model: Model, hooks: seq<Hook>, filters: Filters, db: Db, o: Obj)
    requires model.kind != WithEntries && AllQuiet(hooks, ctx, model)
    ensures BuildQuery(ctx, model, hooks, filters).Ok?
    ensures o in Objects(BuildQuery(ctx, model, hooks, filters).value, db) <==>
            && o in db.objs
            && (ctx.scoped ==>
                  o.project == ctx.tenant || (model.kind == WithSharedColumn && o.shared == Flag(true)))
  {
    QuietHooks(hooks, ctx, model, ScopeFilter(ctx, model));
    var built := BuildQuery(ctx, model, hooks, filters).value;
    var shared := Equals(Shared, Flag(true));
    assert built == Narrow(Table, ScopeFilter(ctx, model));
    InTable(db.objs, Row(o, None));
    if ctx.scoped {
      TableObjects(db, ScopeFilter(ctx, model).value, o);
      HoldsDisj(Owned(ctx), shared, Row(o, None), db);
    } else {
      forall row | row in TableRows(db.objs) ensures row.entry == None { InTable(db.objs, row); }
    }
  }

  /** A project filter on top selects the objects of the listed projects. */
  lemma ProjectFilterSelects(ctx: Context, model: Model, hooks: seq<Hook>, key: string, vs: seq<Value>, db: Db)
    requires key == "project_id" || key == "tenant_id"
    requires forall i :: 0 <= i < |hooks| ==> hooks[i].resultFilter.None?
    requires BuildQuery(ctx, model, hooks, []).Ok?
    ensures BuildQuery(ctx, model, hooks, [(key, vs)]) == BuildQuery(ctx, model, hooks, [])
    ensures SelectedObjects(db, ctx, model, hooks, [(key, vs)]) ==
            set o | o in Objects(BuildQuery(ctx, model, hooks, []).value, db) && o.project in vs
  {
    var filters: Filters := [(key, vs)];
    assert Lookup(filters, "shared") == None == Lookup([], "shared");
    assert forall k, ws :: (k, ws) in filters <==> k == key && ws == vs;
    var q := BuildQuery(ctx, model, hooks, []).value;
    forall row ensures Passes(row, db, model, hooks, filters) <==> row.obj.project in vs {
      assert (key, vs) in filters;
    }
    var selected := SelectedObjects(db, ctx, model, hooks, filters);
    forall o | o in Objects(q, db) && o.project in vs ensures o in selected {
      var row :| row in Rows(q, db) && row.obj == o;
      assert row in SelectedRows(db, ctx, model, hooks, filters);
    }
  }

  // ---------------------------------------------------------------- the rewrite

  /** The form the union replaced: one outer join, the hooks applied to
      "owned or granted" as a whole. */
  function OuterJoinQuery(ctx: Context, model: Model, hooks: seq<Hook>): Result<Query, Error> {
    var hooked :- RunHooks(hooks, ctx, model, None, Some(Disj(Owned(ctx), EntryGrants(ctx))));
    Ok(Narrow(OuterJoin(Table), hooked.1))
  }

  predicate NoSharedKey(filters: Filters) {
    Lookup(filters, "shared").None?
  }

  /** The `shared` key is given, and its first value is true or false as `wanted`. */
  predicate SharedIs(filters: Filters, wanted: bool) {
    var given := Lookup(filters, "shared");
    given.Some? && given.value != [] && Truthy(given.value[0]) == wanted
  }

  ghost predicate OwnedBy(ctx: Context, o: Obj) {
    o.project == ctx.tenant
  }

  /** Some entry of the object passes the grant or an addition. */
  ghost predicate Granted(o: Obj, ctx: Context, added: seq<Cond>, db: Db) {
    exists e :: e in db.entries && e.objectId == o.id && GrantsBy(e, o, ctx, added, db)
  }

  ghost predicate GrantsBy(e: Entry, o: Obj, ctx: Context, added: seq<Cond>, db: Db) {
    Holds(EntryGrants(ctx), Row(o, Some(e)), db) || SomeHolds(added, Row(o, Some(e)), db)
  }

  /** An object of another project, without entries, that an addition lets through. */
  ghost predicate Stray(o: Obj, ctx: Context, added: seq<Cond>, db: Db) {
    o in db.objs && !HasEntry(o, db) && !OwnedBy(ctx, o) && SomeHolds(added, Row(o, None), db)
  }

  /** The scoped query returns the caller's own objects and the granted ones. */
  lemma ScopedQueryShows(ctx: Context, model: Model, hooks: seq<Hook>, added: seq<Cond>, filters: Filters,
                         db: Db, o: Obj)
    requires JoinsEntries(ctx, model) && AllWiden(hooks, ctx, model, added) && NoSharedKey(filters)
    ensures BuildQuery(ctx, model, hooks, filters).Ok?
    ensures o in Objects(BuildQuery(ctx, model, hooks, filters).value, db) <==>
            o in db.objs && (OwnedBy(ctx, o) || Granted(o, ctx, added, db))
  {
    WideningHooks(hooks, ctx, model, added, None, EntryGrants(ctx));
    var rbac := RunHooks(hooks, ctx, model, None, Some(EntryGrants(ctx))).value.1.value;
    UnionObjects(Filter(Join(Table), rbac), Filter(Table, Owned(ctx)), db);
    InnerJoinObjects(db, rbac, o);
    TableObjects(db, Owned(ctx), o);
    forall e ensures Holds(rbac, Row(o, Some(e)), db) <==> GrantsBy(e, o, ctx, added, db) { }
  }

  /** What the outer-join form returned. */
  lemma OuterJoinQueryShows(ctx: Context, model: Model, hooks: seq<Hook>, added: seq<Cond>, db: Db, o: Obj)
    requires JoinsEntries(ctx, model) && AllWiden(hooks, ctx, model, added)
    ensures OuterJoinQuery(ctx, model, hooks).Ok?
    ensures o in Objects(OuterJoinQuery(ctx, model, hooks).value, db) <==>
            o in db.objs && (OwnedBy(ctx, o) || Granted(o, ctx, added, db) || Stray(o, ctx, added, db))
  {
    var whole := Disj(Owned(ctx), EntryGrants(ctx));
    WideningHooks(hooks, ctx, model, added, None, whole);
    var c := RunHooks(hooks, ctx, model, None, Some(whole)).value.1.value;
    OuterJoinObjects(db, c, o);
    forall e ensures Holds(c, Row(o, Some(e)), db) <==> OwnedBy(ctx, o) || GrantsBy(e, o, ctx, added, db) {
      HoldsDisj(Owned(ctx), EntryGrants(ctx), Row(o, Some(e)), db);
    }
    HoldsDisj(Owned(ctx), EntryGrants(ctx), Row(o, None), db);
    NoEntryGrantsNothing(ctx, o, db);
  }

  /** The rewrite keeps the query's meaning exactly when no addition lets through
      a stray object; null-rejecting additions never do. */
  lemma RewriteKeepsMeaning(ctx: Context, model: Model, hooks: seq<Hook>, added: seq<Cond>, filters: Filters, db: Db)
    requires JoinsEntries(ctx, model) && AllWiden(hooks, ctx, model, added) && NoSharedKey(filters)
    ensures BuildQuery(ctx, model, hooks, filters).Ok? && OuterJoinQuery(ctx, model, hooks).Ok?
    ensures var rewritten := Objects(BuildQuery(ctx, model, hooks, filters).value, db);
            var original := Objects(OuterJoinQuery(ctx, model, hooks).value, db);
      && (rewritten == original <==> forall o :: o in db.objs ==> !Stray(o, ctx, added, db))
      && ((forall i :: 0 <= i < |added| ==> NullRejecting(added[i])) ==> rewritten == original)
  {
    ScopedQueryShows(ctx, model, hooks, added, filters, db, Obj("", Null, Null));
    OuterJoinQueryShows(ctx, model, hooks, added, db, Obj("", Null, Null));
    var rewritten := Objects(BuildQuery(ctx, model, hooks, filters).value, db);
    var original := Objects(OuterJoinQuery(ctx, model, hooks).value, db);
    forall o
      ensures o in rewritten <==> o in db.objs && (OwnedBy(ctx, o) || Granted(o, ctx, added, db))
      ensures o in original <==>
              o in db.objs && (OwnedBy(ctx, o) || Granted(o, ctx, added, db) || Stray(o, ctx, added, db))
    {
      ScopedQueryShows(ctx, model, hooks, added, filters, db, o);
      OuterJoinQueryShows(ctx, model, hooks, added, db, o);
    }
    forall o | Stray(o, ctx, added, db) ensures o in original && o !in rewritten {
      assert !Granted(o, ctx, added, db);
    }
  }

  // ---------------------------------------------------------------- the shared filter

  ghost predicate SharesWith(e: Entry, ctx: Context) {
    e.action == Text(ACCESS_SHARED) && (e.target == Text(WILDCARD) || e.target == ctx.tenant)
  }

  /** The object carries an access_as_shared entry for the caller or for everyone. */
  ghost predicate SharedWith(o: Obj, ctx: Context, db: Db) {
    exists e :: e in db.entries && e.objectId == o.id && SharesWith(e, ctx)
  }

  lemma EntrySharesMeans(ctx: Context, o: Obj, e: Entry, db: Db)
    ensures Holds(EntryShares(ctx), Row(o, Some(e)), db) <==> SharesWith(e, ctx)
    ensures SharesWith(e, ctx) ==> Holds(EntryGrants(ctx), Row(o, Some(e)), db)
  {
    var row := Row(o, Some(e));
    var caller, everyone := Equals(EntryTarget, ctx.tenant), Equals(EntryTarget, Text(WILDCARD));
    HoldsConj(Equals(EntryAction, Text(ACCESS_SHARED)), Disj(everyone, caller), row, db);
    HoldsDisj(everyone, caller, row, db);
    HoldsConj(OneOf(EntryAction, [Text(ACCESS_SHARED), Text(ACCESS_READONLY)]), ForCaller(ctx), row, db);
    HoldsDisj(caller, everyone, row, db);
  }

  /** The builder's own conditions hold of no NULL-extended row. */
  lemma NoEntryGrantsNothing(ctx: Context, o: Obj, db: Db)
    ensures !Holds(EntryGrants(ctx), Row(o, None), db) && !Holds(EntryShares(ctx), Row(o, None), db)
  {
    HoldsConj(OneOf(EntryAction, [Text(ACCESS_SHARED), Text(ACCESS_READONLY)]), ForCaller(ctx), Row(o, None), db);
    HoldsConj(Equals(EntryAction, Text(ACCESS_SHARED)),
              Disj(Equals(EntryTarget, Text(WILDCARD)), Equals(EntryTarget, ctx.tenant)), Row(o, None), db);
  }

  lemma UnsharedMeans(ctx: Context, row: Row, db: Db)
    ensures Holds(Negate(IdInEntries(EntryShares(ctx))), row, db) <==> !SharedWith(row.obj, ctx, db)
  {
    forall e ensures Holds(EntryShares(ctx), Row(row.obj, Some(e)), db) <==> SharesWith(e, ctx) {
      EntrySharesMeans(ctx, row.obj, e, db);
    }
    assert Eval(IdInEntries(EntryShares(ctx)), row, db) == if SharedWith(row.obj, ctx, db) then True else False;
  }

  /** `shared=[True]` for a scoped caller: exactly the objects shared with it,
      own objects without such an entry included nowhere. */
  lemma ScopedSharedShows(ctx: Context, model: Model, hooks: seq<Hook>, added: seq<Cond>, filters: Filters,
                          db: Db, o: Obj)
    requires JoinsEntries(ctx, model) && AllWiden(hooks, ctx, model, added) && SharedIs(filters, true)
    ensures BuildQuery(ctx, model, hooks, filters).Ok?
    ensures o in Objects(BuildQuery(ctx, model, hooks, filters).value, db) <==> o in db.objs && SharedWith(o, ctx, db)
  {
    WideningHooks(hooks, ctx, model, added, None, EntryGrants(ctx));
    var rbac := RunHooks(hooks, ctx, model, None, Some(EntryGrants(ctx))).value.1.value;
    var c := Conj(rbac, EntryShares(ctx));
    InnerJoinObjects(db, c, o);
    forall e ensures Holds(c, Row(o, Some(e)), db) <==> SharesWith(e, ctx) {
      HoldsConj(rbac, EntryShares(ctx), Row(o, Some(e)), db);
      EntrySharesMeans(ctx, o, e, db);
    }
  }

  /** The same objects as filtering the outer-join form on a sharing entry. */
  lemma ScopedSharedIsFilteredOuterJoin(ctx: Context, model: Model, hooks: seq<Hook>, added: seq<Cond>,
                                        filters: Filters, db: Db)
    requires JoinsEntries(ctx, model) && AllWiden(hooks, ctx, model, added) && SharedIs(filters, true)
    ensures BuildQuery(ctx, model, hooks, filters).Ok? && OuterJoinQuery(ctx, model, hooks).Ok?
    ensures Objects(BuildQuery(ctx, model, hooks, filters).value, db) ==
            Objects(Filter(OuterJoinQuery(ctx, model, hooks).value, EntryShares(ctx)), db)
  {
    var whole := Disj(Owned(ctx), EntryGrants(ctx));
    WideningHooks(hooks, ctx, model, added, None, whole);
    var c := RunHooks(hooks, ctx, model, None, Some(whole)).value.1.value;
    var l := BuildQuery(ctx, model, hooks, filters);
    ScopedSharedShows(ctx, model, hooks, added, filters, db, Obj("", Null, Null));
    var r := Filter(Filter(OuterJoin(Table), c), EntryShares(ctx));
    forall o ensures o in Objects(l.value, db) <==> o in Objects(r, db) {
      ScopedSharedShows(ctx, model, hooks, added, filters, db, o);
      FilterTwice(db, c, EntryShares(ctx), o);
      OuterJoinObjects(db, Conj(c, EntryShares(ctx)), o);
      forall e ensures Holds(Conj(c, EntryShares(ctx)), Row(o, Some(e)), db) <==> SharesWith(e, ctx) {
        HoldsConj(c, EntryShares(ctx), Row(o, Some(e)), db);
        HoldsDisj(Owned(ctx), EntryGrants(ctx), Row(o, Some(e)), db);
        EntrySharesMeans(ctx, o, e, db);
      }
      NoEntryGrantsNothing(ctx, o, db);
      HoldsConj(c, EntryShares(ctx), Row(o, None), db);
    }
  }

  lemma FilterTwice(db: Db, c: Cond, d: Cond, o: Obj)
    ensures o in Objects(Filter(Filter(OuterJoin(Table), c), d), db) <==>
            o in Objects(Filter(OuterJoin(Table), Conj(c, d)), db)
  {
    var q := OuterJoin(Table);
    FilterRows(q, c);
    FilterRows(Filter(q, c), d);
    FilterRows(q, Conj(c, d));
    forall row ensures row in Rows(Filter(Filter(q, c), d), db) <==> row in Rows(Filter(q, Conj(c, d)), db) {
      HoldsConj(c, d, row, db);
    }
  }

  /** `shared=[False]` for a scoped caller: its own objects, whatever their
      entries, and the visible ones that are not shared with it. This is
      "visible and not shared" exactly when no own object is shared. */
  lemma ScopedUnsharedShows(ctx: Context, model: Model, hooks: seq<Hook>, added: seq<Cond>, filters: Filters, db: Db)
    requires JoinsEntries(ctx, model) && AllWiden(hooks, ctx, model, added) && SharedIs(filters, false)
    ensures BuildQuery(ctx, model, hooks, filters).Ok? && BuildQuery(ctx, model, hooks, []).Ok?
    ensures var result := Objects(BuildQuery(ctx, model, hooks, filters).value, db);
            var visible := Objects(BuildQuery(ctx, model, hooks, []).value, db);
      && result == (set o | o in visible && (OwnedBy(ctx, o) || !SharedWith(o, ctx, db)))
      && (result == (set o | o in visible && !SharedWith(o, ctx, db)) <==>
          forall o :: o in db.objs && OwnedBy(ctx, o) ==> !SharedWith(o, ctx, db))
  {
    WideningHooks(hooks, ctx, model, added, None, EntryGrants(ctx));
    var rbac := RunHooks(hooks, ctx, model, None, Some(EntryGrants(ctx))).value.1.value;
    var unshared := Negate(IdInEntries(EntryShares(ctx)));
    var c := Conj(rbac, unshared);
    UnionObjects(Filter(Join(Table), c), Filter(Table, Owned(ctx)), db);
    ScopedQueryShows(ctx, model, hooks, added, [], db, Obj("", Null, Null));
    var result := Objects(BuildQuery(ctx, model, hooks, filters).value, db);
    var visible := Objects(BuildQuery(ctx, model, hooks, []).value, db);
    forall o
      ensures o in visible <==> o in db.objs && (OwnedBy(ctx, o) || Granted(o, ctx, added, db))
      ensures o in result <==>
              o in db.objs && (OwnedBy(ctx, o) || (Granted(o, ctx, added, db) && !SharedWith(o, ctx, db)))
    {
      ScopedQueryShows(ctx, model, hooks, added, [], db, o);
      InnerJoinObjects(db, c, o);
      TableObjects(db, Owned(ctx), o);
      forall e ensures Holds(c, Row(o, Some(e)), db) <==> GrantsBy(e, o, ctx, added, db) && !SharedWith(o, ctx, db) {
        HoldsConj(rbac, unshared, Row(o, Some(e)), db);
        UnsharedMeans(ctx, Row(o, Some(e)), db);
      }
    }
    forall o | o in db.objs && OwnedBy(ctx, o) && SharedWith(o, ctx, db) ensures o in result { }
  }

  /** For an unscoped caller the two filters split the table. */
  lemma UnscopedSharedPartitions(ctx: Context, model: Model, hooks: seq<Hook>, wanting: Filters, refusing: Filters,
                                 db: Db)
    requires !ctx.scoped && model.kind == WithEntries && AllQuiet(hooks, ctx, model)
    requires SharedIs(wanting, true) && SharedIs(refusing, false)
    ensures BuildQuery(ctx, model, hooks, wanting).Ok? && BuildQuery(ctx, model, hooks, refusing).Ok?
    ensures var shared := Objects(BuildQuery(ctx, model, hooks, wanting).value, db);
            var unshared := Objects(BuildQuery(ctx, model, hooks, refusing).value, db);
      && shared == (set o | o in db.objs && SharedWith(o, ctx, db))
      && shared !! unshared
      && shared + unshared == Elements(db.objs)
  {
    QuietHooks(hooks, ctx, model, None);
    var shares := EntryShares(ctx);
    var isUnshared := Negate(IdInEntries(shares));
    var shared := Objects(BuildQuery(ctx, model, hooks, wanting).value, db);
    var unshared := Objects(BuildQuery(ctx, model, hooks, refusing).value, db);
    forall o
      ensures o in shared <==> o in db.objs && SharedWith(o, ctx, db)
      ensures o in unshared <==> o in db.objs && !SharedWith(o, ctx, db)
    {
      var q := Filter(Join(Table), shares);
      FilterRows(q, shares);
      FilterRows(Join(Table), shares);
      assert Objects(Filter(q, shares), db) == Objects(q, db);
      InnerJoinObjects(db, shares, o);
      forall e ensures Holds(shares, Row(o, Some(e)), db) <==> SharesWith(e, ctx) { EntrySharesMeans(ctx, o, e, db); }
      TableObjects(db, isUnshared, o);
      UnsharedMeans(ctx, Row(o, None), db);
    }
  }

  // ---------------------------------------------------------------- counts

  /** Two different entries of one object both satisfy the filter. */
  ghost predicate TwiceMatched(o: Obj, e1: Entry, e2: Entry, c: Cond, db: Db) {
    && o in db.objs && e1 in db.entries && e2 in db.entries && e1 != e2
    && e1.objectId == o.id && e2.objectId == o.id
    && Holds(c, Row(o, Some(e1)), db) && Holds(c, Row(o, Some(e2)), db)
  }

  lemma InFilteredJoin(c: Cond, db: Db, row: Row)
    ensures row in Rows(Filter(Join(Table), c), db) <==>
            && row.obj in db.objs && row.entry.Some? && row.entry.value in db.entries
            && row.entry.value.objectId == row.obj.id && Holds(c, row, db)
  {
    FilterRows(Join(Table), c);
    InInnerJoin(db, row);
  }

  lemma SharedObjectMatchedTwice(c: Cond, db: Db, i: nat, j: nat)
    requires Keyed(db)
    requires var rows := Rows(Filter(Join(Table), c), db); i < j < |rows| && rows[i].obj == rows[j].obj
    ensures var rows := Rows(Filter(Join(Table), c), db);
      && rows[i].entry.Some? && rows[j].entry.Some?
      && TwiceMatched(rows[i].obj, rows[i].entry.value, rows[j].entry.value, c, db)
  {
    var rows := Rows(Filter(Join(Table), c), db);
    JoinedTableDistinct(db);
    FilterRows(Join(Table), c);
    assert rows[i] in rows && rows[j] in rows;
    InFilteredJoin(c, db, rows[i]);
    InFilteredJoin(c, db, rows[j]);
  }

  /** A joined query without a union counts every object once exactly when no
      object is matched through two entries. */
  lemma JoinedCountExact(c: Cond, db: Db)
    requires Keyed(db)
    ensures |Rows(Filter(Join(Table), c), db)| == |Objects(Filter(Join(Table), c), db)| <==>
            forall o, e1, e2 :: !TwiceMatched(o, e1, e2, c, db)
  {
    var rows := Rows(Filter(Join(Table), c), db);
    CountOfRows(rows);
    if i, j :| 0 <= i < j < |rows| && rows[i].obj == rows[j].obj {
      SharedObjectMatchedTwice(c, db, i, j);
    }
    if o, e1, e2 :| TwiceMatched(o, e1, e2, c, db) {
      var r1, r2 := Row(o, Some(e1)), Row(o, Some(e2));
      InFilteredJoin(c, db, r1);
      InFilteredJoin(c, db, r2);
      var i :| 0 <= i < |rows| && rows[i] == r1;
      var j :| 0 <= j < |rows| && rows[j] == r2;
      assert rows[if i < j then i else j].obj == rows[if i < j then j else i].obj;
    }
  }

  /** With `shared=[True]` the count of a scoped query is the number of objects
      exactly when none is shared with the caller both by name and by wildcard
      (or by two such entries). */
  lemma SharedCountExact(ctx: Context, model: Model, hooks: seq<Hook>, added: seq<Cond>, filters: Filters, db: Db)
    requires Keyed(db)
    requires JoinsEntries(ctx, model) && AllWiden(hooks, ctx, model, added) && SharedIs(filters, true)
    ensures BuildQuery(ctx, model, hooks, filters).Ok?
    ensures var q := BuildQuery(ctx, model, hooks, filters).value;
      |Rows(q, db)| == |Objects(q, db)| <==>
      !exists o, e1, e2 :: o in db.objs && SharedBy(o, e1, ctx, db) && SharedBy(o, e2, ctx, db) && e1 != e2
  {
    WideningHooks(hooks, ctx, model, added, None, EntryGrants(ctx));
    var rbac := RunHooks(hooks, ctx, model, None, Some(EntryGrants(ctx))).value.1.value;
    var c := Conj(rbac, EntryShares(ctx));
    JoinedCountExact(c, db);
    forall o, e ensures Holds(c, Row(o, Some(e)), db) <==> SharesWith(e, ctx) {
      HoldsConj(rbac, EntryShares(ctx), Row(o, Some(e)), db);
      EntrySharesMeans(ctx, o, e, db);
    }
    forall o, e1, e2 ensures TwiceMatched(o, e1, e2, c, db) <==>
      o in db.objs && SharedBy(o, e1, ctx, db) && SharedBy(o, e2, ctx, db) && e1 != e2 { }
  }

  ghost predicate SharedBy(o: Obj, e: Entry, ctx: Context, db: Db) {
    e in db.entries && e.objectId == o.id && SharesWith(e, ctx)
  }

  /** The count of a scoped query without the `shared` filter is the number of
      objects the caller owns or is granted, however many entries match. */
  lemma ScopedCountIsVisible(ctx: Context, model: Model, hooks: seq<Hook>, added: seq<Cond>, filters: Filters, db: Db)
    requires Keyed(db)
    requires JoinsEntries(ctx, model) && AllWiden(hooks, ctx, model, added) && NoSharedKey(filters)
    ensures BuildQuery(ctx, model, hooks, filters).Ok?
    ensures |Rows(BuildQuery(ctx, model, hooks, filters).value, db)| ==
            |set o | o in db.objs && (OwnedBy(ctx, o) || Granted(o, ctx, added, db))|
  {
    ScopedQueryShows(ctx, model, hooks, added, filters, db, Obj("", Null, Null));
    var q := BuildQuery(ctx, model, hooks, filters).value;
    BuiltRowsDistinct(ctx, model, hooks, filters, db);
    CountOfBareRows(Rows(q, db));
    forall o ensures o in Objects(q, db) <==> o in db.objs && (OwnedBy(ctx, o) || Granted(o, ctx, added, db)) {
      ScopedQueryShows(ctx, model, hooks, added, filters, db, o);
    }
    assert Objects(q, db) == set o | o in db.objs && (OwnedBy(ctx, o) || Granted(o, ctx, added, db));
  }

  // ---------------------------------------------------------------- failing inputs

  const NETWORK := Model("Network", WithEntries)

  /** One object of the project, shared with everyone and with the project by name. */
  function SharedTwice(id: string, tenant: string, everyone: string, named: string): Db {
    Db([Obj(id, Text(tenant), Null)],
       [Entry(everyone, id, Text(ACCESS_SHARED), Text(WILDCARD)),
        Entry(named, id, Text(ACCESS_SHARED), Text(tenant))], {})
  }

  /** The project's list of unshared objects returns the object, and its count of shared
      ones is two for the one object. */
  lemma SharedObjectListedAndCountedTwice(id: string, tenant: string, everyone: string, named: string)
    requires everyone != named
    ensures var db, ctx := SharedTwice(id, tenant, everyone, named), Context(true, Text(tenant));
            var o := Obj(id, Text(tenant), Null);
            var unshared := BuildQuery(ctx, NETWORK, [], [("shared", [Flag(false)])]);
            var shared := BuildQuery(ctx, NETWORK, [], [("shared", [Flag(true)])]);
      && Keyed(db) && SharedWith(o, ctx, db)
      && unshared.Ok? && o in Objects(unshared.value, db)
      && shared.Ok? && |Rows(shared.value, db)| != |Objects(shared.value, db)|
  {
    var db, ctx := SharedTwice(id, tenant, everyone, named), Context(true, Text(tenant));
    var o := Obj(id, Text(tenant), Null);
    var refusing: Filters, wanting: Filters := [("shared", [Flag(false)])], [("shared", [Flag(true)])];
    assert db.entries[0] in db.entries && db.entries[1] in db.entries && db.objs[0] in db.objs;
    assert SharedBy(o, db.entries[0], ctx, db) && SharedBy(o, db.entries[1], ctx, db);
    ScopedQueryShows(ctx, NETWORK, [], [], [], db, o);
    ScopedUnsharedShows(ctx, NETWORK, [], [], refusing, db);
    SharedCountExact(ctx, NETWORK, [], [], wanting, db);
  }

  // ---------------------------------------------------------------- registration

  predicate NamesDistinct(hooks: seq<NamedHook>) {
    forall i, j :: 0 <= i < j < |hooks| ==> hooks[i].name != hooks[j].name
  }

  ghost predicate Carries(hooks: seq<NamedHook>, name: string, hook: Hook) {
    NamedHook(name, hook) in hooks
  }

  /** Registration keeps names distinct, installs the hook, and touches no other. */
  lemma {:induction false} UpsertInstalls(hooks: seq<NamedHook>, name: string, hook: Hook)
    requires NamesDistinct(hooks)
    ensures NamesDistinct(Upsert(hooks, name, hook))
    ensures forall n, h ::
      Carries(Upsert(hooks, name, hook), n, h) <==> if n == name then h == hook else Carries(hooks, n, h)
  {
    if hooks == [] {
    } else {
      var tail := hooks[1..];
      assert forall n, h :: Carries(hooks, n, h) <==> hooks[0] == NamedHook(n, h) || Carries(tail, n, h);
      assert forall i :: 0 <= i < |tail| ==> tail[i] == hooks[i + 1];
      if hooks[0].name == name {
        var r := [NamedHook(name, hook)] + tail;
        assert forall n, h :: Carries(r, n, h) <==> (n == name && h == hook) || Carries(tail, n, h);
        forall h ensures !Carries(tail, name, h) {
          assert forall i :: 0 <= i < |tail| ==> tail[i].name != name;
        }
      } else {
        UpsertInstalls(tail, name, hook);
        var rest := Upsert(tail, name, hook);
        var r := [hooks[0]] + rest;
        assert forall n, h :: Carries(r, n, h) <==> hooks[0] == NamedHook(n, h) || Carries(rest, n, h);
        forall i | 0 <= i < |rest| ensures rest[i].name != hooks[0].name {
          assert Carries(rest, rest[i].name, rest[i].hook);
          if rest[i].name != name {
            var k :| 0 <= k < |tail| && tail[k] == NamedHook(rest[i].name, rest[i].hook);
            assert hooks[k + 1].name != hooks[0].name;
          }
        }
      }
    }
  }

  /** The builder runs the registered hooks in their order: a new name's hook comes last, a
      known name's takes the place of the old one. */
  lemma {:induction false} RegisteredHooksInOrder(hooks: seq<NamedHook>, name: string, hook: Hook)
    requires NamesDistinct(hooks)
    ensures |HooksOf(hooks)| == |hooks| && forall i :: 0 <= i < |hooks| ==> HooksOf(hooks)[i] == hooks[i].hook
    ensures (forall i :: 0 <= i < |hooks| ==> hooks[i].name != name) ==>
              HooksOf(Upsert(hooks, name, hook)) == HooksOf(hooks) + [hook]
    ensures forall i :: 0 <= i < |hooks| && hooks[i].name == name ==>
              HooksOf(Upsert(hooks, name, hook)) == HooksOf(hooks)[i := hook]
  {
    if hooks != [] {
      var tail := hooks[1..];
      assert forall i :: 0 <= i < |tail| ==> tail[i] == hooks[i + 1];
      RegisteredHooksInOrder(tail, name, hook);
      var after := Upsert(hooks, name, hook);
      if hooks[0].name == name {
        assert HooksOf(after) == HooksOf(hooks)[0 := hook];
      } else {
        var rest := Upsert(tail, name, hook);
        assert HooksOf(after) == [hooks[0].hook] + HooksOf(rest);
        assert HooksOf(hooks) == [hooks[0].hook] + HooksOf(tail);
        forall i | 0 <= i < |hooks| && hooks[i].name == name ensures HooksOf(after) == HooksOf(hooks)[i := hook] {
          assert tail[i - 1].name == name;
        }
      }
    }
  }

  /** Registering a name again leaves one hook of that name, where the first stood. */
  lemma {:induction false} UpsertTwice(hooks: seq<NamedHook>, name: string, first: Hook, second: Hook)
    ensures Upsert(Upsert(hooks, name, first), name, second) == Upsert(hooks, name, second)
  {
    if hooks == [] {
    } else if hooks[0].name == name {
    } else {
      UpsertTwice(hooks[1..], name, first, second);
      var rest := Upsert(hooks[1..], name, first);
      assert ([hooks[0]] + rest)[1..] == rest;
    }
  }
}
