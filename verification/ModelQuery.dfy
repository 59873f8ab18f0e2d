/** The query builder: hook registry, project scoping over RBAC entries, the
    hoisted `shared` filter, and collection filters. */
module ModelQuery {
  import opened Prelude
  import opened Sql

  const ACCESS_SHARED := "access_as_shared"
  const ACCESS_READONLY := "access_as_readonly"
  const WILDCARD := "*"

  /** What the builder asks of a model class: RBAC entries, a `shared` column, or neither. */
  datatype Kind = WithEntries | WithSharedColumn | OwnedOnly

  datatype Model = Model(name: string, kind: Kind)

  /** `scoped`: the caller is limited to its project on this model. */
  datatype Context = Context(scoped: bool, tenant: Value)

  datatype Error = IndexError | HookError | NoResultFound | MultipleResultsFound

  /** A filter dictionary in its iteration order. */
  type Filters = f: seq<(string, seq<Value>)> |
    forall i, j :: 0 <= i < j < |f| ==> f[i].0 != f[j].0
    witness []

  type FilterHook = (Context, Model, Option<Cond>) -> Result<Option<Cond>, Error>

  /** The condition, if any, that a result filter adds to the query. */
  type ResultHook = Filters -> Option<Cond>

  datatype Hook = Hook(filter: Option<FilterHook>, rbacFilter: Option<FilterHook>, resultFilter: Option<ResultHook>)

  datatype NamedHook = NamedHook(name: string, hook: Hook)

  // ---------------------------------------------------------------- conditions

  function Owned(ctx: Context): Cond {
    Equals(Project, ctx.tenant)
  }

  function ForCaller(ctx: Context): Cond {
    Disj(Equals(EntryTarget, ctx.tenant), Equals(EntryTarget, Text(WILDCARD)))
  }

  function EntryGrants(ctx: Context): Cond {
    Conj(OneOf(EntryAction, [Text(ACCESS_SHARED), Text(ACCESS_READONLY)]), ForCaller(ctx))
  }

  function EntryShares(ctx: Context): Cond {
    Conj(Equals(EntryAction, Text(ACCESS_SHARED)),
         Disj(Equals(EntryTarget, Text(WILDCARD)), Equals(EntryTarget, ctx.tenant)))
  }

  function Truthy(v: Value): bool {
    match v case Null => false case Text(s) => s != "" case Flag(b) => b
  }

  // ---------------------------------------------------------------- specification

  function Lookup(filters: seq<(string, seq<Value>)>, key: string): (r: Option<seq<Value>>)
    ensures r.None? <==> forall kv :: kv in filters ==> kv.0 != key
    ensures r.Some? ==> (key, r.value) in filters
  {
    if filters == [] then None
    else if filters[0].0 == key then Some(filters[0].1)
    else Lookup(filters[1..], key)
  }

  function RunHook(hook: Option<FilterHook>, ctx: Context, model: Model, c: Option<Cond>): Result<Option<Cond>, Error> {
    if hook.None? then Ok(c) else hook.value(ctx, model, c)
  }

  /** Every hook in turn transforms the model filter and the RBAC filter. */
  function RunHooks(hooks: seq<Hook>, ctx: Context, model: Model, own: Option<Cond>, rbac: Option<Cond>)
    : Result<(Option<Cond>, Option<Cond>), Error>
  {
    if hooks == [] then Ok((own, rbac))
    else
      var own' :- RunHook(hooks[0].filter, ctx, model, own);
      var rbac' :- RunHook(hooks[0].rbacFilter, ctx, model, rbac);
      RunHooks(hooks[1..], ctx, model, own', rbac')
  }

  predicate JoinsEntries(ctx: Context, model: Model) {
    ctx.scoped && model.kind == WithEntries
  }

  function ScopeFilter(ctx: Context, model: Model): Option<Cond> {
    if !ctx.scoped then None
    else match model.kind
      case WithEntries => None
      case WithSharedColumn => Some(Disj(Owned(ctx), Equals(Shared, Flag(true))))
      case OwnedOnly => Some(Owned(ctx))
  }

  function AndAlso(c: Option<Cond>, d: Cond): Cond {
    if c.Some? then Conj(c.value, d) else d
  }

  function Narrow(q: Query, c: Option<Cond>): Query {
    if c.Some? then Filter(q, c.value) else q
  }

  function WithOwnRows(q: Query, own: bool, ctx: Context): Query {
    if own then Union(q, Filter(Table, Owned(ctx))) else q
  }

  /** The query for a caller, a model, its hooks and the collection filters. */
  function BuildQuery(ctx: Context, model: Model, hooks: seq<Hook>, filters: Filters): Result<Query, Error> {
    var joined := JoinsEntries(ctx, model);
    var base := if joined then Join(Table) else Table;
    var hooked :- RunHooks(hooks, ctx, model, ScopeFilter(ctx, model), if joined then Some(EntryGrants(ctx)) else None);
    var wanted := if model.kind == WithEntries then Lookup(filters, "shared") else None;
    if wanted.None? then
      Ok(Narrow(WithOwnRows(Narrow(base, hooked.1), joined, ctx), hooked.0))
    else if wanted.value == [] then
      Err(IndexError)
    else if Truthy(wanted.value[0]) then
      var base' := if joined then base else Filter(Join(Table), EntryShares(ctx));
      Ok(Narrow(Filter(base', AndAlso(hooked.1, EntryShares(ctx))), hooked.0))
    else
      var unshared := AndAlso(hooked.1, Negate(IdInEntries(EntryShares(ctx))));
      Ok(Narrow(WithOwnRows(Filter(base, unshared), joined, ctx), hooked.0))
  }

  /** A registration replaces the hook of that name where it stands, or comes last. */
  function Upsert(hooks: seq<NamedHook>, name: string, hook: Hook): seq<NamedHook> {
    if hooks == [] then [NamedHook(name, hook)]
    else if hooks[0].name == name then [NamedHook(name, hook)] + hooks[1..]
    else [hooks[0]] + Upsert(hooks[1..], name, hook)
  }

  function HooksOf(hooks: seq<NamedHook>): seq<Hook> {
    seq(|hooks|, i requires 0 <= i < |hooks| => hooks[i].hook)
  }

  function ColumnOf(model: Model, key: string): Option<Column> {
    if key == "id" then Some(ObjectId)
    else if key == "project_id" || key == "tenant_id" then Some(Project)
    else if key == "shared" && model.kind == WithSharedColumn then Some(Shared)
    else None
  }

  /** A row passes the collection filters: the id, project and shared values given, None
      among them standing for NULL, hold its own; other keys restrict nothing; and every
      result filter agrees. */
  ghost predicate Passes(row: Row, db: Db, model: Model, hooks: seq<Hook>, filters: Filters) {
    && (forall vs :: ("id", vs) in filters ==> Text(row.obj.id) in vs)
    && (forall vs :: ("project_id", vs) in filters || ("tenant_id", vs) in filters ==> row.obj.project in vs)
    && (forall vs :: ("shared", vs) in filters && model.kind == WithSharedColumn ==> row.obj.shared in vs)
    && (filters != [] ==> forall i :: 0 <= i < |hooks| ==> PassesResult(row, db, hooks[i], filters))
  }

  /** Column by column, as the filters are applied. */
  lemma PassesByColumn(row: Row, db: Db, model: Model, hooks: seq<Hook>, filters: Filters)
    ensures Passes(row, db, model, hooks, filters) <==>
            && (forall i :: 0 <= i < |filters| ==> PassesColumn(row, model, filters[i]))
            && (filters != [] ==> forall i :: 0 <= i < |hooks| ==> PassesResult(row, db, hooks[i], filters))
  {
    if forall i :: 0 <= i < |filters| ==> PassesColumn(row, model, filters[i]) {
      forall kv | kv in filters ensures PassesColumn(row, model, kv) {
        var i :| 0 <= i < |filters| && filters[i] == kv;
      }
      assert forall vs :: ("id", vs) in filters ==> PassesColumn(row, model, ("id", vs));
      assert forall vs :: ("project_id", vs) in filters ==> PassesColumn(row, model, ("project_id", vs));
      assert forall vs :: ("tenant_id", vs) in filters ==> PassesColumn(row, model, ("tenant_id", vs));
      assert forall vs :: ("shared", vs) in filters ==> PassesColumn(row, model, ("shared", vs));
    } else {
      var i :| 0 <= i < |filters| && !PassesColumn(row, model, filters[i]);
      assert filters[i] == (filters[i].0, filters[i].1) && filters[i] in filters;
    }
  }

  ghost predicate PassesColumn(row: Row, model: Model, kv: (string, seq<Value>)) {
    var col := ColumnOf(model, kv.0);
    col.Some? ==> ValueOf(row, col.value) in kv.1
  }

  ghost predicate PassesResult(row: Row, db: Db, hook: Hook, filters: Filters) {
    hook.resultFilter.Some? ==>
      var c := hook.resultFilter.value(filters);
      c.Some? ==> Holds(c.value, row, db)
  }

  // ---------------------------------------------------------------- the module

  function EqualsAny(col: Column, vs: seq<Value>): Cond
    requires vs != []
  {
    if |vs| == 1 then Equals(col, vs[0]) else Disj(Equals(col, vs[0]), EqualsAny(col, vs[1..]))
  }

  /** IN has no NULL operand, so a list with None becomes a disjunction. */
  function ColumnFilter(col: Column, vs: seq<Value>): Cond
    requires vs != []
  {
    if Null in vs then EqualsAny(col, vs) else OneOf(col, vs)
  }

  lemma {:induction false} EqualsAnyIsMembership(col: Column, vs: seq<Value>, row: Row, db: Db)
    requires vs != []
    ensures Holds(EqualsAny(col, vs), row, db) <==> ValueOf(row, col) in vs
  {
    var x := ValueOf(row, col);
    assert x in vs <==> x == vs[0] || x in vs[1..];
    assert Holds(Equals(col, vs[0]), row, db) <==> x == vs[0];
    if |vs| > 1 {
      EqualsAnyIsMembership(col, vs[1..], row, db);
      HoldsDisj(Equals(col, vs[0]), EqualsAny(col, vs[1..]), row, db);
    }
  }

  /** Both renderings of a value list accept exactly the listed values. */
  lemma ColumnFilterIsMembership(col: Column, vs: seq<Value>, row: Row, db: Db)
    requires vs != []
    ensures Holds(ColumnFilter(col, vs), row, db) <==> ValueOf(row, col) in vs
  {
    EqualsAnyIsMembership(col, vs, row, db);
  }

  class Registry {
    var modelHooks: map<Model, seq<NamedHook>>

    constructor ()
      ensures modelHooks == map[]
    {
      modelHooks := map[];
    }

    function Named(model: Model): seq<NamedHook>
      reads this
    {
      if model in modelHooks then modelHooks[model] else []
    }

    function GetHooks(model: Model): seq<Hook>
      reads this
    {
      HooksOf(Named(model))
    }

    method RegisterHook(model: Model, name: string, hook: Hook)
      modifies this
      ensures modelHooks == old(modelHooks)[model := Upsert(old(Named(model)), name, hook)]
    {
      if model !in modelHooks {
        modelHooks := modelHooks[model := []];
      }
      var named := modelHooks[model];
      ghost var before := named;
      var i := 0;
      while i < |named| && named[i].name != name
        invariant 0 <= i <= |named|
        invariant Upsert(named, name, hook) == named[..i] + Upsert(named[i..], name, hook)
      {
        assert named[i..] == [named[i]] + named[i + 1..];
        i := i + 1;
      }
      if i < |named| {
        named := named[i := NamedHook(name, hook)];
      } else {
        named := named + [NamedHook(name, hook)];
      }
      assert named == Upsert(before, name, hook);
      modelHooks := modelHooks[model := named];
    }

    method QueryWithHooks(ctx: Context, model: Model, hoisted: Filters) returns (r: Result<Query, Error>)
      ensures r == BuildQuery(ctx, model, GetHooks(model), hoisted)
    {
      var query := Table;
      var queryToUnion: Option<Query> := None;
      var queryFilter: Option<Cond> := None;
      var rbacQueryFilter: Option<Cond> := None;
      var modelQueryFilter: Option<Cond> := None;
      if ctx.scoped {
        if model.kind == WithEntries {
          query := Join(query);
          queryToUnion := Some(Table);
          modelQueryFilter := Some(Owned(ctx));
          rbacQueryFilter := Some(EntryGrants(ctx));
        } else if model.kind == WithSharedColumn {
          queryFilter := Some(Disj(Owned(ctx), Equals(Shared, Flag(true))));
        } else {
          queryFilter := Some(Owned(ctx));
        }
      }
      var hooks := GetHooks(model);
      ghost var all := RunHooks(hooks, ctx, model, queryFilter, rbacQueryFilter);
      var i := 0;
      while i < |hooks|
        invariant 0 <= i <= |hooks|
        invariant all == RunHooks(hooks[i..], ctx, model, queryFilter, rbacQueryFilter)
      {
        if hooks[i].filter.Some? {
          var filtered := hooks[i].filter.value(ctx, model, queryFilter);
          if filtered.Err? { return Err(filtered.error); }
          queryFilter := filtered.value;
        }
        if hooks[i].rbacFilter.Some? {
          var filtered := hooks[i].rbacFilter.value(ctx, model, rbacQueryFilter);
          if filtered.Err? { return Err(filtered.error); }
          rbacQueryFilter := filtered.value;
        }
        i := i + 1;
      }
      ghost var hookedRbac := rbacQueryFilter;
      ghost var base := query;
      var j := 0;
      while j < |hoisted|
        invariant 0 <= j <= |hoisted|
        invariant model.kind != WithEntries || Lookup(hoisted, "shared") == Lookup(hoisted[j..], "shared") ==>
                    query == base && rbacQueryFilter == hookedRbac && queryToUnion.Some? == JoinsEntries(ctx, model)
        invariant model.kind == WithEntries && Lookup(hoisted, "shared") != Lookup(hoisted[j..], "shared") ==>
                    && Lookup(hoisted[j..], "shared") == None
                    && Hoisted(ctx, base, hookedRbac, Lookup(hoisted, "shared"), query, queryToUnion, rbacQueryFilter)
        invariant queryToUnion.Some? ==> queryToUnion == Some(Table) && modelQueryFilter == Some(Owned(ctx))
      {
        var (key, value) := hoisted[j];
        assert hoisted[j..][1..] == hoisted[j + 1..];
        if key == "shared" && model.kind == WithEntries {
          AfterKey(hoisted, j, key);
          var isShared := EntryShares(ctx);
          if value == [] {
            return Err(IndexError);
          } else if !Truthy(value[0]) {
            isShared := Negate(IdInEntries(isShared));
          } else if !ctx.scoped {
            query := Filter(Join(query), isShared);
          } else {
            queryToUnion := None;
          }
          rbacQueryFilter := Some(AndAlso(rbacQueryFilter, isShared));
        }
        j := j + 1;
      }
      if rbacQueryFilter.Some? {
        query := Filter(query, rbacQueryFilter.value);
      }
      if queryToUnion.Some? {
        var own := queryToUnion.value;
        if modelQueryFilter.Some? {
          own := Filter(own, modelQueryFilter.value);
        }
        query := Union(query, own);
      }
      if queryFilter.Some? {
        query := Filter(query, queryFilter.value);
      }
      return Ok(query);
    }

    method ApplyFilters(query: Query, model: Model, filters: Filters) returns (r: Query)
      ensures KeepsPassing(r, query, model, GetHooks(model), filters)
    {
      r := query;
      if filters == [] {
        return;
      }
      var hooks := GetHooks(model);
      var i := 0;
      while i < |filters|
        invariant 0 <= i <= |filters|
        invariant Restricts(r, query, model, filters, hooks, i, 0)
      {
        var (key, value) := filters[i];
        var column := ColumnOf(model, key);
        if column.Some? {
          if value == [] {
            NeverPasses(r, query, model, filters, hooks, i);
            r := Filter(r, Never);
            return;
          }
          RestrictColumn(r, query, model, filters, hooks, i);
          r := Filter(r, ColumnFilter(column.value, value));
        } else {
          SkipColumn(r, query, model, filters, hooks, i);
        }
        i := i + 1;
      }
      var j := 0;
      while j < |hooks|
        invariant 0 <= j <= |hooks|
        invariant Restricts(r, query, model, filters, hooks, |filters|, j)
      {
        if hooks[j].resultFilter.Some? {
          var c := hooks[j].resultFilter.value(filters);
          if c.Some? {
            RestrictResult(r, query, model, filters, hooks, j);
            r := Filter(r, c.value);
          } else {
            SkipResult(r, query, model, filters, hooks, j);
          }
        } else {
          SkipResult(r, query, model, filters, hooks, j);
        }
        j := j + 1;
      }
      RestrictedKeepsPassing(r, query, model, filters, hooks);
    }

    method GetCollectionQuery(ctx: Context, model: Model, filters: Filters) returns (r: Result<Query, Error>)
      ensures r.Err? ==> r == BuildQuery(ctx, model, GetHooks(model), filters)
      ensures r.Ok? ==> var built := BuildQuery(ctx, model, GetHooks(model), filters);
                built.Ok? && KeepsPassing(r.value, built.value, model, GetHooks(model), filters)
    {
      var built := QueryWithHooks(ctx, model, filters);
      if built.Err? {
        return built;
      }
      var filtered := ApplyFilters(built.value, model, filters);
      return Ok(filtered);
    }

    /** `one()`: the single row of that id. Found exactly if the unfiltered query returns
        such an object, and never twice. */
    method GetById(ctx: Context, model: Model, objectId: string, db: Db) returns (r: Result<Obj, Error>)
      requires Keyed(db)
      ensures var built := BuildQuery(ctx, model, GetHooks(model), []);
        && (built.Err? ==> r == Err(built.error))
        && (built.Ok? && r.Err? ==>
              r.error == NoResultFound && forall o :: o in Objects(built.value, db) ==> o.id != objectId)
        && (r.Ok? ==> built.Ok? && r.value in Objects(built.value, db) && r.value.id == objectId)
    {
      var built := QueryWithHooks(ctx, model, []);
      if built.Err? {
        return Err(built.error);
      }
      var rows := Rows(Filter(built.value, Equals(ObjectId, Text(objectId))), db);
      BuiltRowsDistinct(ctx, model, GetHooks(model), [], db);
      OneOfEachId(built.value, objectId, db);
      if rows == [] {
        return Err(NoResultFound);
      }
      if |rows| > 1 {
        return Err(MultipleResultsFound);
      }
      return Ok(rows[0].obj);
    }

    /** The count is that of the selected rows: one per visible object unless `shared`
        was asked for, when an object counts once per entry that shares it. */
    method GetCollectionCount(ctx: Context, model: Model, filters: Filters, db: Db) returns (r: Result<nat, Error>)
      requires Keyed(db)
      ensures r.Ok? <==> BuildQuery(ctx, model, GetHooks(model), filters).Ok?
      ensures r.Ok? ==> r.value == |SelectedRows(db, ctx, model, GetHooks(model), filters)|
      ensures r.Ok? && !WantsShared(model, filters) ==>
                r.value == |SelectedObjects(db, ctx, model, GetHooks(model), filters)|
    {
      var query := GetCollectionQuery(ctx, model, filters);
      if query.Err? {
        return Err(query.error);
      }
      BuiltRowsDistinct(ctx, model, GetHooks(model), filters, db);
      SizeOfElements(Rows(query.value, db));
      assert Elements(Rows(query.value, db)) == SelectedRows(db, ctx, model, GetHooks(model), filters);
      if !WantsShared(model, filters) {
        CountOfBareRows(Rows(query.value, db));
        assert SelectedObjects(db, ctx, model, GetHooks(model), filters) ==
               set row | row in Rows(query.value, db) :: row.obj;
      }
      return Ok(|Rows(query.value, db)|);
    }
  }

  /** `r` returns the rows of `q` that pass the filters, and repeats none that `q` does not. */
  ghost predicate KeepsPassing(r: Query, q: Query, model: Model, hooks: seq<Hook>, filters: Filters) {
    && (forall db, row :: row in Rows(r, db) <==> row in Rows(q, db) && Passes(row, db, model, hooks, filters))
    && (forall db :: NoDup(Rows(q, db)) ==> NoDup(Rows(r, db)))
  }

  /** `r` returns the rows of `q` that pass the first `i` columns and `j` result filters. */
  ghost predicate Restricts(r: Query, q: Query, model: Model, filters: Filters, hooks: seq<Hook>, i: nat, j: nat)
    requires i <= |filters| && j <= |hooks|
  {
    && (forall db, row :: row in Rows(r, db) <==>
          && row in Rows(q, db)
          && (forall k :: 0 <= k < i ==> PassesColumn(row, model, filters[k]))
          && (forall k :: 0 <= k < j ==> PassesResult(row, db, hooks[k], filters)))
    && (forall db :: NoDup(Rows(q, db)) ==> NoDup(Rows(r, db)))
  }

  lemma RestrictColumn(r: Query, q: Query, model: Model, filters: Filters, hooks: seq<Hook>, i: nat)
    requires i < |filters| && Restricts(r, q, model, filters, hooks, i, 0)
    requires ColumnOf(model, filters[i].0).Some? && filters[i].1 != []
    ensures var c := ColumnFilter(ColumnOf(model, filters[i].0).value, filters[i].1);
      Restricts(Filter(r, c), q, model, filters, hooks, i + 1, 0)
  {
    var (key, value) := filters[i];
    var column := ColumnOf(model, key).value;
    var c := ColumnFilter(column, value);
    FilterRows(r, c);
    forall db, row ensures Holds(c, row, db) <==> PassesColumn(row, model, filters[i]) {
      ColumnFilterIsMembership(column, value, row, db);
    }
  }

  lemma SkipColumn(r: Query, q: Query, model: Model, filters: Filters, hooks: seq<Hook>, i: nat)
    requires i < |filters| && Restricts(r, q, model, filters, hooks, i, 0)
    requires ColumnOf(model, filters[i].0).None?
    ensures Restricts(r, q, model, filters, hooks, i + 1, 0)
  {
    forall row ensures PassesColumn(row, model, filters[i]) {
    }
  }

  lemma SkipResult(r: Query, q: Query, model: Model, filters: Filters, hooks: seq<Hook>, j: nat)
    requires j < |hooks| && Restricts(r, q, model, filters, hooks, |filters|, j)
    requires hooks[j].resultFilter.None? || hooks[j].resultFilter.value(filters).None?
    ensures Restricts(r, q, model, filters, hooks, |filters|, j + 1)
  {
  }

  lemma RestrictResult(r: Query, q: Query, model: Model, filters: Filters, hooks: seq<Hook>, j: nat)
    requires j < |hooks| && Restricts(r, q, model, filters, hooks, |filters|, j)
    requires hooks[j].resultFilter.Some? && hooks[j].resultFilter.value(filters).Some?
    ensures var c := hooks[j].resultFilter.value(filters).value;
      Restricts(Filter(r, c), q, model, filters, hooks, |filters|, j + 1)
  {
    FilterRows(r, hooks[j].resultFilter.value(filters).value);
  }

  lemma RestrictedKeepsPassing(r: Query, q: Query, model: Model, filters: Filters, hooks: seq<Hook>)
    requires filters != [] && Restricts(r, q, model, filters, hooks, |filters|, |hooks|)
    ensures KeepsPassing(r, q, model, hooks, filters)
  {
    forall db, row ensures row in Rows(r, db) <==> row in Rows(q, db) && Passes(row, db, model, hooks, filters) {
      PassesByColumn(row, db, model, hooks, filters);
    }
  }

  lemma NeverPasses(r: Query, q: Query, model: Model, filters: Filters, hooks: seq<Hook>, i: nat)
    requires i < |filters| && Restricts(r, q, model, filters, hooks, i, 0)
    requires ColumnOf(model, filters[i].0).Some? && filters[i].1 == []
    ensures KeepsPassing(Filter(r, Never), q, model, hooks, filters)
  {
    FilterRows(r, Never);
    forall db, row ensures row !in Rows(Filter(r, Never), db) && !Passes(row, db, model, hooks, filters) {
      assert !PassesColumn(row, model, filters[i]);
      PassesByColumn(row, db, model, hooks, filters);
    }
  }

  /** The rows a collection is made of. */
  ghost function SelectedRows(db: Db, ctx: Context, model: Model, hooks: seq<Hook>, filters: Filters): set<Row>
    requires BuildQuery(ctx, model, hooks, filters).Ok?
  {
    set row | row in Rows(BuildQuery(ctx, model, hooks, filters).value, db) && Passes(row, db, model, hooks, filters)
  }

  /** The objects a collection must list. */
  ghost function SelectedObjects(db: Db, ctx: Context, model: Model, hooks: seq<Hook>, filters: Filters): set<Obj>
    requires BuildQuery(ctx, model, hooks, filters).Ok?
  {
    set row | row in SelectedRows(db, ctx, model, hooks, filters) :: row.obj
  }

  predicate WantsShared(model: Model, filters: Filters) {
    var wanted := Lookup(filters, "shared");
    model.kind == WithEntries && wanted.Some? && wanted.value != [] && Truthy(wanted.value[0])
  }

  lemma {:induction false} WhereKeepsDistinct(rows: seq<Row>, c: Cond, db: Db)
    requires NoDup(rows)
    ensures NoDup(Where(rows, c, db))
  {
    if rows != [] {
      forall i, j | 0 <= i < j < |rows[1..]| ensures rows[1..][i] != rows[1..][j] {
        assert rows[i + 1] != rows[j + 1];
      }
      WhereKeepsDistinct(rows[1..], c, db);
      var rest := Where(rows[1..], c, db);
      assert rows[0] !in rows[1..];
      forall j | 0 <= j < |rest| ensures rest[j] != rows[0] {
        assert rest[j] in rest;
      }
    }
  }

  lemma FilterRows(q: Query, c: Cond)
    ensures forall db, row :: row in Rows(Filter(q, c), db) <==> row in Rows(q, db) && Holds(c, row, db)
    ensures forall db :: NoDup(Rows(q, db)) ==> NoDup(Rows(Filter(q, c), db))
  {
    forall db | NoDup(Rows(q, db)) ensures NoDup(Rows(Filter(q, c), db)) {
      WhereKeepsDistinct(Rows(q, db), c, db);
    }
  }

  lemma CountOfRows(rows: seq<Row>)
    ensures |rows| == |set row | row in rows :: row.obj| <==>
            forall i, j :: 0 <= i < j < |rows| ==> rows[i].obj != rows[j].obj
  {
    var objs := seq(|rows|, i requires 0 <= i < |rows| => rows[i].obj);
    SizeOfElements(objs);
    assert NoDup(objs) <==> forall i, j :: 0 <= i < j < |rows| ==> rows[i].obj != rows[j].obj by {
      if NoDup(objs) {
        forall i, j | 0 <= i < j < |rows| ensures rows[i].obj != rows[j].obj {
          assert objs[i] != objs[j];
        }
      }
    }
    assert Elements(objs) == set row | row in rows :: row.obj by {
      forall row | row in rows ensures row.obj in objs {
        var i :| 0 <= i < |rows| && rows[i] == row;
        assert objs[i] == row.obj;
      }
    }
  }

  lemma CountOfBareRows(rows: seq<Row>)
    requires NoDup(rows) && forall row :: row in rows ==> row.entry == None
    ensures |rows| == |set row | row in rows :: row.obj|
  {
    CountOfRows(rows);
    forall i, j | 0 <= i < j < |rows| ensures rows[i].obj != rows[j].obj {
      assert rows[i] in rows && rows[j] in rows;
    }
  }

  lemma JoinedTableDistinct(db: Db)
    requires Keyed(db)
    ensures NoDup(Rows(Join(Table), db))
  {
    var base := TableRows(db.objs);
    assert forall i, j :: 0 <= i < j < |base| ==> base[i].obj.id != base[j].obj.id;
    JoinDistinct(base, db.entries);
    assert Rows(Join(Table), db) == JoinRows(base, db.entries, false);
  }

  ghost predicate BareAndDistinct(q: Query, db: Db) {
    NoDup(Rows(q, db)) && forall row :: row in Rows(q, db) ==> row.entry == None
  }

  lemma OneOfEachId(q: Query, objectId: string, db: Db)
    requires Keyed(db) && BareAndDistinct(q, db)
    ensures var rows := Rows(Filter(q, Equals(ObjectId, Text(objectId))), db);
      && |rows| <= 1
      && (rows == [] ==> forall o :: o in Objects(q, db) ==> o.id != objectId)
      && (rows != [] ==> rows[0].obj in Objects(q, db) && rows[0].obj.id == objectId)
  {
    var c := Equals(ObjectId, Text(objectId));
    var rows := Rows(Filter(q, c), db);
    FilterRows(q, c);
    ObjectsFromTable(q, db);
    forall row | row in rows ensures row in Rows(q, db) && row.obj.id == objectId && row.entry == None {
    }
    forall r1, r2 | r1 in rows && r2 in rows ensures r1 == r2 {
      assert r1.obj in Objects(q, db) && r2.obj in Objects(q, db);
    }
    SizeOfElements(rows);
    if rows != [] {
      assert rows[0] in rows;
      assert Elements(rows) == {rows[0]};
    }
    forall o | o in Objects(q, db) && o.id == objectId ensures rows != [] {
      var row :| row in Rows(q, db) && row.obj == o;
      assert row in rows;
    }
  }

  lemma NarrowKeepsDistinct(q: Query, c: Option<Cond>, db: Db)
    requires BareAndDistinct(q, db)
    ensures BareAndDistinct(Narrow(q, c), db)
  {
    if c.Some? { FilterRows(q, c.value); }
  }

  lemma OwnRowsMakeDistinct(q: Query, own: bool, ctx: Context, db: Db)
    requires own || BareAndDistinct(q, db)
    ensures BareAndDistinct(WithOwnRows(q, own, ctx), db)
  {
  }

  lemma BareRowsDistinct(ctx: Context, model: Model, hooks: seq<Hook>, filters: Filters, db: Db)
    requires Keyed(db)
    requires BuildQuery(ctx, model, hooks, filters).Ok? && !WantsShared(model, filters)
    ensures BareAndDistinct(BuildQuery(ctx, model, hooks, filters).value, db)
  {
    var joined := JoinsEntries(ctx, model);
    var base := if joined then Join(Table) else Table;
    var granted := if joined then Some(EntryGrants(ctx)) else None;
    var hooked := RunHooks(hooks, ctx, model, ScopeFilter(ctx, model), granted).value;
    var wanted := if model.kind == WithEntries then Lookup(filters, "shared") else None;
    var rbac := if wanted.None? then hooked.1 else Some(AndAlso(hooked.1, Negate(IdInEntries(EntryShares(ctx)))));
    if !joined {
      assert BareAndDistinct(Table, db);
      NarrowKeepsDistinct(base, rbac, db);
    }
    OwnRowsMakeDistinct(Narrow(base, rbac), joined, ctx, db);
    NarrowKeepsDistinct(WithOwnRows(Narrow(base, rbac), joined, ctx), hooked.0, db);
  }

  lemma SharedRowsDistinct(ctx: Context, model: Model, hooks: seq<Hook>, filters: Filters, db: Db)
    requires Keyed(db)
    requires BuildQuery(ctx, model, hooks, filters).Ok? && WantsShared(model, filters)
    ensures NoDup(Rows(BuildQuery(ctx, model, hooks, filters).value, db))
  {
    var joined := JoinsEntries(ctx, model);
    var base := if joined then Join(Table) else Table;
    var rbac := if joined then Some(EntryGrants(ctx)) else None;
    var hooked := RunHooks(hooks, ctx, model, ScopeFilter(ctx, model), rbac).value;
    var base' := if joined then base else Filter(Join(Table), EntryShares(ctx));
    JoinedTableDistinct(db);
    FilterRows(Join(Table), EntryShares(ctx));
    var shared := Filter(base', AndAlso(hooked.1, EntryShares(ctx)));
    FilterRows(base', AndAlso(hooked.1, EntryShares(ctx)));
    if hooked.0.Some? { FilterRows(shared, hooked.0.value); }
  }

  /** A built query never returns a row twice, and unless `shared` was asked for no object twice. */
  lemma BuiltRowsDistinct(ctx: Context, model: Model, hooks: seq<Hook>, filters: Filters, db: Db)
    requires Keyed(db)
    requires BuildQuery(ctx, model, hooks, filters).Ok?
    ensures NoDup(Rows(BuildQuery(ctx, model, hooks, filters).value, db))
    ensures !WantsShared(model, filters) ==> BareAndDistinct(BuildQuery(ctx, model, hooks, filters).value, db)
  {
    if WantsShared(model, filters) {
      SharedRowsDistinct(ctx, model, hooks, filters, db);
    } else {
      BareRowsDistinct(ctx, model, hooks, filters, db);
    }
  }

  /** The builder's state once the `shared` key has been handled. */
  ghost predicate Hoisted(ctx: Context, base: Query, hooked: Option<Cond>, wanted: Option<seq<Value>>,
                          query: Query, queryToUnion: Option<Query>, rbac: Option<Cond>)
  {
    && wanted.Some? && wanted.value != []
    && (if Truthy(wanted.value[0]) then
          && query == (if ctx.scoped then base else Filter(Join(base), EntryShares(ctx)))
          && queryToUnion == None
          && rbac == Some(AndAlso(hooked, EntryShares(ctx)))
        else
          && query == base
          && queryToUnion.Some? == ctx.scoped
          && rbac == Some(AndAlso(hooked, Negate(IdInEntries(EntryShares(ctx))))))
  }

  lemma AfterKey(filters: Filters, j: nat, key: string)
    requires j < |filters| && filters[j].0 == key
    ensures Lookup(filters, key) == Some(filters[j].1)
    ensures Lookup(filters[j..], key) == Some(filters[j].1)
    ensures Lookup(filters[j + 1..], key) == None
  {
  }
}
