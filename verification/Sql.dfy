/** A small relational algebra: the conditions and queries that the model-query
    module builds, and their meaning over finite tables with NULLs and
    three-valued logic. */
module Sql {
  import opened Prelude

  datatype Value = Null | Text(s: string) | Flag(b: bool)

  datatype Truth = True | False | Unknown

  /** A row of the queried model. `id` is its primary key; the project may be NULL. */
  datatype Obj = Obj(id: string, project: Value, shared: Value)

  /** A row of the model's RBAC table. `objectId` refers to `Obj.id`. */
  datatype Entry = Entry(id: string, objectId: string, action: Value, target: Value)

  /** A joined row. Without an entry every entry column reads NULL. */
  datatype Row = Row(obj: Obj, entry: Option<Entry>)

  /** The tables. `externals` are the ids present in the external-network table. */
  datatype Db = Db(objs: seq<Obj>, entries: seq<Entry>, externals: set<string>)

  ghost predicate Keyed(db: Db) {
    && (forall i, j :: 0 <= i < j < |db.objs| ==> db.objs[i].id != db.objs[j].id)
    && (forall i, j :: 0 <= i < j < |db.entries| ==> db.entries[i].id != db.entries[j].id)
  }

  datatype Column = ObjectId | Project | Shared | EntryAction | EntryTarget

  function ValueOf(row: Row, col: Column): Value {
    match col
    case ObjectId => Text(row.obj.id)
    case Project => row.obj.project
    case Shared => row.obj.shared
    case EntryAction => if row.entry.Some? then row.entry.value.action else Null
    case EntryTarget => if row.entry.Some? then row.entry.value.target else Null
  }

  datatype Cond =
    | Never
    | Equals(col: Column, v: Value)
    | OneOf(col: Column, vs: seq<Value>)
    | IdInEntries(where: Cond)
    | HasExternal
    | Conj(l: Cond, r: Cond)
    | Disj(l: Cond, r: Cond)
    | Negate(c: Cond)

  function And3(a: Truth, b: Truth): Truth {
    if a == False || b == False then False else if a == True && b == True then True else Unknown
  }

  function Or3(a: Truth, b: Truth): Truth {
    if a == True || b == True then True else if a == False && b == False then False else Unknown
  }

  function Not3(a: Truth): Truth {
    match a case True => False case False => True case Unknown => Unknown
  }

  /** `column == v`; a None operand is rendered IS NULL. */
  function Compare(x: Value, v: Value): Truth {
    if v == Null then (if x == Null then True else False)
    else if x == Null then Unknown
    else if x == v then True else False
  }

  /** `x IN (vs)`. */
  function InList(x: Value, vs: seq<Value>): Truth {
    if vs == [] then False
    else if x == Null then Unknown
    else if x in vs then True
    else if Null in vs then Unknown else False
  }

  function Eval(c: Cond, row: Row, db: Db): Truth {
    match c
    case Never => False
    case Equals(col, v) => Compare(ValueOf(row, col), v)
    case OneOf(col, vs) => InList(ValueOf(row, col), vs)
    case IdInEntries(where) =>
      if exists e :: e in db.entries && e.objectId == row.obj.id && Eval(where, Row(row.obj, Some(e)), db) == True
      then True else False
    case HasExternal => if row.obj.id in db.externals then True else False
    case Conj(l, r) => And3(Eval(l, row, db), Eval(r, row, db))
    case Disj(l, r) => Or3(Eval(l, row, db), Eval(r, row, db))
    case Negate(n) => Not3(Eval(n, row, db))
  }

  /** WHERE keeps a row only when its condition is true, not when it is unknown. */
  predicate Holds(c: Cond, row: Row, db: Db) {
    Eval(c, row, db) == True
  }

  lemma HoldsConj(l: Cond, r: Cond, row: Row, db: Db)
    ensures Holds(Conj(l, r), row, db) <==> Holds(l, row, db) && Holds(r, row, db)
  {
  }

  lemma HoldsDisj(l: Cond, r: Cond, row: Row, db: Db)
    ensures Holds(Disj(l, r), row, db) <==> Holds(l, row, db) || Holds(r, row, db)
  {
  }

  datatype Query =
    | Table
    | Join(q: Query)
    | OuterJoin(q: Query)
    | Filter(q: Query, c: Cond)
    | Union(l: Query, r: Query)

  /** The rows a query returns, repetitions included. */
  function Rows(q: Query, db: Db): seq<Row> {
    match q
    case Table => TableRows(db.objs)
    case Join(q) => JoinRows(Rows(q, db), db.entries, false)
    case OuterJoin(q) => JoinRows(Rows(q, db), db.entries, true)
    case Filter(q, c) => Where(Rows(q, db), c, db)
    case Union(l, r) => KeepFirst(ModelColumns(Rows(l, db) + Rows(r, db)))
  }

  function TableRows(objs: seq<Obj>): (r: seq<Row>)
    ensures |r| == |objs| && forall i :: 0 <= i < |r| ==> r[i] == Row(objs[i], None)
  {
    seq(|objs|, i requires 0 <= i < |objs| => Row(objs[i], None))
  }

  /** UNION selects the model's columns only. */
  function ModelColumns(rows: seq<Row>): (r: seq<Row>)
    ensures |r| == |rows| && forall i :: 0 <= i < |r| ==> r[i] == Row(rows[i].obj, None)
  {
    seq(|rows|, i requires 0 <= i < |rows| => Row(rows[i].obj, None))
  }

  /** The entries of one object. */
  function EntriesOf(o: Obj, entries: seq<Entry>): (r: seq<Row>)
    ensures forall row :: row in r <==>
      row.obj == o && row.entry.Some? && row.entry.value in entries && row.entry.value.objectId == o.id
  {
    if entries == [] then []
    else
      var head := if entries[0].objectId == o.id then [Row(o, Some(entries[0]))] else [];
      head + EntriesOf(o, entries[1..])
  }

  function JoinRows(rows: seq<Row>, entries: seq<Entry>, outer: bool): seq<Row> {
    if rows == [] then []
    else
      var matched := EntriesOf(rows[0].obj, entries);
      (if matched == [] && outer then [Row(rows[0].obj, None)] else matched) + JoinRows(rows[1..], entries, outer)
  }

  function Where(rows: seq<Row>, c: Cond, db: Db): (r: seq<Row>)
    ensures forall row :: row in r <==> row in rows && Holds(c, row, db)
  {
    if rows == [] then []
    else (if Holds(c, rows[0], db) then [rows[0]] else []) + Where(rows[1..], c, db)
  }

  /** The objects a query returns, each once. */
  ghost function Objects(q: Query, db: Db): set<Obj> {
    set row | row in Rows(q, db) :: row.obj
  }

  predicate HasEntry(o: Obj, db: Db) {
    exists e :: e in db.entries && e.objectId == o.id
  }

  lemma {:induction false} InJoin(rows: seq<Row>, entries: seq<Entry>, outer: bool, row: Row)
    ensures row in JoinRows(rows, entries, outer) <==>
            && (exists b :: b in rows && b.obj == row.obj)
            && (if row.entry.Some? then row.entry.value in entries && row.entry.value.objectId == row.obj.id
                else outer && forall e :: e in entries ==> e.objectId != row.obj.id)
  {
    if rows == [] {
    } else {
      InJoin(rows[1..], entries, outer, row);
      var o := rows[0].obj;
      var matched := EntriesOf(o, entries);
      assert forall b :: b in rows <==> b == rows[0] || b in rows[1..];
      if matched == [] {
        forall e | e in entries ensures e.objectId != o.id {
          assert Row(o, Some(e)) !in matched;
        }
      } else {
        assert matched[0] in matched;
      }
    }
  }

  lemma {:induction false} EntriesDistinct(o: Obj, entries: seq<Entry>)
    requires NoDup(entries)
    ensures NoDup(EntriesOf(o, entries))
  {
    if entries != [] {
      assert NoDup(entries[1..]) by {
        forall i, j | 0 <= i < j < |entries[1..]| ensures entries[1..][i] != entries[1..][j] {
          assert entries[i + 1] != entries[j + 1];
        }
      }
      EntriesDistinct(o, entries[1..]);
      var rest := EntriesOf(o, entries[1..]);
      assert entries[0] !in entries[1..];
      forall i | 0 <= i < |rest| ensures rest[i] != Row(o, Some(entries[0])) {
        assert rest[i] in rest;
      }
    }
  }

  lemma {:induction false} JoinDistinct(rows: seq<Row>, entries: seq<Entry>)
    requires NoDup(entries)
    requires forall i, j :: 0 <= i < j < |rows| ==> rows[i].obj != rows[j].obj
    ensures NoDup(JoinRows(rows, entries, false))
  {
    if rows != [] {
      var tail := rows[1..];
      assert forall i, j :: 0 <= i < j < |tail| ==> tail[i] == rows[i + 1] && tail[j] == rows[j + 1];
      JoinDistinct(tail, entries);
      EntriesDistinct(rows[0].obj, entries);
      var first, rest := EntriesOf(rows[0].obj, entries), JoinRows(tail, entries, false);
      forall i, j | 0 <= i < |first| && 0 <= j < |rest| ensures first[i] != rest[j] {
        assert first[i] in first && rest[j] in rest;
        InJoin(tail, entries, false, rest[j]);
        var b :| b in tail && b.obj == rest[j].obj;
        var k :| 0 <= k < |tail| && tail[k] == b;
        assert rows[k + 1].obj != rows[0].obj;
      }
    }
  }

  /** Queries return objects of the table. */
  lemma {:induction false} ObjectsFromTable(q: Query, db: Db)
    ensures forall o :: o in Objects(q, db) ==> o in db.objs
    decreases q, 0
  {
    forall row | row in Rows(q, db) ensures row.obj in db.objs {
      match q
      case Table => InTable(db.objs, row);
      case Join(q') => JoinedFromTable(q', false, row, db);
      case OuterJoin(q') => JoinedFromTable(q', true, row, db);
      case Filter(q', _) =>
        ObjectsFromTable(q', db);
        assert row.obj in Objects(q', db);
      case Union(l, r) =>
        ObjectsFromTable(l, db);
        ObjectsFromTable(r, db);
        InUnion(l, r, db, row);
    }
  }

  lemma {:induction false} JoinedFromTable(q: Query, outer: bool, row: Row, db: Db)
    requires row in JoinRows(Rows(q, db), db.entries, outer)
    ensures row.obj in db.objs
    decreases q, 1
  {
    InJoin(Rows(q, db), db.entries, outer, row);
    ObjectsFromTable(q, db);
    assert row.obj in Objects(q, db);
  }

  lemma InTable(objs: seq<Obj>, row: Row)
    ensures row in TableRows(objs) <==> row.obj in objs && row.entry == None
  {
  }

  lemma InInnerJoin(db: Db, row: Row)
    ensures row in Rows(Join(Table), db) <==>
            && row.obj in db.objs && row.entry.Some?
            && row.entry.value in db.entries && row.entry.value.objectId == row.obj.id
  {
    InJoin(TableRows(db.objs), db.entries, false, row);
    InTable(db.objs, Row(row.obj, None));
    forall b | b in TableRows(db.objs) ensures b.obj in db.objs { InTable(db.objs, b); }
  }

  lemma InOuterJoin(db: Db, row: Row)
    ensures row in Rows(OuterJoin(Table), db) <==>
            && row.obj in db.objs
            && (if row.entry.Some? then row.entry.value in db.entries && row.entry.value.objectId == row.obj.id
                else !HasEntry(row.obj, db))
  {
    InJoin(TableRows(db.objs), db.entries, true, row);
    InTable(db.objs, Row(row.obj, None));
    forall b | b in TableRows(db.objs) ensures b.obj in db.objs { InTable(db.objs, b); }
  }

  /** An object comes out of a filtered inner join exactly when one of its entries satisfies the filter. */
  lemma InnerJoinObjects(db: Db, c: Cond, o: Obj)
    ensures o in Objects(Filter(Join(Table), c), db) <==>
            o in db.objs && exists e :: e in db.entries && e.objectId == o.id && Holds(c, Row(o, Some(e)), db)
  {
    forall row ensures row in Rows(Join(Table), db) <==>
        row.obj in db.objs && row.entry.Some? && row.entry.value in db.entries && row.entry.value.objectId == row.obj.id
    { InInnerJoin(db, row); }
    if o in db.objs && exists e :: e in db.entries && e.objectId == o.id && Holds(c, Row(o, Some(e)), db) {
      var e :| e in db.entries && e.objectId == o.id && Holds(c, Row(o, Some(e)), db);
      assert Row(o, Some(e)) in Rows(Filter(Join(Table), c), db);
    }
  }

  /** A left outer join also returns an entry-less object, when the filter holds of its
      NULL-extended row. */
  lemma OuterJoinObjects(db: Db, c: Cond, o: Obj)
    ensures o in Objects(Filter(OuterJoin(Table), c), db) <==>
            && o in db.objs
            && (|| (exists e :: e in db.entries && e.objectId == o.id && Holds(c, Row(o, Some(e)), db))
                || (!HasEntry(o, db) && Holds(c, Row(o, None), db)))
  {
    forall row ensures row in Rows(OuterJoin(Table), db) <==>
        && row.obj in db.objs
        && (if row.entry.Some? then row.entry.value in db.entries && row.entry.value.objectId == row.obj.id
            else !HasEntry(row.obj, db))
    { InOuterJoin(db, row); }
    if o in db.objs {
      if e :| e in db.entries && e.objectId == o.id && Holds(c, Row(o, Some(e)), db) {
        assert Row(o, Some(e)) in Rows(Filter(OuterJoin(Table), c), db);
      } else if !HasEntry(o, db) && Holds(c, Row(o, None), db) {
        assert Row(o, None) in Rows(Filter(OuterJoin(Table), c), db);
      }
    }
  }

  lemma TableObjects(db: Db, c: Cond, o: Obj)
    ensures o in Objects(Filter(Table, c), db) <==> o in db.objs && Holds(c, Row(o, None), db)
  {
    assert Rows(Filter(Table, c), db) == Where(TableRows(db.objs), c, db);
    InTable(db.objs, Row(o, None));
    forall row | row in TableRows(db.objs) ensures row.entry == None && row.obj in db.objs { InTable(db.objs, row); }
    if o in db.objs && Holds(c, Row(o, None), db) {
      assert Row(o, None) in Rows(Filter(Table, c), db);
    }
  }

  lemma ModelColumnsOf(rows: seq<Row>)
    ensures forall row :: row in ModelColumns(rows) ==> row.entry == None
    ensures forall o :: Row(o, None) in ModelColumns(rows) <==> exists b :: b in rows && b.obj == o
  {
  }

  lemma InUnion(l: Query, r: Query, db: Db, row: Row)
    ensures row in Rows(Union(l, r), db) <==>
            row.entry == None && (row.obj in Objects(l, db) || row.obj in Objects(r, db))
  {
    var both := Rows(l, db) + Rows(r, db);
    ModelColumnsOf(both);
    assert row in Rows(Union(l, r), db) <==> row in ModelColumns(both);
    assert (exists b :: b in both && b.obj == row.obj) <==> row.obj in Objects(l, db) || row.obj in Objects(r, db);
  }

  lemma UnionObjects(l: Query, r: Query, db: Db)
    ensures Objects(Union(l, r), db) == Objects(l, db) + Objects(r, db)
  {
    forall row ensures row in Rows(Union(l, r), db) <==>
        row.entry == None && (row.obj in Objects(l, db) || row.obj in Objects(r, db))
    { InUnion(l, r, db, row); }
    forall o | o in Objects(l, db) + Objects(r, db) ensures o in Objects(Union(l, r), db) {
      assert Row(o, None) in Rows(Union(l, r), db);
    }
  }
}
