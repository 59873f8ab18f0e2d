/** Change tracking of an instance's metadata against the stored rows, with one writer. */
module InstanceMetadata {
  import opened Prelude

  type Meta = map<string, string>

  datatype Field = Metadata | SystemMetadata

  const METADATA := "metadata"
  const SYSTEM_METADATA := "system_metadata"

  function NameOf(f: Field): string {
    if f == Metadata then METADATA else SYSTEM_METADATA
  }

  /** One metadata field: what the object holds if it is loaded, the tracked
      original, and the stored rows. */
  datatype Tracked = Tracked(current: Option<Meta>, original: Meta, stored: Meta)

  /** `changed` are the fields, object fields aside, that the base object knows to be assigned. */
  datatype State = State(meta: Tracked, sys: Tracked, changed: set<string>)

  function Of(s: State, f: Field): Tracked {
    if f == Metadata then s.meta else s.sys
  }

  function With(s: State, f: Field, t: Tracked): State {
    if f == Metadata then s.(meta := t) else s.(sys := t)
  }

  // ---------------------------------------------------------------- specification

  function Reset(t: Tracked): Tracked {
    t.(original := if t.current.Some? then t.current.value else map[])
  }

  function ResetTracking(s: State, fields: Option<set<string>>): State {
    var s' := if fields.None? || SYSTEM_METADATA in fields.value then s.(sys := Reset(s.sys)) else s;
    if fields.None? || METADATA in fields.value then s'.(meta := Reset(s.meta)) else s'
  }

  function ResetChanges(s: State, fields: Option<set<string>>): State {
    ResetTracking(s.(changed := if fields.None? then {} else s.changed - fields.value), fields)
  }

  function Differs(t: Tracked): bool {
    t.current.Some? && t.current.value != t.original
  }

  function WhatChanged(s: State): set<string> {
    s.changed + (if Differs(s.meta) then {METADATA} else {}) + (if Differs(s.sys) then {SYSTEM_METADATA} else {})
  }

  /** A lazy load: the stored rows, and clean. */
  function Load(s: State, f: Field): State {
    if Of(s, f).current.Some? then s
    else ResetChanges(With(s, f, Of(s, f).(current := Some(Of(s, f).stored))), Some({NameOf(f)}))
  }

  function SetItem(s: State, f: Field, key: string, value: string): State {
    var s' := Load(s, f);
    With(s', f, Of(s', f).(current := Some(Of(s', f).current.value[key := value])))
  }

  function DelItem(s: State, f: Field, key: string): State {
    var s' := Load(s, f);
    With(s', f, Of(s', f).(current := Some(Of(s', f).current.value - {key})))
  }

  function Assign(s: State, f: Field, value: Meta): State {
    With(s, f, Of(s, f).(current := Some(value))).(changed := s.changed + {NameOf(f)})
  }

  /** Some other field is assigned. */
  function Touch(s: State, field: string): State {
    s.(changed := s.changed + {field})
  }

  /** The rows after an update: a changed loaded field replaces them. */
  function Written(t: Tracked, updated: bool): Meta {
    if updated && t.current.Some? then t.current.value else t.stored
  }

  /** Nothing to update: nothing happens. Otherwise the rows are written and read back;
      system_metadata is always read, metadata if it was loaded. */
  function Save(s: State): State {
    var updates := WhatChanged(s);
    if updates == {} then s
    else
      var meta, sys := Written(s.meta, METADATA in updates), Written(s.sys, SYSTEM_METADATA in updates);
      ResetChanges(State(Tracked(if s.meta.current.Some? then Some(meta) else None, s.meta.original, meta),
                         Tracked(Some(sys), s.sys.original, sys), s.changed), None)
  }

  /** Re-read every loaded field; pending edits are dropped. */
  function Refresh(s: State): State {
    ResetChanges(s.(meta := s.meta.(current := if s.meta.current.Some? then Some(s.meta.stored) else None),
                    sys := s.sys.(current := if s.sys.current.Some? then Some(s.sys.stored) else None)), None)
  }

  /** The optimized delete: the row goes first; a key the object does not hold is a
      KeyError afterwards. */
  function DeleteKey(s: State, f: Field, key: string): (State, bool) {
    var t := Of(s, f);
    var wasChanged := NameOf(f) in WhatChanged(s);
    var s1 := Load(With(s, f, t.(stored := t.stored - {key})), f);
    var t1 := Of(s1, f);
    if key !in t1.current.value then (s1, false)
    else
      var s2 := With(s1, f, t1.(current := Some(t1.current.value - {key}), original := t1.original - {key}));
      (if wasChanged then s2 else ResetChanges(s2, Some({NameOf(f)})), true)
  }

  // ---------------------------------------------------------------- the object

  /** The stored rows of one instance. */
  class Rows {
    var metadata: Meta
    var systemMetadata: Meta

    constructor (metadata: Meta, systemMetadata: Meta)
      ensures this.metadata == metadata && this.systemMetadata == systemMetadata
    {
      this.metadata, this.systemMetadata := metadata, systemMetadata;
    }
  }

  class Instance {
    const rows: Rows
    var metadata: Option<Meta>
    var systemMetadata: Option<Meta>
    var origMetadata: Meta
    var origSystemMetadata: Meta
    var changedFields: set<string>

    /** An instance just read, with metadata and system metadata joined or not. */
    constructor (rows: Rows, joinMetadata: bool, joinSystemMetadata: bool)
      ensures this.rows == rows
      ensures metadata == if joinMetadata then Some(rows.metadata) else None
      ensures systemMetadata == if joinSystemMetadata then Some(rows.systemMetadata) else None
      ensures Inv(Snapshot()) && WhatChanged(Snapshot()) == {}
    {
      this.rows := rows;
      metadata := if joinMetadata then Some(rows.metadata) else None;
      systemMetadata := if joinSystemMetadata then Some(rows.systemMetadata) else None;
      origMetadata := if joinMetadata then rows.metadata else map[];
      origSystemMetadata := if joinSystemMetadata then rows.systemMetadata else map[];
      changedFields := {};
    }

    function Snapshot(): State
      reads this, rows
    {
      State(Tracked(metadata, origMetadata, rows.metadata),
            Tracked(systemMetadata, origSystemMetadata, rows.systemMetadata), changedFields)
    }

    method ResetMetadataTracking(fields: Option<set<string>>)
      modifies this
      ensures Snapshot() == ResetTracking(old(Snapshot()), fields)
    {
      if fields.None? || SYSTEM_METADATA in fields.value {
        origSystemMetadata := if systemMetadata.Some? then systemMetadata.value else map[];
      }
      if fields.None? || METADATA in fields.value {
        origMetadata := if metadata.Some? then metadata.value else map[];
      }
    }

    method ObjResetChanges(fields: Option<set<string>>)
      modifies this
      ensures Snapshot() == ResetChanges(old(Snapshot()), fields)
    {
      changedFields := if fields.None? then {} else changedFields - fields.value;
      ResetMetadataTracking(fields);
    }

    method ObjWhatChanged() returns (changes: set<string>)
      ensures changes == WhatChanged(Snapshot())
    {
      changes := changedFields;
      if metadata.Some? && metadata.value != origMetadata {
        changes := changes + {METADATA};
      }
      if systemMetadata.Some? && systemMetadata.value != origSystemMetadata {
        changes := changes + {SYSTEM_METADATA};
      }
    }

    method LoadMetadata()
      modifies this
      ensures Snapshot() == Load(old(Snapshot()), Metadata)
    {
      if metadata.None? {
        metadata := Some(rows.metadata);
        ObjResetChanges(Some({METADATA}));
      }
    }

    method LoadSystemMetadata()
      modifies this
      ensures Snapshot() == Load(old(Snapshot()), SystemMetadata)
    {
      if systemMetadata.None? {
        systemMetadata := Some(rows.systemMetadata);
        ObjResetChanges(Some({SYSTEM_METADATA}));
      }
    }

    method DeleteMetadataKey(key: string) returns (ok: bool)
      modifies this, rows
      ensures (Snapshot(), ok) == DeleteKey(old(Snapshot()), Metadata, key)
    {
      rows.metadata := rows.metadata - {key};
      var changes := ObjWhatChanged();
      var mdWasChanged := METADATA in changes;
      LoadMetadata();
      if key !in metadata.value {
        return false;
      }
      metadata := Some(metadata.value - {key});
      origMetadata := origMetadata - {key};
      if !mdWasChanged {
        ObjResetChanges(Some({METADATA}));
      }
      return true;
    }

    method DeleteSystemMetadataKey(key: string) returns (ok: bool)
      modifies this, rows
      ensures (Snapshot(), ok) == DeleteKey(old(Snapshot()), SystemMetadata, key)
    {
      rows.systemMetadata := rows.systemMetadata - {key};
      var changes := ObjWhatChanged();
      var smdWasChanged := SYSTEM_METADATA in changes;
      LoadSystemMetadata();
      if key !in systemMetadata.value {
        return false;
      }
      systemMetadata := Some(systemMetadata.value - {key});
      origSystemMetadata := origSystemMetadata - {key};
      if !smdWasChanged {
        ObjResetChanges(Some({SYSTEM_METADATA}));
      }
      return true;
    }

    method SaveChanges()
      modifies this, rows
      ensures Snapshot() == Save(old(Snapshot()))
    {
      var changes := ObjWhatChanged();
      if changes == {} {
        return;
      }
      if METADATA in changes && metadata.Some? {
        rows.metadata := metadata.value;
      }
      if SYSTEM_METADATA in changes && systemMetadata.Some? {
        rows.systemMetadata := systemMetadata.value;
      }
      if metadata.Some? {
        metadata := Some(rows.metadata);
      }
      systemMetadata := Some(rows.systemMetadata);
      ObjResetChanges(None);
    }
  }

  // ---------------------------------------------------------------- runs

  /** A loaded field's original is what is stored. */
  ghost predicate Faithful(t: Tracked) {
    t.current.Some? ==> t.original == t.stored
  }

  ghost predicate Inv(s: State) {
    Faithful(s.meta) && Faithful(s.sys)
  }

  datatype Operation =
    | LoadField(f: Field)
    | Set(f: Field, key: string, value: string)
    | Del(f: Field, key: string)
    | Replace(f: Field, meta: Meta)
    | TouchOther(field: string)
    | DeleteKeyNow(f: Field, key: string)
    | SaveNow
    | RefreshNow

  function Next(s: State, op: Operation): State {
    match op
    case LoadField(f) => Load(s, f)
    case Set(f, key, value) => SetItem(s, f, key, value)
    case Del(f, key) => DelItem(s, f, key)
    case Replace(f, value) => Assign(s, f, value)
    case TouchOther(field) => Touch(s, field)
    case DeleteKeyNow(f, key) => DeleteKey(s, f, key).0
    case SaveNow => Save(s)
    case RefreshNow => Refresh(s)
  }

  function Run(s: State, ops: seq<Operation>): State {
    if ops == [] then s else Next(Run(s, ops[..|ops| - 1]), ops[|ops| - 1])
  }

  /** The optimized delete is harmless when the field is not loaded, or holds the key as
      its documentation asks, or the tracked original does not hold it. */
  ghost predicate HarmlessDelete(s: State, op: Operation) {
    op.DeleteKeyNow? ==>
      var t := Of(s, op.f); t.current.None? || op.key in t.current.value || op.key !in t.original
  }

  /** Besides, a field is not assigned unread over other rows than its original. */
  ghost predicate Harmless(s: State, op: Operation) {
    HarmlessDelete(s, op) && (op.Replace? ==> var t := Of(s, op.f); t.current.Some? || t.original == t.stored)
  }

  /** A step keeps the originals equal to the rows exactly when it is harmless. */
  lemma StepFaithfulIff(s: State, op: Operation)
    requires Inv(s)
    ensures Inv(Next(s, op)) <==> Harmless(s, op)
  {
    if op.DeleteKeyNow? {
      var t := Of(s, op.f);
      if t.current.Some? {
        if op.key in t.current.value {
          DeleteKeptKey(s, op.f, op.key);
        } else {
          assert t.stored - {op.key} == t.stored <==> op.key !in t.stored by {
            if op.key in t.stored { assert op.key !in t.stored - {op.key}; }
          }
        }
      }
    }
  }

  /** Deleting a held key: both sides lose it, a clean field stays clean. */
  lemma DeleteKeptKey(s: State, f: Field, key: string)
    requires Inv(s) && Of(s, f).current.Some? && key in Of(s, f).current.value
    ensures var t := Of(s, f); var t' := Of(DeleteKey(s, f, key).0, f);
      && DeleteKey(s, f, key).1
      && t' == Tracked(Some(t.current.value - {key}), t.original - {key}, t.stored - {key})
  {
  }

  /** Over any sequence of harmless operations the tracked original is the stored map. */
  lemma {:induction false} RunFaithful(s: State, ops: seq<Operation>)
    requires Inv(s) && forall i :: 0 <= i < |ops| ==> Harmless(Run(s, ops[..i]), ops[i])
    ensures Inv(Run(s, ops))
  {
    if ops != [] {
      var front := ops[..|ops| - 1];
      assert forall i :: 0 <= i < |front| ==> ops[..i] == front[..i];
      RunFaithful(s, front);
      StepFaithfulIff(Run(s, front), ops[|ops| - 1]);
    }
  }

  /** What reporting rests on: the original is what is stored, or the field is marked. */
  ghost predicate Accounted(s: State) {
    forall f :: Of(s, f).current.Some? ==> Of(s, f).original == Of(s, f).stored || NameOf(f) in s.changed
  }

  /** The optimized delete of a key the object has dropped but the original still holds
      is harmless to reporting if the field is marked anyway. */
  ghost predicate AccountedDelete(s: State, op: Operation) {
    op.DeleteKeyNow? && NameOf(op.f) !in s.changed ==> HarmlessDelete(s, op)
  }

  lemma DeleteAccountedIff(s: State, f: Field, key: string)
    requires Accounted(s)
    ensures Accounted(DeleteKey(s, f, key).0) <==> AccountedDelete(s, DeleteKeyNow(f, key))
  {
    var s' := DeleteKey(s, f, key).0;
    var t, t' := Of(s, f), Of(s', f);
    forall g | g != f ensures Of(s', g) == Of(s, g) && (NameOf(g) in s'.changed <==> NameOf(g) in s.changed) {
    }
    if t.current.Some? && key !in t.current.value {
      assert t' == t.(stored := t.stored - {key}) && s'.changed == s.changed;
      if t.original == t.stored {
        assert t.stored - {key} == t.stored <==> key !in t.stored by {
          if key in t.stored { assert key !in t.stored - {key}; }
        }
      }
    } else if t.current.Some? && NameOf(f) !in WhatChanged(s) {
      assert t.current.value == t.original == t.stored;
    }
  }

  lemma ReReadAccounted(s: State)
    requires Accounted(s)
    ensures Accounted(Save(s)) && Accounted(Refresh(s))
  {
  }

  lemma LoadAccounted(s: State, f: Field)
    requires Accounted(s)
    ensures Accounted(Load(s, f))
  {
  }

  /** A step keeps every field accounted for exactly when it is no such delete. */
  lemma StepAccountedIff(s: State, op: Operation)
    requires Accounted(s)
    ensures Accounted(Next(s, op)) <==> AccountedDelete(s, op)
  {
    match op
    case DeleteKeyNow(f, key) => DeleteAccountedIff(s, f, key);
    case SaveNow => ReReadAccounted(s);
    case RefreshNow => ReReadAccounted(s);
    case LoadField(f) => LoadAccounted(s, f);
    case Set(f, _, _) => LoadAccounted(s, f);
    case Del(f, _) => LoadAccounted(s, f);
    case _ =>
  }

  /** Every difference from the rows is reported. */
  ghost predicate Reported(s: State) {
    forall f :: Of(s, f).current.Some? && Of(s, f).current.value != Of(s, f).stored ==> NameOf(f) in WhatChanged(s)
  }

  /** Over any sequence of operations none of which is such a delete, assignments of
      unread fields included, every difference from the rows is reported. */
  lemma {:induction false} UnsavedIsReported(s: State, ops: seq<Operation>)
    requires Accounted(s) && forall i :: 0 <= i < |ops| ==> AccountedDelete(Run(s, ops[..i]), ops[i])
    ensures Accounted(Run(s, ops)) && Reported(Run(s, ops))
  {
    if ops != [] {
      var front := ops[..|ops| - 1];
      assert forall i :: 0 <= i < |front| ==> ops[..i] == front[..i];
      UnsavedIsReported(s, front);
      StepAccountedIff(Run(s, front), ops[|ops| - 1]);
    }
  }

  // ---------------------------------------------------------------- reporting, exactly

  predicate IsEdit(op: Operation) {
    op.Set? || op.Del?
  }

  ghost predicate Edits(ops: seq<Operation>) {
    forall i :: 0 <= i < |ops| ==> IsEdit(ops[i])
  }

  /** Whatever keys are set and removed from here on, every difference is reported. */
  ghost predicate KeepsReporting(s: State) {
    forall ops :: Edits(ops) ==> Reported(Run(s, ops))
  }

  lemma {:induction false} RunFrom(s: State, op: Operation, ops: seq<Operation>)
    ensures Run(s, [op] + ops) == Run(Next(s, op), ops)
  {
    if ops == [] {
      assert ([op] + ops)[..0] == [];
    } else {
      var front := ops[..|ops| - 1];
      assert ([op] + ops)[..|ops|] == [op] + front;
      RunFrom(s, op, front);
    }
  }

  /** The keys at which the object's map is not yet the goal. */
  ghost function Apart(current: Meta, goal: Meta): set<string> {
    set k | k in current.Keys + goal.Keys && !(k in current && k in goal && current[k] == goal[k])
  }

  function Towards(f: Field, goal: Meta, key: string): Operation {
    if key in goal then Set(f, key, goal[key]) else Del(f, key)
  }

  lemma TowardsNarrows(s: State, f: Field, goal: Meta, k: string)
    requires Of(s, f).current.Some? && k in Apart(Of(s, f).current.value, goal)
    ensures var current, s' := Of(s, f).current.value, Next(s, Towards(f, goal, k));
      && Of(s', f).current.Some?
      && s' == With(s, f, Of(s, f).(current := Of(s', f).current))
      && Apart(Of(s', f).current.value, goal) == Apart(current, goal) - {k}
  {
  }

  /** Setting and removing keys reaches any map, touching nothing else. */
  lemma EditsReach(s: State, f: Field, goal: Meta) returns (ops: seq<Operation>)
    requires Of(s, f).current.Some?
    ensures Edits(ops) && Run(s, ops) == With(s, f, Of(s, f).(current := Some(goal)))
    decreases |Apart(Of(s, f).current.value, goal)|
  {
    var current := Of(s, f).current.value;
    if Apart(current, goal) == {} {
      assert current == goal by {
        assert forall k :: k in current || k in goal ==> k !in Apart(current, goal);
      }
      return [];
    }
    var k :| k in Apart(current, goal);
    var op := Towards(f, goal, k);
    var s' := Next(s, op);
    TowardsNarrows(s, f, goal, k);
    var rest := EditsReach(s', f, goal);
    RunFrom(s, op, rest);
    ops := [op] + rest;
  }

  /** "Accounted for" is exactly what reporting needs. */
  lemma AccountedIffKeepsReporting(s: State)
    ensures Accounted(s) <==> KeepsReporting(s)
  {
    if Accounted(s) {
      forall ops | Edits(ops) ensures Reported(Run(s, ops)) {
        UnsavedIsReported(s, ops);
      }
    } else {
      var f :| Of(s, f).current.Some? && Of(s, f).original != Of(s, f).stored && NameOf(f) !in s.changed;
      var ops := EditsReach(s, f, Of(s, f).original);
      assert !Reported(Run(s, ops)) by {
        assert Of(Run(s, ops), f) == Of(s, f).(current := Some(Of(s, f).original));
      }
    }
  }

  /** Such a run: a key is dropped from the object, deleted at once, and set again to the
      value it had. The object holds it, the rows do not, and nothing is reported. */
  lemma DropDeleteSetGoesUnreported(key: string, value: string, sys: Tracked)
    requires Faithful(sys)
    ensures var s := State(Tracked(Some(map[key := value]), map[key := value], map[key := value]), sys, {});
            var s' := Run(s, [Del(Metadata, key), DeleteKeyNow(Metadata, key), Set(Metadata, key, value)]);
      && Inv(s) && METADATA !in WhatChanged(s)
      && s'.meta.current == Some(map[key := value]) && s'.meta.stored == map[]
      && METADATA !in WhatChanged(s')
  {
    var held := map[key := value];
    var s := State(Tracked(Some(held), held, held), sys, {});
    assert held - {key} == map[] && map[][key := value] == held;
    var drop, erase, put := Del(Metadata, key), DeleteKeyNow(Metadata, key), Set(Metadata, key, value);
    RunFrom(s, drop, [erase, put]);
    RunFrom(Next(s, drop), erase, [put]);
    RunFrom(Next(Next(s, drop), erase), put, []);
    assert [drop] + [erase, put] == [drop, erase, put] && [erase] + [put] == [erase, put] && [put] + [] == [put];
    assert Next(s, drop) == s.(meta := Tracked(Some(map[]), held, held));
    assert Next(Next(s, drop), erase) == s.(meta := Tracked(Some(map[]), held, map[]));
  }

  /** After a save nothing is pending: loaded fields are what is stored, unloaded rows
      are untouched, and nothing is reported. */
  lemma SaveLeavesClean(s: State, f: Field)
    requires Inv(s)
    ensures var t := Of(Save(s), f);
      && WhatChanged(Save(s)) == {}
      && (Of(s, f).current.Some? ==> t.current == Of(s, f).current && t.stored == t.current.value)
      && (Of(s, f).current.None? ==> t.stored == Of(s, f).stored)
      && (t.current.Some? <==> Of(s, f).current.Some? || (f == SystemMetadata && WhatChanged(s) != {}))
      && (t.current.Some? ==> t.current.value == t.original == t.stored)
      && (WhatChanged(s) == {} ==> Save(s) == s)
  {
  }

  /** What is reported: assigned fields, and loaded metadata that differs from its original. */
  lemma ReportedExactly(s: State, name: string)
    ensures name in WhatChanged(s) <==>
            || name in s.changed
            || (name == "metadata" && s.meta.current.Some? && s.meta.current.value != s.meta.original)
            || (name == "system_metadata" && s.sys.current.Some? && s.sys.current.value != s.sys.original)
  {
  }

  /** A reset makes the loaded map, or none, the original of the fields it names, of all if
      it names none, and unmarks them; nothing else changes. */
  lemma ResetExactly(s: State, fields: Option<set<string>>, f: Field)
    ensures var t, t' := Of(s, f), Of(ResetChanges(s, fields), f);
            var named := fields.None? || NameOf(f) in fields.value;
      && t'.current == t.current && t'.stored == t.stored
      && t'.original == (if !named then t.original else if t.current.Some? then t.current.value else map[])
      && (NameOf(f) in ResetChanges(s, fields).changed <==> NameOf(f) in s.changed && !named)
      && (named ==> NameOf(f) !in WhatChanged(ResetChanges(s, fields)) || t.current.None?)
  {
  }

  /** A field is read once, when it is first needed, and is then clean. */
  lemma LoadReadsOnce(s: State, f: Field)
    ensures var t, t' := Of(s, f), Of(Load(s, f), f);
      && (t.current.Some? ==> Load(s, f) == s)
      && (t.current.None? ==>
            t' == Tracked(Some(t.stored), t.stored, t.stored) && NameOf(f) !in WhatChanged(Load(s, f)))
      && (forall g :: g != f ==> Of(Load(s, f), g) == Of(s, g))
  {
  }

  /** A refresh re-reads what is loaded, drops pending edits, and leaves the rows. */
  lemma RefreshRereads(s: State, f: Field)
    ensures var t, t' := Of(s, f), Of(Refresh(s), f);
      && WhatChanged(Refresh(s)) == {}
      && t'.stored == t.stored && (t'.current.Some? <==> t.current.Some?)
      && (t'.current.Some? ==> t'.current.value == t'.original == t.stored)
  {
  }

  /** The optimized delete always takes the row. It succeeds exactly if the object holds
      the key; a field not read yet is read after the row has gone, so never. */
  lemma DeleteSucceedsIfHeld(s: State, f: Field, key: string)
    ensures var t, t' := Of(s, f), Of(DeleteKey(s, f, key).0, f);
      && t'.stored == t.stored - {key}
      && (DeleteKey(s, f, key).1 <==> t.current.Some? && key in t.current.value)
      && t'.current == Some((if t.current.Some? then t.current.value else t.stored) - {key})
      && (forall g :: g != f ==> Of(DeleteKey(s, f, key).0, g) == Of(s, g))
  {
    var t := Of(s, f);
    if t.current.Some? && key !in t.current.value {
      assert t.current.value - {key} == t.current.value;
    }
  }

  /** The keys on which the object and the rows disagree. */
  ghost function Pending(t: Tracked): set<string> {
    if t.current.None? then {}
    else set k | k in t.current.value.Keys + t.stored.Keys &&
                 !(k in t.current.value && k in t.stored && t.current.value[k] == t.stored[k])
  }

  /** Deleting a held key loses no pending edit of another key, marks nothing changed
      that was clean, and leaves the other field alone. */
  lemma DeleteKeyKeepsPending(s: State, f: Field, key: string)
    requires Inv(s) && Of(s, f).current.Some? && key in Of(s, f).current.value
    ensures var s' := DeleteKey(s, f, key).0; var t, t' := Of(s, f), Of(s', f);
      && Pending(t') == Pending(t) - {key}
      && (forall k :: k != key && k in t.current.value ==>
            k in t'.current.value && t'.current.value[k] == t.current.value[k])
      && key !in t'.current.value && key !in t'.stored
      && (NameOf(f) !in WhatChanged(s) ==> NameOf(f) !in WhatChanged(s'))
      && (forall g :: g != f ==> Of(s', g) == Of(s, g))
  {
  }

  /** A delete of a key the object no longer holds but the rows do: the row goes, the
      tracked original keeps the key, and the two differ from then on. */
  lemma DeleteOfDroppedKeyGoesStale() returns (s: State)
    ensures Inv(s) && !Harmless(s, DeleteKeyNow(Metadata, "k"))
    ensures var s' := DeleteKey(s, Metadata, "k").0;
      && !DeleteKey(s, Metadata, "k").1 && !Inv(s')
      && s'.meta.current.value == s'.meta.stored && METADATA in WhatChanged(s')
  {
    s := State(Tracked(Some(map[]), map["k" := "v"], map["k" := "v"]), Tracked(None, map[], map[]), {});
    assert map["k" := "v"] - {"k"} == map[];
    var s' := DeleteKey(s, Metadata, "k").0;
    assert s'.meta.stored == map[];
    assert "k" in s'.meta.original;
  }
}
