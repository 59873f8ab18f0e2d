/** The columns to join for a list of expected attributes. */
module ExpectedCols {
  import opened Prelude

  const JOINED :=
    ["metadata", "system_metadata", "info_cache", "security_groups", "pci_devices", "tags", "services", "fault"]
  const EXTRA := ["numa_topology", "pci_requests", "flavor", "vcpu_model", "migration_context", "keypairs",
                  "device_metadata", "trusted_certs", "resources"]

  // ---------------------------------------------------------------- the list before deduplication

  /** The members of `s` that are in `keep`, in their order. */
  function Only(s: seq<string>, keep: seq<string>): (r: seq<string>)
    ensures forall x :: x in r <==> x in s && x in keep
  {
    if s == [] then [] else (if s[0] in keep then [s[0]] else []) + Only(s[1..], keep)
  }

  function ExtraName(field: string): string {
    "extra." + field
  }

  function ExtraNames(fields: seq<string>): (r: seq<string>)
    ensures |r| == |fields| && forall i :: 0 <= i < |r| ==> r[i] == ExtraName(fields[i])
  {
    seq(|fields|, i requires 0 <= i < |fields| => ExtraName(fields[i]))
  }

  /** simple_cols, "extra" added for any complex column and `drop` taken out, then complex_cols. */
  function Assemble(simple: seq<string>, complex: seq<string>, drop: seq<string>): seq<string> {
    Without(if complex != [] then simple + ["extra"] else simple, drop) + complex
  }

  function Columns(attrs: seq<string>): seq<string> {
    Assemble(Only(attrs, JOINED), ExtraNames(Only(EXTRA, attrs)), EXTRA)
  }

  function Without(s: seq<string>, drop: seq<string>): (r: seq<string>)
    ensures forall x :: x in r <==> x in s && x !in drop
  {
    if s == [] then [] else (if s[0] in drop then [] else [s[0]]) + Without(s[1..], drop)
  }

  // ---------------------------------------------------------------- sorting by first index

  /** `cols.index(x)` for a member; past the end otherwise. */
  function IndexOf(cols: seq<string>, x: string): (i: nat)
    ensures i <= |cols| && (x in cols ==> i < |cols| && cols[i] == x)
    ensures forall j :: 0 <= j < i ==> cols[j] != x
  {
    if cols == [] || cols[0] == x then 0 else 1 + IndexOf(cols[1..], x)
  }

  ghost predicate InOrder(s: seq<string>, key: string -> int) {
    forall i, j :: 0 <= i < j < |s| ==> key(s[i]) <= key(s[j])
  }

  /** Insertion into a sorted list, behind equal keys. */
  function Insert(s: seq<string>, x: string, key: string -> int): (r: seq<string>)
    ensures |r| == |s| + 1 && Elements(r) == Elements(s) + {x}
    ensures InOrder(s, key) ==> InOrder(r, key)
  {
    if s == [] then
      ElementsOfAppend([], x);
      [x]
    else
      var front, last := s[..|s| - 1], s[|s| - 1];
      assert s == front + [last];
      ElementsOfAppend(front, last);
      if key(last) <= key(x) then
        ElementsOfAppend(s, x);
        assert InOrder(s, key) ==> InOrder(s + [x], key) by { if InOrder(s, key) { AppendInOrder(s, x, key); } }
        s + [x]
      else
        var rest := Insert(front, x, key);
        ElementsOfAppend(rest, last);
        assert InOrder(s, key) ==> InOrder(rest + [last], key) by {
          if InOrder(s, key) { BelowLast(s, x, rest, key); AppendInOrder(rest, last, key); }
        }
        rest + [last]
  }

  /** Appending something not before any member keeps the order. */
  lemma AppendInOrder(s: seq<string>, x: string, key: string -> int)
    requires InOrder(s, key) && (s != [] ==> key(s[|s| - 1]) <= key(x))
    ensures InOrder(s + [x], key)
  {
  }

  /** What was inserted before the last member stays before it. */
  lemma BelowLast(s: seq<string>, x: string, rest: seq<string>, key: string -> int)
    requires s != [] && InOrder(s, key) && key(x) <= key(s[|s| - 1])
    requires Elements(rest) == Elements(s[..|s| - 1]) + {x} && (InOrder(s[..|s| - 1], key) ==> InOrder(rest, key))
    ensures forall i :: 0 <= i < |rest| ==> key(rest[i]) <= key(s[|s| - 1])
    ensures InOrder(rest, key)
  {
    forall i | 0 <= i < |rest| ensures key(rest[i]) <= key(s[|s| - 1]) {
      assert rest[i] in Elements(rest);
      if rest[i] != x {
        LastIsGreatest(s, rest[i], key);
      }
    }
  }

  lemma LastIsGreatest(a: seq<string>, x: string, key: string -> int)
    requires a != [] && InOrder(a, key) && x in a
    ensures key(x) <= key(a[|a| - 1])
  {
  }

  /** `sorted(s, key=key)` */
  function SortBy(s: seq<string>, key: string -> int): (r: seq<string>)
    ensures |r| == |s| && Elements(r) == Elements(s) && InOrder(r, key)
  {
    if s == [] then []
    else
      var front, last := s[..|s| - 1], s[|s| - 1];
      assert s == front + [last];
      ElementsOfAppend(front, last);
      Insert(SortBy(front, key), last, key)
  }

  function ByIndex(cols: seq<string>): string -> int {
    x => IndexOf(cols, x)
  }

  // ---------------------------------------------------------------- sorting is deduplication

  /** The first indices in a longer list are those in its front. */
  lemma IndexInFront(front: seq<string>, last: string, x: string)
    requires x in front
    ensures IndexOf(front + [last], x) == IndexOf(front, x)
  {
    var i, j := IndexOf(front, x), IndexOf(front + [last], x);
    assert (front + [last])[i] == x;
    assert j < |front| ==> front[j] == x;
  }

  lemma {:induction false} FrontKeysAgree(s: seq<string>, front: seq<string>, last: string)
    requires forall x :: x in s ==> x in front
    requires InOrder(s, ByIndex(front))
    ensures InOrder(s, ByIndex(front + [last]))
    ensures forall i :: 0 <= i < |s| ==> ByIndex(front + [last])(s[i]) < |front|
  {
    forall i | 0 <= i < |s| ensures ByIndex(front + [last])(s[i]) == ByIndex(front)(s[i]) < |front| {
      assert s[i] in s;
      IndexInFront(front, last, s[i]);
    }
  }

  /** Keep-first deduplication lists the members in order of first occurrence. */
  lemma {:induction false} KeepFirstInOrder(cols: seq<string>)
    ensures InOrder(KeepFirst(cols), ByIndex(cols))
  {
    if cols != [] {
      var front, last := cols[..|cols| - 1], cols[|cols| - 1];
      KeepFirstInOrder(front);
      var rest := KeepFirst(front);
      assert cols == front + [last];
      FrontKeysAgree(rest, front, last);
      if last !in rest {
        assert IndexOf(cols, last) == |front|;
        AppendInOrder(rest, last, ByIndex(cols));
      }
    }
  }

  /** A list without repetition in the order of distinct keys is determined by its members. */
  lemma {:induction false} OrderDetermines(a: seq<string>, b: seq<string>, key: string -> int)
    requires NoDup(a) && NoDup(b) && Elements(a) == Elements(b)
    requires InOrder(a, key) && InOrder(b, key)
    requires forall x, y :: x in a && y in a && key(x) == key(y) ==> x == y
    ensures a == b
  {
    SizeOfElements(a);
    SizeOfElements(b);
    if a != [] {
      var n := |a| - 1;
      assert a[n] in Elements(a) && b[n] in Elements(b);
      LastIsGreatest(a, b[n], key);
      LastIsGreatest(b, a[n], key);
      assert a[n] == b[n];
      FrontElements(a);
      FrontElements(b);
      OrderDetermines(a[..n], b[..n], key);
      assert a == a[..n] + [a[n]] && b == b[..n] + [b[n]];
    }
  }

  lemma FrontElements(a: seq<string>)
    requires a != [] && NoDup(a)
    ensures Elements(a[..|a| - 1]) == Elements(a) - {a[|a| - 1]} && NoDup(a[..|a| - 1])
  {
  }

  /** However the set is listed, sorting it by first index is keep-first deduplication. */
  lemma SortIsKeepFirst(cols: seq<string>, listed: seq<string>)
    requires Enumerates(listed, Elements(cols))
    ensures SortBy(listed, ByIndex(cols)) == KeepFirst(cols)
  {
    var sorted := SortBy(listed, ByIndex(cols));
    SizeOfElements(listed);
    SizeOfElements(sorted);
    KeepFirstInOrder(cols);
    assert Elements(KeepFirst(cols)) == Elements(cols);
    forall x, y | x in sorted && y in sorted && ByIndex(cols)(x) == ByIndex(cols)(y) ensures x == y {
      assert x in Elements(sorted) && y in Elements(sorted);
    }
    OrderDetermines(sorted, KeepFirst(cols), ByIndex(cols));
  }

  method ExpectedCols(attrs: seq<string>) returns (r: seq<string>)
    ensures r == KeepFirst(Columns(attrs))
  {
    if attrs == [] {
      NothingRequested();
      return attrs;
    }
    var cols := Columns(attrs);
    var listed := ListOfSet(set x | x in cols);
    SortIsKeepFirst(cols, listed);
    return SortBy(listed, ByIndex(cols));
  }

  lemma {:induction false} OnlyOfNone(s: seq<string>)
    ensures Only(s, []) == []
  {
    if s != [] { OnlyOfNone(s[1..]); }
  }

  lemma NothingRequested()
    ensures Columns([]) == []
  {
  }

  // ---------------------------------------------------------------- what is listed

  predicate WantsExtra(attrs: seq<string>) {
    exists f :: f in EXTRA && f in attrs
  }

  /** No joined attribute is an extra field. */
  lemma JoinedStays(c: string)
    requires c in JOINED
    ensures c !in EXTRA
  {
  }

  lemma ExtraStays()
    ensures "extra" !in EXTRA && "extra" !in JOINED
  {
  }

  lemma ComplexListed(attrs: seq<string>, c: string)
    ensures var complex := ExtraNames(Only(EXTRA, attrs));
      && (complex != [] <==> WantsExtra(attrs))
      && (c in complex <==> exists f :: f in EXTRA && f in attrs && c == ExtraName(f))
  {
    var wanted := Only(EXTRA, attrs);
    var complex := ExtraNames(wanted);
    if complex != [] { assert wanted[0] in wanted; }
    if c in complex {
      var i :| 0 <= i < |complex| && complex[i] == c;
      assert wanted[i] in wanted;
    }
    if f :| f in EXTRA && f in attrs && c == ExtraName(f) {
      var i :| 0 <= i < |wanted| && wanted[i] == f;
      assert complex[i] == c;
    }
  }

  /** The columns: each requested joined attribute, "extra" exactly when some extra field
      is requested, and each such field's own column. */
  lemma ColumnsListed(attrs: seq<string>, c: string)
    ensures c in KeepFirst(Columns(attrs)) <==>
            || (c in JOINED && c in attrs)
            || (c == "extra" && WantsExtra(attrs))
            || (exists f :: f in EXTRA && f in attrs && c == ExtraName(f))
  {
    ComplexListed(attrs, c);
    ExtraStays();
    if c in JOINED { JoinedStays(c); }
  }

  /** "extra" is listed exactly when an extra field is requested. */
  lemma ExtraListed(attrs: seq<string>)
    ensures "extra" in KeepFirst(Columns(attrs)) <==> WantsExtra(attrs)
  {
    ColumnsListed(attrs, "extra");
    ExtraStays();
    forall f ensures "extra" != ExtraName(f) {
      assert |f| == 0 ==> |ExtraName(f)| == 6;
    }
  }

  // ---------------------------------------------------------------- the order of the columns

  lemma {:induction false} WithoutNone(s: seq<string>, drop: seq<string>)
    requires forall x :: x in s ==> x !in drop
    ensures Without(s, drop) == s
  {
    if s != [] {
      assert s[0] in s;
      WithoutNone(s[1..], drop);
    }
  }

  /** New members follow what is already kept. */
  lemma {:induction false} KeepFirstOfNew(a: seq<string>, b: seq<string>)
    requires NoDup(b) && forall x :: x in b ==> x !in a
    ensures KeepFirst(a + b) == KeepFirst(a) + b
  {
    if b == [] {
      assert a + b == a;
    } else {
      var front, last := b[..|b| - 1], b[|b| - 1];
      assert (a + b)[..|a + b| - 1] == a + front;
      assert forall x :: x in front ==> x in b;
      KeepFirstOfNew(a, front);
      assert last !in a && last !in front;
    }
  }

  lemma {:induction false} OnlyDistinct(s: seq<string>, keep: seq<string>)
    requires NoDup(s)
    ensures NoDup(Only(s, keep))
  {
    if s != [] {
      var tail := s[1..];
      assert forall i :: 0 <= i < |tail| ==> tail[i] == s[i + 1];
      assert s[0] !in tail;
      OnlyDistinct(tail, keep);
      var rest := Only(tail, keep);
      assert forall j :: 0 <= j < |rest| ==> rest[j] in rest && rest[j] != s[0];
    }
  }

  lemma ExtraNamesDistinct(fields: seq<string>)
    requires NoDup(fields)
    ensures NoDup(ExtraNames(fields))
  {
    forall i, j | 0 <= i < j < |fields| ensures ExtraName(fields[i]) != ExtraName(fields[j]) {
      assert ExtraName(fields[i])[6..] == fields[i] && ExtraName(fields[j])[6..] == fields[j];
    }
  }

  lemma ExtraFieldsDistinct()
    ensures NoDup(EXTRA)
  {
  }

  /** No joined attribute begins like an extra column. */
  lemma JoinedIsNoExtraName(c: string, field: string)
    requires c in JOINED
    ensures c != ExtraName(field) && c != "extra"
  {
    ExtraStays();
    assert ExtraName(field)[0] == 'e';
    assert forall i :: 0 <= i < |JOINED| ==> JOINED[i][0] != 'e';
  }

  /** What follows the joined attributes. */
  function ExtraColumns(attrs: seq<string>): seq<string> {
    (if WantsExtra(attrs) then ["extra"] else []) + ExtraNames(Only(EXTRA, attrs))
  }

  lemma ExtraColumnsDistinct(attrs: seq<string>)
    ensures NoDup(ExtraColumns(attrs))
  {
    ExtraFieldsDistinct();
    OnlyDistinct(EXTRA, attrs);
    ExtraNamesDistinct(Only(EXTRA, attrs));
    var complex := ExtraNames(Only(EXTRA, attrs));
    forall i | 0 <= i < |complex| ensures complex[i] != "extra" {
      assert |complex[i]| >= 6;
    }
  }

  lemma ExtraColumnsNew(attrs: seq<string>, c: string)
    requires c in ExtraColumns(attrs)
    ensures c !in JOINED
  {
    var complex := ExtraNames(Only(EXTRA, attrs));
    if c in JOINED {
      JoinedIsNoExtraName(c, "");
      var i :| 0 <= i < |complex| && complex[i] == c;
      JoinedIsNoExtraName(c, Only(EXTRA, attrs)[i]);
    }
  }

  lemma SimpleStays(simple: seq<string>, c: string)
    requires forall x :: x in simple ==> x in JOINED
    requires c in simple || c == "extra"
    ensures c !in EXTRA
  {
  }

  /** Filtering the extra fields out of the simple columns takes nothing away. */
  lemma FilterIsIdle(simple: seq<string>)
    requires forall x :: x in simple ==> x in JOINED
    ensures Without(simple, EXTRA) == simple && Without(simple + ["extra"], EXTRA) == simple + ["extra"]
  {
    forall c | c in simple + ["extra"] ensures c !in EXTRA { SimpleStays(simple, c); }
    WithoutNone(simple + ["extra"], EXTRA);
    forall c | c in simple ensures c !in EXTRA { SimpleStays(simple, c); }
    WithoutNone(simple, EXTRA);
  }

  lemma AssembledIdly(simple: seq<string>, complex: seq<string>, drop: seq<string>)
    requires Without(simple, drop) == simple && Without(simple + ["extra"], drop) == simple + ["extra"]
    ensures Assemble(simple, complex, drop) == simple + ((if complex != [] then ["extra"] else []) + complex)
  {
  }

  lemma ColumnsAre(attrs: seq<string>)
    ensures Columns(attrs) == Only(attrs, JOINED) + ExtraColumns(attrs)
  {
    ComplexListed(attrs, "");
    FilterIsIdle(Only(attrs, JOINED));
    AssembledIdly(Only(attrs, JOINED), ExtraNames(Only(EXTRA, attrs)), EXTRA);
  }

  /** The list in full: the joined attributes in the order first requested, "extra" if any
      extra field is, then those fields' columns in the order of the field table. */
  lemma ExpectedColumns(attrs: seq<string>)
    ensures KeepFirst(Columns(attrs)) == KeepFirst(Only(attrs, JOINED)) + ExtraColumns(attrs)
  {
    ColumnsAre(attrs);
    ExtraColumnsDistinct(attrs);
    var simple, extra := Only(attrs, JOINED), ExtraColumns(attrs);
    forall c | c in extra ensures c !in simple { ExtraColumnsNew(attrs, c); }
    KeepFirstOfNew(simple, extra);
  }
}
