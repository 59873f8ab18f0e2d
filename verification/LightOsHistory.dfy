/** What the IP list of a volume holds after a series of operations. */
module LightOsHistory {
  import opened Prelude
  import opened LightOsAcl

  /** The IP lists before, between and after the operations. The list that an add writes
      depends on the order in which a set is listed, so it is part of the history. */
  ghost predicate IpHistory(ops: seq<Op>, lists: seq<seq<Item>>) {
    && |lists| == |ops| + 1 && GoodIpAcl(lists[0])
    && forall j :: 0 <= j < |ops| ==> GoodOp(ops[j]) && EditsIps(ops[j], lists[j], lists[j + 1])
  }

  predicate Names(op: Op, x: Item) {
    op.Overwrite? || x in op.ips
  }

  /** An add to which the address was on offer wrote a list without it. */
  ghost predicate Cuts(op: Op, before: seq<Item>, after: seq<Item>, x: Item) {
    op.Add? && x in Offered(before, op.ips) && x !in after
  }

  /** The add keeps the address in whatever order the offered ones are listed. */
  ghost predicate Roomy(op: Op, before: seq<Item>, x: Item) {
    op.Add? ==>
      var all := Offered(before, op.ips); |all| <= IP_ACL_SIZE || (x.V4? && Count4(all) <= IP_ACL_SIZE)
  }

  /** An address on offer can be cut exactly if there is not room for its kind. */
  lemma CutOnlyWithoutRoom(before: seq<Item>, ips: seq<Item>, x: Item, host: string)
    requires GoodIpAcl(before) && Addresses(ips) && x in Offered(before, ips)
    ensures (forall after :: IpsAfterAdd(before, ips, after) ==> x in after) <==> Roomy(Add(host, ips), before, x)
  {
    OfferedAddresses(before, ips);
    if Roomy(Add(host, ips), before, x) {
      forall after | IpsAfterAdd(before, ips, after) ensures x in after {
        IpsAfterAddFacts(before, ips, after);
        assert x in Elements(after) ==> x in after;
      }
    } else {
      var merged := CanBeCut(Offered(before, ips), x);
      assert IpsAfterAdd(before, ips, Cap(merged));
    }
  }

  /** What one operation does to one address. */
  lemma AddressStep(op: Op, before: seq<Item>, after: seq<Item>, x: Item)
    requires GoodIpAcl(before) && GoodOp(op) && EditsIps(op, before, after) && IsAddress(x)
    ensures GoodIpAcl(after)
    ensures x in after <==>
            !Cuts(op, before, after, x) && if Names(op, x) then op.Add? else x in before
    ensures Roomy(op, before, x) ==> !Cuts(op, before, after, x)
  {
    match op
    case Add(host, ips) =>
      IpsAfterAddFacts(before, ips, after);
      IpsAfterAddGood(before, ips, after);
      RemoveFirstOfDistinct(before, AllowNone);
      assert x in after ==> x in Elements(after);
      if x in Offered(before, ips) && Roomy(op, before, x) {
        CutOnlyWithoutRoom(before, ips, x, host);
      }
    case Remove(_, ips) => RemoveIpsKeepsGood(before, ips);
    case Overwrite =>
  }

  // ---------------------------------------------------------------- series

  /** The operation named the address, or an add cut it. */
  ghost predicate Concerns(ops: seq<Op>, lists: seq<seq<Item>>, j: nat, x: Item)
    requires j < |ops| && |lists| == |ops| + 1
  {
    Names(ops[j], x) || Cuts(ops[j], lists[j], lists[j + 1], x)
  }

  ghost predicate LastConcern(ops: seq<Op>, lists: seq<seq<Item>>, x: Item, i: int)
    requires |lists| == |ops| + 1
  {
    && -1 <= i < |ops|
    && (i >= 0 ==> Concerns(ops, lists, i, x))
    && forall j :: i < j < |ops| ==> !Concerns(ops, lists, j, x)
  }

  /** The address is on the list after the i-th operation, the last that concerned it. */
  ghost predicate Stands(ops: seq<Op>, lists: seq<seq<Item>>, x: Item, i: int)
    requires |lists| == |ops| + 1 && -1 <= i < |ops|
  {
    if i == -1 then x in lists[0] else ops[i].Add? && !Cuts(ops[i], lists[i], lists[i + 1], x)
  }

  /** An address is on the list exactly if the last operation that named or cut it was an
      add that kept it. */
  lemma {:induction false} AddressIsLastConcern(ops: seq<Op>, lists: seq<seq<Item>>, x: Item, i: int)
    requires IpHistory(ops, lists) && IsAddress(x) && LastConcern(ops, lists, x, i)
    ensures GoodIpAcl(lists[|ops|])
    ensures x in lists[|ops|] <==> Stands(ops, lists, x, i)
    decreases |ops|
  {
    if ops != [] {
      var last := |ops| - 1;
      var front, before := ops[..last], lists[..last + 1];
      var k := if i == last then LastConcernOf(front, before, x) else i;
      assert forall j :: 0 <= j < last ==> (Concerns(front, before, j, x) <==> Concerns(ops, lists, j, x));
      AddressIsLastConcern(front, before, x, k);
      AddressStep(ops[last], lists[last], lists[last + 1], x);
      if i < last {
        assert !Concerns(ops, lists, last, x);
        assert Stands(front, before, x, i) <==> Stands(ops, lists, x, i);
        assert before[|front|] == lists[last];
      }
    }
  }

  ghost function LastConcernOf(ops: seq<Op>, lists: seq<seq<Item>>, x: Item): (i: int)
    requires |lists| == |ops| + 1
    ensures LastConcern(ops, lists, x, i)
  {
    if ops == [] then -1
    else
      var last := |ops| - 1;
      if Concerns(ops, lists, last, x) then last
      else
        var i := LastConcernOf(ops[..last], lists[..last + 1], x);
        assert forall j :: 0 <= j < last ==>
          (Concerns(ops[..last], lists[..last + 1], j, x) <==> Concerns(ops, lists, j, x));
        i
  }

  ghost predicate LastNaming(ops: seq<Op>, x: Item, i: int) {
    && -1 <= i < |ops|
    && (i >= 0 ==> Names(ops[i], x))
    && forall j :: i < j < |ops| ==> !Names(ops[j], x)
  }

  lemma {:induction false} HistoryGood(ops: seq<Op>, lists: seq<seq<Item>>, j: nat, x: Item)
    requires IpHistory(ops, lists) && j <= |ops| && IsAddress(x)
    ensures GoodIpAcl(lists[j])
    decreases j
  {
    if j > 0 {
      HistoryGood(ops, lists, j - 1, x);
      AddressStep(ops[j - 1], lists[j - 1], lists[j], x);
    }
  }

  /** While adds have room for it, an address is on the list exactly if the last operation
      naming it, an overwrite among them, added it. */
  lemma AddressIsLastNaming(ops: seq<Op>, lists: seq<seq<Item>>, x: Item, i: int)
    requires IpHistory(ops, lists) && IsAddress(x) && LastNaming(ops, x, i)
    requires forall j :: 0 <= j < |ops| ==> Roomy(ops[j], lists[j], x)
    ensures x in lists[|ops|] <==> if i == -1 then x in lists[0] else ops[i].Add?
  {
    forall j | 0 <= j < |ops| ensures !Cuts(ops[j], lists[j], lists[j + 1], x) {
      HistoryGood(ops, lists, j, x);
      AddressStep(ops[j], lists[j], lists[j + 1], x);
    }
    AddressIsLastConcern(ops, lists, x, i);
  }

  /** The operation takes the address of a host that is not its own, or cuts it. */
  ghost predicate Loses(ops: seq<Op>, lists: seq<seq<Item>>, host: string, x: Item, k: nat)
    requires |lists| == |ops| + 1 && k < |ops|
  {
    || (ops[k].Remove? && ops[k].host != host && x in ops[k].ips)
    || Cuts(ops[k], lists[k], lists[k + 1], x)
  }

  /** A host that the i-th operation added, and none since removed, keeps an address it was
      added with exactly if no operation from then on loses it, or an add naming it comes
      later and keeps it: that is, if the last operation concerning it does not lose it. */
  lemma HostKeepsAddress(ops: seq<Op>, lists: seq<seq<Item>>, host: string, i: nat, x: Item, k: int)
    requires IpHistory(ops, lists) && IsAddress(x) && LastConcern(ops, lists, x, k)
    requires LastMention(ops, host, i) && ops[i].Add? && x in ops[i].ips
    ensures i <= k
    ensures x in lists[|ops|] <==> !Loses(ops, lists, host, x, k)
  {
    AddressIsLastConcern(ops, lists, x, k);
    assert Concerns(ops, lists, i, x);
    assert k > i ==> !Mentions(ops[k], host);
  }

  // ---------------------------------------------------------------- failing inputs

  /** Two hosts with the same address: removing one takes the address from the other,
      though there was room at both adds. */
  lemma SharedAddressLost(a: string, b: string, x: Item)
    requires a != b && a != ALLOW_NONE && b != ALLOW_NONE && IsAddress(x)
    ensures var created, first := Volume([ALLOW_NONE], [AllowNone]), Volume([a], [x]);
            var both, left := Volume([a, b], [x]), Volume([a], [AllowNone]);
      && Edits(Add(a, [x]), created, first) && AlwaysKept(created.ipAcl, [x])
      && Edits(Add(b, [x]), first, both) && AlwaysKept(first.ipAcl, [x])
      && Edits(Remove(b, [x]), both, left)
      && a in left.acl && x !in left.ipAcl
  {
    assert RemoveFirst([ALLOW_NONE], ALLOW_NONE) == [];
    RemoveAbsent([a], ALLOW_NONE);
    RemoveLast([a], b);
    assert [a] + [b] == [a, b];
    OneAddress([AllowNone], x);
    OneAddress([x], x);
    assert RemoveIps([x], [x]) == [];
  }

  lemma OneAddress(before: seq<Item>, x: Item)
    requires IsAddress(x) && (before == [AllowNone] || before == [x])
    ensures IpsAfterAdd(before, [x], [x]) && AlwaysKept(before, [x])
  {
    if before == [x] {
      RemoveAbsent(before, AllowNone);
    } else {
      assert RemoveFirst(before, AllowNone) == [];
    }
    assert Offered(before, [x]) == {x} by {
      assert Elements([x]) == {x};
    }
    assert Enumerates([x], {x});
    CapSize([x]);
    AddedAddressesKept(before, [x]);
  }

  /** Different addresses, by the lengths of their texts. */
  function SomeV4s(n: nat): (r: seq<Item>)
    ensures |r| == n && forall i :: 0 <= i < n ==> r[i].V4? && |r[i].text| == i
    ensures NoDup(r)
  {
    seq(n, i requires 0 <= i < n => V4(seq(i, _ => '1')))
  }

  lemma OneTooMany(before: seq<Item>, x: Item)
    requires NoDup(before) && |before| == IP_ACL_SIZE && x !in before && x.V4?
    requires forall y :: y in before ==> y.V4?
    ensures !AlwaysKept(before, [x]) && !RepeatsSettle(before, [x])
  {
    RemoveAbsent(before, AllowNone);
    SizeOfElements(before);
    var all := Offered(before, [x]);
    assert all == Elements(before) + {x};
    assert V4s(all) == all;
    AddedAddressesKept(before, [x]);
    RepeatedAddSettles(before, [x]);
  }

  /** With sixteen IPv4 addresses on the list a seventeenth may be left out when it is
      added, and let in when the add is repeated. */
  lemma SeventeenthAddress()
    ensures var items := SomeV4s(17);
      GoodIpAcl(items[..16]) && !AlwaysKept(items[..16], [items[16]]) && !RepeatsSettle(items[..16], [items[16]])
  {
    var items := SomeV4s(17);
    var before, x := items[..16], items[16];
    forall i | 0 <= i < 16 ensures before[i] == items[i] && before[i] != x {
    }
    forall i, j | 0 <= i < j < 16 ensures before[i] != before[j] {
    }
    OneTooMany(before, x);
  }
}
