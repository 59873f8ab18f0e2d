/** The access lists of a LightOS volume and the edits hosts make to them. */
module LightOsAcl {
  import opened Prelude

  const ALLOW_NONE := "ALLOW_NONE"
  const IP_ACL_SIZE := 16

  /** An IP-ACL item, by what netutils says of its text. */
  datatype Item = AllowNone | V4(text: string) | V6(text: string) | Other(text: string)

  datatype Volume = Volume(acl: seq<string>, ipAcl: seq<Item>)

  /** `list.remove`: the first occurrence goes, if there is one. */
  function RemoveFirst<T(==)>(s: seq<T>, x: T): seq<T> {
    if s == [] then [] else if s[0] == x then s[1..] else [s[0]] + RemoveFirst(s[1..], x)
  }

  lemma {:induction false} RemoveFirstOfDistinct<T>(s: seq<T>, x: T)
    requires NoDup(s)
    ensures NoDup(RemoveFirst(s, x))
    ensures forall y :: y in RemoveFirst(s, x) <==> y in s && y != x
    ensures x !in s ==> RemoveFirst(s, x) == s
    ensures |RemoveFirst(s, x)| == if x in s then |s| - 1 else |s|
  {
    if s != [] {
      var tail := s[1..];
      assert forall i :: 0 <= i < |tail| ==> tail[i] == s[i + 1];
      assert s[0] !in tail;
      assert forall y :: y in s <==> y == s[0] || y in tail;
      RemoveFirstOfDistinct(tail, x);
    }
  }

  lemma {:induction false} RemoveLast<T>(s: seq<T>, x: T)
    requires x !in s
    ensures RemoveFirst(s + [x], x) == s
  {
    if s == [] {
    } else {
      assert (s + [x])[1..] == s[1..] + [x];
      RemoveLast(s[1..], x);
    }
  }

  // ---------------------------------------------------------------- the host ACL

  function AddHost(acl: seq<string>, host: string): seq<string> {
    var open := RemoveFirst(acl, ALLOW_NONE);
    if host in open then open else open + [host]
  }

  function RemoveHost(acl: seq<string>, host: string): seq<string> {
    var rest := RemoveFirst(acl, host);
    if rest == [] then [ALLOW_NONE] else rest
  }

  /** Non-empty, without repetition, and ALLOW_NONE only on its own. */
  ghost predicate GoodAcl(acl: seq<string>) {
    acl == [ALLOW_NONE] || (acl != [] && NoDup(acl) && ALLOW_NONE !in acl)
  }

  /** The hosts an ACL lets in. */
  ghost function Hosts(acl: seq<string>): set<string> {
    set h | h in acl && h != ALLOW_NONE
  }

  /** Adding keeps the shape unless the host bears the reserved name beside others. */
  lemma AddHostKeepsGood(acl: seq<string>, host: string)
    requires GoodAcl(acl)
    ensures GoodAcl(AddHost(acl, host)) <==> host != ALLOW_NONE || acl == [ALLOW_NONE]
    ensures host != ALLOW_NONE ==> Hosts(AddHost(acl, host)) == Hosts(acl) + {host}
  {
    RemoveFirstOfDistinct(acl, ALLOW_NONE);
  }

  lemma RemoveHostKeepsGood(acl: seq<string>, host: string)
    requires GoodAcl(acl)
    ensures GoodAcl(RemoveHost(acl, host))
    ensures Hosts(RemoveHost(acl, host)) == Hosts(acl) - {host}
    ensures host != ALLOW_NONE ==> host !in RemoveHost(acl, host)
  {
    RemoveFirstOfDistinct(acl, host);
    if acl == [ALLOW_NONE] {
    } else {
      var rest := RemoveFirst(acl, host);
      if rest == [] {
        assert forall y :: y in acl ==> y == host;
      }
    }
  }

  /** Repeating an edit that did go through leaves the identical host list. */
  lemma EditsIdempotent(acl: seq<string>, host: string)
    requires GoodAcl(acl) && host != ALLOW_NONE
    ensures AddHost(AddHost(acl, host), host) == AddHost(acl, host)
    ensures RemoveHost(RemoveHost(acl, host), host) == RemoveHost(acl, host)
  {
    AddHostKeepsGood(acl, host);
    RemoveHostKeepsGood(acl, host);
    var added, removed := AddHost(acl, host), RemoveHost(acl, host);
    assert host in added;
    RemoveFirstOfDistinct(added, ALLOW_NONE);
    RemoveFirstOfDistinct(removed, host);
  }

  /** Removing a host that was newly added gives back the identical list. */
  lemma RemoveUndoesAdd(acl: seq<string>, host: string)
    requires GoodAcl(acl) && host != ALLOW_NONE && host !in acl
    ensures RemoveHost(AddHost(acl, host), host) == acl
  {
    RemoveFirstOfDistinct(acl, ALLOW_NONE);
    var open := RemoveFirst(acl, ALLOW_NONE);
    RemoveLast(open, host);
  }

  // ---------------------------------------------------------------- the IP ACL

  function Select(items: seq<Item>, v4: bool): (r: seq<Item>)
    ensures forall x :: x in r <==> x in items && (if v4 then x.V4? else x.V6?)
    ensures |r| <= |items|
  {
    if items == [] then []
    else (if (if v4 then items[0].V4? else items[0].V6?) then [items[0]] else []) + Select(items[1..], v4)
  }

  /** At most sixteen items: IPv4 first, IPv6 as room remains. */
  function Cap(items: seq<Item>): seq<Item> {
    var v4, v6 := Select(items, true), Select(items, false);
    if |v4| > IP_ACL_SIZE then v4[..IP_ACL_SIZE]
    else if |items| > IP_ACL_SIZE then
      var room := IP_ACL_SIZE - |v4|;
      v4 + (if room < |v6| then v6[..room] else v6)
    else items
  }

  function RemoveIps(items: seq<Item>, ips: seq<Item>): seq<Item>
    decreases ips
  {
    if ips == [] then items else RemoveIps(RemoveFirst(items, ips[0]), ips[1..])
  }

  function OrAllowNone(items: seq<Item>): seq<Item> {
    if items == [] then [AllowNone] else items
  }

  predicate IsAddress(x: Item) {
    x.V4? || x.V6?
  }

  ghost predicate Addresses(items: seq<Item>) {
    forall x :: x in items ==> IsAddress(x)
  }

  ghost predicate GoodIpAcl(items: seq<Item>) {
    items == [AllowNone] || (items != [] && NoDup(items) && Addresses(items) && |items| <= IP_ACL_SIZE)
  }

  /** The union a host writes; the order in which a set is listed is not specified. */
  ghost function Offered(before: seq<Item>, ips: seq<Item>): set<Item> {
    Elements(RemoveFirst(before, AllowNone)) + Elements(ips)
  }

  ghost predicate IpsAfterAdd(before: seq<Item>, ips: seq<Item>, written: seq<Item>) {
    exists merged :: Enumerates(merged, Offered(before, ips)) && written == Cap(merged)
  }

  lemma {:induction false} SelectDistinct(items: seq<Item>, v4: bool)
    requires NoDup(items)
    ensures NoDup(Select(items, v4))
  {
    if items != [] {
      var tail := items[1..];
      assert forall i :: 0 <= i < |tail| ==> tail[i] == items[i + 1];
      assert items[0] !in tail;
      SelectDistinct(tail, v4);
      var rest := Select(tail, v4);
      assert forall j :: 0 <= j < |rest| ==> rest[j] in rest && rest[j] != items[0];
    }
  }

  lemma {:induction false} SelectSplits(items: seq<Item>)
    requires Addresses(items)
    ensures |Select(items, true)| + |Select(items, false)| == |items|
  {
    if items != [] {
      assert items[0] in items;
      assert forall x :: x in items[1..] ==> x in items;
      SelectSplits(items[1..]);
    }
  }

  lemma SelectMembers(items: seq<Item>)
    ensures forall i :: 0 <= i < |Select(items, true)| ==>
      Select(items, true)[i].V4? && Select(items, true)[i] in items
    ensures forall i :: 0 <= i < |Select(items, false)| ==>
      Select(items, false)[i].V6? && Select(items, false)[i] in items
  {
  }

  /** The capped list of a duplicate-free list of addresses. */
  lemma CapSize(items: seq<Item>)
    requires Addresses(items)
    ensures |Cap(items)| == if |items| <= IP_ACL_SIZE then |items| else IP_ACL_SIZE
    ensures |items| <= IP_ACL_SIZE ==> Cap(items) == items
  {
    SelectSplits(items);
  }

  lemma CapDistinct(items: seq<Item>)
    requires NoDup(items)
    ensures NoDup(Cap(items))
  {
    SelectDistinct(items, true);
    SelectDistinct(items, false);
    SelectMembers(items);
  }

  /** All IPv4 addresses are kept if they fit, and nothing else if they do not. */
  lemma CapMembers(items: seq<Item>)
    ensures Elements(Cap(items)) <= Elements(items)
    ensures |Select(items, true)| <= IP_ACL_SIZE ==> forall x :: x in items && x.V4? ==> x in Cap(items)
    ensures |Select(items, true)| > IP_ACL_SIZE ==> forall x :: x in Cap(items) ==> x.V4?
  {
  }

  /** The number of IPv4 addresses does not depend on the listing order. */
  ghost function Count4(xs: set<Item>): nat {
    |V4s(xs)|
  }

  ghost function V4s(xs: set<Item>): set<Item> {
    set x | x in xs && x.V4?
  }

  lemma SelectCount4(items: seq<Item>)
    requires NoDup(items)
    ensures |Select(items, true)| == Count4(Elements(items))
  {
    SelectDistinct(items, true);
    SizeOfElements(Select(items, true));
    assert Elements(Select(items, true)) == V4s(Elements(items));
  }

  /** The offered items are addresses, ALLOW_NONE having been dropped. */
  lemma OfferedAddresses(before: seq<Item>, ips: seq<Item>)
    requires GoodIpAcl(before) && Addresses(ips)
    ensures forall x :: x in Offered(before, ips) ==> IsAddress(x)
  {
    RemoveFirstOfDistinct(before, AllowNone);
  }

  lemma CapOfOffered(merged: seq<Item>, all: set<Item>)
    requires Enumerates(merged, all) && forall x :: x in all ==> IsAddress(x)
    ensures var written := Cap(merged);
      && NoDup(written) && Elements(written) <= all
      && |written| == (if |all| <= IP_ACL_SIZE then |all| else IP_ACL_SIZE)
      && (|all| <= IP_ACL_SIZE ==> Elements(written) == all)
      && (Count4(all) <= IP_ACL_SIZE ==> forall x :: x in all && x.V4? ==> x in written)
      && (Count4(all) > IP_ACL_SIZE ==> forall x :: x in written ==> x.V4?)
  {
    assert forall x :: x in merged <==> x in all;
    SizeOfElements(merged);
    CapSize(merged);
    CapDistinct(merged);
    CapMembers(merged);
    SelectCount4(merged);
  }

  /** What a host's addition leaves in the IP ACL, whatever the listing order. */
  lemma IpsAfterAddFacts(before: seq<Item>, ips: seq<Item>, written: seq<Item>)
    requires GoodIpAcl(before) && Addresses(ips) && IpsAfterAdd(before, ips, written)
    ensures var all := Offered(before, ips);
      && NoDup(written) && Elements(written) <= all && AllowNone !in all
      && |written| == (if |all| <= IP_ACL_SIZE then |all| else IP_ACL_SIZE)
      && (|all| <= IP_ACL_SIZE ==> Elements(written) == all)
      && (Count4(all) <= IP_ACL_SIZE ==> forall x :: x in all && x.V4? ==> x in written)
      && (Count4(all) > IP_ACL_SIZE ==> forall x :: x in written ==> x.V4?)
  {
    var merged :| Enumerates(merged, Offered(before, ips)) && written == Cap(merged);
    OfferedAddresses(before, ips);
    CapOfOffered(merged, Offered(before, ips));
  }

  /** With at least one address to add the list stays well formed. */
  lemma IpsAfterAddGood(before: seq<Item>, ips: seq<Item>, written: seq<Item>)
    requires GoodIpAcl(before) && Addresses(ips) && ips != [] && IpsAfterAdd(before, ips, written)
    ensures GoodIpAcl(written)
  {
    IpsAfterAddFacts(before, ips, written);
    OfferedAddresses(before, ips);
    assert ips[0] in Offered(before, ips);
    assert forall x :: x in written ==> x in Elements(written);
  }

  // ---------------------------------------------------------------- when addresses make it

  /** All offered addresses fit, or the added ones are IPv4 and all IPv4 addresses fit. */
  ghost predicate AddFits(before: seq<Item>, ips: seq<Item>) {
    var all := Offered(before, ips);
    |all| <= IP_ACL_SIZE || (Count4(all) <= IP_ACL_SIZE && forall x :: x in ips ==> x.V4?)
  }

  /** In whatever order the set is listed, the added addresses are on the list written. */
  ghost predicate AlwaysKept(before: seq<Item>, ips: seq<Item>) {
    forall written :: IpsAfterAdd(before, ips, written) ==> Elements(ips) <= Elements(written)
  }

  /** In whatever orders the sets are listed, a repeated add writes the same addresses. */
  ghost predicate RepeatsSettle(before: seq<Item>, ips: seq<Item>) {
    forall written, again :: IpsAfterAdd(before, ips, written) && IpsAfterAdd(written, ips, again) ==>
      Elements(again) == Elements(written)
  }

  lemma {:induction false} SelectOfConcat(l: seq<Item>, r: seq<Item>, v4: bool)
    ensures Select(l + r, v4) == Select(l, v4) + Select(r, v4)
  {
    if l == [] {
      assert l + r == r;
    } else {
      assert (l + r)[1..] == l[1..] + r;
      SelectOfConcat(l[1..], r, v4);
    }
  }

  /** Too long a list of addresses is cut to its first IPv4 and then its first IPv6 items. */
  lemma CapParts(items: seq<Item>)
    requires Addresses(items) && |items| > IP_ACL_SIZE
    ensures var v4, v6 := Select(items, true), Select(items, false);
      if |v4| > IP_ACL_SIZE then Cap(items) == v4[..IP_ACL_SIZE]
      else IP_ACL_SIZE - |v4| < |v6| && Cap(items) == v4 + v6[..IP_ACL_SIZE - |v4|]
  {
    SelectSplits(items);
  }

  lemma SelectLast(front: seq<Item>, x: Item)
    requires IsAddress(x)
    ensures Select(front + [x], true) == if x.V4? then Select(front, true) + [x] else Select(front, true)
    ensures Select(front + [x], false) == if x.V6? then Select(front, false) + [x] else Select(front, false)
  {
    SelectOfConcat(front, [x], true);
    SelectOfConcat(front, [x], false);
    assert Select([x], x.V4?) == [x] && Select([x], !x.V4?) == [];
  }

  lemma PrefixMisses<T>(s: seq<T>, x: T, k: nat)
    requires x !in s && k <= |s|
    ensures x !in (s + [x])[..k] && (s + [x])[..k] == s[..k]
  {
  }

  lemma CutLast(front: seq<Item>, x: Item)
    requires Addresses(front) && IsAddress(x) && x !in front && |front| >= IP_ACL_SIZE
    requires x.V4? ==> |Select(front, true)| >= IP_ACL_SIZE
    ensures x !in Cap(front + [x])
  {
    var v4, v6 := Select(front, true), Select(front, false);
    SelectLast(front, x);
    assert x !in v4 && x !in v6;
    CapParts(front + [x]);
    if x.V4? {
      PrefixMisses(v4, x, IP_ACL_SIZE);
    } else if |v4| <= IP_ACL_SIZE {
      PrefixMisses(v6, x, IP_ACL_SIZE - |v4|);
    }
  }

  /** Listed last, an address is cut off if there are too many of its kind. */
  lemma CanBeCut(all: set<Item>, x: Item) returns (merged: seq<Item>)
    requires x in all && (forall y :: y in all ==> IsAddress(y)) && |all| > IP_ACL_SIZE
    requires x.V4? ==> Count4(all) > IP_ACL_SIZE
    ensures Enumerates(merged, all) && x !in Cap(merged)
  {
    var front := Listed(all - {x});
    merged := front + [x];
    ElementsOfAppend(front, x);
    assert Elements(front) == all - {x};
    assert x !in front;
    SizeOfElements(front);
    if x.V4? {
      SelectCount4(front);
      assert V4s(all - {x}) == V4s(all) - {x};
    }
    CutLast(front, x);
  }

  lemma CapKeepsFirst(items: seq<Item>, x: Item)
    requires x in items && IsAddress(x) && Select(items, x.V4?) != [] && Select(items, x.V4?)[0] == x
    requires x.V6? ==> |Select(items, true)| < IP_ACL_SIZE
    ensures x in Cap(items)
  {
    var v4, v6 := Select(items, true), Select(items, false);
    if |v4| > IP_ACL_SIZE {
      assert v4[..IP_ACL_SIZE][0] == x;
    } else if |items| > IP_ACL_SIZE && x.V6? {
      var room := IP_ACL_SIZE - |v4|;
      assert (if room < |v6| then v6[..room] else v6)[0] == x;
    }
  }

  /** Listed first, an address is kept if IPv4, or if the IPv4 addresses leave room. */
  lemma CanBeKept(all: set<Item>, x: Item) returns (merged: seq<Item>)
    requires x in all && (forall y :: y in all ==> IsAddress(y))
    requires x.V6? ==> Count4(all) < IP_ACL_SIZE
    ensures Enumerates(merged, all) && x in Cap(merged)
  {
    var rest := Listed(all - {x});
    merged := [x] + rest;
    assert Enumerates(merged, all) by {
      assert Elements(rest) == all - {x};
      assert forall y :: y in merged <==> y == x || y in rest;
    }
    SelectOfConcat([x], rest, x.V4?);
    assert Select([x], x.V4?) == [x];
    SelectCount4(merged);
    CapKeepsFirst(merged, x);
  }

  /** A host's own addresses are certain to be on the list it writes if and only if they fit. */
  lemma AddedAddressesKept(before: seq<Item>, ips: seq<Item>)
    requires GoodIpAcl(before) && Addresses(ips)
    ensures AlwaysKept(before, ips) <==> AddFits(before, ips)
  {
    var all := Offered(before, ips);
    OfferedAddresses(before, ips);
    if AddFits(before, ips) {
      forall written | IpsAfterAdd(before, ips, written) ensures Elements(ips) <= Elements(written) {
        IpsAfterAddFacts(before, ips, written);
      }
    } else {
      var x := LosableAddress(before, ips);
      var merged := CanBeCut(all, x);
      assert IpsAfterAdd(before, ips, Cap(merged));
      assert x in Elements(ips);
    }
  }

  /** If the addresses do not fit, one of the added ones can be cut off. */
  lemma LosableAddress(before: seq<Item>, ips: seq<Item>) returns (x: Item)
    requires GoodIpAcl(before) && Addresses(ips) && !AddFits(before, ips)
    ensures x in ips && (x.V4? ==> Count4(Offered(before, ips)) > IP_ACL_SIZE)
    ensures Count4(Offered(before, ips)) > IP_ACL_SIZE ==> x.V4?
  {
    var all, old4 := Offered(before, ips), Elements(RemoveFirst(before, AllowNone));
    if Count4(all) > IP_ACL_SIZE {
      RemoveFirstOfDistinct(before, AllowNone);
      SizeOfElements(RemoveFirst(before, AllowNone));
      if forall y :: y in ips ==> !y.V4? {
        Subset(V4s(all), old4);
        assert false;
      }
      x :| x in ips && x.V4?;
    } else {
      x :| x in ips && !x.V4?;
    }
  }

  lemma Subset<T>(xs: set<T>, ys: set<T>)
    requires xs <= ys
    ensures |xs| <= |ys|
  {
    assert ys == xs + (ys - xs);
  }

  lemma SameSizeSubset<T>(xs: set<T>, ys: set<T>)
    requires xs <= ys && |ys| <= |xs|
    ensures xs == ys
  {
    assert ys == xs + (ys - xs);
  }

  /** Written addresses hold no ALLOW_NONE, so a repeated add offers them and its own. */
  lemma OfferedAgain(before: seq<Item>, ips: seq<Item>, written: seq<Item>)
    requires GoodIpAcl(before) && Addresses(ips) && IpsAfterAdd(before, ips, written)
    ensures Offered(written, ips) == Elements(written) + Elements(ips) <= Offered(before, ips)
    ensures Count4(Offered(written, ips)) <= Count4(Offered(before, ips))
    ensures |Elements(written)| == |written| <= IP_ACL_SIZE
  {
    IpsAfterAddFacts(before, ips, written);
    OfferedAddresses(before, ips);
    assert AllowNone !in written by {
      assert AllowNone !in Elements(written);
    }
    RemoveAbsent(written, AllowNone);
    SizeOfElements(written);
    Subset(V4s(Offered(written, ips)), V4s(Offered(before, ips)));
  }

  lemma KeptSettles(before: seq<Item>, ips: seq<Item>, written: seq<Item>, again: seq<Item>)
    requires GoodIpAcl(before) && Addresses(ips)
    requires IpsAfterAdd(before, ips, written) && IpsAfterAdd(written, ips, again)
    requires Elements(ips) <= Elements(written)
    ensures Elements(again) == Elements(written)
  {
    OfferedAgain(before, ips, written);
    AgainFacts(before, ips, written, again);
    assert Offered(written, ips) == Elements(written);
  }

  lemma FullSettles(before: seq<Item>, ips: seq<Item>, written: seq<Item>, again: seq<Item>)
    requires GoodIpAcl(before) && Addresses(ips)
    requires IpsAfterAdd(before, ips, written) && IpsAfterAdd(written, ips, again)
    requires |Offered(before, ips)| > IP_ACL_SIZE == Count4(Offered(before, ips))
    ensures Elements(again) == Elements(written)
  {
    FullOfV4(before, ips, written);
    AgainFacts(before, ips, written, again);
    assert Elements(written) <= Elements(again) by {
      forall x | x in Elements(written) ensures x in Elements(again) {
        assert x in V4s(Offered(written, ips));
      }
    }
    SameSizeSubset(Elements(written), Elements(again));
  }

  lemma RepeatSettles(before: seq<Item>, ips: seq<Item>, written: seq<Item>, again: seq<Item>)
    requires GoodIpAcl(before) && Addresses(ips)
    requires IpsAfterAdd(before, ips, written) && IpsAfterAdd(written, ips, again)
    requires AddFits(before, ips) || Count4(Offered(before, ips)) == IP_ACL_SIZE
    ensures Elements(again) == Elements(written)
  {
    if AddFits(before, ips) {
      AddedAddressesKept(before, ips);
      KeptSettles(before, ips, written, again);
    } else {
      FullSettles(before, ips, written, again);
    }
  }

  lemma FullOfV4(before: seq<Item>, ips: seq<Item>, written: seq<Item>)
    requires GoodIpAcl(before) && Addresses(ips) && IpsAfterAdd(before, ips, written)
    requires |Offered(before, ips)| > IP_ACL_SIZE == Count4(Offered(before, ips))
    ensures |Elements(written)| == Count4(Offered(written, ips)) == IP_ACL_SIZE
    ensures Elements(written) == V4s(Offered(written, ips))
  {
    OfferedAgain(before, ips, written);
    IpsAfterAddFacts(before, ips, written);
    OnlyTheV4(Offered(before, ips), written);
    assert V4s(Offered(written, ips)) == Elements(written);
  }

  lemma OnlyTheV4(all: set<Item>, written: seq<Item>)
    requires Count4(all) == IP_ACL_SIZE == |Elements(written)|
    requires forall x :: x in all && x.V4? ==> x in written
    ensures forall x :: x in Elements(written) <==> x in all && x.V4?
  {
    SameSizeSubset(V4s(all), Elements(written));
  }

  /** The facts of an add, for the repetition. */
  lemma AgainFacts(before: seq<Item>, ips: seq<Item>, written: seq<Item>, again: seq<Item>)
    requires GoodIpAcl(before) && Addresses(ips)
    requires IpsAfterAdd(before, ips, written) && IpsAfterAdd(written, ips, again)
    ensures var all := Offered(written, ips);
      && Elements(again) <= all
      && |Elements(again)| == (if |all| <= IP_ACL_SIZE then |all| else IP_ACL_SIZE)
      && (|all| <= IP_ACL_SIZE ==> Elements(again) == all)
      && (Count4(all) <= IP_ACL_SIZE ==> forall x :: x in all && x.V4? ==> x in again)
  {
    OfferedAgain(before, ips, written);
    OfferedAddresses(before, ips);
    var merged :| Enumerates(merged, Offered(written, ips)) && again == Cap(merged);
    CapOfOffered(merged, Offered(written, ips));
    SizeOfElements(again);
  }

  /** A repeated add is certain to write the same addresses if and only if they fit, or
      the IPv4 addresses fill the list exactly. */
  lemma RepeatedAddSettles(before: seq<Item>, ips: seq<Item>)
    requires GoodIpAcl(before) && Addresses(ips)
    ensures RepeatsSettle(before, ips) <==>
            AddFits(before, ips) || Count4(Offered(before, ips)) == IP_ACL_SIZE
  {
    var all := Offered(before, ips);
    if AddFits(before, ips) || Count4(all) == IP_ACL_SIZE {
      forall written, again | IpsAfterAdd(before, ips, written) && IpsAfterAdd(written, ips, again)
        ensures Elements(again) == Elements(written)
      {
        RepeatSettles(before, ips, written, again);
      }
    } else {
      var written, again := RepeatMayChange(before, ips);
    }
  }

  /** Otherwise an added address is cut off at first and let in the second time. */
  lemma RepeatMayChange(before: seq<Item>, ips: seq<Item>) returns (written: seq<Item>, again: seq<Item>)
    requires GoodIpAcl(before) && Addresses(ips)
    requires !AddFits(before, ips) && Count4(Offered(before, ips)) != IP_ACL_SIZE
    ensures IpsAfterAdd(before, ips, written) && IpsAfterAdd(written, ips, again)
    ensures Elements(again) != Elements(written)
  {
    var x := LosableAddress(before, ips);
    OfferedAddresses(before, ips);
    var merged := CanBeCut(Offered(before, ips), x);
    written := Cap(merged);
    OfferedAgain(before, ips, written);
    merged := CanBeKept(Offered(written, ips), x);
    again := Cap(merged);
    assert x in Elements(again) && x !in Elements(written);
  }

  lemma {:induction false} RemoveIpsFacts(items: seq<Item>, ips: seq<Item>)
    requires NoDup(items)
    ensures NoDup(RemoveIps(items, ips))
    ensures forall x :: x in RemoveIps(items, ips) <==> x in items && x !in ips
    ensures |RemoveIps(items, ips)| <= |items|
    decreases ips
  {
    if ips != [] {
      RemoveFirstOfDistinct(items, ips[0]);
      RemoveIpsFacts(RemoveFirst(items, ips[0]), ips[1..]);
      assert forall x :: x in ips <==> x == ips[0] || x in ips[1..];
    }
  }

  lemma RemoveIpsKeepsGood(items: seq<Item>, ips: seq<Item>)
    requires GoodIpAcl(items)
    ensures GoodIpAcl(OrAllowNone(RemoveIps(items, ips)))
    ensures forall x :: IsAddress(x) ==> (x in OrAllowNone(RemoveIps(items, ips)) <==> x in items && x !in ips)
  {
    RemoveIpsFacts(items, ips);
    var rest := RemoveIps(items, ips);
    if items == [AllowNone] && rest != [] {
      assert rest[0] in rest;
    }
  }

  lemma {:induction false} RemoveAbsentIps(items: seq<Item>, ips: seq<Item>)
    requires forall x :: x in ips ==> x !in items
    ensures RemoveIps(items, ips) == items
    decreases ips
  {
    if ips != [] {
      RemoveAbsent(items, ips[0]);
      RemoveAbsentIps(items, ips[1..]);
    }
  }

  lemma RepeatedRemoveSettles(items: seq<Item>, ips: seq<Item>)
    requires GoodIpAcl(items)
    ensures var once := OrAllowNone(RemoveIps(items, ips)); OrAllowNone(RemoveIps(once, ips)) == once
  {
    var rest := RemoveIps(items, ips);
    RemoveIpsFacts(items, ips);
    if rest != [] {
      RemoveAbsentIps(rest, ips);
    } else {
      RemoveIpsFacts([AllowNone], ips);
      var again := RemoveIps([AllowNone], ips);
      if again != [] {
        assert again[0] in again;
        assert again == [AllowNone];
      }
    }
  }

  // ---------------------------------------------------------------- operations

  datatype Op = Add(host: string, ips: seq<Item>) | Remove(host: string, ips: seq<Item>) | Overwrite

  function EditAcl(op: Op, acl: seq<string>): seq<string> {
    match op
    case Add(host, _) => AddHost(acl, host)
    case Remove(host, _) => RemoveHost(acl, host)
    case Overwrite => [ALLOW_NONE]
  }

  ghost predicate EditsIps(op: Op, before: seq<Item>, after: seq<Item>) {
    match op
    case Add(_, ips) => IpsAfterAdd(before, ips, after)
    case Remove(_, ips) => after == OrAllowNone(RemoveIps(before, ips))
    case Overwrite => after == [AllowNone]
  }

  /** `after` is what the operation writes when it has read `before`. */
  ghost predicate Edits(op: Op, before: Volume, after: Volume) {
    after.acl == EditAcl(op, before.acl) && EditsIps(op, before.ipAcl, after.ipAcl)
  }

  /** What initialize_connection and the host's connector make sure of. */
  ghost predicate GoodOp(op: Op) {
    match op
    case Add(host, ips) => host != ALLOW_NONE && ips != [] && Addresses(ips)
    case Remove(host, _) => host != ALLOW_NONE
    case Overwrite => true
  }

  ghost predicate GoodVolume(v: Volume) {
    GoodAcl(v.acl) && GoodIpAcl(v.ipAcl)
  }

  lemma EditsKeepGood(op: Op, before: Volume, after: Volume)
    requires GoodOp(op) && GoodVolume(before) && Edits(op, before, after)
    ensures GoodVolume(after)
  {
    match op
    case Add(host, ips) =>
      AddHostKeepsGood(before.acl, host);
      IpsAfterAddGood(before.ipAcl, ips, after.ipAcl);
    case Remove(host, ips) =>
      RemoveHostKeepsGood(before.acl, host);
      RemoveIpsKeepsGood(before.ipAcl, ips);
    case Overwrite =>
  }

  /** A retry of an edit that did go through writes the identical volume, but for an
      added host's addresses when they do not fit. */
  lemma RetriesHarmless(op: Op, before: Volume, after: Volume, again: Volume)
    requires GoodOp(op) && GoodVolume(before) && Edits(op, before, after) && Edits(op, after, again)
    ensures again.acl == after.acl
    ensures !op.Add? ==> again == after
    ensures op.Add? && RepeatsSettle(before.ipAcl, op.ips) ==> Elements(again.ipAcl) == Elements(after.ipAcl)
  {
    match op
    case Add(host, _) => EditsIdempotent(before.acl, host);
    case Remove(host, ips) =>
      EditsIdempotent(before.acl, host);
      RepeatedRemoveSettles(before.ipAcl, ips);
    case Overwrite =>
  }

  // ---------------------------------------------------------------- the driver's edits

  const OK := 200

  /** A volume's state, by the API's name for it. */
  datatype VolumeState = Available | Deleting | Deleted | Failed | Unknown | OtherState(name: string)

  /** A volume as the API describes it. An absent or empty `acl` object is None. */
  datatype VolumeData =
    VolumeData(uuid: string, acl: Option<seq<string>>, ipAcl: Option<seq<Item>>, etag: string,
               state: Option<VolumeState>)

  datatype GetReply = GetReply(status: int, data: Option<VolumeData>)

  datatype PutRequest = PutRequest(uuid: string, volume: Volume, etag: string)

  /** The reply has what the operation needs for a PUT. */
  predicate CanEdit(op: Op, got: GetReply) {
    && got.data.Some? && got.data.value.uuid != ""
    && (op.Add? ==> got.status == OK && got.data.value.acl.Some? && got.data.value.ipAcl.Some?)
    && (op.Remove? ==>
          && got.data.value.acl.Some? && got.data.value.acl.value != []
          && got.data.value.ipAcl.Some? && got.data.value.ipAcl.value != [])
  }

  /** The request sends what the operation makes of the volume read, under the ETag read with it. */
  ghost predicate Carries(op: Op, got: GetReply, put: PutRequest) {
    && got.data.Some? && put.uuid == got.data.value.uuid != "" && put.etag == got.data.value.etag
    && if op.Overwrite? then put.volume == Volume([ALLOW_NONE], [AllowNone])
       else
         && got.data.value.acl.Some? && got.data.value.ipAcl.Some?
         && Edits(op, Volume(got.data.value.acl.value, got.data.value.ipAcl.value), put.volume)
  }

  /** Who is on the list that an accepted request puts in place. */
  lemma PutDecidesMembership(op: Op, got: GetReply, put: PutRequest, host: string)
    requires Carries(op, got, put) && GoodOp(op) && host != ALLOW_NONE
    requires op.Overwrite? || GoodAcl(got.data.value.acl.value)
    ensures Mentions(op, host) ==> (host in put.volume.acl <==> op.Add?)
    ensures !Mentions(op, host) ==> (host in put.volume.acl <==> host in got.data.value.acl.value)
  {
    if !op.Overwrite? {
      MembershipStep(op, got.data.value.acl.value, host);
    }
  }

  /** None is the driver's `return False`: nothing is sent. */
  method AddVolumeAcl(got: GetReply, aclToAdd: string, hostIps: seq<Item>) returns (r: Option<PutRequest>)
    ensures r.Some? <==>
            && got.status == OK && got.data.Some? && got.data.value.uuid != ""
            && got.data.value.acl.Some? && got.data.value.ipAcl.Some?
    ensures r.Some? ==> Carries(Add(aclToAdd, hostIps), got, r.value)
  {
    if got.status != OK || got.data.None? {
      return None;
    }
    var data := got.data.value;
    if data.uuid == "" || data.acl.None? || data.ipAcl.None? {
      return None;
    }
    var acl, ipAcl := data.acl.value, data.ipAcl.value;
    if ALLOW_NONE in acl {
      acl := RemoveFirst(acl, ALLOW_NONE);
    } else {
      RemoveAbsent(acl, ALLOW_NONE);
    }
    if aclToAdd !in acl {
      acl := acl + [aclToAdd];
    }
    if AllowNone in ipAcl {
      ipAcl := RemoveFirst(ipAcl, AllowNone);
    } else {
      RemoveAbsent(ipAcl, AllowNone);
    }
    var union := (set x | x in ipAcl) + (set x | x in hostIps);
    ipAcl := ListOfSet(union);
    ghost var merged := ipAcl;
    var ipv4addrs, ipv6addrs := Select(ipAcl, true), Select(ipAcl, false);
    if |ipv4addrs| > IP_ACL_SIZE {
      ipAcl := ipv4addrs[..IP_ACL_SIZE];
    } else if |ipAcl| > IP_ACL_SIZE {
      var count := IP_ACL_SIZE - |ipv4addrs|;
      ipAcl := ipv4addrs + (if count < |ipv6addrs| then ipv6addrs[..count] else ipv6addrs);
    }
    assert Enumerates(merged, Offered(data.ipAcl.value, hostIps)) && ipAcl == Cap(merged);
    return Some(PutRequest(data.uuid, Volume(acl, ipAcl), data.etag));
  }

  lemma {:induction false} RemoveAbsent<T>(s: seq<T>, x: T)
    requires x !in s
    ensures RemoveFirst(s, x) == s
  {
    if s != [] { RemoveAbsent(s[1..], x); }
  }

  method RemoveVolumeAcl(got: GetReply, aclToRemove: string, hostIps: seq<Item>) returns (r: Option<PutRequest>)
    ensures r.Some? <==>
            && got.data.Some? && got.data.value.uuid != ""
            && got.data.value.acl.Some? && got.data.value.acl.value != []
            && got.data.value.ipAcl.Some? && got.data.value.ipAcl.value != []
    ensures r.Some? ==> Carries(Remove(aclToRemove, hostIps), got, r.value)
  {
    if got.data.None? || got.data.value.uuid == "" || got.data.value.acl.None? {
      return None;
    }
    var data := got.data.value;
    var acl := data.acl.value;
    if acl == [] {
      return None;
    }
    acl := RemoveFirst(acl, aclToRemove);
    if acl == [] {
      acl := acl + [ALLOW_NONE];
    }
    if data.ipAcl.None? || data.ipAcl.value == [] {
      return None;
    }
    var ipAcl := data.ipAcl.value;
    var i := 0;
    while i < |hostIps|
      invariant 0 <= i <= |hostIps|
      invariant RemoveIps(data.ipAcl.value, hostIps) == RemoveIps(ipAcl, hostIps[i..])
    {
      ipAcl := RemoveFirst(ipAcl, hostIps[i]);
      i := i + 1;
    }
    if ipAcl == [] {
      ipAcl := ipAcl + [AllowNone];
    }
    return Some(PutRequest(data.uuid, Volume(acl, ipAcl), data.etag));
  }

  method OverwriteVolumeAcl(got: GetReply, acl: seq<string>, ipAcl: seq<Item>) returns (r: Option<PutRequest>)
    ensures r.Some? <==> got.data.Some? && got.data.value.uuid != ""
    ensures r.Some? ==> r.value == PutRequest(got.data.value.uuid, Volume(acl, ipAcl), got.data.value.etag)
    ensures r.Some? && acl == [ALLOW_NONE] && ipAcl == [AllowNone] ==> Carries(Overwrite, got, r.value)
  {
    if got.data.None? || got.data.value.uuid == "" {
      return None;
    }
    return Some(PutRequest(got.data.value.uuid, Volume(acl, ipAcl), got.data.value.etag));
  }

  // ---------------------------------------------------------------- folds

  /** The host ACL after a series of operations. */
  function FoldAcl(acl: seq<string>, ops: seq<Op>): seq<string> {
    if ops == [] then acl else EditAcl(ops[|ops| - 1], FoldAcl(acl, ops[..|ops| - 1]))
  }

  predicate Mentions(op: Op, host: string) {
    op.Overwrite? || op.host == host
  }

  /** The last operation that concerns the host is `i`, or there is none and `i` is -1. */
  ghost predicate LastMention(ops: seq<Op>, host: string, i: int) {
    && -1 <= i < |ops|
    && (i >= 0 ==> Mentions(ops[i], host))
    && forall j :: i < j < |ops| ==> !Mentions(ops[j], host)
  }

  function LastMentionOf(ops: seq<Op>, host: string): (i: int)
    ensures LastMention(ops, host, i)
  {
    if ops == [] then -1
    else if Mentions(ops[|ops| - 1], host) then |ops| - 1
    else LastMentionOf(ops[..|ops| - 1], host)
  }

  /** What one operation does to one host's membership. */
  lemma MembershipStep(op: Op, before: seq<string>, host: string)
    requires GoodAcl(before) && GoodOp(op) && host != ALLOW_NONE
    ensures GoodAcl(EditAcl(op, before))
    ensures host in EditAcl(op, before) <==> if Mentions(op, host) then op.Add? else host in before
  {
    assert forall acl :: host in Hosts(acl) <==> host in acl;
    match op
    case Add(h, _) => AddHostKeepsGood(before, h);
    case Remove(h, _) => RemoveHostKeepsGood(before, h);
    case Overwrite =>
  }

  /** A host is on the list exactly when the last operation concerning it added it. */
  lemma {:induction false} MembershipIsLastMention(acl: seq<string>, ops: seq<Op>, host: string, i: int)
    requires GoodAcl(acl) && host != ALLOW_NONE && LastMention(ops, host, i)
    requires forall j :: 0 <= j < |ops| ==> GoodOp(ops[j])
    ensures GoodAcl(FoldAcl(acl, ops))
    ensures host in FoldAcl(acl, ops) <==> if i == -1 then host in acl else ops[i].Add?
  {
    if ops != [] {
      var front := ops[..|ops| - 1];
      var k := if i == |ops| - 1 then LastMentionOf(front, host) else i;
      MembershipIsLastMention(acl, front, host, k);
      MembershipStep(ops[|ops| - 1], FoldAcl(acl, front), host);
    }
  }
}
