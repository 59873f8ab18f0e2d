/** The API connection: one command, any of several servers. */
module LightOsConnection {
  import opened Prelude
  import opened Arithmetic

  /** Does the server answer the given attempt, and what. */
  type Answers<!R> = (nat, nat) -> Option<R>

  function Min(a: nat, b: nat): nat {
    if a < b then a else b
  }

  /** The servers contacted by `m` attempts, `start` first and then in cyclic order. */
  function Cyclic(start: nat, n: nat, m: nat): (s: seq<nat>)
    requires n > 0
    ensures |s| == m && forall i :: 0 <= i < m ==> s[i] == Slot(start, n, i)
  {
    seq(m, i requires 0 <= i < m => Slot(start, n, i))
  }

  /** A full cycle contacts every server exactly once and is back where it began. */
  lemma FullCycle(start: nat, n: nat)
    requires start < n
    ensures NoDup(Cyclic(start, n, n))
    ensures forall k :: 0 <= k < n <==> k in Cyclic(start, n, n)
    ensures Slot(start, n, n) == start
  {
    var s := Cyclic(start, n, n);
    forall i | 0 <= i < n ensures s[i] == if start + i < n then start + i else start + i - n {
      if start + i < n {
        DivisionUnique(start + i, n, 0, start + i);
      } else {
        DivisionUnique(start + i, n, 1, start + i - n);
      }
    }
    forall k | 0 <= k < n ensures k in s {
      var i := if k >= start then k - start else k + n - start;
      assert s[i] == k;
    }
    DivisionUnique(start + n, n, 1, start);
  }

  class LightOSConnection<Server> {
    const apiservers: seq<Server>
    var cur: nat

    ghost predicate Valid()
      reads this
    {
      cur < |apiservers|
    }

    constructor (servers: seq<Server>, first: nat)
      requires first < |servers|
      ensures Valid() && apiservers == servers && cur == first
    {
      apiservers, cur := servers, first;
    }

    /** `inTime` is how often the deadline check succeeds. Returns the first answer, if
        any, and the servers contacted. */
    method SendCmd<R>(answers: Answers<R>, inTime: nat) returns (r: Option<R>, contacted: seq<nat>)
      requires Valid()
      modifies this`cur
      ensures Valid()
      ensures contacted == Cyclic(old(cur), |apiservers|, |contacted|) && |contacted| <= inTime
      ensures r.Some? ==> contacted != [] && cur == contacted[|contacted| - 1] && r == answers(|contacted| - 1, cur)
      ensures forall i :: 0 <= i < (if r.Some? then |contacted| - 1 else |contacted|) ==> answers(i, contacted[i]).None?
      ensures r.None? ==> |contacted| == if |apiservers| > 1 then Min(inTime, |apiservers|) else inTime
      ensures r.None? ==> cur == Slot(old(cur), |apiservers|, |contacted|)
      ensures r.None? && 1 < |apiservers| <= inTime ==> |contacted| == |apiservers| && cur == old(cur)
    {
      var startIdx, n := cur, |apiservers|;
      contacted := [];
      r := None;
      CycleBegins(startIdx, n);
      while |contacted| < inTime
        invariant cur < n && |contacted| <= inTime && r == None
        invariant n > 1 ==> |contacted| < n
        invariant contacted == Cyclic(startIdx, n, |contacted|)
        invariant cur == Slot(startIdx, n, |contacted|)
        invariant forall i :: 0 <= i < |contacted| ==> answers(i, contacted[i]).None?
        decreases inTime - |contacted|
      {
        r := answers(|contacted|, cur);
        CycleGrows(startIdx, n, |contacted|);
        contacted := contacted + [cur];
        if r.Some? {
          return;
        }
        cur := (cur + 1) % n;
        if cur == startIdx && n > 1 {
          break;
        }
      }
    }
  }

  /** The index after `m` failed attempts. */
  function Slot(start: nat, n: nat, m: nat): (k: nat)
    requires n > 0
    ensures k < n
  {
    (start + m) % n
  }

  lemma CycleBegins(start: nat, n: nat)
    requires start < n
    ensures Slot(start, n, 0) == start && Cyclic(start, n, 0) == []
  {
  }

  /** One more contact; the index is back at the start after exactly a full cycle. */
  lemma CycleGrows(start: nat, n: nat, m: nat)
    requires start < n && (n > 1 ==> m < n)
    ensures Cyclic(start, n, m + 1) == Cyclic(start, n, m) + [Slot(start, n, m)]
    ensures (Slot(start, n, m) + 1) % n == Slot(start, n, m + 1)
    ensures n > 1 ==> (Slot(start, n, m + 1) == start <==> m + 1 == n)
  {
    RemainderOfNext(start + m, n);
    if n > 1 {
      if start + m + 1 < n {
        DivisionUnique(start + m + 1, n, 0, start + m + 1);
      } else {
        DivisionUnique(start + m + 1, n, 1, start + m + 1 - n);
      }
    }
  }
}
