/** The driver's retry and wait loops, over a clock and a scripted cluster. */
module LightOsDriver {
  import opened Prelude
  import opened LightOsAcl
  import P = LightOsProtocol

  const NOT_FOUND := 404
  const TERMINAL := {Available, Deleting, Deleted, Failed, Unknown}

  datatype Error = UnboundLocal | Backend | VolumeNotFound

  function StateOf(s: GetReply): VolumeState {
    if s.status == OK && s.data.Some? && s.data.value.state.Some? then s.data.value.state.value else Unknown
  }

  predicate Settled(s: GetReply) {
    StateOf(s) in TERMINAL && s.status != NOT_FOUND
  }

  /** A wait ends at a reply other than 404 that shows one of the five named states, or none. */
  lemma SettledMeans(s: GetReply)
    ensures Settled(s) <==>
            && s.status != 404
            && (s.status == 200 && s.data.Some? && s.data.value.state.Some? ==>
                  !s.data.value.state.value.OtherState?)
  {
  }

  predicate SeenAvailable(s: GetReply) {
    s.status == OK && s.data.Some? && s.data.value.state == Some(Available)
  }

  lemma AvailableMeans(s: GetReply)
    ensures StateOf(s) == Available <==> SeenAvailable(s)
  {
  }

  /** The volume's ACL does, or does not, hold the host. */
  predicate Shows(s: GetReply, acl: string, requested: bool) {
    s.status == OK && s.data.Some? && s.data.value.acl.Some? && (acl in s.data.value.acl.value) == requested
  }

  /** The reply neither shows the membership nor is an OK one without a list. */
  predicate Undecided(s: GetReply, acl: string, requested: bool) {
    s.status == OK ==>
      s.data.Some? && s.data.value.acl.Some? && (acl in s.data.value.acl.value) != requested
  }

  function UuidIn(s: GetReply): Result<string, Error> {
    if s.status == OK && s.data.Some? && s.data.value.uuid != "" then Ok(s.data.value.uuid) else Err(VolumeNotFound)
  }

  // ---------------------------------------------------------------- what the calls leave behind

  /** Time passes on its own (`wall`) and by sleeping. `replies` answer the GETs and
      `statuses` the PUTs, in the order they are made. */
  datatype Script = Script(wall: nat -> int, replies: nat -> GetReply, statuses: nat -> int)

  /** The clock never goes back. */
  ghost predicate Steady(w: Script) {
    forall i: nat, j: nat :: Ordered(w, i, j)
  }

  ghost predicate Ordered(w: Script, i: nat, j: nat) {
    i <= j ==> w.wall(i) <= w.wall(j)
  }

  /** The clock readings, sleeps and GETs made so far. */
  datatype Marks = Marks(clock: nat, slept: nat, got: nat)

  /** A PUT that was sent, and the number of the GET it was made from. */
  datatype Sent = Sent(request: PutRequest, origin: nat)

  /** Every PUT from the `n`-th on carries the operation, made from a GET of number `g` or later. */
  ghost predicate Carrying(w: Script, op: Op, puts: seq<Sent>, n: nat, g: nat) {
    forall k :: n <= k < |puts| ==> g <= puts[k].origin && Carries(op, w.replies(puts[k].origin), puts[k].request)
  }

  /** The last PUT, a later one than the `n`-th, was accepted, and no other of those was. */
  ghost predicate LastAccepted(w: Script, puts: seq<Sent>, n: nat) {
    && |puts| > n && w.statuses(|puts| - 1) == OK
    && forall k :: n <= k < |puts| - 1 ==> w.statuses(k) != OK
  }

  ghost predicate NoneAccepted(w: Script, puts: seq<Sent>, n: nat) {
    forall k :: n <= k < |puts| ==> w.statuses(k) != OK
  }

  /** The replies, among those numbered from `g` up to `h`, that the operation can edit. */
  ghost function Editable(w: Script, op: Op, g: nat, h: nat): seq<nat>
    decreases h
  {
    if h <= g then []
    else Editable(w, op, g, h - 1) + if CanEdit(op, w.replies(h - 1)) then [h - 1] else []
  }

  lemma {:induction false} EditableMembers(w: Script, op: Op, g: nat, h: nat)
    ensures forall k :: k in Editable(w, op, g, h) <==> g <= k < h && CanEdit(op, w.replies(k))
    decreases h
  {
    if h > g { EditableMembers(w, op, g, h - 1); }
  }

  lemma {:induction false} EditableInOrder(w: Script, op: Op, g: nat, h: nat, i: nat, j: nat)
    requires i < j < |Editable(w, op, g, h)|
    ensures Editable(w, op, g, h)[i] < Editable(w, op, g, h)[j]
    decreases h
  {
    var front := Editable(w, op, g, h - 1);
    EditableMembers(w, op, g, h - 1);
    if j < |front| {
      EditableInOrder(w, op, g, h - 1, i, j);
    } else {
      assert front[i] in front;
    }
  }

  /** The GETs that the PUTs from the `n`-th on were made from, in order. */
  function OriginsFrom(puts: seq<Sent>, n: nat): seq<nat> {
    if |puts| <= n then [] else OriginsFrom(puts[..|puts| - 1], n) + [puts[|puts| - 1].origin]
  }

  lemma {:induction false} OriginsAre(puts: seq<Sent>, n: nat)
    requires n <= |puts|
    ensures |OriginsFrom(puts, n)| == |puts| - n
    ensures forall i :: n <= i < |puts| ==> OriginsFrom(puts, n)[i - n] == puts[i].origin
  {
    if |puts| > n { OriginsAre(puts[..|puts| - 1], n); }
  }

  /** Clock readings number `first` to `last`, with a sleep between any two, on time. */
  ghost predicate OnTime(w: Script, first: nat, last: nat, limit: int) {
    forall j :: first <= j < last ==> w.wall(j) + (j - first) <= limit
  }

  function Fewer(n: nat): nat {
    if n == 0 then 0 else n - 1
  }

  /** Readings each followed by an attempt, with a sleep before any attempt but the first. */
  ghost predicate TriesOnTime(w: Script, from: Marks, attempts: nat, end: int) {
    forall j :: from.clock <= j < from.clock + attempts ==> w.wall(j) + from.slept + Fewer(j - from.clock) < end
  }

  /** What a call that tried until `end` did between two marks: each reply that can be
      edited led to exactly one PUT, in order; every clock reading but a last late one is
      before the end and followed by an attempt; and the attempts end with an accepted PUT,
      made from the last GET, or that late reading. */
  ghost predicate Tried(w: Script, op: Op, puts: seq<Sent>, n: nat, end: int, from: Marks, to: Marks) {
    && n <= |puts| && from.got <= to.got
    && OriginsFrom(puts, n) == Editable(w, op, from.got, to.got)
    && var attempts := to.got - from.got;
       && TriesOnTime(w, from, attempts, end)
       && if LastAccepted(w, puts, n)
          then
            && puts[|puts| - 1].origin == to.got - 1
            && to == Marks(from.clock + attempts, from.slept + Fewer(attempts), to.got)
          else
            && NoneAccepted(w, puts, n) && w.wall(from.clock + attempts) + to.slept >= end
            && to == Marks(from.clock + attempts + 1, from.slept + Fewer(attempts), to.got)
  }

  /** A wait for a state: GETs follow clock readings not past the end, with a sleep after
      each reply that has not settled, up to one that has or a reading past the end. */
  ghost predicate Awaited(w: Script, timeout: int, from: Marks, to: Marks, r: Result<VolumeState, Error>) {
    && from.got <= to.got
    && (forall k :: from.got <= k < to.got - 1 ==> !Settled(w.replies(k)))
    && var looks, end := to.got - from.got, w.wall(from.clock) + timeout;
       && OnTime(w, from.clock + 1, from.clock + 1 + looks, end)
       && r == (if looks == 0 then Err(UnboundLocal) else Ok(StateOf(w.replies(to.got - 1))))
       && if looks > 0 && Settled(w.replies(to.got - 1))
          then to == Marks(from.clock + 1 + looks, from.slept + looks - 1, to.got)
          else
            && w.wall(from.clock + 1 + looks) + looks > end
            && to == Marks(from.clock + 2 + looks, from.slept + looks, to.got)
  }

  /** A wait for a membership: the same up to a reply that shows it, or an OK one without list. */
  ghost predicate AwaitedAcl(w: Script, timeout: int, acl: string, requested: bool, from: Marks, to: Marks, r: bool) {
    && from.got <= to.got
    && (forall k :: from.got <= k < to.got - 1 ==> Undecided(w.replies(k), acl, requested))
    && var looks, end := to.got - from.got, w.wall(from.clock) + timeout;
       && OnTime(w, from.clock + 1, from.clock + 1 + looks, end - 1)
       && (r <==> looks > 0 && Shows(w.replies(to.got - 1), acl, requested))
       && if looks > 0 && !Undecided(w.replies(to.got - 1), acl, requested)
          then to == Marks(from.clock + 1 + looks, from.slept + looks - 1, to.got)
          else
            && w.wall(from.clock + 1 + looks) + looks >= end
            && to == Marks(from.clock + 2 + looks, from.slept + looks, to.got)
  }

  /** What update_volume_acl did: it read the clock for its end, tried, and if the end had
      not passed then, waited for the state. */
  ghost predicate Updated(w: Script, op: Op, timeout: int, puts: seq<Sent>, n: nat,
                          from: Marks, tried: Marks, to: Marks, r: Result<bool, Error>)
  {
    var end := w.wall(from.clock) + from.slept + timeout;
    && Tried(w, op, puts, n, end, from.(clock := from.clock + 1), tried)
    && if !InTime(w, timeout, from, tried) then r == Ok(false) && to == tried.(clock := tried.clock + 1)
       else WaitedOut(w, end - (w.wall(tried.clock + 1) + tried.slept), tried.(clock := tried.clock + 2), to, r)
  }

  /** A wait for the state, and what it makes of the answer. */
  ghost predicate WaitedOut(w: Script, left: int, from: Marks, to: Marks, r: Result<bool, Error>) {
    exists state :: Awaited(w, left, from, to, state) && r == Answer(state)
  }

  function Answer(state: Result<VolumeState, Error>): Result<bool, Error> {
    if state.Err? then Err(state.error) else Ok(state.value == Available)
  }

  /** The attempts ended with time left. */
  predicate InTime(w: Script, timeout: int, from: Marks, tried: Marks) {
    w.wall(tried.clock) + tried.slept < w.wall(from.clock) + from.slept + timeout
  }

  /** What initialize_connection did for a named host with a discovery client and addresses. */
  ghost predicate Initialized(w: Script, host: string, ips: seq<Item>, timeout: int, puts: seq<Sent>, n: nat,
                              from: Marks, tried: Marks, updated: Marks, added: Result<bool, Error>,
                              to: Marks, r: Result<string, Error>)
  {
    && Updated(w, Add(host, ips), timeout, puts, n, from, tried, updated, added)
    && match added
       case Err(error) => r == Err(error) && to == updated
       case Ok(false) => r == Err(Backend) && to == updated
       case Ok(true) =>
         if r == Err(Backend) then AwaitedAcl(w, timeout, host, true, updated, to, false)
         else
           && to.got > 0 && r == UuidIn(w.replies(to.got - 1))
           && AwaitedAcl(w, timeout, host, true, updated, to.(got := to.got - 1), true)
  }

  /** What terminate_connection did for a named host, or when forced: for the wait the answer
      does not matter. */
  ghost predicate Terminated(w: Script, host: string, ips: seq<Item>, timeout: int, puts: seq<Sent>, n: nat,
                             from: Marks, tried: Marks, updated: Marks, removed: Result<bool, Error>,
                             to: Marks, r: Result<(), Error>)
  {
    && Updated(w, RemovalOf(host, ips), timeout, puts, n, from, tried, updated, removed)
    && r == (if removed.Err? then Err(removed.error) else Ok(()))
    && if host != "" && removed == Ok(true)
       then exists gone :: AwaitedAcl(w, timeout, host, false, updated, to, gone)
       else to == updated
  }

  function RemovalOf(host: string, ips: seq<Item>): Op {
    if host == "" then Overwrite else Remove(host, ips)
  }

  // ---------------------------------------------------------------- what follows from it

  /** Attempts begin exactly if the first reading is in time. */
  lemma TriedFromTheStart(w: Script, op: Op, puts: seq<Sent>, n: nat, end: int, from: Marks, to: Marks)
    requires Tried(w, op, puts, n, end, from, to)
    ensures to.got > from.got <==> w.wall(from.clock) + from.slept < end
  {
  }

  /** A wait looks at the volume exactly if its first reading after the start is in time. */
  lemma LooksWhileTimeLeft(w: Script, timeout: int, acl: string, requested: bool, from: Marks, to: Marks,
                           state: Result<VolumeState, Error>, shown: bool)
    ensures Awaited(w, timeout, from, to, state) ==>
              (to.got > from.got <==> w.wall(from.clock + 1) <= w.wall(from.clock) + timeout)
              && (state == Err(UnboundLocal) <==> to.got == from.got)
              && (state == Ok(Available) <==> to.got > from.got && SeenAvailable(w.replies(to.got - 1)))
    ensures AwaitedAcl(w, timeout, acl, requested, from, to, shown) ==>
              (to.got > from.got <==> w.wall(from.clock + 1) < w.wall(from.clock) + timeout)
              && (shown <==> to.got > from.got && Shows(w.replies(to.got - 1), acl, requested))
  {
    if to.got > 0 { AvailableMeans(w.replies(to.got - 1)); }
  }

  /** An attempt is made if and only if the first reading after the start is in time; a
      complete reply then leads to a PUT. */
  lemma TriesWhileTimeLeft(w: Script, op: Op, timeout: int, puts: seq<Sent>, n: nat,
                           from: Marks, tried: Marks, to: Marks, r: Result<bool, Error>)
    requires Steady(w) && Updated(w, op, timeout, puts, n, from, tried, to, r)
    ensures tried.got > from.got <==> w.wall(from.clock + 1) < w.wall(from.clock) + timeout
    ensures tried.got > from.got && CanEdit(op, w.replies(from.got)) ==> |puts| > n && puts[n].origin == from.got
    ensures forall k :: from.got <= k < tried.got && CanEdit(op, w.replies(k)) ==>
              exists i :: n <= i < |puts| && puts[i].origin == k
  {
    var editable := Editable(w, op, from.got, tried.got);
    EditableMembers(w, op, from.got, tried.got);
    OriginsAre(puts, n);
    forall k | from.got <= k < tried.got && CanEdit(op, w.replies(k))
      ensures exists i :: n <= i < |puts| && puts[i].origin == k
    {
      assert k in editable;
      var i :| 0 <= i < |editable| && editable[i] == k;
      assert puts[n + i].origin == k;
    }
    if tried.got > from.got && CanEdit(op, w.replies(from.got)) {
      FirstEditable(w, op, from.got, tried.got);
      assert OriginsFrom(puts, n)[n - n] == puts[n].origin;
    }
  }

  lemma {:induction false} FirstEditable(w: Script, op: Op, g: nat, h: nat)
    requires g < h && CanEdit(op, w.replies(g))
    ensures Editable(w, op, g, h) != [] && Editable(w, op, g, h)[0] == g
    decreases h
  {
    if g < h - 1 {
      FirstEditable(w, op, g, h - 1);
    }
  }

  /** Exactly when it answers True: a PUT was accepted, the end had not passed then, and the
      last reply, of the wait, shows the volume Available. It fails exactly when, in time,
      not one more GET was made. */
  lemma UpdateAnswers(w: Script, op: Op, timeout: int, puts: seq<Sent>, n: nat,
                      from: Marks, tried: Marks, to: Marks, r: Result<bool, Error>)
    requires Steady(w) && Updated(w, op, timeout, puts, n, from, tried, to, r)
    ensures to.got >= tried.got >= from.got
    ensures InTime(w, timeout, from, tried) ==> LastAccepted(w, puts, n)
    ensures r == Ok(true) <==>
            && LastAccepted(w, puts, n) && InTime(w, timeout, from, tried)
            && to.got > tried.got && SeenAvailable(w.replies(to.got - 1))
    ensures r.Err? ==> r == Err(UnboundLocal)
    ensures r.Err? <==>
            LastAccepted(w, puts, n) && InTime(w, timeout, from, tried) && to.got == tried.got
    ensures LastAccepted(w, puts, n) || (NoneAccepted(w, puts, n) && r == Ok(false))
  {
    if to.got > 0 { AvailableMeans(w.replies(to.got - 1)); }
    assert Ordered(w, tried.clock - 1, tried.clock);
  }

  // ---------------------------------------------------------------- the driver

  class World {
    const script: Script
    var clock: nat
    var slept: nat
    var got: nat
    var puts: seq<Sent>

    constructor (script: Script)
      ensures this.script == script && Now() == Marks(0, 0, 0) && puts == []
    {
      this.script := script;
      clock, slept, got, puts := 0, 0, 0, [];
    }

    ghost function Now(): Marks
      reads this`clock, this`slept, this`got
    {
      Marks(clock, slept, got)
    }

    method Time() returns (t: int)
      modifies this`clock
      ensures clock == old(clock) + 1 && t == script.wall(old(clock)) + slept
    {
      t := script.wall(clock) + slept;
      clock := clock + 1;
    }

    method Sleep()
      modifies this`slept
      ensures slept == old(slept) + 1
    {
      slept := slept + 1;
    }

    method GetVolume() returns (r: GetReply)
      modifies this`got
      ensures got == old(got) + 1 && r == script.replies(old(got))
    {
      r := script.replies(got);
      got := got + 1;
    }

    /** One GET, the operation's edit of what it returned, and its PUT exactly if that had
        what the edit needs. */
    method Attempt(op: Op, ghost n: nat, ghost g: nat) returns (accepted: bool)
      requires n <= |puts| && g <= got && Carrying(script, op, puts, n, g)
      modifies this`got, this`puts
      ensures got == old(got) + 1
      ensures Attempted(script, op, old(puts), puts, old(got))
      ensures Carrying(script, op, puts, n, g) && old(puts) <= puts
      ensures accepted <==> CanEdit(op, script.replies(old(got))) && script.statuses(|old(puts)|) == OK
    {
      var origin := got;
      ghost var before := puts;
      var reply := GetVolume();
      var edited: Option<PutRequest>;
      match op {
        case Add(host, ips) => edited := AddVolumeAcl(reply, host, ips);
        case Remove(host, ips) => edited := RemoveVolumeAcl(reply, host, ips);
        case Overwrite => edited := OverwriteVolumeAcl(reply, [ALLOW_NONE], [AllowNone]);
      }
      if edited.None? {
        return false;
      }
      puts := puts + [Sent(edited.value, origin)];
      CarryingGrows(script, op, before, puts, n, g, origin);
      return script.statuses(|puts| - 1) == OK;
    }

    /** One look at the state, and unless it has settled a sleep and the next clock reading. */
    method LookForState(ghost timeout: int, ghost from: Marks) returns (settled: bool, state: VolumeState, now: int)
      requires Looking(script, timeout, from, Now()) && clock > 0
      requires script.wall(clock - 1) + slept <= script.wall(from.clock) + from.slept + timeout
      modifies this`clock, this`slept, this`got
      ensures got == old(got) + 1 && state == StateOf(script.replies(old(got)))
      ensures settled ==> Awaited(script, timeout, from, Now(), Ok(state))
      ensures !settled ==> Looking(script, timeout, from, Now())
      ensures !settled ==>
                slept == old(slept) + 1 && clock == old(clock) + 1 && now == script.wall(clock - 1) + slept
    {
      ghost var marks := Now();
      var seen := GetVolume();
      state := StateOf(seen);
      settled := state in TERMINAL && seen.status != NOT_FOUND;
      if settled {
        LooksSettled(script, timeout, from, marks, Now(), seen);
        now := 0;
      } else {
        Sleep();
        now := Time();
        LooksAgain(script, timeout, from, marks, Now(), seen);
      }
    }

    /** Returns the state of the last GET, the first that settled unless time ran out. The
        state is never bound exactly when not one GET was made. */
    method WaitForVolumeAvailable(timeout: int) returns (r: Result<VolumeState, Error>)
      requires Steady(script)
      modifies this`clock, this`slept, this`got
      ensures Awaited(script, timeout, old(Now()), Now(), r)
    {
      ghost var from := Now();
      var start := Time();
      var stop := start + timeout;
      var state: Option<VolumeState> := None;
      var now := Time();
      assert Ordered(script, from.clock, clock - 1);
      while now <= stop
        invariant Looking(script, timeout, from, Now()) && clock > 0
        invariant now == script.wall(clock - 1) + slept >= script.wall(from.clock) + slept
        invariant state == if got == from.got then None else Some(StateOf(script.replies(got - 1)))
        decreases stop - script.wall(from.clock) - slept
      {
        var settled, seen;
        settled, seen, now := LookForState(timeout, from);
        if settled {
          return Ok(seen);
        }
        state := Some(seen);
        assert Ordered(script, from.clock, clock - 1);
      }
      r := if state.Some? then Ok(state.value) else Err(UnboundLocal);
      LooksNoMore(script, timeout, from, Now(), r);
    }

    /** One pass of the loop: a sleep unless it is the first, an attempt, and if that is not
        accepted the next clock reading. */
    method Pass(op: Op, first: bool, ghost n: nat, ghost end: int, ghost from: Marks) returns (accepted: bool, now: int)
      requires first <==> got == from.got
      requires Trying(script, op, puts, n, end, from, Now()) && Carrying(script, op, puts, n, from.got)
      requires clock > 0 && script.wall(clock - 1) + slept < end
      modifies this`clock, this`slept, this`got, this`puts
      ensures old(puts) <= puts && Carrying(script, op, puts, n, from.got) && got == old(got) + 1
      ensures slept == old(slept) + if first then 0 else 1
      ensures accepted ==> Tried(script, op, puts, n, end, from, Now())
      ensures !accepted ==> Trying(script, op, puts, n, end, from, Now())
      ensures !accepted ==> clock == old(clock) + 1 && now == script.wall(clock - 1) + slept
    {
      ghost var before, marks := puts, Now();
      if !first {
        Sleep();
      }
      accepted := Attempt(op, n, from.got);
      assert accepted <==> CanEdit(op, script.replies(marks.got)) && script.statuses(|before|) == OK;
      assert Attempted(script, op, before, puts, marks.got);
      if accepted {
        TriesAtLast(script, op, before, puts, n, end, from, marks, Now());
        now := 0;
      } else {
        now := Time();
        TriesAgain(script, op, before, puts, n, end, from, marks, Now());
      }
    }

    /** Attempts until one PUT is accepted or the deadline passes. */
    method RetryUntil(op: Op, end: int)
      requires Steady(script)
      modifies this`clock, this`slept, this`got, this`puts
      ensures old(puts) <= puts && Carrying(script, op, puts, |old(puts)|, old(got))
      ensures Tried(script, op, puts, |old(puts)|, end, old(Now()), Now())
    {
      var firstIteration := true;
      ghost var from, n := Now(), |puts|;
      var now := Time();
      TriesBegin(script, op, puts, end, from, Now());
      assert Ordered(script, from.clock, clock - 1);
      while now < end
        invariant Trying(script, op, puts, n, end, from, Now()) && Carrying(script, op, puts, n, from.got)
        invariant old(puts) <= puts && clock > 0 && (firstIteration <==> got == from.got)
        invariant now == script.wall(clock - 1) + slept >= script.wall(from.clock) + slept
        decreases end - script.wall(from.clock) - slept, firstIteration
      {
        var accepted;
        accepted, now := Pass(op, firstIteration, n, end, from);
        firstIteration := false;
        if accepted {
          return;
        }
        assert Ordered(script, from.clock, clock - 1);
      }
      TriesNoMore(script, op, puts, n, end, from, Now());
    }

    /** Every PUT it sends carries the operation. */
    method UpdateVolumeAcl(op: Op, timeout: int) returns (r: Result<bool, Error>, ghost tried: Marks)
      requires Steady(script)
      modifies this
      ensures old(puts) <= puts
      ensures Carrying(script, op, puts, |old(puts)|, old(got))
      ensures Updated(script, op, timeout, puts, |old(puts)|, old(Now()), tried, Now(), r)
    {
      ghost var from, n := Now(), |puts|;
      var start := Time();
      var end := start + timeout;
      ghost var begun := Now();
      RetryUntil(op, end);
      tried := Now();
      var now := Time();
      if now >= end {
        UpdatedLate(script, op, timeout, puts, n, from, end, begun, tried, Now());
        return Ok(false), tried;
      }
      now := Time();
      ghost var waiting := Now();
      var state := WaitForVolumeAvailable(end - now);
      r := Answer(state);
      assert WaitedOut(script, end - now, waiting, Now(), r);
      UpdatedInTime(script, op, timeout, puts, n, from, end, begun, tried, end - now, waiting, Now(), r);
    }

    /** One look at the list, and unless it is decided a sleep and the next clock reading. */
    method LookForAcl(acl: string, requested: bool, ghost timeout: int, ghost from: Marks)
      returns (decided: bool, shown: bool, now: int)
      requires LookingAcl(script, timeout, acl, requested, from, Now()) && clock > 0
      requires script.wall(clock - 1) + slept < script.wall(from.clock) + from.slept + timeout
      modifies this`clock, this`slept, this`got
      ensures got == old(got) + 1
      ensures decided ==> AwaitedAcl(script, timeout, acl, requested, from, Now(), shown)
      ensures !decided ==> LookingAcl(script, timeout, acl, requested, from, Now())
      ensures !decided ==>
                slept == old(slept) + 1 && clock == old(clock) + 1 && now == script.wall(clock - 1) + slept
    {
      ghost var marks := Now();
      var resp := GetVolume();
      now := 0;
      if resp.status == OK {
        if resp.data.None? || resp.data.value.acl.None? {
          LooksDecided(script, timeout, acl, requested, from, marks, Now(), resp, false);
          return true, false, now;
        }
        if (acl in resp.data.value.acl.value) == requested {
          LooksDecided(script, timeout, acl, requested, from, marks, Now(), resp, true);
          return true, true, now;
        }
      }
      Sleep();
      now := Time();
      LooksForAclAgain(script, timeout, acl, requested, from, marks, Now(), resp);
      return false, false, now;
    }

    /** True exactly when the last GET answered OK with the wanted membership. */
    method WaitForVolumeAcl(timeout: int, acl: string, requested: bool) returns (r: bool)
      requires Steady(script)
      modifies this`clock, this`slept, this`got
      ensures AwaitedAcl(script, timeout, acl, requested, old(Now()), Now(), r)
    {
      ghost var from := Now();
      var start := Time();
      var end := start + timeout;
      var now := Time();
      assert Ordered(script, from.clock, clock - 1);
      while now < end
        invariant LookingAcl(script, timeout, acl, requested, from, Now()) && clock > 0
        invariant now == script.wall(clock - 1) + slept >= script.wall(from.clock) + slept
        decreases end - script.wall(from.clock) - slept
      {
        var decided, shown;
        decided, shown, now := LookForAcl(acl, requested, timeout, from);
        if decided {
          return shown;
        }
        assert Ordered(script, from.clock, clock - 1);
      }
      LooksForAclNoMore(script, timeout, acl, requested, from, Now());
      return false;
    }

    /** The volume's UUID, as a last GET shows it. */
    method GetLightosUuid() returns (r: Result<string, Error>)
      modifies this`got
      ensures got == old(got) + 1
      ensures var reply := script.replies(old(got));
        && (r.Ok? <==> reply.status == 200 && reply.data.Some? && reply.data.value.uuid != "")
        && (if r.Ok? then r.value == reply.data.value.uuid else r.error == VolumeNotFound)
    {
      var reply := GetVolume();
      if reply.status != OK || reply.data.None? {
        return Err(VolumeNotFound);
      }
      if reply.data.value.uuid == "" {
        return Err(VolumeNotFound);
      }
      return Ok(reply.data.value.uuid);
    }

    /** For a named host with a discovery client and addresses: adds the host, then waits to
        see it on the list, then reads the UUID that the connection bears; each stage
        exactly if the one before succeeded. It never sends anything but that add. */
    method InitializeConnection(timeout: int, hostnqn: string, foundDsc: string, hostIps: seq<Item>)
      returns (r: Result<string, Error>, ghost tried: Marks, ghost updated: Marks, ghost added: Result<bool, Error>)
      requires Steady(script)
      modifies this
      ensures old(puts) <= puts
      ensures if hostnqn == "" || foundDsc == "" || hostIps == [] then
                r == Err(Backend) && puts == old(puts) && got == old(got)
              else
                && Carrying(script, Add(hostnqn, hostIps), puts, |old(puts)|, old(got))
                && Initialized(script, hostnqn, hostIps, timeout, puts, |old(puts)|,
                               old(Now()), tried, updated, added, Now(), r)
    {
      tried, updated, added := Now(), Now(), Ok(false);
      ghost var from, n := Now(), |puts|;
      if hostnqn == "" || foundDsc == "" || hostIps == [] {
        return Err(Backend), tried, updated, added;
      }
      var success;
      success, tried := UpdateVolumeAcl(Add(hostnqn, hostIps), timeout);
      updated, added := Now(), success;
      if success != Ok(true) {
        r := Err(if success.Err? then success.error else Backend);
        InitializedNoFurther(script, hostnqn, hostIps, timeout, puts, n, from, tried, updated, added, r);
        return;
      }
      var settled := WaitForVolumeAcl(timeout, hostnqn, true);
      ghost var seen := Now();
      if !settled {
        InitializedUnseen(script, hostnqn, hostIps, timeout, puts, n, from, tried, updated, seen);
        return Err(Backend), tried, updated, added;
      }
      r := GetLightosUuid();
      InitializedSeen(script, hostnqn, hostIps, timeout, puts, n, from, tried, updated, seen, Now(), r);
    }

    /** Removes the named host and its addresses, and without a name everyone, if forced;
        then, for a removed host, waits to see it gone. Raises for want of a name only
        without `force`; a removal that fails or does not show is passed over. */
    method TerminateConnection(timeout: int, hostnqn: string, hostIps: seq<Item>, force: bool)
      returns (r: Result<(), Error>, ghost tried: Marks, ghost updated: Marks, ghost removed: Result<bool, Error>)
      requires Steady(script)
      modifies this
      ensures old(puts) <= puts
      ensures if hostnqn == "" && !force then r == Err(Backend) && puts == old(puts) && got == old(got)
              else
                && Carrying(script, RemovalOf(hostnqn, hostIps), puts, |old(puts)|, old(got))
                && Terminated(script, hostnqn, hostIps, timeout, puts, |old(puts)|,
                              old(Now()), tried, updated, removed, Now(), r)
    {
      tried, updated, removed := Now(), Now(), Ok(false);
      if hostnqn == "" {
        if !force {
          return Err(Backend), tried, updated, removed;
        }
        var cleared;
        cleared, tried := UpdateVolumeAcl(Overwrite, timeout);
        updated, removed := Now(), cleared;
        return if cleared.Err? then Err(cleared.error) else Ok(()), tried, updated, removed;
      }
      var success;
      success, tried := UpdateVolumeAcl(Remove(hostnqn, hostIps), timeout);
      updated, removed := Now(), success;
      if success.Err? {
        return Err(success.error), tried, updated, removed;
      }
      if success.value {
        var gone := WaitForVolumeAcl(timeout, hostnqn, false);
      }
      return Ok(()), tried, updated, removed;
    }
  }

  /** The loop of attempts as it stands when a clock reading, the last so far, is looked at. */
  ghost predicate Trying(w: Script, op: Op, puts: seq<Sent>, n: nat, end: int, from: Marks, to: Marks) {
    && n <= |puts| && from.got <= to.got
    && NoneAccepted(w, puts, n)
    && OriginsFrom(puts, n) == Editable(w, op, from.got, to.got)
    && var attempts := to.got - from.got;
       && TriesOnTime(w, from, attempts, end)
       && to == Marks(from.clock + attempts + 1, from.slept + Fewer(attempts), to.got)
  }

  lemma TriesBegin(w: Script, op: Op, puts: seq<Sent>, end: int, from: Marks, to: Marks)
    requires to == from.(clock := from.clock + 1)
    ensures Trying(w, op, puts, |puts|, end, from, to) && Carrying(w, op, puts, |puts|, from.got)
  {
  }

  /** The reading is in time, an attempt is made, and the clock read again. */
  lemma TriesAgain(w: Script, op: Op, before: seq<Sent>, after: seq<Sent>, n: nat, end: int,
                   from: Marks, to: Marks, next: Marks)
    requires Trying(w, op, before, n, end, from, to) && w.wall(to.clock - 1) + to.slept < end
    requires Attempted(w, op, before, after, to.got)
    requires !(CanEdit(op, w.replies(to.got)) && w.statuses(|before|) == OK)
    requires next == Marks(to.clock + 1, to.slept + if to.got == from.got then 0 else 1, to.got + 1)
    ensures Trying(w, op, after, n, end, from, next)
  {
    AttemptExtends(w, op, before, after, n, from.got, to.got);
  }

  /** The attempt's PUT is accepted. */
  lemma TriesAtLast(w: Script, op: Op, before: seq<Sent>, after: seq<Sent>, n: nat, end: int,
                    from: Marks, to: Marks, next: Marks)
    requires Trying(w, op, before, n, end, from, to) && w.wall(to.clock - 1) + to.slept < end
    requires Attempted(w, op, before, after, to.got)
    requires CanEdit(op, w.replies(to.got)) && w.statuses(|before|) == OK
    requires next == Marks(to.clock, to.slept + if to.got == from.got then 0 else 1, to.got + 1)
    ensures Tried(w, op, after, n, end, from, next)
  {
    AttemptExtends(w, op, before, after, n, from.got, to.got);
  }

  /** The GET led to exactly one PUT, if its reply can be edited. */
  ghost predicate Attempted(w: Script, op: Op, before: seq<Sent>, after: seq<Sent>, got: nat) {
    if CanEdit(op, w.replies(got))
    then |after| == |before| + 1 && after[..|before|] == before && after[|before|].origin == got
    else after == before
  }

  lemma CarryingGrows(w: Script, op: Op, before: seq<Sent>, after: seq<Sent>, n: nat, g: nat, got: nat)
    requires n <= |before| && g <= got && Carrying(w, op, before, n, g) && Attempted(w, op, before, after, got)
    requires CanEdit(op, w.replies(got)) ==> Carries(op, w.replies(got), after[|before|].request)
    ensures Carrying(w, op, after, n, g) && |after| >= |before| && after[..|before|] == before
  {
    assert forall k :: 0 <= k < |before| ==> after[k] == before[k];
  }

  /** The reading is late. */
  lemma TriesNoMore(w: Script, op: Op, puts: seq<Sent>, n: nat, end: int, from: Marks, to: Marks)
    requires Trying(w, op, puts, n, end, from, to) && w.wall(to.clock - 1) + to.slept >= end
    ensures Tried(w, op, puts, n, end, from, to)
  {
  }

  /** The wait for a state as it stands when a clock reading, the last so far, is looked at. */
  ghost predicate Looking(w: Script, timeout: int, from: Marks, to: Marks) {
    && from.got <= to.got
    && (forall k :: from.got <= k < to.got ==> !Settled(w.replies(k)))
    && var looks := to.got - from.got;
       && OnTime(w, from.clock + 1, from.clock + 1 + looks, w.wall(from.clock) + timeout)
       && to == Marks(from.clock + 2 + looks, from.slept + looks, to.got)
  }

  /** The same for a membership. */
  ghost predicate LookingAcl(w: Script, timeout: int, acl: string, requested: bool, from: Marks, to: Marks) {
    && from.got <= to.got
    && (forall k :: from.got <= k < to.got ==> Undecided(w.replies(k), acl, requested))
    && var looks := to.got - from.got;
       && OnTime(w, from.clock + 1, from.clock + 1 + looks, w.wall(from.clock) + timeout - 1)
       && to == Marks(from.clock + 2 + looks, from.slept + looks, to.got)
  }

  lemma LooksNoMore(w: Script, timeout: int, from: Marks, to: Marks, r: Result<VolumeState, Error>)
    requires Looking(w, timeout, from, to) && w.wall(to.clock - 1) + (to.got - from.got) > w.wall(from.clock) + timeout
    requires r == if to.got == from.got then Err(UnboundLocal) else Ok(StateOf(w.replies(to.got - 1)))
    ensures Awaited(w, timeout, from, to, r)
  {
  }

  lemma LooksForAclNoMore(w: Script, timeout: int, acl: string, requested: bool, from: Marks, to: Marks)
    requires LookingAcl(w, timeout, acl, requested, from, to)
    requires w.wall(to.clock - 1) + (to.got - from.got) >= w.wall(from.clock) + timeout
    ensures AwaitedAcl(w, timeout, acl, requested, from, to, false)
  {
  }

  lemma LooksDecided(w: Script, timeout: int, acl: string, requested: bool, from: Marks, to: Marks, next: Marks,
                     seen: GetReply, shown: bool)
    requires LookingAcl(w, timeout, acl, requested, from, to)
    requires w.wall(to.clock - 1) + (to.got - from.got) < w.wall(from.clock) + timeout
    requires seen == w.replies(to.got) && !Undecided(seen, acl, requested) && next == to.(got := to.got + 1)
    requires shown <==> Shows(seen, acl, requested)
    ensures AwaitedAcl(w, timeout, acl, requested, from, next, shown)
  {
    OnTimeGrows(w, from.clock + 1, to.clock - 1, w.wall(from.clock) + timeout - 1);
  }

  lemma LooksForAclAgain(w: Script, timeout: int, acl: string, requested: bool, from: Marks, to: Marks, next: Marks,
                         seen: GetReply)
    requires LookingAcl(w, timeout, acl, requested, from, to)
    requires w.wall(to.clock - 1) + (to.got - from.got) < w.wall(from.clock) + timeout
    requires seen == w.replies(to.got) && Undecided(seen, acl, requested)
    requires next == Marks(to.clock + 1, to.slept + 1, to.got + 1)
    ensures LookingAcl(w, timeout, acl, requested, from, next)
  {
    OnTimeGrows(w, from.clock + 1, to.clock - 1, w.wall(from.clock) + timeout - 1);
  }

  lemma LooksSettled(w: Script, timeout: int, from: Marks, to: Marks, next: Marks, seen: GetReply)
    requires Looking(w, timeout, from, to) && w.wall(to.clock - 1) + (to.got - from.got) <= w.wall(from.clock) + timeout
    requires seen == w.replies(to.got) && Settled(seen) && next == to.(got := to.got + 1)
    ensures Awaited(w, timeout, from, next, Ok(StateOf(seen)))
  {
    OnTimeGrows(w, from.clock + 1, to.clock - 1, w.wall(from.clock) + timeout);
  }

  lemma LooksAgain(w: Script, timeout: int, from: Marks, to: Marks, next: Marks, seen: GetReply)
    requires Looking(w, timeout, from, to) && w.wall(to.clock - 1) + (to.got - from.got) <= w.wall(from.clock) + timeout
    requires seen == w.replies(to.got) && !Settled(seen)
    requires next == Marks(to.clock + 1, to.slept + 1, to.got + 1)
    ensures Looking(w, timeout, from, next)
  {
    OnTimeGrows(w, from.clock + 1, to.clock - 1, w.wall(from.clock) + timeout);
  }

  /** One more attempt, the last PUT so far not accepted. */
  lemma AttemptExtends(w: Script, op: Op, before: seq<Sent>, after: seq<Sent>, n: nat, g: nat, h: nat)
    requires g <= h && n <= |before| && Attempted(w, op, before, after, h)
    requires NoneAccepted(w, before, n) && OriginsFrom(before, n) == Editable(w, op, g, h)
    ensures OriginsFrom(after, n) == Editable(w, op, g, h + 1)
    ensures if CanEdit(op, w.replies(h)) && w.statuses(|before|) == OK then LastAccepted(w, after, n)
            else NoneAccepted(w, after, n)
  {
    assert forall k :: 0 <= k < |before| ==> after[k] == before[k];
  }

  lemma OnTimeGrows(w: Script, first: nat, last: nat, limit: int)
    requires OnTime(w, first, last, limit)
    requires last >= first ==> w.wall(last) + (last - first) <= limit
    ensures OnTime(w, first, last + 1, limit)
  {
  }

  lemma UpdatedLate(w: Script, op: Op, timeout: int, puts: seq<Sent>, n: nat, from: Marks, end: int, begun: Marks,
                    tried: Marks, to: Marks)
    requires end == w.wall(from.clock) + from.slept + timeout && begun == from.(clock := from.clock + 1)
    requires Tried(w, op, puts, n, end, begun, tried)
    requires w.wall(tried.clock) + tried.slept >= end && to == tried.(clock := tried.clock + 1)
    ensures Updated(w, op, timeout, puts, n, from, tried, to, Ok(false))
  {
  }

  lemma UpdatedInTime(w: Script, op: Op, timeout: int, puts: seq<Sent>, n: nat, from: Marks, end: int, begun: Marks,
                      tried: Marks, left: int, waiting: Marks, to: Marks, r: Result<bool, Error>)
    requires end == w.wall(from.clock) + from.slept + timeout && begun == from.(clock := from.clock + 1)
    requires Tried(w, op, puts, n, end, begun, tried)
    requires w.wall(tried.clock) + tried.slept < end && left == end - (w.wall(tried.clock + 1) + tried.slept)
    requires waiting == tried.(clock := tried.clock + 2) && WaitedOut(w, left, waiting, to, r)
    ensures Updated(w, op, timeout, puts, n, from, tried, to, r)
  {
  }

  lemma InitializedNoFurther(w: Script, host: string, ips: seq<Item>, timeout: int, puts: seq<Sent>, n: nat,
                             from: Marks, tried: Marks, updated: Marks, added: Result<bool, Error>,
                             r: Result<string, Error>)
    requires Updated(w, Add(host, ips), timeout, puts, n, from, tried, updated, added) && added != Ok(true)
    requires r == Err(if added.Err? then added.error else Backend)
    ensures Initialized(w, host, ips, timeout, puts, n, from, tried, updated, added, updated, r)
  {
  }

  lemma InitializedUnseen(w: Script, host: string, ips: seq<Item>, timeout: int, puts: seq<Sent>, n: nat,
                          from: Marks, tried: Marks, updated: Marks, to: Marks)
    requires Updated(w, Add(host, ips), timeout, puts, n, from, tried, updated, Ok(true))
    requires AwaitedAcl(w, timeout, host, true, updated, to, false)
    ensures Initialized(w, host, ips, timeout, puts, n, from, tried, updated, Ok(true), to, Err(Backend))
  {
  }

  lemma InitializedSeen(w: Script, host: string, ips: seq<Item>, timeout: int, puts: seq<Sent>, n: nat,
                        from: Marks, tried: Marks, updated: Marks, seen: Marks, to: Marks, r: Result<string, Error>)
    requires Updated(w, Add(host, ips), timeout, puts, n, from, tried, updated, Ok(true))
    requires AwaitedAcl(w, timeout, host, true, updated, seen, true) && to == seen.(got := seen.got + 1)
    requires r == UuidIn(w.replies(seen.got))
    ensures Initialized(w, host, ips, timeout, puts, n, from, tried, updated, Ok(true), to, r)
  {
    assert to.(got := to.got - 1) == seen;
  }

  // ---------------------------------------------------------------- the connection methods

  /** With time left and a complete first reply at least one PUT adds the host. A connection
      is handed out exactly if an add was accepted in time, the reply that ends the first
      wait shows the volume Available, the one that ends the second the host on the list,
      and the last one the UUID. */
  lemma InitializeExactly(w: Script, host: string, ips: seq<Item>, timeout: int, puts: seq<Sent>, n: nat,
                          from: Marks, tried: Marks, updated: Marks, added: Result<bool, Error>,
                          to: Marks, r: Result<string, Error>)
    requires Steady(w) && Initialized(w, host, ips, timeout, puts, n, from, tried, updated, added, to, r)
    ensures w.wall(from.clock + 1) < w.wall(from.clock) + timeout && CanEdit(Add(host, ips), w.replies(from.got)) ==>
              |puts| > n && puts[n].origin == from.got
    ensures r.Ok? <==>
            && LastAccepted(w, puts, n) && InTime(w, timeout, from, tried)
            && updated.got > tried.got && SeenAvailable(w.replies(updated.got - 1))
            && to.got - 1 > updated.got && Shows(w.replies(to.got - 2), host, true)
            && UuidIn(w.replies(to.got - 1)).Ok?
  {
    TriesWhileTimeLeft(w, Add(host, ips), timeout, puts, n, from, tried, updated, added);
    UpdateAnswers(w, Add(host, ips), timeout, puts, n, from, tried, updated, added);
  }

  /** With time left and a complete first reply at least one PUT removes the host, or when
      forced everyone; after an accepted removal in time of a host whose volume is then
      Available, the list is looked at as long as there is time. */
  lemma TerminateSends(w: Script, host: string, ips: seq<Item>, timeout: int, puts: seq<Sent>, n: nat,
                       from: Marks, tried: Marks, updated: Marks, removed: Result<bool, Error>,
                       to: Marks, r: Result<(), Error>)
    requires Steady(w) && Terminated(w, host, ips, timeout, puts, n, from, tried, updated, removed, to, r)
    ensures var op := RemovalOf(host, ips);
      w.wall(from.clock + 1) < w.wall(from.clock) + timeout && CanEdit(op, w.replies(from.got)) ==>
        |puts| > n && puts[n].origin == from.got
    ensures host != "" && LastAccepted(w, puts, n) && InTime(w, timeout, from, tried)
            && updated.got > tried.got && SeenAvailable(w.replies(updated.got - 1)) ==>
              (to.got > updated.got <==> w.wall(updated.clock + 1) < w.wall(updated.clock) + timeout)
  {
    TriesWhileTimeLeft(w, RemovalOf(host, ips), timeout, puts, n, from, tried, updated, removed);
    UpdateAnswers(w, RemovalOf(host, ips), timeout, puts, n, from, tried, updated, removed);
  }

  // ---------------------------------------------------------------- the call in the protocol

  /** The volume that a reply shows. Only an overwrite is sent after a reply without lists. */
  function SeenIn(got: GetReply): Volume
    requires got.data.Some?
  {
    var data := got.data.value;
    Volume(if data.acl.Some? then data.acl.value else [], if data.ipAcl.Some? then data.ipAcl.value else [])
  }

  /** A GET, the PUT made from it, and the answer. */
  function Exchange(got: GetReply, put: PutRequest, accepted: bool, available: bool): seq<P.Local>
    requires got.data.Some?
  {
    [P.Shown(SeenIn(got), put.etag), P.Sends(put.volume), P.Told(accepted, available)]
  }

  lemma ExchangeIsPath(op: Op, got: GetReply, put: PutRequest, accepted: bool, available: bool, c: nat)
    requires Carries(op, got, put)
    ensures P.Path(c, P.Call(op, P.Start), Exchange(got, put, accepted, available),
                   P.Call(op, if accepted then P.Returned(available) else P.Start))
  {
    var steps := Exchange(got, put, accepted, available);
    var shown := P.Made(c, P.Call(op, P.Start), steps[0]);
    var sent := P.Made(c, shown, steps[1]);
    assert P.Path(c, sent, steps[2..], P.Made(c, sent, steps[2])) by {
      assert steps[2..] == [steps[2]] && steps[2..][1..] == [];
    }
    assert steps[1..][1..] == steps[2..];
  }

  /** The exchanges from the `n`-th PUT up to the `m`-th. */
  ghost function Exchanges(w: Script, puts: seq<Sent>, op: Op, n: nat, m: nat, available: bool): seq<P.Local>
    requires n <= m <= |puts| && forall k :: n <= k < m ==> Carries(op, w.replies(puts[k].origin), puts[k].request)
    decreases m
  {
    if m == n then []
    else
      var put := puts[m - 1];
      assert Carries(op, w.replies(puts[m - 1].origin), puts[m - 1].request);
      Exchanges(w, puts, op, n, m - 1, available)
      + Exchange(w.replies(put.origin), put.request, w.statuses(m - 1) == OK, available)
  }

  lemma {:induction false} RefusedExchangesArePath(w: Script, puts: seq<Sent>, op: Op, n: nat, m: nat,
                                                   available: bool, c: nat)
    requires n <= m <= |puts| && forall k :: n <= k < m ==> Carries(op, w.replies(puts[k].origin), puts[k].request)
    requires forall k :: n <= k < m ==> w.statuses(k) != OK
    ensures P.Path(c, P.Call(op, P.Start), Exchanges(w, puts, op, n, m, available), P.Call(op, P.Start))
    decreases m
  {
    if m > n {
      var start, put := P.Call(op, P.Start), puts[m - 1];
      RefusedExchangesArePath(w, puts, op, n, m - 1, available, c);
      ExchangeIsPath(op, w.replies(put.origin), put.request, false, available, c);
      P.PathAppend(c, start, Exchanges(w, puts, op, n, m - 1, available), start,
                   Exchange(w.replies(put.origin), put.request, false, available), start);
    }
  }

  /** What a call that made the PUTs from the `n`-th on does in the protocol: its exchanges,
      and leaving if none was accepted. */
  ghost function CallSteps(w: Script, puts: seq<Sent>, op: Op, n: nat, available: bool): seq<P.Local>
    requires n <= |puts| && exists g :: Carrying(w, op, puts, n, g)
  {
    Exchanges(w, puts, op, n, |puts|, available) + if NoneAccepted(w, puts, n) then [P.Leaves] else []
  }

  /** The GETs and PUTs of one call, as UpdateVolumeAcl ensures them, are a path of the
      protocol from the call's start to its return. */
  lemma DriverCallIsPath(w: Script, puts: seq<Sent>, op: Op, n: nat, g: nat, result: bool, c: nat)
    requires n <= |puts| && Carrying(w, op, puts, n, g)
    requires LastAccepted(w, puts, n) || (NoneAccepted(w, puts, n) && !result)
    ensures P.Path(c, P.Call(op, P.Start), CallSteps(w, puts, op, n, result), P.Call(op, P.Returned(result)))
  {
    var start, end := P.Call(op, P.Start), P.Call(op, P.Returned(result));
    if NoneAccepted(w, puts, n) {
      RefusedExchangesArePath(w, puts, op, n, |puts|, result, c);
      assert P.Path(c, start, [P.Leaves], end);
      P.PathAppend(c, start, Exchanges(w, puts, op, n, |puts|, result), start, [P.Leaves], end);
    } else {
      var put := puts[|puts| - 1];
      RefusedExchangesArePath(w, puts, op, n, |puts| - 1, result, c);
      ExchangeIsPath(op, w.replies(put.origin), put.request, true, result, c);
      P.PathAppend(c, start, Exchanges(w, puts, op, n, |puts| - 1, result), start,
                   Exchange(w.replies(put.origin), put.request, true, result), end);
      assert CallSteps(w, puts, op, n, result) == Exchanges(w, puts, op, n, |puts|, result);
    }
  }
}
