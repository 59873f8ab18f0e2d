/** Many hosts editing one volume's access lists: read, edit locally, conditional
    PUT (If-Match, section 13.1.1 of RFC 9110), retries and lost replies. */
module LightOsProtocol {
  import opened Prelude
  import opened LightOsAcl
  import opened LightOsHistory

  /** A PUT on the wire. `seen` is the volume its sender had read. An empty `ifMatch`
      sends no If-Match header. */
  datatype Put = Put(call: nat, op: Op, seen: Volume, ifMatch: string, body: Volume)

  /** One run of update_volume_acl. */
  datatype Phase =
    | Start
    | Read(seen: Volume, etag: string)
    | Waiting(put: Put)
    | Returned(result: bool)

  datatype Call = Call(op: Op, phase: Phase)

  /** A PUT the server accepted, and what it wrote. */
  datatype Commit = Commit(call: nat, op: Op, after: Volume)

  datatype Ack = Ack(put: Put, accepted: bool)

  /** The server holds `volume` under the last of `etags`; `log` and the earlier
      etags are its history. Requests stay on the wire, so that one may arrive late,
      or once more through another API server; an ack never taken is a lost reply. */
  datatype State = State(sendsEtag: bool, initial: Volume, volume: Volume, etags: seq<string>, log: seq<Commit>,
                         calls: map<nat, Call>, wire: set<Put>, acks: set<Ack>)

  datatype Event =
    | Begin(call: nat, op: Op)
    | Get(call: nat)
    | Send(call: nat, body: Volume)
    | Deliver(put: Put, etag: string)
    | Refuse(put: Put)
    | Reply(call: nat, ack: Ack, available: bool)
    | GiveUp(call: nat)

  function CurrentEtag(s: State): string {
    if s.sendsEtag && s.etags != [] then s.etags[|s.etags| - 1] else ""
  }

  /** When an event can happen. */
  ghost predicate Enabled(s: State, e: Event) {
    match e
    case Begin(c, op) => c !in s.calls
    case Get(c) => c in s.calls && s.calls[c].phase.Start?
    case Send(c, body) =>
      c in s.calls && s.calls[c].phase.Read? && Edits(s.calls[c].op, s.calls[c].phase.seen, body)
    case Deliver(put, etag) => put in s.wire && etag != "" && etag !in s.etags
    case Refuse(put) => put in s.wire
    case Reply(c, ack, _) => c in s.calls && ack in s.acks && s.calls[c].phase == Waiting(ack.put)
    case GiveUp(c) => c in s.calls && !s.calls[c].phase.Returned?
  }

  predicate Accepts(s: State, put: Put) {
    put.ifMatch == "" || put.ifMatch == CurrentEtag(s)
  }

  function Moved(s: State, c: nat, phase: Phase): State
    requires c in s.calls
  {
    s.(calls := s.calls[c := s.calls[c].(phase := phase)])
  }

  function PutOf(s: State, c: nat, body: Volume): Put
    requires c in s.calls && s.calls[c].phase.Read?
  {
    Put(c, s.calls[c].op, s.calls[c].phase.seen, s.calls[c].phase.etag, body)
  }

  function Commits(s: State, put: Put, etag: string): State {
    s.(volume := put.body, etags := s.etags + [etag], log := s.log + [Commit(put.call, put.op, put.body)],
       acks := s.acks + {Ack(put, true)})
  }

  ghost function Next(s: State, e: Event): State
    requires Enabled(s, e)
  {
    match e
    case Begin(c, op) => s.(calls := s.calls[c := Call(op, Start)])
    case Get(c) => Moved(s, c, Read(s.volume, CurrentEtag(s)))
    case Send(c, body) => Moved(s, c, Waiting(PutOf(s, c, body))).(wire := s.wire + {PutOf(s, c, body)})
    case Deliver(put, etag) => if Accepts(s, put) then Commits(s, put, etag) else s.(acks := s.acks + {Ack(put, false)})
    case Refuse(put) => s.(acks := s.acks + {Ack(put, false)})
    case Reply(c, ack, available) => Moved(s, c, if ack.accepted then Returned(available) else Start)
    case GiveUp(c) => Moved(s, c, Returned(false))
  }

  /** A server with one volume, nothing yet asked of it. */
  ghost predicate Initial(s: State) {
    && s.volume == s.initial && s.log == [] && |s.etags| == 1 && s.etags[0] != ""
    && s.calls == map[] && s.wire == {} && s.acks == {}
  }

  ghost predicate IsRun(states: seq<State>, events: seq<Event>) {
    && |states| == |events| + 1
    && Initial(states[0])
    && forall i :: 0 <= i < |events| ==> Enabled(states[i], events[i]) && states[i + 1] == Next(states[i], events[i])
  }

  /** The volume after the first `k` accepted PUTs. */
  function VolumeAt(s: State, k: nat): Volume
    requires k <= |s.log|
  {
    if k == 0 then s.initial else s.log[k - 1].after
  }

  // ---------------------------------------------------------------- the invariant

  /** The etag was handed out together with the volume. */
  ghost predicate Genuine(s: State, seen: Volume, etag: string) {
    exists k :: 0 <= k <= |s.log| && k < |s.etags| && etag == s.etags[k] && seen == VolumeAt(s, k)
  }

  ghost predicate History(s: State) {
    && |s.etags| == |s.log| + 1
    && NoDup(s.etags) && "" !in s.etags
    && s.volume == VolumeAt(s, |s.log|)
  }

  /** Each accepted PUT applied its operation to exactly the volume it replaced. */
  ghost predicate NoLostUpdate(s: State) {
    forall k :: 0 <= k < |s.log| ==> AppliedTo(s, k)
  }

  /** The k-th accepted PUT wrote its operation's result on the volume before it. */
  ghost predicate AppliedTo(s: State, k: nat)
    requires k < |s.log|
  {
    Edits(s.log[k].op, VolumeAt(s, k), s.log[k].after)
  }

  lemma AppliedCarries(s: State, s': State, k: nat)
    requires k < |s.log| && k < |s'.log| && s'.log[k] == s.log[k] && VolumeAt(s', k) == VolumeAt(s, k)
    ensures AppliedTo(s, k) == AppliedTo(s', k)
  {
  }

  ghost predicate WireGenuine(s: State) {
    forall put :: put in s.wire ==> Edits(put.op, put.seen, put.body) && Genuine(s, put.seen, put.ifMatch)
  }

  ghost predicate ReadsGenuine(s: State) {
    forall c :: c in s.calls && s.calls[c].phase.Read? ==> Genuine(s, s.calls[c].phase.seen, s.calls[c].phase.etag)
  }

  /** Some accepted PUT was this call's. */
  ghost predicate Committed(s: State, c: nat) {
    exists k :: 0 <= k < |s.log| && s.log[k].call == c
  }

  ghost predicate AnswersGenuine(s: State) {
    && (forall ack :: ack in s.acks && ack.accepted ==> Committed(s, ack.put.call))
    && (forall c :: c in s.calls && s.calls[c].phase.Waiting? ==> s.calls[c].phase.put.call == c)
    && (forall c :: c in s.calls && s.calls[c].phase == Returned(true) ==> Committed(s, c))
  }

  ghost predicate Inv(s: State) {
    History(s) && NoLostUpdate(s) && WireGenuine(s) && ReadsGenuine(s) && AnswersGenuine(s)
  }

  /** Extending the history keeps what was genuine and what was committed. */
  lemma CommitKeepsHistory(s: State, put: Put, etag: string)
    requires History(s) && etag != "" && etag !in s.etags
    ensures History(Commits(s, put, etag))
    ensures forall k :: 0 <= k <= |s.log| ==> VolumeAt(Commits(s, put, etag), k) == VolumeAt(s, k)
    ensures forall seen, e :: Genuine(s, seen, e) ==> Genuine(Commits(s, put, etag), seen, e)
    ensures forall c :: Committed(s, c) ==> Committed(Commits(s, put, etag), c)
    ensures Committed(Commits(s, put, etag), put.call)
  {
    var s' := Commits(s, put, etag);
    forall seen, e | Genuine(s, seen, e) ensures Genuine(s', seen, e) {
      var k :| 0 <= k <= |s.log| && k < |s.etags| && e == s.etags[k] && seen == VolumeAt(s, k);
      assert e == s'.etags[k] && seen == VolumeAt(s', k);
    }
    forall c | Committed(s, c) ensures Committed(s', c) {
      var k :| 0 <= k < |s.log| && s.log[k].call == c;
      assert s'.log[k].call == c;
    }
    assert s'.log[|s.log|].call == put.call;
  }

  /** A matching etag means the sender had read the current volume. */
  lemma AcceptedSawCurrent(s: State, put: Put)
    requires s.sendsEtag && History(s) && WireGenuine(s) && put in s.wire && Accepts(s, put)
    ensures put.seen == s.volume
  {
  }

  lemma CommitLosesNoUpdate(s: State, put: Put, etag: string)
    requires History(s) && NoLostUpdate(s) && put.seen == s.volume && Edits(put.op, put.seen, put.body)
    ensures NoLostUpdate(Commits(s, put, etag))
  {
    var s' := Commits(s, put, etag);
    forall k | 0 <= k < |s'.log| ensures AppliedTo(s', k) {
      if k < |s.log| {
        AppliedCarries(s, s', k);
      } else {
        assert VolumeAt(s', k) == s.volume;
      }
    }
  }

  /** What every step leaves true of the past. */
  ghost predicate Extends(s: State, s': State) {
    && (forall seen, e :: Genuine(s, seen, e) ==> Genuine(s', seen, e))
    && (forall c :: Committed(s, c) ==> Committed(s', c))
  }

  /** Requests and readings stay genuine; a new one comes from a reading. */
  lemma RequestsStayGenuine(s: State, e: Event, s': State)
    requires WireGenuine(s) && ReadsGenuine(s) && Extends(s, s')
    requires Enabled(s, e) && s' == Next(s, e)
    requires e.Get? ==> Genuine(s, s.volume, CurrentEtag(s))
    ensures WireGenuine(s')
    ensures ReadsGenuine(s')
  {
  }

  lemma AnswersStayGenuine(s: State, e: Event, s': State)
    requires AnswersGenuine(s) && Extends(s, s')
    requires Enabled(s, e) && s' == Next(s, e)
    requires e.Deliver? && Accepts(s, e.put) ==> Committed(s', e.put.call)
    ensures AnswersGenuine(s')
  {
  }

  lemma CommitKeepsInv(s: State, e: Event)
    requires s.sendsEtag && Inv(s) && Enabled(s, e) && e.Deliver? && Accepts(s, e.put)
    ensures Inv(Next(s, e))
  {
    CommitKeepsHistory(s, e.put, e.etag);
    AcceptedSawCurrent(s, e.put);
    CommitLosesNoUpdate(s, e.put, e.etag);
    RequestsStayGenuine(s, e, Next(s, e));
    AnswersStayGenuine(s, e, Next(s, e));
  }

  /** The server and its history are untouched. */
  ghost predicate SameServer(s: State, s': State) {
    && s'.sendsEtag == s.sendsEtag && s'.initial == s.initial
    && s'.volume == s.volume && s'.etags == s.etags && s'.log == s.log
  }

  lemma SameServerCarries(s: State, s': State)
    requires SameServer(s, s') && History(s) && NoLostUpdate(s)
    ensures History(s') && NoLostUpdate(s') && Extends(s, s')
  {
    assert forall k :: 0 <= k <= |s.log| ==> VolumeAt(s', k) == VolumeAt(s, k);
    forall seen, etag | Genuine(s, seen, etag) ensures Genuine(s', seen, etag) {
      var k :| 0 <= k <= |s.log| && k < |s.etags| && etag == s.etags[k] && seen == VolumeAt(s, k);
      assert etag == s'.etags[k] && seen == VolumeAt(s', k);
    }
    forall c | Committed(s, c) ensures Committed(s', c) {
      var k :| 0 <= k < |s.log| && s.log[k].call == c;
      assert s'.log[k].call == c;
    }
    forall k | 0 <= k < |s'.log| ensures AppliedTo(s', k) {
      AppliedCarries(s, s', k);
    }
  }

  lemma QuietSameServer(s: State, e: Event)
    requires Enabled(s, e) && (e.Deliver? ==> !Accepts(s, e.put))
    ensures SameServer(s, Next(s, e))
  {
  }

  lemma CurrentGenuine(s: State)
    requires s.sendsEtag && History(s)
    ensures Genuine(s, s.volume, CurrentEtag(s))
  {
  }

  /** Events other than an accepted delivery leave the server as it was. */
  lemma QuietKeepsInv(s: State, e: Event)
    requires s.sendsEtag && Inv(s) && Enabled(s, e)
    requires e.Deliver? ==> !Accepts(s, e.put)
    ensures Inv(Next(s, e))
  {
    var s' := Next(s, e);
    QuietSameServer(s, e);
    SameServerCarries(s, s');
    CurrentGenuine(s);
    RequestsStayGenuine(s, e, s');
    AnswersStayGenuine(s, e, s');
  }

  lemma {:induction false} RunKeepsInv(states: seq<State>, events: seq<Event>, i: nat)
    requires IsRun(states, events) && states[0].sendsEtag && i < |states|
    ensures Inv(states[i]) && states[i].sendsEtag && states[i].initial == states[0].initial
    decreases i
  {
    if i > 0 {
      RunKeepsInv(states, events, i - 1);
      var s, e := states[i - 1], events[i - 1];
      assert states[i - 1 + 1] == Next(s, e);
      if e.Deliver? && Accepts(s, e.put) {
        CommitKeepsInv(s, e);
      } else {
        QuietKeepsInv(s, e);
      }
    } else {
      assert VolumeAt(states[0], 0) == states[0].volume;
    }
  }

  // ---------------------------------------------------------------- main results

  function OpsOf(log: seq<Commit>): seq<Op> {
    seq(|log|, i requires 0 <= i < |log| => log[i].op)
  }

  lemma OpsOfFront(log: seq<Commit>, k: nat)
    requires 0 < k <= |log|
    ensures var ops := OpsOf(log[..k]); |ops| == k && ops[k - 1] == log[k - 1].op && ops[..k - 1] == OpsOf(log[..k - 1])
  {
  }

  lemma {:induction false} FoldOfLog(s: State, k: nat)
    requires NoLostUpdate(s) && k <= |s.log|
    ensures VolumeAt(s, k).acl == FoldAcl(s.initial.acl, OpsOf(s.log[..k]))
  {
    if k > 0 {
      FoldOfLog(s, k - 1);
      OpsOfFront(s.log, k);
      AppliedFixesAcl(s, k - 1);
    }
  }

  lemma AppliedFixesAcl(s: State, k: nat)
    requires k < |s.log| && AppliedTo(s, k)
    ensures s.log[k].after.acl == EditAcl(s.log[k].op, VolumeAt(s, k).acl)
  {
  }

  /** With etags, in every run: each accepted PUT edited exactly the volume it replaced,
      the host ACL is the accepted operations applied in commit order, and a call that
      returned True had a PUT of its own accepted. */
  lemma EveryRunIsSerial(states: seq<State>, events: seq<Event>, i: nat)
    requires IsRun(states, events) && states[0].sendsEtag && i < |states|
    ensures var s := states[i];
      && NoLostUpdate(s)
      && s.volume == VolumeAt(s, |s.log|)
      && s.volume.acl == FoldAcl(states[0].initial.acl, OpsOf(s.log))
      && forall c :: c in s.calls && s.calls[c].phase == Returned(true) ==> Committed(s, c)
  {
    RunKeepsInv(states, events, i);
    FoldOfLog(states[i], |states[i].log|);
    assert states[i].log[..|states[i].log|] == states[i].log;
  }

  /** Every operation asked for is one the connection methods let through. */
  ghost predicate GoodEvents(events: seq<Event>) {
    forall i :: 0 <= i < |events| && events[i].Begin? ==> GoodOp(events[i].op)
  }

  ghost predicate GoodOps(s: State) {
    && (forall c :: c in s.calls ==> GoodOp(s.calls[c].op))
    && (forall put :: put in s.wire ==> GoodOp(put.op))
    && (forall k :: 0 <= k < |s.log| ==> GoodOp(s.log[k].op))
  }

  lemma {:induction false} RunKeepsGoodOps(states: seq<State>, events: seq<Event>, i: nat)
    requires IsRun(states, events) && GoodEvents(events) && i < |states|
    ensures GoodOps(states[i])
    decreases i
  {
    if i > 0 {
      RunKeepsGoodOps(states, events, i - 1);
      assert states[i - 1 + 1] == Next(states[i - 1], events[i - 1]);
    }
  }

  lemma {:induction false} EveryVolumeGood(s: State, k: nat)
    requires NoLostUpdate(s) && GoodOps(s) && GoodVolume(s.initial) && k <= |s.log|
    ensures GoodVolume(VolumeAt(s, k))
  {
    if k > 0 {
      EveryVolumeGood(s, k - 1);
      assert AppliedTo(s, k - 1);
      EditsKeepGood(s.log[k - 1].op, VolumeAt(s, k - 1), s.log[k - 1].after);
    }
  }

  /** In every run from a volume as the driver creates it, both lists keep their shape,
      and a host is on the ACL exactly when the last accepted operation concerning
      it added it. */
  lemma EveryRunKeepsLists(states: seq<State>, events: seq<Event>, i: nat, host: string, last: int)
    requires IsRun(states, events) && states[0].sendsEtag && i < |states| && GoodEvents(events)
    requires states[0].initial == Volume([ALLOW_NONE], [AllowNone])
    requires host != ALLOW_NONE && LastMention(OpsOf(states[i].log), host, last)
    ensures GoodVolume(states[i].volume)
    ensures host in states[i].volume.acl <==> last >= 0 && states[i].log[last].op.Add?
  {
    EveryRunIsSerial(states, events, i);
    RunKeepsInv(states, events, i);
    RunKeepsGoodOps(states, events, i);
    EveryVolumeGood(states[i], |states[i].log|);
    MembershipIsLastMention([ALLOW_NONE], OpsOf(states[i].log), host, last);
  }

  /** The IP list at creation and after each accepted PUT. */
  function IpListsOf(s: State): (r: seq<seq<Item>>)
    ensures |r| == |s.log| + 1
  {
    seq(|s.log| + 1, k requires 0 <= k <= |s.log| => VolumeAt(s, k).ipAcl)
  }

  lemma LogIsIpHistory(s: State)
    requires NoLostUpdate(s) && GoodOps(s) && GoodIpAcl(s.initial.ipAcl)
    ensures IpHistory(OpsOf(s.log), IpListsOf(s))
  {
    forall j | 0 <= j < |s.log|
      ensures GoodOp(OpsOf(s.log)[j]) && EditsIps(OpsOf(s.log)[j], IpListsOf(s)[j], IpListsOf(s)[j + 1])
    {
      assert AppliedTo(s, j);
    }
  }

  /** In every run from a volume as created, an address is on the IP list exactly if the last
      accepted operation that named or cut it was an add that kept it; and a listed host
      keeps an address it was added with exactly if the last one concerning it does not
      lose it, by removing another host with that address or by cutting it. */
  lemma EveryRunKeepsAddresses(states: seq<State>, events: seq<Event>, i: nat, x: Item, k: int)
    requires IsRun(states, events) && states[0].sendsEtag && i < |states| && GoodEvents(events)
    requires states[0].initial == Volume([ALLOW_NONE], [AllowNone])
    requires IsAddress(x) && LastConcern(OpsOf(states[i].log), IpListsOf(states[i]), x, k)
    ensures var s := states[i]; var ops, lists := OpsOf(s.log), IpListsOf(s);
      && IpHistory(ops, lists)
      && (x in s.volume.ipAcl <==> k >= 0 && Stands(ops, lists, x, k))
      && forall host, last | last >= 0 && LastMention(ops, host, last) && ops[last].Add? && x in ops[last].ips ::
           host in s.volume.acl && last <= k && (x in s.volume.ipAcl <==> !Loses(ops, lists, host, x, k))
  {
    var s := states[i];
    EveryRunIsSerial(states, events, i);
    RunKeepsInv(states, events, i);
    RunKeepsGoodOps(states, events, i);
    LogIsIpHistory(s);
    var ops, lists := OpsOf(s.log), IpListsOf(s);
    AddressIsLastConcern(ops, lists, x, k);
    assert lists[|ops|] == s.volume.ipAcl;
    forall host, last | last >= 0 && LastMention(ops, host, last) && ops[last].Add? && x in ops[last].ips
      ensures host in s.volume.acl && last <= k && (x in s.volume.ipAcl <==> !Loses(ops, lists, host, x, k))
    {
      assert GoodOp(ops[last]);
      MembershipIsLastMention([ALLOW_NONE], ops, host, last);
      HostKeepsAddress(ops, lists, host, last, x, k);
    }
  }

  // ---------------------------------------------------------------- one call's own steps

  /** A call's part in an event: it is shown the volume and its etag, sends a body, is told
      whether that was accepted, or gives up. */
  datatype Local =
    | Shown(seen: Volume, etag: string)
    | Sends(body: Volume)
    | Told(accepted: bool, available: bool)
    | Leaves

  /** The call's part, if the event is one of its own. */
  ghost function PartOf(s: State, e: Event, c: nat): Option<Local>
    requires Enabled(s, e)
  {
    match e
    case Get(d) => if d == c then Some(Shown(s.volume, CurrentEtag(s))) else None
    case Send(d, body) => if d == c then Some(Sends(body)) else None
    case Reply(d, ack, available) => if d == c then Some(Told(ack.accepted, available)) else None
    case GiveUp(d) => if d == c then Some(Leaves) else None
    case _ => None
  }

  ghost predicate MayMake(call: Call, l: Local) {
    match l
    case Shown(_, _) => call.phase.Start?
    case Sends(body) => call.phase.Read? && Edits(call.op, call.phase.seen, body)
    case Told(_, _) => call.phase.Waiting?
    case Leaves => !call.phase.Returned?
  }

  ghost function Made(c: nat, call: Call, l: Local): Call
    requires MayMake(call, l)
  {
    match l
    case Shown(seen, etag) => call.(phase := Read(seen, etag))
    case Sends(body) => call.(phase := Waiting(Put(c, call.op, call.phase.seen, call.phase.etag, body)))
    case Told(accepted, available) => call.(phase := if accepted then Returned(available) else Start)
    case Leaves => call.(phase := Returned(false))
  }

  /** The steps lead the call from one phase to another. */
  ghost predicate Path(c: nat, call: Call, steps: seq<Local>, end: Call)
    decreases |steps|
  {
    if steps == [] then call == end
    else MayMake(call, steps[0]) && Path(c, Made(c, call, steps[0]), steps[1..], end)
  }

  lemma {:induction false} PathAppend(c: nat, call: Call, a: seq<Local>, mid: Call, b: seq<Local>, end: Call)
    requires Path(c, call, a, mid) && Path(c, mid, b, end)
    ensures Path(c, call, a + b, end)
    decreases |a|
  {
    if a == [] {
      assert a + b == b;
    } else {
      assert (a + b)[1..] == a[1..] + b;
      PathAppend(c, Made(c, call, a[0]), a[1..], mid, b, end);
    }
  }

  /** An event moves a call by its part in it, and not at all without one. */
  lemma EventsMoveCalls(s: State, e: Event, c: nat)
    requires Enabled(s, e) && c in s.calls
    ensures c in Next(s, e).calls
    ensures var part := PartOf(s, e, c);
      if part.None? then Next(s, e).calls[c] == s.calls[c]
      else MayMake(s.calls[c], part.value) && Next(s, e).calls[c] == Made(c, s.calls[c], part.value)
  {
  }

  /** And every step that a call may make is an event of its own, if the server shows that
      volume, or an ack of its PUT is there. */
  lemma CallsCanMove(s: State, c: nat, l: Local) returns (e: Event)
    requires c in s.calls && MayMake(s.calls[c], l)
    requires l.Shown? ==> l == Shown(s.volume, CurrentEtag(s))
    requires l.Told? ==> Ack(s.calls[c].phase.put, l.accepted) in s.acks
    ensures Enabled(s, e) && PartOf(s, e, c) == Some(l)
  {
    match l
    case Shown(_, _) => e := Get(c);
    case Sends(body) => e := Send(c, body);
    case Told(accepted, available) => e := Reply(c, Ack(s.calls[c].phase.put, accepted), available);
    case Leaves => e := GiveUp(c);
  }

  /** A call's own steps in a run, in their order. */
  ghost function StepsOf(states: seq<State>, events: seq<Event>, c: nat, i: nat): seq<Local>
    requires IsRun(states, events) && i < |states|
    decreases i
  {
    if i == 0 then []
    else
      var part := PartOf(states[i - 1], events[i - 1], c);
      StepsOf(states, events, c, i - 1) + if part.Some? then [part.value] else []
  }

  /** In every run a call's steps are a path from its start to where it is. */
  lemma {:induction false} CallsFollowPaths(states: seq<State>, events: seq<Event>, c: nat, i: nat)
    requires IsRun(states, events) && i < |states| && c in states[i].calls
    ensures Path(c, Call(states[i].calls[c].op, Start), StepsOf(states, events, c, i), states[i].calls[c])
    decreases i
  {
    if i > 0 {
      var s, e := states[i - 1], events[i - 1];
      assert states[i - 1 + 1] == Next(s, e);
      if c in s.calls {
        CallsFollowPaths(states, events, c, i - 1);
        EventsMoveCalls(s, e, c);
        var part := PartOf(s, e, c);
        if part.Some? {
          assert Path(c, s.calls[c], [part.value], states[i].calls[c]);
          PathAppend(c, Call(s.calls[c].op, Start), StepsOf(states, events, c, i - 1), s.calls[c],
                     [part.value], states[i].calls[c]);
        } else {
          assert StepsOf(states, events, c, i) == StepsOf(states, events, c, i - 1);
        }
      } else {
        NoStepsBefore(states, events, c, i - 1);
      }
    }
  }

  lemma {:induction false} NoStepsBefore(states: seq<State>, events: seq<Event>, c: nat, i: nat)
    requires IsRun(states, events) && i < |states| && c !in states[i].calls
    ensures StepsOf(states, events, c, i) == []
    decreases i
  {
    if i > 0 {
      assert states[i - 1 + 1] == Next(states[i - 1], events[i - 1]);
      NoStepsBefore(states, events, c, i - 1);
    }
  }

  // ---------------------------------------------------------------- without etags

  lemma ExtendRun(states: seq<State>, events: seq<Event>, e: Event) returns (states': seq<State>, events': seq<Event>)
    requires IsRun(states, events) && Enabled(states[|events|], e)
    ensures IsRun(states', events') && events' == events + [e]
    ensures states'[0] == states[0] && states'[|events'|] == Next(states[|events|], e)
  {
    states', events' := states + [Next(states[|events|], e)], events + [e];
    forall i | 0 <= i < |events'|
      ensures Enabled(states'[i], events'[i]) && states'[i + 1] == Next(states'[i], events'[i])
    {
      if i < |events| {
        assert states'[i] == states[i] && states'[i + 1] == states[i + 1] && events'[i] == events[i];
      }
    }
  }

  /** A call that has only begun reads the volume. */
  lemma GetStep(s: State, c: nat, op: Op)
    requires c in s.calls && s.calls[c] == Call(op, Start)
    ensures Enabled(s, Get(c)) && Next(s, Get(c)) == s.(calls := s.calls[c := Call(op, Read(s.volume, CurrentEtag(s)))])
  {
  }

  lemma SendStep(s: State, c: nat, op: Op, seen: Volume, etag: string, body: Volume)
    requires c in s.calls && s.calls[c] == Call(op, Read(seen, etag)) && Edits(op, seen, body)
    ensures var put := Put(c, op, seen, etag, body);
      && Enabled(s, Send(c, body))
      && Next(s, Send(c, body)) == s.(calls := s.calls[c := Call(op, Waiting(put))], wire := s.wire + {put})
  {
  }

  lemma DeliverStep(s: State, put: Put, etag: string)
    requires put in s.wire && put.ifMatch == "" && etag != "" && etag !in s.etags
    ensures Enabled(s, Deliver(put, etag)) && Next(s, Deliver(put, etag)) == Commits(s, put, etag)
  {
  }

  function FreshServer(v: Volume): State {
    State(false, v, v, ["x"], [], map[], {}, {})
  }

  /** Two calls begin and read the volume as created. */
  lemma TwoReaders(v: Volume, opA: Op, opB: Op) returns (states: seq<State>, events: seq<Event>)
    ensures IsRun(states, events) && states[0] == FreshServer(v)
    ensures events == [Begin(0, opA), Begin(1, opB), Get(0), Get(1)]
    ensures states[4] == FreshServer(v).(calls := map[0 := Call(opA, Read(v, "")), 1 := Call(opB, Read(v, ""))])
  {
    states, events := [FreshServer(v)], [];
    states, events := ExtendRun(states, events, Begin(0, opA));
    states, events := ExtendRun(states, events, Begin(1, opB));
    GetStep(states[2], 0, opA);
    states, events := ExtendRun(states, events, Get(0));
    GetStep(states[3], 1, opB);
    states, events := ExtendRun(states, events, Get(1));
    assert states[4].calls == map[0 := Call(opA, Read(v, "")), 1 := Call(opB, Read(v, ""))];
  }

  /** Both then send. */
  lemma TwoSenders(v: Volume, opA: Op, opB: Op, bodyA: Volume, bodyB: Volume)
    returns (states: seq<State>, events: seq<Event>)
    requires Edits(opA, v, bodyA) && Edits(opB, v, bodyB)
    ensures IsRun(states, events) && states[0] == FreshServer(v)
    ensures events == [Begin(0, opA), Begin(1, opB), Get(0), Get(1), Send(0, bodyA), Send(1, bodyB)]
    ensures var s := states[6];
      && s.wire == {Put(0, opA, v, "", bodyA), Put(1, opB, v, "", bodyB)}
      && s.log == [] && s.etags == ["x"] && s.initial == v && s.volume == v && !s.sendsEtag
  {
    states, events := TwoReaders(v, opA, opB);
    SendStep(states[4], 0, opA, v, "", bodyA);
    states, events := ExtendRun(states, events, Send(0, bodyA));
    SendStep(states[5], 1, opB, v, "", bodyB);
    states, events := ExtendRun(states, events, Send(1, bodyB));
  }

  /** On a server that sends no etag two calls that both read the volume as created are
      both accepted, and the second overwrites the first. */
  lemma TwoWriters(v: Volume, opA: Op, opB: Op, bodyA: Volume, bodyB: Volume)
    returns (states: seq<State>, events: seq<Event>)
    requires Edits(opA, v, bodyA) && Edits(opB, v, bodyB)
    ensures IsRun(states, events) && states[0] == FreshServer(v)
    ensures GoodOp(opA) && GoodOp(opB) ==> GoodEvents(events)
    ensures var s := states[|states| - 1];
      && s.log == [Commit(0, opA, bodyA), Commit(1, opB, bodyB)]
      && s.initial == v && s.volume == bodyB
  {
    var putA, putB := Put(0, opA, v, "", bodyA), Put(1, opB, v, "", bodyB);
    states, events := TwoSenders(v, opA, opB, bodyA, bodyB);
    DeliverStep(states[6], putA, "y");
    states, events := ExtendRun(states, events, Deliver(putA, "y"));
    DeliverStep(states[7], putB, "z");
    states, events := ExtendRun(states, events, Deliver(putB, "z"));
  }

  lemma FirstHost(host: string, ip: Item)
    requires IsAddress(ip) && host != ALLOW_NONE
    ensures Edits(Add(host, [ip]), Volume([ALLOW_NONE], [AllowNone]), Volume([host], [ip]))
    ensures GoodOp(Add(host, [ip]))
  {
    assert Enumerates([ip], Offered([AllowNone], [ip]));
    CapSize([ip]);
  }

  lemma SecondOverwrites(s: State, a: string, b: string, opA: Op, opB: Op, bodyA: Volume, bodyB: Volume)
    requires s.log == [Commit(0, opA, bodyA), Commit(1, opB, bodyB)]
    requires opB.Add? && opB.host == b && bodyA.acl == [a] && bodyB.acl == [b] && a != b && a != ALLOW_NONE
    ensures !NoLostUpdate(s)
  {
    assert VolumeAt(s, 1) == bodyA;
    RemoveAbsent([a], ALLOW_NONE);
    assert AddHost([a], b) == [a, b];
    assert !AppliedTo(s, 1);
  }

  /** Without etags updates are lost: two hosts add themselves, both PUTs are accepted,
      and the first host is not on the list. */
  lemma WithoutEtagUpdatesAreLost(a: string, b: string) returns (states: seq<State>, events: seq<Event>)
    requires a != b && a != ALLOW_NONE && b != ALLOW_NONE
    ensures IsRun(states, events) && !states[0].sendsEtag && GoodEvents(events)
    ensures var s := states[|states| - 1];
      && OpsOf(s.log) == [Add(a, [V4("1")]), Add(b, [V4("2")])]
      && a !in s.volume.acl && !NoLostUpdate(s)
  {
    var v := Volume([ALLOW_NONE], [AllowNone]);
    var opA, opB := Add(a, [V4("1")]), Add(b, [V4("2")]);
    var bodyA, bodyB := Volume([a], [V4("1")]), Volume([b], [V4("2")]);
    FirstHost(a, V4("1"));
    FirstHost(b, V4("2"));
    states, events := TwoWriters(v, opA, opB, bodyA, bodyB);
    var s := states[|states| - 1];
    SecondOverwrites(s, a, b, opA, opB, bodyA, bodyB);
    assert OpsOf(s.log) == [opA, opB];
  }
}
