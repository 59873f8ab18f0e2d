/** The connector's bookkeeping: connect and disconnect queue messages, one monitor
    thread drains them into a database and restores discovery files. */
module LightOsConnector {

  type Uuid = string

  datatype Connection = Connection(uuid: Uuid, nodes: seq<string>, subsysnqn: string)

  datatype Message = Message(op: string, connection: Connection)

  type Database = map<Uuid, Connection>

  // ---------------------------------------------------------------- the connection map

  function Apply(db: Database, m: Message): Database {
    if m.op == "delete" then db - {m.connection.uuid}
    else if m.op == "add" then db[m.connection.uuid := m.connection]
    else db
  }

  /** The database once the queued messages have been taken, oldest first. */
  function Drain(db: Database, queue: seq<Message>): Database
    decreases |queue|
  {
    if queue == [] then db else Drain(Apply(db, queue[0]), queue[1..])
  }

  lemma {:induction false} DrainLast(db: Database, queue: seq<Message>, m: Message)
    ensures Drain(db, queue + [m]) == Apply(Drain(db, queue), m)
    decreases |queue|
  {
    if queue == [] {
    } else {
      assert (queue + [m])[1..] == queue[1..] + [m];
      DrainLast(Apply(db, queue[0]), queue[1..], m);
    }
  }

  ghost predicate WellKeyed(db: Database) {
    forall u :: u in db ==> db[u].uuid == u
  }

  predicate Concerns(m: Message, u: Uuid) {
    m.connection.uuid == u && (m.op == "add" || m.op == "delete")
  }

  ghost predicate LastConcern(queue: seq<Message>, u: Uuid, i: int) {
    && -1 <= i < |queue|
    && (i >= 0 ==> Concerns(queue[i], u))
    && forall j :: i < j < |queue| ==> !Concerns(queue[j], u)
  }

  /** A volume is connected exactly when its last message added it, and then as that
      message says; without a message it is as it was. */
  lemma {:induction false} DrainIsLastConcern(db: Database, queue: seq<Message>, u: Uuid, i: int)
    requires LastConcern(queue, u, i)
    ensures i == -1 ==> (u in Drain(db, queue) <==> u in db) && (u in db ==> Drain(db, queue)[u] == db[u])
    ensures i >= 0 ==> (u in Drain(db, queue) <==> queue[i].op == "add")
    ensures i >= 0 && queue[i].op == "add" ==> Drain(db, queue)[u] == queue[i].connection
    decreases |queue|
  {
    if queue != [] {
      var front, last := queue[..|queue| - 1], queue[|queue| - 1];
      assert queue == front + [last];
      DrainLast(db, front, last);
      if i < |front| {
        DrainIsLastConcern(db, front, u, i);
      }
    }
  }

  // ---------------------------------------------------------------- the connector

  class LightOSConnector {
    var queue: seq<Message>
    var db: Database
    var files: map<Uuid, Connection>

    constructor ()
      ensures queue == [] && db == map[] && files == map[]
    {
      queue, db, files := [], map[], map[];
    }

    /** The connections that the bookkeeping stands for. */
    function Connections(): Database
      reads this
    {
      Drain(db, queue)
    }

    /** Writes the discovery file unless there is one; `moveFails` makes the move raise. */
    method DscConnectVolume(c: Connection, moveFails: bool) returns (ok: bool)
      modifies this`files
      ensures ok <==> c.uuid in old(files) || !moveFails
      ensures files == if c.uuid in old(files) || moveFails then old(files) else old(files)[c.uuid := c]
    {
      if c.uuid in files {
        return true;
      }
      if moveFails {
        return false;
      }
      files := files[c.uuid := c];
      return true;
    }

    /** Stops at the first file that cannot be moved; otherwise every entry has its
        file. Files that were there are not rewritten. */
    method MonitorDb(unmovable: set<Uuid>) returns (ok: bool)
      requires WellKeyed(db)
      modifies this`files
      ensures forall u :: u in old(files) ==> u in files && files[u] == old(files)[u]
      ensures forall u :: u in files && u !in old(files) ==> u in db && files[u] == db[u] && u !in unmovable
      ensures ok <==> forall u :: u in db && u !in old(files) ==> u !in unmovable
      ensures ok ==> forall u :: u in db ==> u in files
    {
      var rest := db.Keys;
      ok := true;
      while rest != {}
        invariant rest <= db.Keys && ok
        invariant forall u :: u in old(files) ==> u in files && files[u] == old(files)[u]
        invariant forall u :: u in files && u !in old(files) ==> u in db && files[u] == db[u] && u !in unmovable
        invariant forall u :: u in db && u !in rest ==> u in files
        decreases rest
      {
        var u :| u in rest;
        rest := rest - {u};
        ok := DscConnectVolume(db[u], u in unmovable);
        if !ok {
          return;
        }
      }
    }

    method MonitorMessageQueue()
      requires WellKeyed(db)
      modifies this`queue, this`db
      ensures queue == [] && db == old(Connections()) && WellKeyed(db)
    {
      while queue != []
        invariant Connections() == old(Connections()) && WellKeyed(db)
        decreases |queue|
      {
        var msg := queue[0];
        queue := queue[1..];
        if msg.op == "delete" {
          if msg.connection.uuid in db {
            db := db - {msg.connection.uuid};
          } else {
            assert db - {msg.connection.uuid} == db;
          }
        } else if msg.op == "add" {
          db := db[msg.connection.uuid := msg.connection];
        }
      }
    }

    /** One pass of the monitor after the queue was drained. */
    method DrainThenRestore(unmovable: set<Uuid>) returns (ok: bool)
      requires WellKeyed(db)
      modifies this
      ensures queue == [] && db == old(Connections()) && WellKeyed(db)
      ensures ok ==> forall u :: u in old(Connections()) ==> u in files
    {
      MonitorMessageQueue();
      ok := MonitorDb(unmovable);
    }

    /** `hasQueue`: the connector was given a message queue. Without a device nothing is
        queued, and the file goes again unless its deletion fails too. */
    method ConnectVolume(c: Connection, hasQueue: bool, moveFails: bool, deviceShows: bool, deleteFails: bool)
      returns (ok: bool)
      modifies this`files, this`queue
      ensures ok <==> (c.uuid in old(files) || !moveFails) && deviceShows
      ensures ok ==> c.uuid in files
      ensures Connections() == if ok && hasQueue then old(Connections())[c.uuid := c] else old(Connections())
      ensures !ok && (c.uuid in old(files) || !moveFails) ==>
                && files - {c.uuid} == old(files) - {c.uuid}
                && (c.uuid in files <==> deleteFails)
      ensures !ok && c.uuid !in old(files) && moveFails ==> files == old(files)
    {
      var moved := DscConnectVolume(c, moveFails);
      if !moved {
        return false;
      }
      if !deviceShows {
        if !deleteFails {
          files := files - {c.uuid};
        }
        return false;
      }
      if hasQueue {
        DrainLast(db, queue, Message("add", c));
        queue := queue + [Message("add", c)];
      }
      return true;
    }

    /** The message is queued before anything that may fail. */
    method DisconnectVolume(c: Connection, hasQueue: bool, flushFails: bool, tolerant: bool, deleteFails: bool)
      returns (deleted: bool)
      modifies this`files, this`queue
      ensures deleted <==> (!flushFails || tolerant) && !deleteFails
      ensures files == if deleted then old(files) - {c.uuid} else old(files)
      ensures Connections() == if hasQueue then old(Connections()) - {c.uuid} else old(Connections())
    {
      if hasQueue {
        DrainLast(db, queue, Message("delete", c));
        queue := queue + [Message("delete", c)];
      }
      if flushFails && !tolerant {
        return false;
      }
      if deleteFails {
        return false;
      }
      files := files - {c.uuid};
      return true;
    }
  }

  // ---------------------------------------------------------------- interleavings

  datatype State = State(db: Database, queue: seq<Message>, files: map<Uuid, Connection>)

  /** The atomic steps of the monitor and of concurrent connects and disconnects. */
  datatype Event =
    | Put(message: Message)
    | Pop
    | Restore(u: Uuid)
    | WriteFile(connection: Connection)
    | DeleteFile(u: Uuid)

  function Next(s: State, e: Event): State {
    match e
    case Put(m) => s.(queue := s.queue + [m])
    case Pop => if s.queue == [] then s else s.(db := Apply(s.db, s.queue[0]), queue := s.queue[1..])
    case Restore(u) => if u in s.db && u !in s.files then s.(files := s.files[u := s.db[u]]) else s
    case WriteFile(c) => if c.uuid in s.files then s else s.(files := s.files[c.uuid := c])
    case DeleteFile(u) => s.(files := s.files - {u})
  }

  function Run(s: State, events: seq<Event>): State {
    if events == [] then s else Next(Run(s, events[..|events| - 1]), events[|events| - 1])
  }

  function Puts(events: seq<Event>): seq<Message> {
    if events == [] then []
    else
      var last := events[|events| - 1];
      Puts(events[..|events| - 1]) + if last.Put? then [last.message] else []
  }

  function Connected(s: State): Database {
    Drain(s.db, s.queue)
  }

  /** However the monitor's steps fall between them, only the puts count, in their
      order: the connection map is theirs, and so is the database once it is drained. */
  lemma {:induction false} OnlyPutsCount(s: State, events: seq<Event>)
    ensures Connected(Run(s, events)) == Drain(Connected(s), Puts(events))
    ensures Run(s, events).queue == [] ==> Run(s, events).db == Drain(Connected(s), Puts(events))
  {
    if events != [] {
      var front, last := events[..|events| - 1], events[|events| - 1];
      OnlyPutsCount(s, front);
      var before := Run(s, front);
      if last.Put? {
        DrainLast(before.db, before.queue, last.message);
        DrainLast(Connected(s), Puts(front), last.message);
      } else {
        assert Puts(events) == Puts(front);
      }
    }
  }

  /** Over a whole run a drained database holds a volume exactly when the last message
      put for it added it. */
  lemma DrainedDatabase(s: State, events: seq<Event>, u: Uuid, i: int)
    requires Run(s, events).queue == [] && LastConcern(Puts(events), u, i)
    ensures var db := Run(s, events).db;
      u in db <==> if i == -1 then u in Connected(s) else Puts(events)[i].op == "add"
  {
    OnlyPutsCount(s, events);
    DrainIsLastConcern(Connected(s), Puts(events), u, i);
  }

  /** No file goes and no message is taken: what happens during a pass over the
      database without a concurrent disconnect. */
  predicate Undisturbed(events: seq<Event>) {
    forall i :: 0 <= i < |events| ==> !events[i].DeleteFile? && !events[i].Pop?
  }

  /** A pass that restores every entry leaves a file for each, whatever connects run beside it. */
  lemma {:induction false} PassRestoresFiles(s: State, events: seq<Event>)
    requires Undisturbed(events)
    ensures Run(s, events).db == s.db
    ensures forall u :: u in s.files ==> u in Run(s, events).files
    ensures forall u :: u in s.db && Restore(u) in events ==> u in Run(s, events).files
  {
    if events != [] {
      var front, last := events[..|events| - 1], events[|events| - 1];
      PassRestoresFiles(s, front);
      forall u | u in s.db && Restore(u) in events ensures u in Run(s, events).files {
        assert Restore(u) in front || last == Restore(u);
      }
    }
  }

  lemma {:induction false} RunAppend(s: State, a: seq<Event>, b: seq<Event>)
    ensures Run(s, a + b) == Run(Run(s, a), b)
    decreases |b|
  {
    if b == [] {
      assert a + b == a;
    } else {
      assert (a + b)[..|a + b| - 1] == a + b[..|b| - 1];
      RunAppend(s, a, b[..|b| - 1]);
    }
  }

  /** After any run that ends drained, a full undisturbed pass leaves a discovery file
      for every connected volume. */
  lemma DrainThenPass(s: State, events: seq<Event>, pass: seq<Event>)
    requires Run(s, events).queue == [] && Undisturbed(pass)
    requires forall u :: u in Run(s, events).db ==> Restore(u) in pass
    ensures forall u :: u in Drain(Connected(s), Puts(events)) ==> u in Run(s, events + pass).files
  {
    OnlyPutsCount(s, events);
    RunAppend(s, events, pass);
    PassRestoresFiles(Run(s, events), pass);
  }
}
