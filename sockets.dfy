/** The world store of the websocket server, its per-client notification
    queues, and the request handlers that write to it. The store is a class
    whose fields change in place; every write fans the written entity's new
    record out to every registered client's queue. */
module Sockets {
  import opened Records

  /** A connected subscriber: an unbounded FIFO queue of notifications that
      the connection's sending loop drains. */
  class Client {
    var queue: seq<Notification>

    constructor ()
      ensures queue == []
    {
      queue := [];
    }

    /** Appends at the back; never blocks and never fails. */
    method Put(v: Notification)
      modifies this
      ensures queue == old(queue) + [v]
    {
      queue := queue + [v];
    }

    /** Takes the oldest notification off the front. */
    method Get() returns (v: Notification)
      requires queue != []
      modifies this
      ensures v == old(queue)[0]
      ensures queue == old(queue)[1..]
    {
      v := queue[0];
      queue := queue[1..];
    }
  }

  /** The world store. `space` maps entity names to records; `order` lists
      the same names in the order a Python dict iterates them (first
      insertion first); `clients` is the list of registered clients that the
      store's one listener fans every write out to. */
  class World {
    var space: Space
    var order: seq<string>
    var clients: seq<Client>

    ghost predicate Valid()
      reads this
    {
      && (forall e :: e in space <==> e in order)
      && (forall i, j :: 0 <= i < j < |order| ==> order[i] != order[j])
      && (forall i, j :: 0 <= i < j < |clients| ==> clients[i] != clients[j])
    }

    /** The registered clients' queues, in registration order. */
    ghost function Queues(): (qs: seq<seq<Notification>>)
      reads this, clients
      ensures |qs| == |clients|
      ensures forall j :: 0 <= j < |clients| ==> qs[j] == clients[j].queue
    {
      seq(|clients|, j requires 0 <= j < |clients| reads this, clients => clients[j].queue)
    }

    /** Every client is still registered, in the same place, and each has
        exactly `notes` appended to what it held before. */
    twostate predicate QueuesExtendedBy(notes: seq<Notification>)
      reads this, clients
    {
      && clients == old(clients)
      && Queues() == AppendToEach(old(Queues()), notes)
    }

    /** A new store: no entities, and nobody listening yet. */
    constructor ()
      ensures Valid()
      ensures space == map[] && order == [] && clients == []
    {
      space := map[];
      order := [];
      clients := [];
    }

    /** The record of `e`, or the empty record when `e` is unknown. */
    function Get(e: string): Record
      reads this
    {
      Lookup(space, e)
    }

    /** Fans the current record of `e` out: one notification `{e: get(e)}`
        at the back of every registered client's queue. */
    method UpdateListeners(e: string)
      requires Valid()
      modifies clients
      ensures QueuesExtendedBy([Notification(e, Get(e))])
    {
      var note := Notification(e, Get(e));
      var i := 0;
      while i < |clients|
        invariant 0 <= i <= |clients|
        invariant forall j :: 0 <= j < i ==> clients[j].queue == old(clients[j].queue) + [note]
        invariant forall j :: i <= j < |clients| ==> clients[j].queue == old(clients[j].queue)
      {
        clients[i].Put(note);
        i := i + 1;
      }
      assert Queues() == AppendToEach(old(Queues()), [note]);
    }

    /** Merges one field into the record of `e`, creating the entity if it
        is unknown, then fans the new record out. */
    method Update(e: string, k: string, v: Value)
      requires Valid()
      modifies this, clients
      ensures Valid()
      ensures space == old(space)[e := MergeField(old(Get(e)), k, v)]
      ensures e !in old(space) ==> space[e] == map[k := v]
      ensures order == if e in old(space) then old(order) else old(order) + [e]
      ensures QueuesExtendedBy([Notification(e, space[e])])
    {
      var entry := Get(e);
      entry := entry[k := v];
      if e !in space {
        order := order + [e];
      }
      space := space[e := entry];
      UpdateListeners(e);
    }

    /** Replaces the whole record of `e`, then fans it out. */
    method Set(e: string, data: Record)
      requires Valid()
      modifies this, clients
      ensures Valid()
      ensures space == old(space)[e := data]
      ensures order == if e in old(space) then old(order) else old(order) + [e]
      ensures QueuesExtendedBy([Notification(e, data)])
    {
      if e !in space {
        order := order + [e];
      }
      space := space[e := data];
      UpdateListeners(e);
    }

    /** Empties the store without telling anyone. */
    method Clear()
      requires Valid()
      modifies this
      ensures Valid()
      ensures space == map[] && order == []
      ensures QueuesExtendedBy([])
    {
      space := map[];
      order := [];
      AppendToEachTwice(Queues(), [], []);
    }

    /** The search `list.remove` does: the first position holding `c`, or
        -1 when `c` is not registered. */
    method IndexOf(c: Client) returns (i: int)
      ensures -1 <= i < |clients|
      ensures i == -1 <==> c !in clients
      ensures 0 <= i ==> clients[i] == c && forall j :: 0 <= j < i ==> clients[j] != c
    {
      i := 0;
      while i < |clients|
        invariant 0 <= i <= |clients|
        invariant forall j :: 0 <= j < i ==> clients[j] != c
      {
        if clients[i] == c {
          return;
        }
        i := i + 1;
      }
      i := -1;
    }
  }

  /** Cutting one element out of a sequence without repeats leaves a
      sequence without repeats that no longer holds it. */
  lemma RemoveAtKeepsDistinct<T>(s: seq<T>, k: nat)
    requires k < |s|
    requires forall i, j :: 0 <= i < j < |s| ==> s[i] != s[j]
    ensures var r := s[..k] + s[k + 1..];
            && |r| == |s| - 1
            && (forall i, j :: 0 <= i < j < |r| ==> r[i] != r[j])
            && s[k] !in r
            && forall x :: x in r ==> x in s
  {
    var r := s[..k] + s[k + 1..];
    assert forall i :: 0 <= i < |r| ==> r[i] == s[if i < k then i else i + 1];
  }

  /** The outcome of POST or PUT on /entity/<entity>: the entity's record,
      or the field whose lookup in the body raised KeyError. */
  datatype Response = Ok(record: Record) | KeyError(field: string)

  /** Tells every registered client about the current world: fans out
      each entity in key order. */
  method AnnounceWorld(w: World)
    requires w.Valid()
    modifies w.clients
    ensures w.QueuesExtendedBy(Replay(w.space, w.order))
  {
    ghost var q0 := w.Queues();
    AppendToEachTwice(q0, [], []);
    var i := 0;
    while i < |w.order|
      invariant 0 <= i <= |w.order|
      invariant w.clients == old(w.clients)
      invariant w.Queues() == AppendToEach(q0, Replay(w.space, w.order[..i]))
    {
      ReplaySnoc(w.space, w.order, i);
      AppendToEachTwice(q0, Replay(w.space, w.order[..i]), [Notification(w.order[i], w.Get(w.order[i]))]);
      w.UpdateListeners(w.order[i]);
      i := i + 1;
    }
    assert w.order[..i] == w.order;
  }

  /** Connecting to /subscribe: registers a fresh client, then replays the
      world to everyone registered. The replay reaches every client, old and
      new: each queue, the new one starting empty, gets it appended. */
  method Subscribe(w: World) returns (c: Client)
    requires w.Valid()
    modifies w, w.clients
    ensures w.Valid() && fresh(c)
    ensures w.space == old(w.space) && w.order == old(w.order)
    ensures w.clients == old(w.clients) + [c]
    ensures w.Queues() == AppendToEach(old(w.Queues()) + [[]], Replay(w.space, w.order))
  {
    c := new Client();
    w.clients := w.clients + [c];
    assert w.Queues() == old(w.Queues()) + [[]];
    AnnounceWorld(w);
  }

  /** Leaving /subscribe: `clients.remove(client)`. Removes the first
      occurrence of `c`; reports false, changing nothing, when `c` is not
      registered (where Python raises ValueError). No queue changes. */
  method Unsubscribe(w: World, c: Client) returns (removed: bool)
    requires w.Valid()
    modifies w
    ensures w.Valid()
    ensures w.space == old(w.space) && w.order == old(w.order)
    ensures removed <==> c in old(w.clients)
    ensures removed ==> exists k :: 0 <= k < |old(w.clients)| && old(w.clients)[k] == c &&
                                    w.clients == old(w.clients)[..k] + old(w.clients)[k + 1..]
    ensures !removed ==> w.clients == old(w.clients)
    ensures c !in w.clients
    ensures forall d :: d in old(w.clients) ==> d.queue == old(d.queue)
  {
    var k := w.IndexOf(c);
    removed := k >= 0;
    if removed {
      RemoveAtKeepsDistinct(w.clients, k);
      w.clients := w.clients[..k] + w.clients[k + 1..];
    }
  }

  /** The parts of the store a request can change, frozen at one moment:
      the world, the key order, the client list and every client's queue. */
  datatype Snapshot = Snapshot(space: Space, order: seq<string>, clients: seq<Client>,
                               queues: seq<seq<Notification>>)

  ghost function Freeze(w: World): Snapshot
    reads w, w.clients
  {
    Snapshot(w.space, w.order, w.clients, w.Queues())
  }

  /** Since snapshot `s`, entity `e` (whose record then was `rec`) has had
      the updates `done` merged in, each one fanned out, and nothing else
      has changed. */
  ghost predicate MergedSince(w: World, s: Snapshot, e: string, rec: Record, done: seq<(string, Value)>)
    reads w, w.clients
  {
    && w.space == s.space[e := Overlay(rec, done)]
    && w.order == s.order
    && w.clients == s.clients
    && w.Queues() == AppendToEach(s.queues, MergeTrail(e, rec, done))
  }

  /** One line of the POST handler for an existing entity: looks field `f`
      up in the body and, when it is there, merges it into `e` and fans the
      record out (when it is not, Python raises KeyError and nothing
      changes). */
  method UpdateFromBody(w: World, e: string, data: Record, f: string,
                        ghost s: Snapshot, ghost rec: Record, ghost done: seq<(string, Value)>)
      returns (ok: bool)
    requires w.Valid()
    requires MergedSince(w, s, e, rec, done)
    modifies w, w.clients
    ensures w.Valid()
    ensures ok == (f in data)
    ensures ok ==> MergedSince(w, s, e, rec, done + [(f, data[f])])
    ensures !ok ==> MergedSince(w, s, e, rec, done)
  {
    ok := f in data;
    if ok {
      ghost var p := (f, data[f]);
      w.Update(e, f, data[f]);
      OverlaySnoc(rec, done, p);
      MergeTrailSnoc(e, rec, done, p);
      AppendToEachTwice(s.queues, MergeTrail(e, rec, done), [Notification(e, Overlay(rec, done + [p]))]);
    }
  }

  /** PUT on /entity/<entity>: replaces the record and answers with it. */
  method PutEntity(w: World, e: string, data: Record) returns (res: Response)
    requires w.Valid()
    modifies w, w.clients
    ensures w.Valid()
    ensures w.space == old(w.space)[e := data]
    ensures w.order == if e in old(w.space) then old(w.order) else old(w.order) + [e]
    ensures w.QueuesExtendedBy([Notification(e, data)])
    ensures res == Ok(data)
  {
    w.Set(e, data);
    res := Ok(w.Get(e));
  }

  /** POST on /entity/<entity>. An unknown entity is created from the
      body as it is; an existing one has the shape fields merged in (see
      MergeShapeFields). */
  method PostEntity(w: World, e: string, data: Record) returns (res: Response)
    requires w.Valid()
    modifies w, w.clients
    ensures w.Valid()
    ensures e in old(w.space) ==>
              MergedSince(w, old(Freeze(w)), e, old(w.space)[e], UpdatesUntilMissing(data, ShapeFields))
    ensures e in old(w.space) ==>
              var us := UpdatesUntilMissing(data, ShapeFields);
              res == if |us| == |ShapeFields| then Ok(w.space[e]) else KeyError(ShapeFields[|us|])
    ensures e !in old(w.space) ==>
              && w.space == old(w.space)[e := data]
              && w.order == old(w.order) + [e]
              && w.QueuesExtendedBy([Notification(e, data)])
              && res == Ok(data)
  {
    if e in w.space {
      res := MergeShapeFields(w, e, data);
    } else {
      w.Set(e, data);
      res := Ok(w.Get(e));
    }
  }

  /** The POST branch for an existing entity: colour, radius, x and y are
      merged in one at a time, each merge fanned out; a field missing from
      the body raises KeyError at that point, after the earlier merges took
      effect. */
  method MergeShapeFields(w: World, e: string, data: Record) returns (res: Response)
    requires w.Valid()
    requires e in w.space
    modifies w, w.clients
    ensures w.Valid()
    ensures MergedSince(w, old(Freeze(w)), e, old(w.space)[e], UpdatesUntilMissing(data, ShapeFields))
    ensures var us := UpdatesUntilMissing(data, ShapeFields);
            res == if |us| == |ShapeFields| then Ok(w.space[e]) else KeyError(ShapeFields[|us|])
  {
    ghost var s := Freeze(w);
    ghost var rec := w.space[e];
    ghost var us := UpdatesUntilMissing(data, ShapeFields);
    UpdatesUntilMissingShape(data);
    AppendToEachTwice(s.queues, [], []);
    var ok := UpdateFromBody(w, e, data, "colour", s, rec, []);
    if !ok {
      assert us == [];
      assert |us| == 0 && ShapeFields[0] == "colour";
      return KeyError("colour");
    }
    ghost var done := [("colour", data["colour"])];
    ok := UpdateFromBody(w, e, data, "radius", s, rec, done);
    if !ok {
      assert us == done;
      assert |us| == 1 && ShapeFields[1] == "radius";
      return KeyError("radius");
    }
    done := done + [("radius", data["radius"])];
    ok := UpdateFromBody(w, e, data, "x", s, rec, done);
    if !ok {
      assert us == done;
      assert |us| == 2 && ShapeFields[2] == "x";
      return KeyError("x");
    }
    done := done + [("x", data["x"])];
    ok := UpdateFromBody(w, e, data, "y", s, rec, done);
    if !ok {
      assert us == done;
      assert |us| == 3 && ShapeFields[3] == "y";
      return KeyError("y");
    }
    done := done + [("y", data["y"])];
    assert us == done;
    res := Ok(w.Get(e));
  }

  /** POST on /world: clears the store, then sets each posted entity in the
      body's key order, each set fanned out; answers with the new world. */
  method PostWorld(w: World, body: seq<(string, Record)>) returns (res: Space)
    requires w.Valid()
    requires KeysDistinct(body)
    modifies w, w.clients
    ensures w.Valid()
    ensures w.space == Overlay(map[], body)
    ensures w.space.Keys == KeysOf(body)
    ensures forall i :: 0 <= i < |body| ==> w.space[body[i].0] == body[i].1
    ensures w.order == KeyOrder(body)
    ensures w.QueuesExtendedBy(Announcements(body))
    ensures res == w.space
  {
    w.Clear();
    ghost var q0 := w.Queues();
    AppendToEachTwice(q0, [], []);
    var i := 0;
    while i < |body|
      invariant 0 <= i <= |body|
      invariant w.Valid()
      invariant w.space == Overlay(map[], body[..i])
      invariant w.order == KeyOrder(body[..i])
      invariant w.clients == old(w.clients)
      invariant w.Queues() == AppendToEach(q0, Announcements(body[..i]))
    {
      PostedPrefixStep(body, i);
      AppendToEachTwice(q0, Announcements(body[..i]), [Notification(body[i].0, body[i].1)]);
      w.Set(body[i].0, body[i].1);
      i := i + 1;
    }
    assert body[..i] == body;
    OverlayLookup(map[], body);
    res := w.space;
  }

  /** A subscriber sees each merge into an entity as the whole record
      after that merge. */
  method SessionMerges() {
    var w := new World();
    var s1 := Subscribe(w);
    assert w.clients == [s1] && w.Queues() == [[]];
    var ball1 := map["x" := Number(5.0)];
    w.Update("ball1", "x", Number(5.0));
    assert w.Queues()[0] == [Notification("ball1", ball1)];
    var n := s1.Get();
    assert n == Notification("ball1", ball1) && w.Queues() == [[]];
    w.Update("ball1", "y", Number(7.0));
    ball1 := ball1["y" := Number(7.0)];
    assert w.Queues()[0] == [Notification("ball1", ball1)];
    n := s1.Get();
    assert n == Notification("ball1", map["x" := Number(5.0), "y" := Number(7.0)]);
  }
}
