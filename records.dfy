/** Values held by the world store, the notifications it fans out, and the
    pure functions that describe what a sequence of writes does to a record
    or to a world. The classes in module Sockets are specified in terms of
    these functions. */
module Records {

  /** A decoded JSON value. The store never looks inside one. */
  datatype Value =
    | Null
    | Bool(b: bool)
    | Number(n: real)
    | Str(s: string)
    | Array(items: seq<Value>)
    | Object(fields: map<string, Value>)

  /** An entity's record: field name to value. */
  type Record = map<string, Value>

  /** The whole world: entity name to record. */
  type Space = map<string, Record>

  /** One fan-out message `{entity: record}`, a snapshot of one entity's
      record taken right after it was written. */
  datatype Notification = Notification(entity: string, record: Record)

  /** The fields that a POST on an existing entity copies from the body, in
      the order the handler copies them. */
  const ShapeFields: seq<string> := ["colour", "radius", "x", "y"]

  /** The keys named by a sequence of (key, value) pairs. */
  function KeysOf<V>(ps: seq<(string, V)>): set<string>
  {
    set i | 0 <= i < |ps| :: ps[i].0
  }

  /** No key is named twice, as in a decoded JSON object. */
  predicate KeysDistinct<V>(ps: seq<(string, V)>)
  {
    forall i, j :: 0 <= i < j < |ps| ==> ps[i].0 != ps[j].0
  }

  /** The keys of the pairs, in order. */
  function KeyOrder<V>(ps: seq<(string, V)>): seq<string>
  {
    seq(|ps|, i requires 0 <= i < |ps| => ps[i].0)
  }

  /** World.get: the stored record, or the empty record for an unknown entity. */
  function Lookup(space: Space, e: string): (r: Record)
    ensures e in space ==> r == space[e]
    ensures e !in space ==> r == map[]
  {
    if e in space then space[e] else map[]
  }

  /** The effect of World.update on one record: field `k` now holds `v`;
      every other field keeps its key and its value. */
  function MergeField(rec: Record, k: string, v: Value): (r: Record)
    ensures k in r && r[k] == v
    ensures r.Keys == rec.Keys + {k}
    ensures forall f :: f in rec && f != k ==> r[f] == rec[f]
  {
    rec[k := v]
  }

  /** Writes the pairs into `m` one after the other; a later pair wins. */
  function Overlay<V>(m: map<string, V>, ps: seq<(string, V)>): map<string, V>
  {
    if ps == [] then m
    else
      var last := ps[|ps| - 1];
      Overlay(m, ps[..|ps| - 1])[last.0 := last.1]
  }

  /** Overlaying one more pair is one more write. */
  lemma OverlaySnoc<V>(m: map<string, V>, ps: seq<(string, V)>, p: (string, V))
    ensures Overlay(m, ps + [p]) == Overlay(m, ps)[p.0 := p.1]
  {
    assert (ps + [p])[..|ps|] == ps;
  }

  /** What an overlay holds: exactly the old keys and the written keys; an
      unwritten field keeps its value; with distinct keys every written key
      holds the value written to it. */
  lemma {:induction false} OverlayLookup<V>(m: map<string, V>, ps: seq<(string, V)>)
    ensures Overlay(m, ps).Keys == m.Keys + KeysOf(ps)
    ensures forall f :: f in m && f !in KeysOf(ps) ==> Overlay(m, ps)[f] == m[f]
    ensures KeysDistinct(ps) ==>
              forall i :: 0 <= i < |ps| ==> Overlay(m, ps)[ps[i].0] == ps[i].1
  {
    if ps != [] {
      var init := ps[..|ps| - 1];
      var last := ps[|ps| - 1];
      OverlayLookup(m, init);
      assert forall i :: 0 <= i < |init| ==> init[i] == ps[i];
      assert KeysOf(ps) == KeysOf(init) + {last.0} by {
        forall f | f in KeysOf(ps) ensures f in KeysOf(init) + {last.0} {
          var i :| 0 <= i < |ps| && ps[i].0 == f;
          if i < |init| { assert init[i].0 == f; }
        }
      }
    }
  }

  /** Writes to distinct keys commute: any two orders of the same pairs
      give the same result. */
  lemma OverlayOrderIrrelevant<V>(m: map<string, V>, ps: seq<(string, V)>, qs: seq<(string, V)>)
    requires KeysDistinct(ps) && KeysDistinct(qs)
    requires forall p :: p in ps <==> p in qs
    ensures Overlay(m, ps) == Overlay(m, qs)
  {
    OverlayLookup(m, ps);
    OverlayLookup(m, qs);
    assert KeysOf(ps) == KeysOf(qs) by {
      forall f | f in KeysOf(ps) ensures f in KeysOf(qs) {
        var i :| 0 <= i < |ps| && ps[i].0 == f;
        assert ps[i] in qs;
      }
      forall f | f in KeysOf(qs) ensures f in KeysOf(ps) {
        var j :| 0 <= j < |qs| && qs[j].0 == f;
        assert qs[j] in ps;
      }
    }
    forall f | f in Overlay(m, ps) ensures Overlay(m, ps)[f] == Overlay(m, qs)[f] {
      if f in KeysOf(ps) {
        var i :| 0 <= i < |ps| && ps[i].0 == f;
        assert ps[i] in qs;
      }
    }
  }

  /** The updates the POST handler performs on an existing entity: one per
      field of `fields`, in order, stopping before the first field the body
      lacks (looking that field up raises KeyError). */
  function UpdatesUntilMissing(data: Record, fields: seq<string>): (us: seq<(string, Value)>)
    ensures |us| <= |fields|
    ensures forall i :: 0 <= i < |us| ==>
              us[i].0 == fields[i] && fields[i] in data && us[i].1 == data[fields[i]]
    ensures |us| < |fields| ==> fields[|us|] !in data
  {
    if fields == [] || fields[0] !in data then []
    else [(fields[0], data[fields[0]])] + UpdatesUntilMissing(data, fields[1..])
  }

  /** The updates of the POST handler spelled out: the shape fields in
      order, up to the first one the body lacks. */
  lemma UpdatesUntilMissingShape(data: Record)
    ensures var us := UpdatesUntilMissing(data, ShapeFields);
            && ("colour" !in data ==> us == [])
            && ("colour" in data && "radius" !in data ==> us == [("colour", data["colour"])])
            && ("colour" in data && "radius" in data && "x" !in data ==>
                  us == [("colour", data["colour"]), ("radius", data["radius"])])
            && ("colour" in data && "radius" in data && "x" in data && "y" !in data ==>
                  us == [("colour", data["colour"]), ("radius", data["radius"]), ("x", data["x"])])
            && ("colour" in data && "radius" in data && "x" in data && "y" in data ==>
                  us == [("colour", data["colour"]), ("radius", data["radius"]), ("x", data["x"]),
                         ("y", data["y"])])
  {
    assert ShapeFields[1..] == ["radius", "x", "y"];
    assert ["radius", "x", "y"][1..] == ["x", "y"];
    assert ["x", "y"][1..] == ["y"];
    assert ["y"][1..] == [];
    var u4 := UpdatesUntilMissing(data, []);
    var u3 := UpdatesUntilMissing(data, ["y"]);
    var u2 := UpdatesUntilMissing(data, ["x", "y"]);
    var u1 := UpdatesUntilMissing(data, ["radius", "x", "y"]);
    assert u3 == if "y" in data then [("y", data["y"])] + u4 else [];
    assert u2 == if "x" in data then [("x", data["x"])] + u3 else [];
    assert u1 == if "radius" in data then [("radius", data["radius"])] + u2 else [];
  }

  /** The notifications one client receives while `us` is merged, field by
      field, into entity `e` whose record was `rec`: one per update, each the
      record as it stood right after that update. */
  function MergeTrail(e: string, rec: Record, us: seq<(string, Value)>): (r: seq<Notification>)
    ensures |r| == |us|
    ensures forall n :: 0 < n <= |us| ==> r[n - 1] == Notification(e, Overlay(rec, us[..n]))
  {
    if us == [] then []
    else
      var init := us[..|us| - 1];
      assert us[..|us|] == us;
      assert forall n :: 0 < n <= |init| ==> init[..n] == us[..n];
      MergeTrail(e, rec, init) + [Notification(e, Overlay(rec, us))]
  }

  /** One more merge adds one notification: the record after it. */
  lemma MergeTrailSnoc(e: string, rec: Record, us: seq<(string, Value)>, p: (string, Value))
    ensures MergeTrail(e, rec, us + [p]) == MergeTrail(e, rec, us) + [Notification(e, Overlay(rec, us + [p]))]
  {
    assert (us + [p])[..|us|] == us;
  }

  /** A POST whose body has all four shape fields on an existing entity:
      four notifications, the last of them the final record, which is the
      old record with the four fields written in order. */
  lemma ShapeMergeComplete(e: string, rec: Record, data: Record)
    requires forall f :: f in ShapeFields ==> f in data
    ensures var us := UpdatesUntilMissing(data, ShapeFields);
            var trail := MergeTrail(e, rec, us);
            && |trail| == 4
            && trail[3] == Notification(e, Overlay(rec, us))
            && Overlay(rec, us) ==
                 rec["colour" := data["colour"]]["radius" := data["radius"]]["x" := data["x"]]["y" := data["y"]]
  {
    var us := UpdatesUntilMissing(data, ShapeFields);
    UpdatesUntilMissingShape(data);
    var p0, p1, p2, p3 := ("colour", data["colour"]), ("radius", data["radius"]), ("x", data["x"]), ("y", data["y"]);
    assert us == [p0] + [p1] + [p2] + [p3];
    OverlaySnoc(rec, [], p0);
    OverlaySnoc(rec, [p0], p1);
    OverlaySnoc(rec, [p0] + [p1], p2);
    OverlaySnoc(rec, [p0] + [p1] + [p2], p3);
    assert us[..4] == us;
  }

  /** The notifications a fan-out of each listed entity produces, in order:
      what a new subscriber (and every other client) receives when the world
      is replayed. */
  function Replay(space: Space, order: seq<string>): seq<Notification>
  {
    if order == [] then []
    else
      var e := order[|order| - 1];
      Replay(space, order[..|order| - 1]) + [Notification(e, Lookup(space, e))]
  }

  /** Replaying one more entity adds one notification: that entity's record. */
  lemma ReplaySnoc(space: Space, order: seq<string>, i: nat)
    requires i < |order|
    ensures Replay(space, order[..i + 1]) == Replay(space, order[..i]) + [Notification(order[i], Lookup(space, order[i]))]
  {
    assert order[..i + 1][..i] == order[..i];
  }

  /** Every queue with `notes` appended at its back: what one fan-out (or
      a run of them) does to the clients' queues. */
  function AppendToEach(qs: seq<seq<Notification>>, notes: seq<Notification>): (r: seq<seq<Notification>>)
    ensures |r| == |qs|
    ensures forall i :: 0 <= i < |qs| ==> r[i] == qs[i] + notes
  {
    seq(|qs|, i requires 0 <= i < |qs| => qs[i] + notes)
  }

  /** Two fan-outs in a row append both runs, first then second; an empty
      run changes nothing. */
  lemma AppendToEachTwice(qs: seq<seq<Notification>>, a: seq<Notification>, b: seq<Notification>)
    ensures AppendToEach(AppendToEach(qs, a), b) == AppendToEach(qs, a + b)
    ensures AppendToEach(qs, []) == qs
  {
    forall i | 0 <= i < |qs| ensures AppendToEach(AppendToEach(qs, a), b)[i] == AppendToEach(qs, a + b)[i] {
      assert qs[i] + a + b == qs[i] + (a + b);
    }
    forall i | 0 <= i < |qs| ensures AppendToEach(qs, [])[i] == qs[i] {
      assert qs[i] + [] == qs[i];
    }
  }

  /** The notifications `set` produces for each pair of a posted world. */
  function Announcements(ps: seq<(string, Record)>): seq<Notification>
  {
    seq(|ps|, i requires 0 <= i < |ps| => Notification(ps[i].0, ps[i].1))
  }

  /** Setting the next posted pair: the world so far gains that pair's
      entity, which it did not hold yet, and its announcement. */
  lemma PostedPrefixStep(body: seq<(string, Record)>, i: nat)
    requires i < |body|
    requires KeysDistinct(body)
    ensures body[i].0 !in Overlay(map[], body[..i])
    ensures Overlay(map[], body[..i + 1]) == Overlay(map[], body[..i])[body[i].0 := body[i].1]
    ensures KeyOrder(body[..i + 1]) == KeyOrder(body[..i]) + [body[i].0]
    ensures Announcements(body[..i + 1]) == Announcements(body[..i]) + [Notification(body[i].0, body[i].1)]
  {
    assert body[..i + 1] == body[..i] + [body[i]];
    OverlaySnoc(map[], body[..i], body[i]);
    OverlayLookup(map[], body[..i]);
  }

  /** A receiver's picture of the world after applying `notes` to `view`:
      each notification replaces that entity's record, so the last one wins. */
  function Received(view: Space, notes: seq<Notification>): Space
  {
    if notes == [] then view
    else
      var n := notes[|notes| - 1];
      Received(view, notes[..|notes| - 1])[n.entity := n.record]
  }

  /** Receiving one more notification replaces that entity's record. */
  lemma ReceivedSnoc(view: Space, notes: seq<Notification>, n: Notification)
    ensures Received(view, notes + [n]) == Received(view, notes)[n.entity := n.record]
  {
    assert (notes + [n])[..|notes|] == notes;
  }

  /** A second write to the same key hides the first. */
  lemma OverwriteTwice<K, V>(m: map<K, V>, k: K, a: V, b: V)
    ensures m[k := a][k := b] == m[k := b]
  {
  }

  /** Replaying a list of entities sets each listed entity to its current
      record and leaves every other entity of the receiver's view alone. */
  lemma {:induction false} ReceivedReplay(view: Space, space: Space, order: seq<string>)
    ensures Received(view, Replay(space, order)).Keys == view.Keys + (set e | e in order)
    ensures forall e :: e in order ==> Received(view, Replay(space, order))[e] == Lookup(space, e)
    ensures forall e :: e in view && e !in order ==> Received(view, Replay(space, order))[e] == view[e]
  {
    if order != [] {
      var init := order[..|order| - 1];
      var last := order[|order| - 1];
      ReceivedReplay(view, space, init);
      var notes := Replay(space, order);
      assert notes[..|notes| - 1] == Replay(space, init);
      assert forall e :: e in order <==> e in init || e == last;
    }
  }

  /** A subscriber that starts from nothing and receives the replay of the
      whole world, in any order that lists each entity, ends up with exactly
      the world. */
  lemma ReplayConverges(space: Space, order: seq<string>)
    requires forall e :: e in space <==> e in order
    ensures Received(map[], Replay(space, order)) == space
  {
    ReceivedReplay(map[], space, order);
  }

  /** After the notifications of a field-by-field merge, a receiver holds
      the final record of the entity: the last notification wins. */
  lemma {:induction false} ReceivedMergeTrail(view: Space, e: string, rec: Record, us: seq<(string, Value)>)
    requires us != []
    ensures Received(view, MergeTrail(e, rec, us)) == view[e := Overlay(rec, us)]
  {
    var init := us[..|us| - 1];
    var prefix := MergeTrail(e, rec, init);
    var last := Notification(e, Overlay(rec, us));
    assert MergeTrail(e, rec, us) == prefix + [last];
    ReceivedSnoc(view, prefix, last);
    if init != [] {
      ReceivedMergeTrail(view, e, rec, init);
      OverwriteTwice(view, e, Overlay(rec, init), last.record);
    }
  }

  /** The POST merge policy on an existing record: only the listed fields
      can change, and when the body has all of them (distinct) the record
      holds the body's values for them afterwards. */
  lemma PostMergeTouchesListedFieldsOnly(rec: Record, data: Record, fields: seq<string>)
    ensures var r := Overlay(rec, UpdatesUntilMissing(data, fields));
            && (forall f :: f in r ==> f in rec || f in fields)
            && (forall f :: f in rec && f !in fields ==> f in r && r[f] == rec[f])
            && ((forall i, j :: 0 <= i < j < |fields| ==> fields[i] != fields[j]) &&
                (forall f :: f in fields ==> f in data) ==>
                  forall f :: f in fields ==> f in r && r[f] == data[f])
  {
    var us := UpdatesUntilMissing(data, fields);
    OverlayLookup(rec, us);
    assert forall f :: f in KeysOf(us) ==> f in fields;
    if (forall i, j :: 0 <= i < j < |fields| ==> fields[i] != fields[j]) &&
       (forall f :: f in fields ==> f in data) {
      assert KeysDistinct(us);
      assert forall k :: 0 <= k < |fields| ==> fields[k] in data;
      forall f | f in fields ensures f in Overlay(rec, us) && Overlay(rec, us)[f] == data[f] {
        var i :| 0 <= i < |fields| && fields[i] == f;
        assert us[i].0 == f;
      }
    }
  }
}
