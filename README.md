# Shared world store with listener fan-out

A model of the server side of a shared-canvas web application (`sockets.py`).
The server keeps one in-memory *world*, a map from entity name to a record of
fields (`colour`, `radius`, `x`, `y`, or anything a client sends). Every write
to an entity is broadcast to every connected websocket subscriber, each of
which has its own FIFO queue of pending messages. HTTP handlers write to the
world in two ways:

- **merge**: POST on an existing entity copies the four shape fields in one at a time;
- **replace**: POST on a new entity, every PUT, and POST on `/world` for the whole world.

The model has two modules.

- `Records` (records.dfy) holds the values and pure specification functions:
  - JSON values, records and worlds;
  - the structured notification `{entity: record}`;
  - `Overlay`, a run of writes into a map;
  - `MergeTrail`, the notifications of a field-by-field merge;
  - `Replay`, the notifications that replay a world;
  - `Received`, a subscriber's view after applying notifications.

  It also holds the lemmas about these.
- `Sockets` (sockets.dfy) holds the imperative part:
  - the `World` class, whose `space`, key `order` and `clients` list change in place;
  - the `Client` class and its queue;
  - subscribe and unsubscribe;
  - the `/entity` and `/world` POST/PUT handlers.

  Each method states its new state in terms of the `Records` functions. `World.Queues()` is the sequence of all client queues. A fan-out of the notifications `notes` leaves it equal to `AppendToEach(old queues, notes)`.

How the source maps onto the model:

- **Listeners.** `World.update_listeners` calls the registered listeners. In the program there is exactly one, `set_listener`, which puts `{entity: record}` into every client in the global `clients` list. The model puts that one listener directly into `World.UpdateListeners` and keeps the `clients` list as a field of `World`.
- **Reading the world.** `world()` and `GET /world` return the `space` field. `GET /entity/<e>` is `World.Get`. `/clear` is `World.Clear` followed by a read of `space`.
- **Key order.** `order` records the iteration order of the Python dict: the first insertion comes first, and replacing a key keeps its position. It fixes the order of the replay sent on subscribe.

Three behaviours of the program that the model keeps:

- **The replay goes to everyone.** The replay sent on subscribe is a plain fan-out, so every registered client receives it, not only the new one.
- **Unregistering twice is not a no-op.** Removing a client that is no longer registered raises ValueError in Python. `Unsubscribe` returns false for it.
- **Clear is silent.** `clear` notifies nobody, so subscribers keep the entities they last heard about.

## Model

| member | source | states |
|---|---|---|
| Records.Lookup | sockets.py:61-62 | `get` returns the stored record of a known entity and the empty record for an unknown one |
| Records.MergeField | sockets.py:43-46 | merging one field: afterwards `k` holds `v`, the keys are the old keys plus `k`, every other field is unchanged |
| Records.OverlayLookup | sockets.py:187-188 | a run of writes into a map: the keys are the old keys plus the written ones, unwritten keys keep their values, and with distinct keys each written key holds the value written to it |
| Records.OverlayOrderIrrelevant | sockets.py:187-188 | writes to distinct keys commute: two orders of the same pairs build the same map |
| Records.UpdatesUntilMissing | sockets.py:170-173 | the merges a POST performs: the listed fields in order, each with the body's value, stopping exactly at the first field the body lacks |
| Records.UpdatesUntilMissingShape | sockets.py:170-173 | the same for `colour`, `radius`, `x`, `y`, spelled out for each of the five ways the body can stop |
| Records.ShapeMergeComplete | sockets.py:170-173 | a body with all four shape fields gives four notifications; the last is the final record, which is the old record with the four fields written in order |
| Records.MergeTrail | sockets.py:170-173 | one notification per merge, the n-th holding the record as it stands after the first n merges |
| Records.AppendToEachTwice | sockets.py:53-56 | two fan-outs in a row append both runs to every queue, in order; a fan-out of nothing changes no queue |
| Records.PostedPrefixStep | sockets.py:187-188 | setting the next posted key adds a key not yet present, appends it to the key order and adds its announcement |
| Records.ReceivedReplay | sockets.py:135-136 | a subscriber applying the replay holds each replayed entity's current record and keeps every other entity of its view |
| Records.ReplayConverges | sockets.py:132-136 | a new subscriber that applies the replay of the whole world ends up holding exactly the world |
| Records.ReceivedMergeTrail | sockets.py:170-173 | a subscriber applying the notifications of a merge holds the merged record afterwards; the last notification wins |
| Records.PostMergeTouchesListedFieldsOnly | sockets.py:167-173 | POST on an existing entity changes only the listed fields and adds no others; when the body has them all, each holds the body's value afterwards |
| Sockets.Client.constructor | sockets.py:68-69 | a new client's queue is empty |
| Sockets.Client.Put | sockets.py:71-72 | `put` appends at the back and never fails |
| Sockets.Client.Get | sockets.py:74-75 | `get` on a non-empty queue returns the oldest notification and removes exactly it |
| Sockets.World.constructor | sockets.py:35-38 | a new store is empty and has nobody to notify |
| Sockets.World.UpdateListeners | sockets.py:53-56 | fan-out, the loop of `set_listener` (lines 81-84) included: the same clients, in the same order, each with exactly one notification `{e: get(e)}` appended behind its earlier contents |
| Sockets.World.Update | sockets.py:43-47 | the record of `e` becomes the old record, or `{}` for a new entity, with `k` merged in; a new entity is exactly `{k: v}`; no other entity changes; a new key goes to the end of the order; every client receives the new record once |
| Sockets.World.Set | sockets.py:49-51 | the record of `e` becomes `data` exactly and the old fields are discarded; no other entity changes; every client receives `data` once |
| Sockets.World.Clear | sockets.py:58-59 | the world and its order become empty whatever they held, so a second clear changes nothing more; no queue changes |
| Sockets.World.IndexOf | sockets.py:147 | the search inside `list.remove`: the first position holding the client, or -1 exactly when it is not registered |
| Sockets.AnnounceWorld | sockets.py:135-136 | fanning out every entity in key order appends the replay of the world to every client's queue |
| Sockets.Subscribe | sockets.py:132-136 | the new client goes to the end of the client list; the replay reaches every client, old and new, and the new one holds exactly the replay; the world is unchanged |
| Sockets.Unsubscribe | sockets.py:147 | the first occurrence of the client is cut out and the client is gone afterwards; no queue changes; an unregistered client reports false and changes nothing |
| Sockets.PutEntity | sockets.py:177-179 | PUT replaces the record, fans it out once and answers with the body |
| Sockets.UpdateFromBody | sockets.py:170 | one merge line of the POST handler: merged and fanned out when the body has the field; nothing changes when it lacks it |
| Sockets.MergeShapeFields | sockets.py:168-173 | POST on an existing entity merges the shape fields up to the first one the body lacks, fanning out each merge, then answers with the record or with KeyError naming the missing field; no other entity changes |
| Sockets.PostEntity | sockets.py:167-179 | POST merges into an existing entity as above and behaves as `set` on a new one |
| Sockets.PostWorld | sockets.py:184-189 | POST `/world` leaves the world equal to the posted map, with the order of its keys; every client receives one notification per posted key, in order; the answer is the new world |

## Left out

- HTTP routing, request-body decoding (`flask_post_json`) and the redirect on `/`. Bodies arrive as already-decoded records; a POST `/world` body is a sequence of (key, record) pairs with distinct keys, as a decoded JSON object has. Bodies that are not JSON objects are not modelled, and the entity values in a `/world` body are assumed to be objects as well (a non-object value would be stored as a record, and a later `update` on it fails with TypeError).
- Greenlets and blocking. `Client.Get` requires a non-empty queue instead of blocking until a notification arrives. Interleavings between concurrent requests are not modelled, nor is `gevent.spawn`/`kill`.
- Websocket I/O: `ws.send`/`ws.receive`, the loop that drains a queue into the socket, and the logging.
- `read_ws`, the handler for messages that clients send over the websocket. It is not modelled.
- `json.dumps`: a notification is the structured pair (entity, record) instead of its JSON text. Numbers are reals.
- `add_set_listener` with arbitrary callbacks. Only the single registered listener, `set_listener`, is modelled, inside `World.UpdateListeners`.
- Dictionary aliasing. `update` mutates the stored dict in place, and `set` stores the body's dict itself. Records are values here. No other reference to these dicts is observable, so this loses nothing.
- Sockets.Unsubscribe: `list.remove` raises ValueError for a client that is not registered. The model reports false and changes nothing instead. The exception would only abort the already-ending connection handler.
- Sockets.MergeShapeFields: a missing shape field raises KeyError, which Flask turns into an error response. The model returns `KeyError(field)` and keeps the merges already made, as the code does; the four-field update is not atomic.
