# Playlist manager and persistent player state, modelled in Dafny

This project models two components of the `snow` music player library. Both keep durable state in an
MMKV key-value store, modelled here as a map from key to typed value (`KeyValueStore`).

**`PlaylistManager`** keeps the play queue under two keys: `"playlist"` holds the list of music items
and `"playlist_size"` holds a redundant count. Reads go straight to the store. Each mutation is
handled in two steps. The public call checks the editability flag and submits a task to a
single-thread executor. The task later runs on the worker: it re-reads the stored list, edits it
with `List.add`/`List.remove`, saves both keys and posts one notification to the main thread. Five
things model this:

- `PlaylistManagement.PlaylistManager` is a class. Its fields are the store, the `editable` flag,
  the executor's FIFO queue `pending` and the append-only log `events` of posted notifications.
- `RunNext` runs the oldest task step by step, as the source's `Runnable`s do.
- `RunAll` is the worker's loop: it runs tasks until the queue is empty.
- Each is proved against a pure specification. `Execute` gives what one task does and `RunQueue`
  gives what running the whole queue does.
- The lemmas state the source's rules about these specifications.

An insert of an item that is already in the list becomes a call to `moveMusicItem`. That call
checks `from == to` and editability again, then queues a new move task at the back of the queue.
The model keeps this.

**`PersistentPlayerState`** is a write-through cache of four player fields: play progress, music
item, position and play mode. `PlayerStatePersistence.Load` is what the Java constructor reads, with
the same defaults. `Open` is the constructor itself: it returns null where the stored play-mode
ordinal is out of range and the Java constructor throws. Every setter updates the field and then
the store. `setMusicItem(null)` removes the key instead. Each setter keeps the class invariant
`Valid()`: the fields equal what `Load` gives for the current store.

Modules: `KeyValueStore` (the store, the typed decoders, `Option`, the opaque `MusicItem`),
`PlaylistEdits` (the `java.util.List` operations the tasks use), `PlaylistManagement`,
`PlaylistScenarios` (worked runs), `DeferredMove` (the finding below) and `PlayerStatePersistence`.

## Model

| member | source | states |
|---|---|---|
| PlaylistEdits.IndexOf | player/src/main/java/snow/player/playlist/PlaylistManager.java:161-162 | `contains`/`indexOf`: -1 exactly when the item is absent; otherwise an index holding the item with no earlier occurrence |
| PlaylistEdits.InsertAtSpec | player/src/main/java/snow/player/playlist/PlaylistManager.java:166 | `add(p, x)` grows the list by one and puts `x` at `p`; removing index `p` gives the old list back; the multiset gains exactly `x` |
| PlaylistEdits.RemoveAtSpec | player/src/main/java/snow/player/playlist/PlaylistManager.java:188 | `remove(i)` shrinks the list by one and drops exactly the element at `i` from the multiset; adding it back at `i` restores the list |
| PlaylistEdits.MovedIsPermutation | player/src/main/java/snow/player/playlist/PlaylistManager.java:186-192 | remove-then-add keeps the length and the multiset of items, and the moved item ends at `to` (an index into the shortened list) |
| PlaylistEdits.MoveBack | player/src/main/java/snow/player/playlist/PlaylistManager.java:186-192 | the move from `to` back to `from` undoes the move from `from` to `to` |
| PlaylistEdits.RemoveFirstSpec | player/src/main/java/snow/player/playlist/PlaylistManager.java:212 | `remove(item)` takes out the first occurrence only, at index `indexOf(item)`: the elements before it stay in place, the elements after it move down by one, adding the item back at that index restores the list, and the multiset loses the item once |
| PlaylistEdits.InsertThenRemove | player/src/main/java/snow/player/playlist/PlaylistManager.java:166 | adding an absent item and then removing it gives the original list back |
| PlaylistManagement.StoredPlaylist | player/src/main/java/snow/player/playlist/PlaylistManager.java:104-111 | `getPlaylist` gives the empty list when the key was never written |
| PlaylistManagement.StoredSize | player/src/main/java/snow/player/playlist/PlaylistManager.java:92-94 | `getPlaylistSize` gives 0 when the counter key was never written |
| PlaylistManagement.Saved | player/src/main/java/snow/player/playlist/PlaylistManager.java:220-224 | after `save`, the list reads back verbatim, the counter equals its length, the keys are the old keys plus the two playlist keys, and every other key keeps its value |
| PlaylistManagement.MoveRequest | player/src/main/java/snow/player/playlist/PlaylistManager.java:174-183 | `moveMusicItem` submits one move task exactly when `from != to` and the manager is editable, and nothing otherwise |
| PlaylistManagement.Execute | player/src/main/java/snow/player/playlist/PlaylistManager.java:141-217 | what one task does on the worker: it posts exactly one event when it saves and none otherwise; only a saving task changes the store, and it leaves the counter equal to the list's length; only an insert of an item already present hands on a task, at most one and never with an event; only a read delivers a list |
| PlaylistManagement.InsertNewItem | player/src/main/java/snow/player/playlist/PlaylistManager.java:157-171 | inserting an absent item at `0 <= p <= size` stores `old[..p] + [x] + old[p..]` with counter size+1 and posts exactly `inserted(p, x)` |
| PlaylistManagement.InsertPresentItem | player/src/main/java/snow/player/playlist/PlaylistManager.java:160-163 | inserting an item already present changes nothing and posts nothing; it hands on `move(first index, p)`, and hands on nothing when that index is `p` or the manager is not editable |
| PlaylistManagement.InsertPresentAtEndIsLost | player/src/main/java/snow/player/playlist/PlaylistManager.java:161-189 | inserting an item already present at index `size` hands on `move(i, size)`, which throws at `add` on the shortened list; alone in the queue, the call changes nothing and posts nothing |
| PlaylistManagement.MoveItem | player/src/main/java/snow/player/playlist/PlaylistManager.java:183-194 | a move with indices in range keeps length and items, puts the item from `from` at `to`, is undone by the opposite move, and posts exactly `moved(from, to)` |
| PlaylistManagement.RemoveItem | player/src/main/java/snow/player/playlist/PlaylistManager.java:204-217 | removing an absent item leaves the store and the log unchanged; otherwise the first occurrence, at `indexOf(item)`, is taken out with the rest in order, adding it back there restores the list, the counter follows, and exactly `removed(item)` is posted |
| PlaylistManagement.SetPlaylistStoresVerbatim | player/src/main/java/snow/player/playlist/PlaylistManager.java:141-147 | `setPlaylist` stores the list verbatim with its size and posts one `newPlaylist` whose position is `max(position, 0)` |
| PlaylistManagement.RunQueue | player/src/main/java/snow/player/playlist/PlaylistManager.java:50 | the worker's run of a whole queue, handed-on moves joining the back: at most one notification per submitted task, and a run that writes the store at all leaves the counter equal to the list's length |
| PlaylistManagement.RunQueueAppend | player/src/main/java/snow/player/playlist/PlaylistManager.java:50 | the single-thread executor is FIFO: without inserts, the run of `q1 + q2` is the run of `q1` followed by the run of `q2`, so every event of `q1` comes before any event of `q2` |
| PlaylistManagement.PlaylistManager.constructor | player/src/main/java/snow/player/playlist/PlaylistManager.java:44-53 | a new manager is not editable and has nothing queued or posted |
| PlaylistManagement.PlaylistManager.IsEditable | player/src/main/java/snow/player/playlist/PlaylistManager.java:62-64 | reads the flag |
| PlaylistManagement.PlaylistManager.SetEditable | player/src/main/java/snow/player/playlist/PlaylistManager.java:71-73 | sets the flag and nothing else |
| PlaylistManagement.PlaylistManager.GetPlaylistSize | player/src/main/java/snow/player/playlist/PlaylistManager.java:92-94 | returns the stored counter, 0 when it is missing |
| PlaylistManagement.PlaylistManager.GetPlaylist | player/src/main/java/snow/player/playlist/PlaylistManager.java:104-111 | returns the stored list, empty when it is missing |
| PlaylistManagement.PlaylistManager.GetPlaylistAsync | player/src/main/java/snow/player/playlist/PlaylistManager.java:116-123 | queues a read behind every task already submitted |
| PlaylistManagement.PlaylistManager.SetPlaylist | player/src/main/java/snow/player/playlist/PlaylistManager.java:132-148 | when not editable nothing is queued; otherwise exactly one set-playlist task is appended; the store and the log are never touched |
| PlaylistManagement.PlaylistManager.InsertMusicItem | player/src/main/java/snow/player/playlist/PlaylistManager.java:150-172 | when not editable nothing is queued; otherwise exactly one insert task is appended |
| PlaylistManagement.PlaylistManager.MoveMusicItem | player/src/main/java/snow/player/playlist/PlaylistManager.java:174-195 | `move(k, k)` queues nothing, whatever the flag; otherwise one move task is appended exactly when editable |
| PlaylistManagement.PlaylistManager.RemoveMusicItem | player/src/main/java/snow/player/playlist/PlaylistManager.java:197-218 | when not editable nothing is queued; otherwise exactly one remove task is appended |
| PlaylistManagement.PlaylistManager.Save | player/src/main/java/snow/player/playlist/PlaylistManager.java:220-224 | writes the list, then its size |
| PlaylistManagement.PlaylistManager.Notify | player/src/main/java/snow/player/playlist/PlaylistManager.java:226-268 | posting appends one event to the log |
| PlaylistManagement.PlaylistManager.RunNext | player/src/main/java/snow/player/playlist/PlaylistManager.java:141-217 | running the oldest task leaves the store, the log, the queue (with any handed-on move at the back) and the callback deliveries as `Execute` gives them; an empty queue changes nothing |
| PlaylistManagement.PlaylistManager.RunAll | player/src/main/java/snow/player/playlist/PlaylistManager.java:50 | the worker drains the queue, including handed-on moves; the final store and the appended events are those `RunQueue` gives |
| PlaylistScenarios.FreshStoreIsEmpty | player/src/main/java/snow/player/playlist/PlaylistManager.java:92-111 | on a store never written to, the list is empty, the counter is 0, and they agree |
| PlaylistScenarios.InsertPresentBecomesMove | player/src/main/java/snow/player/playlist/PlaylistManager.java:157-195 | on `[a, b, c]`, `insert(0, b)` gives `[b, a, c]`, counter 3, and the single event `moved(1, 0)` |
| PlaylistScenarios.RemoveMiddleItem | player/src/main/java/snow/player/playlist/PlaylistManager.java:204-217 | on `[a, b, c]`, `remove(b)` gives `[a, c]`, counter 2, and the single event `removed(b)` |
| PlaylistScenarios.NotEditableIgnoresMutations | player/src/main/java/snow/player/playlist/PlaylistManager.java:137-139 | on a new, non-editable manager, set/insert/move/remove followed by draining the worker leave the store as it was and post nothing |
| DeferredMove.DeferredMoveUsesStaleIndex | player/src/main/java/snow/player/playlist/PlaylistManager.java:161-163 | on `[a, b, c]`, queuing `insert(0, b)` and then `remove(a)` ends with `[c, b]`; the events are `removed(a)` and then `moved(1, 0)` |
| DeferredMove.ExecuteInline | player/src/main/java/snow/player/playlist/PlaylistManager.java:161-163 | the corrected step moves a present item inside the insert task: no task is ever handed on, at most one event is posted, a write leaves the counter consistent, and every other case behaves as the source's step |
| DeferredMove.InlineInsertLandsAtPosition | player/src/main/java/snow/player/playlist/PlaylistManager.java:161-163 | with the inline move, an insert of a present item at an index in range leaves that item at the index, keeps the list's items, and posts at most the one move event |
| DeferredMove.RunInline | player/src/main/java/snow/player/playlist/PlaylistManager.java:50 | the run of a queue with the inline move: at most one notification per submitted task, and a run that writes the store at all leaves the counter equal to the list's length |
| DeferredMove.InlineInsertPresentAtEndIsLost | player/src/main/java/snow/player/playlist/PlaylistManager.java:161-163 | the inline move still throws for an insert of an item already present at index `size`: nothing is saved or posted |
| DeferredMove.RunInlineAppend | player/src/main/java/snow/player/playlist/PlaylistManager.java:50 | with the inline move, for every queue, events follow submission order: the run of `q1 + q2` is the run of `q1` followed by the run of `q2` |
| DeferredMove.InlineMoveScenario | player/src/main/java/snow/player/playlist/PlaylistManager.java:161-163 | with the inline move, the same two calls on `[a, b, c]` give `[b, c]`, with `moved(1, 0)` before `removed(a)` |
| PlayerStatePersistence.Ordinal | player/src/main/java/snow/player/PersistentPlayerState.java:68 | `ordinal()` is an index into `values()` that holds the mode |
| PlayerStatePersistence.FromOrdinal | player/src/main/java/snow/player/PersistentPlayerState.java:35 | `values()[n]` is defined exactly for `0 <= n < 3`, and then the result's ordinal is `n` |
| PlayerStatePersistence.OrdinalRoundTrip | player/src/main/java/snow/player/PersistentPlayerState.java:35 | looking up a stored ordinal gives the mode back |
| PlayerStatePersistence.Load | player/src/main/java/snow/player/PersistentPlayerState.java:32-35 | loading fails exactly when the stored ordinal is out of range; a missing key gives progress 0, a null item, position 0, and the mode of ordinal 0 |
| PlayerStatePersistence.FreshStoreLoadsDefaults | player/src/main/java/snow/player/PersistentPlayerState.java:32-35 | an empty store loads `(0, null, 0, SEQUENTIAL)` |
| PlayerStatePersistence.ReloadPlayProgress | player/src/main/java/snow/player/PersistentPlayerState.java:42 | after writing a progress, reloading changes only the progress |
| PlayerStatePersistence.ReloadMusicItem | player/src/main/java/snow/player/PersistentPlayerState.java:46-55 | after writing an item, or removing the key for null, reloading changes only the item |
| PlayerStatePersistence.ReloadPosition | player/src/main/java/snow/player/PersistentPlayerState.java:61 | after writing a position, reloading changes only the position |
| PlayerStatePersistence.ReloadPlayMode | player/src/main/java/snow/player/PersistentPlayerState.java:68 | after writing a mode's ordinal, the store loads again, with that mode and the other three fields as decoded |
| PlayerStatePersistence.PersistentPlayerState.constructor | player/src/main/java/snow/player/PersistentPlayerState.java:32-35 | sets the four fields and the store |
| PlayerStatePersistence.PersistentPlayerState.Open | player/src/main/java/snow/player/PersistentPlayerState.java:24-36 | construction fails exactly when `Load` does; otherwise the new object's fields are what `Load` gives |
| PlayerStatePersistence.PersistentPlayerState.SetPlayProgress | player/src/main/java/snow/player/PersistentPlayerState.java:39-43 | sets the field and the `"play_progress"` key, and no other key; keeps the fields equal to a reload |
| PlayerStatePersistence.PersistentPlayerState.SetMusicItem | player/src/main/java/snow/player/PersistentPlayerState.java:46-55 | sets the field; null removes `"music_item"` and any other item is written under it; keeps the fields equal to a reload |
| PlayerStatePersistence.PersistentPlayerState.SetPosition | player/src/main/java/snow/player/PersistentPlayerState.java:58-62 | sets the field and the `"position"` key, and no other key; keeps the fields equal to a reload |
| PlayerStatePersistence.PersistentPlayerState.SetPlayMode | player/src/main/java/snow/player/PersistentPlayerState.java:65-69 | sets the field and stores its ordinal under `"play_mode"`; keeps the fields equal to a reload |

## Findings

| source | as written | input that shows it | evidently intended | confidence | as-written member | corrected member |
|---|---|---|---|---|---|---|
| player/src/main/java/snow/player/playlist/PlaylistManager.java:161-163 | an insert of an item already present queues `moveMusicItem(indexOf(item), position)` behind the tasks already submitted, and that index was computed when the insert ran | list `[A, B, C]`, editable; `insertMusicItem(0, B)` then `removeMusicItem(A)` before the worker runs: the result is `[C, B]`, with `removed(A)` posted before `moved(1, 0)` | B moved to index 0 by the insert's own task, giving `[B, C]`, with the notifications in submission order | medium; not executed | DeferredMove.DeferredMoveUsesStaleIndex | DeferredMove.ExecuteInline |

The corrected step's properties are proved in `DeferredMove.InlineInsertLandsAtPosition` and
`DeferredMove.RunInlineAppend`. `PlaylistManager` itself keeps the deferred move, because it models
the library's behaviour.

Notifications follow submission order only for queues without inserts of items already in the
list. `RunQueueAppend` proves the order for the source's worker, and it needs the requirement that
`q1` holds no insert. `RunInlineAppend` proves the order for the corrected step, for every queue.
`DeferredMoveUsesStaleIndex` shows why the requirement is needed: the handed-on move posts its
event after the events of tasks submitted later.

An insert of an item already in the list at index `size` never moves it. The item is taken out
first, so `size` is past the end of the shortened list and `add` throws
(`InsertPresentAtEndIsLost`). The corrected step keeps the same index checks, so it throws too
(`InlineInsertPresentAtEndIsLost`).

## Left out

- Threading. The executor thread and the main-thread `Handler`/`Looper` are a FIFO `pending` queue
  and an append-only `events` log. Tasks run one at a time, when `RunNext`/`RunAll` is called.
- The modify-playlist listener. `setOnModifyPlaylistListener`, the listener callbacks and the drop
  of a notification when no listener is registered happen on the main thread. `events` records what
  is posted, not what is delivered.
- `getPlaylistAsync`'s callback object. The list it would receive is appended to `deliveries`.
- MMKV internals: `MMKV.initialize`, `MULTI_PROCESS_MODE`, Parcelable encoding, and another
  process writing the same store. The store is a map, and a decode of a missing or differently typed
  value gives the default.
- Android `Context`, the playlist ID and the state ID. The store a manager or state works on is a
  constructor parameter.
- `Preconditions.checkNotNull`. The model has no null arguments; a null music item is `None`.
- Java's 32-bit `int`. No arithmetic is done on positions, sizes or progress, so nothing can wrap.
- Exceptions inside a task. An `IndexOutOfBoundsException` from `List.add`/`List.remove` ends the
  task before it saves or posts anything, because the list is a fresh copy. The model records this
  as the outcome `Aborted`. In the library the exception does not stop there: the
  `ThreadPoolExecutor` rethrows it to the worker thread's uncaught-exception handler. On Android
  that handler ends the process by default, so the tasks still queued never run. Letting the queue
  go on after `Aborted` is the model's choice; `RunQueue` and `RunAll` do not model the crash.
- A crash between the two writes of `save`. `Save` writes both keys in one step.
- The constants of `Player.PlayMode`. Player.java is not part of this model; the model assumes
  `SEQUENTIAL`, `LOOP` and `SHUFFLE`, in that order. Only `Ordinal`'s values and the bound 3 in
  `FromOrdinal` depend on that list.
- `PlayerState`'s other fields and its own setters. That class is not part of this model; only the
  four persisted fields are kept.
