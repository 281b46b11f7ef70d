/** The playlist manager: a playlist persisted under two keys ("playlist" and the redundant
    "playlist_size"), mutated only by tasks that run one at a time, in submission order, on a
    single worker, each of which re-reads the stored list, edits it, saves both keys and posts one
    change notification to the main thread. An editability flag turns every mutation into a
    no-op. */
module PlaylistManagement {
  import opened KeyValueStore
  import opened PlaylistEdits

  const PlaylistKey: string := "playlist"
  const PlaylistSizeKey: string := "playlist_size"

  /** The work a submitted call leaves on the worker's queue. */
  datatype Task =
    | SetPlaylistTask(playlist: seq<MusicItem>, position: int, play: bool)
    | InsertTask(position: int, item: MusicItem)
    | MoveTask(from: int, to: int)
    | RemoveTask(item: MusicItem)
    | ReadTask  // getPlaylistAsync: hands the stored list to a callback

  /** A notification posted to the main thread for the modify-playlist listener. */
  datatype Event =
    | NewPlaylist(position: int, play: bool)
    | MusicItemMoved(from: int, to: int)
    | MusicItemInserted(position: int, item: MusicItem)
    | MusicItemRemoved(item: MusicItem)

  /** How a task ended: it saved the list and posted an event, it found nothing to do, it
      handed its work to a move task at the back of the queue, an index out of range made it
      throw before saving, or it delivered the stored list to its callback. */
  datatype Outcome = Committed | Skipped | Resubmitted | Aborted | Delivered

  /** Everything one task run does: the store afterwards, the events it posts, the tasks it
      submits, and the lists it delivers to callbacks. */
  datatype Effect = Effect(
    outcome: Outcome,
    store: Store,
    events: seq<Event>,
    resubmit: seq<Task>,
    delivered: seq<seq<MusicItem>>)

  /** getPlaylist: the stored list, or the empty list when none has been saved. */
  function StoredPlaylist(store: Store): (pl: seq<MusicItem>)
    ensures PlaylistKey !in store ==> pl == []
  {
    match DecodePlaylist(store, PlaylistKey)
    case Some(items) => items
    case None => []
  }

  /** getPlaylistSize: the stored counter, or 0 when none has been saved. */
  function StoredSize(store: Store): (n: int)
    ensures PlaylistSizeKey !in store ==> n == 0
  {
    DecodeInt(store, PlaylistSizeKey, 0)
  }

  /** The redundant counter agrees with the stored list. */
  predicate SizeConsistent(store: Store)
  {
    StoredSize(store) == |StoredPlaylist(store)|
  }

  /** save: the list under "playlist" and its length under "playlist_size". */
  function Saved(store: Store, playlist: seq<MusicItem>): (r: Store)
    ensures StoredPlaylist(r) == playlist
    ensures SizeConsistent(r)
    ensures r.Keys == store.Keys + {PlaylistKey, PlaylistSizeKey}
    ensures forall k :: k in store && k != PlaylistKey && k != PlaylistSizeKey ==> r[k] == store[k]
  {
    store[PlaylistKey := PlaylistValue(playlist)][PlaylistSizeKey := IntValue(|playlist|)]
  }

  /** What moveMusicItem(from, to) submits: nothing when the indices are equal (checked first)
      or when the manager is not editable, otherwise one move task. */
  function MoveRequest(from: int, to: int, editable: bool): (q: seq<Task>)
    ensures |q| <= 1
    ensures q != [] <==> from != to && editable
    ensures q != [] ==> q[0] == MoveTask(from, to)
  {
    if from == to then [] else if !editable then [] else [MoveTask(from, to)]
  }

  /** What running `t` on the worker does, given the store and the editability flag at that
      moment. A task posts exactly one event when it commits and none otherwise; only a commit
      writes the store, and a commit leaves the counter consistent with the list; only an insert
      of an item already in the list hands work on, at most one task and never alongside an event;
      only a read delivers. */
  function Execute(t: Task, store: Store, editable: bool): (e: Effect)
    ensures e.outcome == Committed ==> |e.events| == 1 && SizeConsistent(e.store)
    ensures e.outcome != Committed ==> e.events == [] && e.store == store
    ensures e.resubmit != [] ==> t.InsertTask? && t.item in StoredPlaylist(store) && e.outcome == Resubmitted
    ensures |e.events| + |e.resubmit| <= 1
    ensures e.delivered != [] <==> t.ReadTask?
  {
    var items := StoredPlaylist(store);
    match t
    case SetPlaylistTask(playlist, position, play) =>
      Effect(Committed, Saved(store, playlist),
             [NewPlaylist(if position > 0 then position else 0, play)], [], [])
    case InsertTask(position, item) =>
      if item in items then
        var q := MoveRequest(IndexOf(items, item), position, editable);
        Effect(if q == [] then Skipped else Resubmitted, store, [], q, [])
      else if 0 <= position <= |items| then
        Effect(Committed, Saved(store, InsertAt(items, position, item)),
               [MusicItemInserted(position, item)], [], [])
      else
        Effect(Aborted, store, [], [], [])
    case MoveTask(from, to) =>
      if 0 <= from < |items| && 0 <= to < |items| then
        Effect(Committed, Saved(store, Moved(items, from, to)), [MusicItemMoved(from, to)], [], [])
      else
        Effect(Aborted, store, [], [], [])
    case RemoveTask(item) =>
      if item !in items then
        Effect(Skipped, store, [], [], [])
      else
        Effect(Committed, Saved(store, RemoveFirst(items, item)), [MusicItemRemoved(item)], [], [])
    case ReadTask =>
      Effect(Delivered, store, [], [], [items])
  }

  /** Inserting an item that is not in the list at a valid index puts it there, keeps the
      rest, and posts one insert event. */
  lemma {:induction false} InsertNewItem(store: Store, p: int, x: MusicItem, editable: bool)
    requires x !in StoredPlaylist(store) && 0 <= p <= |StoredPlaylist(store)|
    ensures var e := Execute(InsertTask(p, x), store, editable);
      var old_items := StoredPlaylist(store);
      var items := StoredPlaylist(e.store);
      && e.outcome == Committed
      && items == old_items[..p] + [x] + old_items[p..]
      && multiset(items) == multiset(old_items) + multiset{x}
      && RemoveFirst(items, x) == old_items
      && StoredSize(e.store) == |old_items| + 1
      && e.events == [MusicItemInserted(p, x)]
  {
    var old_items := StoredPlaylist(store);
    var items := InsertAt(old_items, p, x);
    assert Execute(InsertTask(p, x), store, editable)
      == Effect(Committed, Saved(store, items), [MusicItemInserted(p, x)], [], []);
    InsertAtSpec(old_items, p, x);
    InsertThenRemove(old_items, p, x);
  }

  /** Inserting an item that is already in the list inserts nothing and posts nothing: the
      task submits moveMusicItem(first index of the item, p), which is nothing at all when that
      index is already `p` or the manager is no longer editable. */
  lemma InsertPresentItem(store: Store, p: int, x: MusicItem, editable: bool)
    requires x in StoredPlaylist(store)
    ensures var e := Execute(InsertTask(p, x), store, editable);
      var i := IndexOf(StoredPlaylist(store), x);
      && e.store == store && e.events == []
      && 0 <= i && StoredPlaylist(store)[i] == x
      && (e.resubmit == [] <==> i == p || !editable)
      && (e.resubmit != [] ==> e.resubmit == [MoveTask(i, p)])
  {
  }

  /** Inserting an item already in the list at index |list| (one past the end, where a new item
      would be appended) hands on move(i, |list|); that move takes the item out first, so `to` is
      past the end of the shortened list and the move throws. Alone in the queue, the call changes
      nothing and posts nothing. */
  lemma {:induction false} InsertPresentAtEndIsLost(store: Store, x: MusicItem)
    requires x in StoredPlaylist(store)
    ensures var items := StoredPlaylist(store);
      var i := IndexOf(items, x);
      var e := Execute(InsertTask(|items|, x), store, true);
      && e.outcome == Resubmitted && e.store == store && e.events == []
      && e.resubmit == [MoveTask(i, |items|)]
      && Execute(MoveTask(i, |items|), store, true) == Effect(Aborted, store, [], [], [])
      && RunQueue([InsertTask(|items|, x)], store, true) == Run(store, [], [])
  {
    var items := StoredPlaylist(store);
    var i := IndexOf(items, x);
    var q0 := [InsertTask(|items|, x)];
    var q1 := [MoveTask(i, |items|)];
    assert q0[1..] + q1 == q1;
    RunQueueUnfold(q0, store, true);
    assert q1[1..] + [] == [];
    RunQueueUnfold(q1, store, true);
  }

  /** A move with both indices in range re-orders the list without changing its items, puts
      the moved item at `to`, is undone by the opposite move, and posts one move event. */
  lemma {:induction false} MoveItem(store: Store, from: int, to: int, editable: bool)
    requires 0 <= from < |StoredPlaylist(store)| && 0 <= to < |StoredPlaylist(store)|
    ensures var e := Execute(MoveTask(from, to), store, editable);
      var old_items := StoredPlaylist(store);
      var items := StoredPlaylist(e.store);
      && e.outcome == Committed
      && |items| == |old_items| && multiset(items) == multiset(old_items)
      && items[to] == old_items[from]
      && StoredPlaylist(Execute(MoveTask(to, from), e.store, editable).store) == old_items
      && e.events == [MusicItemMoved(from, to)]
  {
    var old_items := StoredPlaylist(store);
    MovedIsPermutation(old_items, from, to);
    MoveBack(old_items, from, to);
  }

  /** Removing an item takes out its first occurrence, keeping the order of the rest, and posts
      one remove event; removing an absent item changes nothing and posts nothing. */
  lemma {:induction false} RemoveItem(store: Store, x: MusicItem, editable: bool)
    ensures var e := Execute(RemoveTask(x), store, editable);
      var old_items := StoredPlaylist(store);
      var items := StoredPlaylist(e.store);
      var i := IndexOf(old_items, x);
      && (x !in old_items ==> e.store == store && e.events == [])
      && (x in old_items ==>
            && 0 <= i && old_items[i] == x && x !in old_items[..i]
            && items == old_items[..i] + old_items[i + 1..]
            && InsertAt(items, i, x) == old_items
            && multiset(items) == multiset(old_items) - multiset{x}
            && StoredSize(e.store) == |old_items| - 1
            && e.events == [MusicItemRemoved(x)])
  {
    var old_items := StoredPlaylist(store);
    if x in old_items {
      RemoveFirstSpec(old_items, x);
    }
  }

  /** Replacing the playlist stores it verbatim with its size, and reports the position, or 0
      when the position is negative. */
  lemma SetPlaylistStoresVerbatim(store: Store, playlist: seq<MusicItem>, position: int, play: bool, editable: bool)
    ensures var e := Execute(SetPlaylistTask(playlist, position, play), store, editable);
      && StoredPlaylist(e.store) == playlist && StoredSize(e.store) == |playlist|
      && (position >= 0 ==> e.events == [NewPlaylist(position, play)])
      && (position < 0 ==> e.events == [NewPlaylist(0, play)])
  {
  }

  /** A measure that every task run lowers: an insert may hand its work to one move, which
      never hands on anything. */
  function TaskWeight(t: Task): nat
  {
    if t.InsertTask? then 2 else 1
  }

  function Weight(q: seq<Task>): nat
  {
    if q == [] then 0 else TaskWeight(q[0]) + Weight(q[1..])
  }

  lemma {:induction false} WeightAppend(a: seq<Task>, b: seq<Task>)
    ensures Weight(a + b) == Weight(a) + Weight(b)
    decreases |a|
  {
    if a == [] {
      assert a + b == b;
    } else {
      assert (a + b)[1..] == a[1..] + b;
      WeightAppend(a[1..], b);
    }
  }

  /** The final store, the events posted and the lists delivered when the worker runs queue `q`
      to the end, tasks submitted while running joining the back of the queue. */
  datatype Run = Run(store: Store, events: seq<Event>, delivered: seq<seq<MusicItem>>)

  /** Every submitted task, with the move it may hand on, posts at most one notification, and a
      run that writes the store at all leaves the counter consistent with the list. */
  function RunQueue(q: seq<Task>, store: Store, editable: bool): (r: Run)
    ensures |r.events| <= |q|
    ensures r.store == store || SizeConsistent(r.store)
    decreases Weight(q)
  {
    if q == [] then Run(store, [], [])
    else
      var e := Execute(q[0], store, editable);
      WeightAppend(q[1..], e.resubmit);
      var rest := RunQueue(q[1..] + e.resubmit, e.store, editable);
      Run(rest.store, e.events + rest.events, e.delivered + rest.delivered)
  }

  /** A task hands on at most one move, and only an insert hands one on. */
  lemma ExecuteLowersWeight(t: Task, store: Store, editable: bool)
    ensures Weight(Execute(t, store, editable).resubmit) < TaskWeight(t)
  {
    var q := Execute(t, store, editable).resubmit;
    if q != [] {
      assert q[1..] == [];
    }
  }

  /** One step of the worker: the run of a non-empty queue is the run of its first task
      followed by the run of the rest, with any handed-on task at the back. */
  lemma RunQueueUnfold(q: seq<Task>, store: Store, editable: bool)
    requires q != []
    ensures var e := Execute(q[0], store, editable);
      var rest := RunQueue(q[1..] + e.resubmit, e.store, editable);
      RunQueue(q, store, editable) == Run(rest.store, e.events + rest.events, e.delivered + rest.delivered)
  {
  }

  /** Running one task moves the worker one step along the run of the whole queue and lowers
      the queue's weight. */
  lemma RunQueueStep(q: seq<Task>, store: Store, editable: bool,
                     events: seq<Event>, delivered: seq<seq<MusicItem>>,
                     q': seq<Task>, store': Store,
                     events': seq<Event>, delivered': seq<seq<MusicItem>>)
    requires q != []
    requires var e := Execute(q[0], store, editable);
      && q' == q[1..] + e.resubmit && store' == e.store
      && events' == events + e.events && delivered' == delivered + e.delivered
    ensures Weight(q') < Weight(q)
    ensures var r := RunQueue(q, store, editable);
      var r' := RunQueue(q', store', editable);
      && r'.store == r.store
      && events' + r'.events == events + r.events
      && delivered' + r'.delivered == delivered + r.delivered
  {
    var e := Execute(q[0], store, editable);
    RunQueueUnfold(q, store, editable);
    ExecuteLowersWeight(q[0], store, editable);
    WeightAppend(q[1..], e.resubmit);
    var rest := RunQueue(q', store', editable);
    ConcatAssoc(events, e.events, rest.events);
    ConcatAssoc(delivered, e.delivered, rest.delivered);
  }

  lemma ConcatAssoc<T>(a: seq<T>, b: seq<T>, c: seq<T>)
    ensures a + b + c == a + (b + c)
  {
  }

  predicate NoInserts(q: seq<Task>)
  {
    forall i :: 0 <= i < |q| ==> !q[i].InsertTask?
  }

  /** Without inserts, running `q1 + q2` is running `q1` and then `q2` from where it left off:
      every event of a task in `q1` is posted before any event of a task in `q2`, in submission
      order. */
  lemma {:induction false} RunQueueAppend(q1: seq<Task>, q2: seq<Task>, store: Store, editable: bool)
    requires NoInserts(q1)
    ensures var r1 := RunQueue(q1, store, editable);
      var r2 := RunQueue(q2, r1.store, editable);
      RunQueue(q1 + q2, store, editable) == Run(r2.store, r1.events + r2.events, r1.delivered + r2.delivered)
    decreases |q1|
  {
    if q1 == [] {
      assert q1 + q2 == q2;
    } else {
      var e := Execute(q1[0], store, editable);
      ExecuteLowersWeight(q1[0], store, editable);
      assert e.resubmit == [];
      assert (q1 + q2)[0] == q1[0];
      assert (q1 + q2)[1..] + e.resubmit == q1[1..] + q2;
      assert q1[1..] + e.resubmit == q1[1..];
      assert NoInserts(q1[1..]) by {
        forall i | 0 <= i < |q1[1..]| ensures !q1[1..][i].InsertTask? {
          assert q1[1..][i] == q1[i + 1];
        }
      }
      RunQueueUnfold(q1, store, editable);
      RunQueueUnfold(q1 + q2, store, editable);
      RunQueueAppend(q1[1..], q2, e.store, editable);
      var r1 := RunQueue(q1[1..], e.store, editable);
      var r2 := RunQueue(q2, r1.store, editable);
      ConcatAssoc(e.events, r1.events, r2.events);
      ConcatAssoc(e.delivered, r1.delivered, r2.delivered);
    }
  }

  class PlaylistManager {
    /** The manager's MMKV instance. */
    var store: Store
    /** mEditable: false when the manager is created. */
    var editable: bool
    /** The single-thread executor's queue of submitted, not yet run tasks. */
    var pending: seq<Task>
    /** The notifications posted to the main-thread handler, oldest first. */
    var events: seq<Event>
    /** The lists handed to getPlaylistAsync callbacks, oldest first. */
    var deliveries: seq<seq<MusicItem>>

    /** A manager over the store of its playlist ID: not editable, nothing queued or posted. */
    constructor (initial: Store)
      ensures store == initial && !editable
      ensures pending == [] && events == [] && deliveries == []
    {
      store := initial;
      editable := false;
      pending := [];
      events := [];
      deliveries := [];
    }

    method IsEditable() returns (b: bool)
      ensures b == editable
    {
      b := editable;
    }

    method SetEditable(b: bool)
      modifies this`editable
      ensures editable == b
    {
      editable := b;
    }

    /** getPlaylistSize reads only the counter key; 0 when it was never written. */
    method GetPlaylistSize() returns (n: int)
      ensures n == StoredSize(store)
      ensures PlaylistSizeKey !in store ==> n == 0
    {
      n := DecodeInt(store, PlaylistSizeKey, 0);
    }

    /** getPlaylist decodes the stored list; the empty list when it was never written. */
    method GetPlaylist() returns (pl: seq<MusicItem>)
      ensures pl == StoredPlaylist(store)
      ensures PlaylistKey !in store ==> pl == []
    {
      var decoded := DecodePlaylist(store, PlaylistKey);
      if decoded.None? {
        return [];
      }
      pl := decoded.value;
    }

    /** getPlaylistAsync queues a read behind every task already submitted. */
    method GetPlaylistAsync()
      modifies this`pending
      ensures pending == old(pending) + [ReadTask]
    {
      pending := pending + [ReadTask];
    }

    method SetPlaylist(playlist: seq<MusicItem>, position: int, play: bool)
      modifies this`pending
      ensures !editable ==> pending == old(pending)
      ensures editable ==> pending == old(pending) + [SetPlaylistTask(playlist, position, play)]
    {
      if !editable {
        return;
      }
      pending := pending + [SetPlaylistTask(playlist, position, play)];
    }

    method InsertMusicItem(position: int, item: MusicItem)
      modifies this`pending
      ensures !editable ==> pending == old(pending)
      ensures editable ==> pending == old(pending) + [InsertTask(position, item)]
    {
      if !editable {
        return;
      }
      pending := pending + [InsertTask(position, item)];
    }

    /** moveMusicItem checks `from == to` before it checks editability. */
    method MoveMusicItem(from: int, to: int)
      modifies this`pending
      ensures from == to ==> pending == old(pending)
      ensures pending == old(pending) + MoveRequest(from, to, editable)
    {
      if from == to {
        return;
      }
      if !editable {
        return;
      }
      pending := pending + [MoveTask(from, to)];
    }

    method RemoveMusicItem(item: MusicItem)
      modifies this`pending
      ensures !editable ==> pending == old(pending)
      ensures editable ==> pending == old(pending) + [RemoveTask(item)]
    {
      if !editable {
        return;
      }
      pending := pending + [RemoveTask(item)];
    }

    /** save writes the list, then its size. */
    method Save(playlist: seq<MusicItem>)
      modifies this`store
      ensures store == Saved(old(store), playlist)
    {
      store := store[PlaylistKey := PlaylistValue(playlist)];
      store := store[PlaylistSizeKey := IntValue(|playlist|)];
    }

    method Notify(e: Event)
      modifies this`events
      ensures events == old(events) + [e]
    {
      events := events + [e];
    }

    /** The worker takes the oldest task off the queue and runs it. */
    method RunNext() returns (ran: bool)
      modifies this
      ensures ran == (old(pending) != [])
      ensures !ran ==> unchanged(this)
      ensures editable == old(editable)
      ensures ran ==>
        var e := Execute(old(pending[0]), old(store), old(editable));
        && store == e.store
        && events == old(events) + e.events
        && pending == old(pending[1..]) + e.resubmit
        && deliveries == old(deliveries) + e.delivered
    {
      if pending == [] {
        return false;
      }
      ran := true;
      var task := pending[0];
      pending := pending[1..];
      match task {
        case SetPlaylistTask(playlist, position, play) =>
          Save(playlist);
          Notify(NewPlaylist(if position > 0 then position else 0, play));
        case InsertTask(position, item) =>
          var items := GetPlaylist();
          if item in items {
            MoveMusicItem(IndexOf(items, item), position);
            return;
          }
          if !(0 <= position <= |items|) {
            return;  // List.add throws IndexOutOfBoundsException before anything is saved
          }
          items := InsertAt(items, position, item);
          Save(items);
          Notify(MusicItemInserted(position, item));
        case MoveTask(from, to) =>
          var items := GetPlaylist();
          if !(0 <= from < |items|) {
            return;  // List.remove throws IndexOutOfBoundsException
          }
          var moving := items[from];
          items := RemoveAt(items, from);
          if !(0 <= to <= |items|) {
            return;  // List.add throws on the shortened local copy; nothing was saved
          }
          items := InsertAt(items, to, moving);
          Save(items);
          Notify(MusicItemMoved(from, to));
        case RemoveTask(item) =>
          var items := GetPlaylist();
          if item !in items {
            return;
          }
          items := RemoveFirst(items, item);
          Save(items);
          Notify(MusicItemRemoved(item));
        case ReadTask =>
          var items := GetPlaylist();
          deliveries := deliveries + [items];
      }
    }

    /** The worker runs until the queue is empty, including the moves inserts hand on. */
    method RunAll()
      modifies this
      ensures pending == [] && editable == old(editable)
      ensures var r := RunQueue(old(pending), old(store), old(editable));
        && store == r.store
        && events == old(events) + r.events
        && deliveries == old(deliveries) + r.delivered
    {
      while pending != []
        invariant editable == old(editable)
        invariant var r0 := RunQueue(old(pending), old(store), editable);
          var r := RunQueue(pending, store, editable);
          && r.store == r0.store
          && events + r.events == old(events) + r0.events
          && deliveries + r.delivered == old(deliveries) + r0.delivered
        decreases Weight(pending)
      {
        ghost var q, s, ev, dl := pending, store, events, deliveries;
        var _ := RunNext();
        RunQueueStep(q, s, editable, ev, dl, pending, store, events, deliveries);
      }
    }
  }
}
