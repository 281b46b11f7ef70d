/** Inserting an item that is already in the playlist hands the work to moveMusicItem, which
    queues a move task behind every task already submitted. The move's `from` index is the item's
    index when the insert ran, so a task that runs in between and shifts the list (a remove of an
    earlier item, say) makes the move pick up a different item, and its notification comes after
    those of tasks submitted later. This module exhibits that on the worker's run of the queue,
    and gives the intended step, a move done inside the insert task, with its properties. */
module DeferredMove {
  import opened KeyValueStore
  import opened PlaylistEdits
  import opened PlaylistManagement

  /** Starting from [a, b, c], queue insert(0, b) and then remove(a): the insert hands on
      move(1, 0), which runs after the remove, on [b, c], and moves c instead of b. */
  lemma {:induction false} DeferredMoveUsesStaleIndex(a: MusicItem, b: MusicItem, c: MusicItem)
    requires a != b && b != c && a != c
    ensures var r := RunQueue([InsertTask(0, b), RemoveTask(a)], Saved(map[], [a, b, c]), true);
      && StoredPlaylist(r.store) == [c, b]
      && r.events == [MusicItemRemoved(a), MusicItemMoved(1, 0)]
  {
    var s0 := Saved(map[], [a, b, c]);
    var s1 := Saved(s0, [b, c]);
    var s2 := Saved(s1, [c, b]);
    var q0 := [InsertTask(0, b), RemoveTask(a)];
    var q1 := [RemoveTask(a), MoveTask(1, 0)];
    var q2 := [MoveTask(1, 0)];

    InsertHandsOnMove(a, b, c);
    assert q0[1..] + [MoveTask(1, 0)] == q1;
    RunQueueUnfold(q0, s0, true);
    assert RunQueue(q0, s0, true) == RunQueue(q1, s0, true) by {
      assert [] + RunQueue(q1, s0, true).events == RunQueue(q1, s0, true).events;
      assert [] + RunQueue(q1, s0, true).delivered == RunQueue(q1, s0, true).delivered;
    }

    RemoveFirstOfThree(a, b, c, s0);
    assert q1[1..] + [] == q2;
    RunQueueUnfold(q1, s0, true);

    MoveSecondToFront(b, c, s1);
    assert q2[1..] + [] == [];
    RunQueueUnfold(q2, s1, true);
  }

  lemma InsertHandsOnMove(a: MusicItem, b: MusicItem, c: MusicItem)
    requires a != b && b != c && a != c
    ensures var s0 := Saved(map[], [a, b, c]);
      Execute(InsertTask(0, b), s0, true) == Effect(Resubmitted, s0, [], [MoveTask(1, 0)], [])
  {
    assert IndexOf([a, b, c], b) == 1 by {
      assert [a, b, c][1..] == [b, c];
    }
  }

  lemma RemoveFirstOfThree(a: MusicItem, b: MusicItem, c: MusicItem, s0: Store)
    requires StoredPlaylist(s0) == [a, b, c]
    ensures Execute(RemoveTask(a), s0, true) == Effect(Committed, Saved(s0, [b, c]), [MusicItemRemoved(a)], [], [])
  {
    assert IndexOf([a, b, c], a) == 0;
    assert RemoveFirst([a, b, c], a) == [b, c];
  }

  lemma MoveSecondToFront(b: MusicItem, c: MusicItem, s1: Store)
    requires StoredPlaylist(s1) == [b, c]
    ensures Execute(MoveTask(1, 0), s1, true) == Effect(Committed, Saved(s1, [c, b]), [MusicItemMoved(1, 0)], [], [])
  {
    assert Moved([b, c], 1, 0) == [c, b];
  }

  /** The intended step: an insert of an item already in the list moves it to `position` inside
      the same task (through the same checks moveMusicItem makes) and hands nothing on; every
      other task runs as before. */
  function ExecuteInline(t: Task, store: Store, editable: bool): (e: Effect)
    ensures e.resubmit == []
    ensures |e.events| <= 1
    ensures e.store == store || SizeConsistent(e.store)
    ensures !(t.InsertTask? && t.item in StoredPlaylist(store)) ==> e == Execute(t, store, editable)
  {
    var items := StoredPlaylist(store);
    if t.InsertTask? && t.item in items then
      var from := IndexOf(items, t.item);
      if from == t.position || !editable then
        Effect(Skipped, store, [], [], [])
      else if 0 <= t.position < |items| then
        Effect(Committed, Saved(store, Moved(items, from, t.position)), [MusicItemMoved(from, t.position)], [], [])
      else
        Effect(Aborted, store, [], [], [])
    else
      Execute(t, store, editable)
  }

  /** With the inline move, inserting an item already in the list at an index in range leaves it
      at that index, keeps the list's items, and posts at most one move event, from the item's old
      index to `p`. */
  lemma {:induction false} InlineInsertLandsAtPosition(store: Store, p: int, x: MusicItem)
    requires x in StoredPlaylist(store) && 0 <= p < |StoredPlaylist(store)|
    ensures var e := ExecuteInline(InsertTask(p, x), store, true);
      var old_items := StoredPlaylist(store);
      var items := StoredPlaylist(e.store);
      && |items| == |old_items| && multiset(items) == multiset(old_items)
      && items[p] == x
      && e.events == if IndexOf(old_items, x) == p then [] else [MusicItemMoved(IndexOf(old_items, x), p)]
  {
    var old_items := StoredPlaylist(store);
    var from := IndexOf(old_items, x);
    if from != p {
      MovedIsPermutation(old_items, from, p);
    }
  }

  /** The worker's run of a queue with the inline move: tasks never hand anything on, each posts
      at most one notification, and a run that writes the store at all leaves the counter
      consistent with the list. */
  function RunInline(q: seq<Task>, store: Store, editable: bool): (r: Run)
    ensures |r.events| <= |q|
    ensures r.store == store || SizeConsistent(r.store)
    decreases |q|
  {
    if q == [] then Run(store, [], [])
    else
      var e := ExecuteInline(q[0], store, editable);
      var rest := RunInline(q[1..], e.store, editable);
      Run(rest.store, e.events + rest.events, e.delivered + rest.delivered)
  }

  /** With the inline move, for every queue, running `q1 + q2` is running `q1` and then `q2`:
      notifications follow submission order. */
  lemma {:induction false} RunInlineAppend(q1: seq<Task>, q2: seq<Task>, store: Store, editable: bool)
    ensures var r1 := RunInline(q1, store, editable);
      var r2 := RunInline(q2, r1.store, editable);
      RunInline(q1 + q2, store, editable) == Run(r2.store, r1.events + r2.events, r1.delivered + r2.delivered)
    decreases |q1|
  {
    if q1 == [] {
      assert q1 + q2 == q2;
    } else {
      var e := ExecuteInline(q1[0], store, editable);
      assert (q1 + q2)[0] == q1[0];
      assert (q1 + q2)[1..] == q1[1..] + q2;
      RunInlineAppend(q1[1..], q2, e.store, editable);
      var r1 := RunInline(q1[1..], e.store, editable);
      var r2 := RunInline(q2, r1.store, editable);
      ConcatAssoc(e.events, r1.events, r2.events);
      ConcatAssoc(e.delivered, r1.delivered, r2.delivered);
    }
  }

  /** The inline move does not help an insert of an item already in the list at index |list|:
      the item is taken out first, so the index is past the end of the shortened list and the
      task throws without saving. */
  lemma InlineInsertPresentAtEndIsLost(store: Store, x: MusicItem)
    requires x in StoredPlaylist(store)
    ensures ExecuteInline(InsertTask(|StoredPlaylist(store)|, x), store, true) == Effect(Aborted, store, [], [], [])
  {
  }

  /** The same two calls with the inline move: b goes to the front and then a is removed,
      giving [b, c], with the notifications in submission order. */
  lemma {:induction false} InlineMoveScenario(a: MusicItem, b: MusicItem, c: MusicItem)
    requires a != b && b != c && a != c
    ensures var r := RunInline([InsertTask(0, b), RemoveTask(a)], Saved(map[], [a, b, c]), true);
      && StoredPlaylist(r.store) == [b, c]
      && r.events == [MusicItemMoved(1, 0), MusicItemRemoved(a)]
  {
    var s0 := Saved(map[], [a, b, c]);
    var s1 := Saved(s0, [b, a, c]);
    var s2 := Saved(s1, [b, c]);
    var q0 := [InsertTask(0, b), RemoveTask(a)];
    InlineMoveToFront(a, b, c, s0);
    RemoveSecondOfThree(a, b, c, s1);
    assert q0[1..] == [RemoveTask(a)];
    assert q0[1..][1..] == [];
    assert RunInline(q0[1..], s1, true) == Run(s2, [MusicItemRemoved(a)], []);
  }

  lemma InlineMoveToFront(a: MusicItem, b: MusicItem, c: MusicItem, s0: Store)
    requires a != b && StoredPlaylist(s0) == [a, b, c]
    ensures ExecuteInline(InsertTask(0, b), s0, true)
      == Effect(Committed, Saved(s0, [b, a, c]), [MusicItemMoved(1, 0)], [], [])
  {
    assert IndexOf([a, b, c], b) == 1 by {
      assert [a, b, c][1..] == [b, c];
    }
    assert Moved([a, b, c], 1, 0) == [b, a, c];
  }

  lemma RemoveSecondOfThree(a: MusicItem, b: MusicItem, c: MusicItem, s1: Store)
    requires a != b && StoredPlaylist(s1) == [b, a, c]
    ensures ExecuteInline(RemoveTask(a), s1, true)
      == Effect(Committed, Saved(s1, [b, c]), [MusicItemRemoved(a)], [], [])
  {
    assert IndexOf([b, a, c], a) == 1 by {
      assert [b, a, c][1..] == [a, c];
    }
    assert RemoveFirst([b, a, c], a) == [b, c];
  }
}
