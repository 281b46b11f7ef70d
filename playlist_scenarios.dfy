/** Worked runs of the worker on small playlists. */
module PlaylistScenarios {
  import opened KeyValueStore
  import opened PlaylistEdits
  import opened PlaylistManagement

  /** On a store nothing was ever saved to, the list is empty and the counter is 0. */
  lemma {:induction false} FreshStoreIsEmpty()
    ensures StoredPlaylist(map[]) == [] && StoredSize(map[]) == 0
    ensures SizeConsistent(map[])
  {
  }

  /** On [a, b, c], inserting b at 0 alone in the queue moves b from index 1 to the front,
      giving [b, a, c] with one move event and no insert event. */
  lemma {:induction false} InsertPresentBecomesMove(a: MusicItem, b: MusicItem, c: MusicItem)
    requires a != b && b != c && a != c
    ensures var r := RunQueue([InsertTask(0, b)], Saved(map[], [a, b, c]), true);
      && StoredPlaylist(r.store) == [b, a, c]
      && StoredSize(r.store) == 3
      && r.events == [MusicItemMoved(1, 0)]
  {
    var s0 := Saved(map[], [a, b, c]);
    var q0 := [InsertTask(0, b)];
    assert IndexOf([a, b, c], b) == 1 by {
      assert [a, b, c][1..] == [b, c];
    }
    assert Execute(q0[0], s0, true) == Effect(Resubmitted, s0, [], [MoveTask(1, 0)], []);
    assert q0[1..] + [MoveTask(1, 0)] == [MoveTask(1, 0)];
    RunQueueUnfold(q0, s0, true);

    var q1 := [MoveTask(1, 0)];
    assert Moved([a, b, c], 1, 0) == [b, a, c];
    var s1 := Saved(s0, [b, a, c]);
    assert Execute(q1[0], s0, true) == Effect(Committed, s1, [MusicItemMoved(1, 0)], [], []);
    assert q1[1..] + [] == [];
    RunQueueUnfold(q1, s0, true);
  }

  /** On [a, b, c], removing b gives [a, c], a counter of 2 and one remove event for b. */
  lemma {:induction false} RemoveMiddleItem(a: MusicItem, b: MusicItem, c: MusicItem)
    requires a != b && b != c && a != c
    ensures var r := RunQueue([RemoveTask(b)], Saved(map[], [a, b, c]), true);
      && StoredPlaylist(r.store) == [a, c]
      && StoredSize(r.store) == 2
      && r.events == [MusicItemRemoved(b)]
  {
    var s0 := Saved(map[], [a, b, c]);
    var q0 := [RemoveTask(b)];
    assert IndexOf([a, b, c], b) == 1 by {
      assert [a, b, c][1..] == [b, c];
    }
    assert RemoveFirst([a, b, c], b) == [a, c];
    assert Execute(q0[0], s0, true) == Effect(Committed, Saved(s0, [a, c]), [MusicItemRemoved(b)], [], []);
    assert q0[1..] + [] == [];
    RunQueueUnfold(q0, s0, true);
  }

  /** A manager that is not editable queues nothing, so however its mutations are called the
      worker has nothing to run: the store and the notifications stay as they were. */
  method NotEditableIgnoresMutations(initial: Store, pl: seq<MusicItem>, x: MusicItem, i: int, j: int)
    returns (final: Store, posted: seq<Event>)
    ensures final == initial && posted == []
  {
    var m := new PlaylistManager(initial);
    m.SetPlaylist(pl, i, true);
    m.InsertMusicItem(i, x);
    m.MoveMusicItem(i, j);
    m.RemoveMusicItem(x);
    m.RunAll();
    final, posted := m.store, m.events;
  }
}
