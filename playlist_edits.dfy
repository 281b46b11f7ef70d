/** The list operations the playlist tasks apply to the re-read list of music items: the
    `indexOf`, `add(index, item)`, `remove(index)` and `remove(item)` of java.util.List, and the
    move built from them (remove at `from`, then add at `to` in the shortened list). */
module PlaylistEdits {
  import opened KeyValueStore

  /** List.indexOf: the index of the first occurrence of `x`, or -1 when `x` is absent. */
  function IndexOf(s: seq<MusicItem>, x: MusicItem): (i: int)
    ensures -1 <= i < |s|
    ensures i == -1 <==> x !in s
    ensures 0 <= i ==> s[i] == x && x !in s[..i]
    decreases |s|
  {
    if |s| == 0 then -1
    else if s[0] == x then 0
    else
      var j := IndexOf(s[1..], x);
      if j == -1 then -1
      else
        assert s[..j + 1] == [s[0]] + s[1..][..j];
        j + 1
  }

  /** List.add(p, x): `x` placed at index `p`, the elements from `p` on shifted right. */
  function InsertAt(s: seq<MusicItem>, p: nat, x: MusicItem): seq<MusicItem>
    requires p <= |s|
  {
    s[..p] + [x] + s[p..]
  }

  /** List.remove(int i): the list without its element at index `i`. */
  function RemoveAt(s: seq<MusicItem>, i: nat): seq<MusicItem>
    requires i < |s|
  {
    s[..i] + s[i + 1..]
  }

  /** List.remove(Object x): the list without the first occurrence of `x`. */
  function RemoveFirst(s: seq<MusicItem>, x: MusicItem): seq<MusicItem>
    requires x in s
  {
    RemoveAt(s, IndexOf(s, x))
  }

  /** A move: the element at `from` removed, then re-inserted at `to`, where `to` is an index
      into the list after the removal. */
  function Moved(s: seq<MusicItem>, from: nat, to: nat): seq<MusicItem>
    requires from < |s| && to < |s|
  {
    InsertAt(RemoveAt(s, from), to, s[from])
  }

  /** Adding an item grows the list by one, puts the item at `p`, keeps every other element in
      order, and changes the multiset of items by exactly that item. */
  lemma InsertAtSpec(s: seq<MusicItem>, p: nat, x: MusicItem)
    requires p <= |s|
    ensures var r := InsertAt(s, p, x);
      && |r| == |s| + 1 && r[p] == x
      && RemoveAt(r, p) == s
      && multiset(r) == multiset(s) + multiset{x}
  {
    var r := InsertAt(s, p, x);
    assert r[..p] == s[..p];
    assert r[p + 1..] == s[p..];
    assert s == s[..p] + s[p..];
  }

  /** Removing at `i` shrinks the list by one and takes exactly the element at `i` out of the
      multiset; adding that element back at `i` restores the list. */
  lemma RemoveAtSpec(s: seq<MusicItem>, i: nat)
    requires i < |s|
    ensures var r := RemoveAt(s, i);
      && |r| == |s| - 1
      && multiset(r) == multiset(s) - multiset{s[i]}
      && InsertAt(r, i, s[i]) == s
  {
    var r := RemoveAt(s, i);
    assert s == s[..i] + [s[i]] + s[i + 1..];
    assert r[..i] == s[..i];
    assert r[i..] == s[i + 1..];
  }

  /** A move keeps the length and the multiset of items, and puts the moved item at `to`. */
  lemma {:induction false} MovedIsPermutation(s: seq<MusicItem>, from: nat, to: nat)
    requires from < |s| && to < |s|
    ensures var r := Moved(s, from, to);
      && |r| == |s|
      && multiset(r) == multiset(s)
      && r[to] == s[from]
  {
    RemoveAtSpec(s, from);
    InsertAtSpec(RemoveAt(s, from), to, s[from]);
  }

  /** Moving from `to` back to `from` undoes a move. */
  lemma {:induction false} MoveBack(s: seq<MusicItem>, from: nat, to: nat)
    requires from < |s| && to < |s|
    ensures Moved(Moved(s, from, to), to, from) == s
  {
    var rest := RemoveAt(s, from);
    var r := Moved(s, from, to);
    InsertAtSpec(rest, to, s[from]);
    assert r[to] == s[from];
    assert RemoveAt(r, to) == rest;
    RemoveAtSpec(s, from);
  }

  /** Removing an item takes out its first occurrence only: the list shrinks by one, the item
      leaves the multiset once, every element before that occurrence stays in place, every element
      after it moves down by one, and adding the item back at that index restores the list. */
  lemma {:induction false} RemoveFirstSpec(s: seq<MusicItem>, x: MusicItem)
    requires x in s
    ensures var r := RemoveFirst(s, x);
      var i := IndexOf(s, x);
      && 0 <= i && s[i] == x && x !in s[..i]
      && |r| == |s| - 1
      && multiset(r) == multiset(s) - multiset{x}
      && r[..i] == s[..i]
      && r[i..] == s[i + 1..]
      && InsertAt(r, i, x) == s
  {
    var i := IndexOf(s, x);
    RemoveAtSpec(s, i);
    assert RemoveAt(s, i)[..i] == s[..i];
    assert RemoveAt(s, i)[i..] == s[i + 1..];
  }

  /** Adding an item that is not in the list and then removing it gives the list back. */
  lemma {:induction false} InsertThenRemove(s: seq<MusicItem>, p: nat, x: MusicItem)
    requires p <= |s| && x !in s
    ensures x in InsertAt(s, p, x)
    ensures RemoveFirst(InsertAt(s, p, x), x) == s
  {
    var r := InsertAt(s, p, x);
    InsertAtSpec(s, p, x);
    assert r[..p] == s[..p];
    assert x !in r[..p];
    assert IndexOf(r, x) == p;
  }
}
