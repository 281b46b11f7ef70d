/** The persistent player state: four player fields (play progress, music item, position, play
    mode) kept in memory and written through to the store on every change, and loaded from the
    store, with a default for each missing key, when the object is created. */
module PlayerStatePersistence {
  import opened KeyValueStore

  const PlayProgressKey: string := "play_progress"
  const MusicItemKey: string := "music_item"
  const PositionKey: string := "position"
  const PlayModeKey: string := "play_mode"

  /** Player.PlayMode, in declaration order. */
  datatype PlayMode = Sequential | Loop | Shuffle

  /** PlayMode.values(). */
  const PlayModes: seq<PlayMode> := [Sequential, Loop, Shuffle]

  /** PlayMode.ordinal(): the mode's index in values(). */
  function Ordinal(m: PlayMode): (n: nat)
    ensures n < |PlayModes| && PlayModes[n] == m
  {
    match m
    case Sequential => 0
    case Loop => 1
    case Shuffle => 2
  }

  /** values()[n]: None where the array access throws (n out of range). */
  function FromOrdinal(n: int): (r: Option<PlayMode>)
    ensures r.Some? <==> 0 <= n < |PlayModes|
    ensures r.Some? ==> Ordinal(r.value) == n
  {
    if 0 <= n < |PlayModes| then Some(PlayModes[n]) else None
  }

  /** Storing a mode's ordinal and looking it up again gives the mode back. */
  lemma OrdinalRoundTrip(m: PlayMode)
    ensures FromOrdinal(Ordinal(m)) == Some(m)
  {
  }

  /** The four persisted fields of a player state. */
  datatype PlayerState = PlayerState(
    playProgress: int,
    musicItem: Option<MusicItem>,  // None stands for a null music item
    position: int,
    playMode: PlayMode)

  /** What the constructor loads from `store`: each key's value, or 0, null, 0 and the mode of
      ordinal 0 when the key is missing. None when the stored ordinal is outside values(), where
      the constructor throws. */
  function Load(store: Store): (r: Option<PlayerState>)
    ensures r.None? <==> !(0 <= DecodeInt(store, PlayModeKey, 0) < |PlayModes|)
    ensures r.Some? && PlayProgressKey !in store ==> r.value.playProgress == 0
    ensures r.Some? && MusicItemKey !in store ==> r.value.musicItem == None
    ensures r.Some? && PositionKey !in store ==> r.value.position == 0
    ensures PlayModeKey !in store ==> r.Some? && r.value.playMode == PlayModes[0]
  {
    match FromOrdinal(DecodeInt(store, PlayModeKey, 0))
    case None => None
    case Some(mode) =>
      Some(PlayerState(
        DecodeInt(store, PlayProgressKey, 0),
        DecodeMusicItem(store, MusicItemKey),
        DecodeInt(store, PositionKey, 0),
        mode))
  }

  /** A store nothing was ever written to loads the default state. */
  lemma FreshStoreLoadsDefaults()
    ensures Load(map[]) == Some(PlayerState(0, None, 0, Sequential))
  {
  }

  /** Writing a play progress changes only that field of what is loaded. */
  lemma ReloadPlayProgress(store: Store, x: int)
    requires Load(store).Some?
    ensures Load(store[PlayProgressKey := IntValue(x)]) == Some(Load(store).value.(playProgress := x))
  {
  }

  /** Writing a music item, or removing the key for a null one, changes only that field of what
      is loaded. */
  lemma ReloadMusicItem(store: Store, item: Option<MusicItem>)
    requires Load(store).Some?
    ensures var written := if item.None? then store - {MusicItemKey} else store[MusicItemKey := MusicItemValue(item.value)];
      Load(written) == Some(Load(store).value.(musicItem := item))
  {
  }

  /** Writing a position changes only that field of what is loaded. */
  lemma ReloadPosition(store: Store, p: int)
    requires Load(store).Some?
    ensures Load(store[PositionKey := IntValue(p)]) == Some(Load(store).value.(position := p))
  {
  }

  /** Writing a mode's ordinal makes the store loadable again, whatever the ordinal was before,
      and changes only the mode. */
  lemma ReloadPlayMode(store: Store, m: PlayMode)
    ensures var r := Load(store[PlayModeKey := IntValue(Ordinal(m))]);
      && r.Some? && r.value.playMode == m
      && r.value.playProgress == DecodeInt(store, PlayProgressKey, 0)
      && r.value.musicItem == DecodeMusicItem(store, MusicItemKey)
      && r.value.position == DecodeInt(store, PositionKey, 0)
  {
  }

  class PersistentPlayerState {
    var playProgress: int
    var musicItem: Option<MusicItem>
    var position: int
    var playMode: PlayMode
    /** The state's MMKV instance. */
    var store: Store

    function State(): PlayerState
      reads this
    {
      PlayerState(playProgress, musicItem, position, playMode)
    }

    /** The fields in memory are what loading the store would give. */
    predicate Valid()
      reads this
    {
      Load(store) == Some(State())
    }

    constructor (store: Store, state: PlayerState)
      ensures this.store == store && State() == state
    {
      this.store := store;
      playProgress := state.playProgress;
      musicItem := state.musicItem;
      position := state.position;
      playMode := state.playMode;
    }

    /** The Java constructor: decodes each field in turn with its default; null when the stored
        ordinal is outside values() and the constructor throws. */
    static method Open(store: Store) returns (s: PersistentPlayerState?)
      ensures s == null <==> Load(store).None?
      ensures s != null ==> fresh(s) && s.store == store && s.Valid()
    {
      var progress := DecodeInt(store, PlayProgressKey, 0);
      var item := DecodeMusicItem(store, MusicItemKey);
      var position := DecodeInt(store, PositionKey, 0);
      var ordinal := DecodeInt(store, PlayModeKey, 0);
      if !(0 <= ordinal < |PlayModes|) {
        return null;  // ArrayIndexOutOfBoundsException
      }
      s := new PersistentPlayerState(store, PlayerState(progress, item, position, PlayModes[ordinal]));
    }

    method SetPlayProgress(x: int)
      modifies this
      ensures State() == old(State()).(playProgress := x)
      ensures store == old(store)[PlayProgressKey := IntValue(x)]
      ensures old(Valid()) ==> Valid()
    {
      playProgress := x;
      store := store[PlayProgressKey := IntValue(x)];
    }

    /** A null music item (None) removes the key instead of writing it. */
    method SetMusicItem(item: Option<MusicItem>)
      modifies this
      ensures State() == old(State()).(musicItem := item)
      ensures item.None? ==> store == old(store) - {MusicItemKey}
      ensures item.Some? ==> store == old(store)[MusicItemKey := MusicItemValue(item.value)]
      ensures old(Valid()) ==> Valid()
    {
      musicItem := item;
      if item.None? {
        store := store - {MusicItemKey};
        return;
      }
      store := store[MusicItemKey := MusicItemValue(item.value)];
    }

    method SetPosition(p: int)
      modifies this
      ensures State() == old(State()).(position := p)
      ensures store == old(store)[PositionKey := IntValue(p)]
      ensures old(Valid()) ==> Valid()
    {
      position := p;
      store := store[PositionKey := IntValue(p)];
    }

    /** The mode is stored as its ordinal. */
    method SetPlayMode(m: PlayMode)
      modifies this
      ensures State() == old(State()).(playMode := m)
      ensures store == old(store)[PlayModeKey := IntValue(Ordinal(m))]
      ensures old(Valid()) ==> Valid()
    {
      playMode := m;
      store := store[PlayModeKey := IntValue(Ordinal(m))];
    }
  }
}
