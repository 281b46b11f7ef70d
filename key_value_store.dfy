/** The durable key-value store both components persist to (an MMKV instance), seen as a map from
    key to typed value, with the typed reads the components use. */
module KeyValueStore {

  datatype Option<+T> = None | Some(value: T)

  /** A music item. The model only needs to compare items for equality. */
  type MusicItem(==)

  /** What one key can hold: an encoded int, an encoded playlist or an encoded music item. */
  datatype Value =
    | IntValue(i: int)
    | PlaylistValue(items: seq<MusicItem>)
    | MusicItemValue(item: MusicItem)

  type Store = map<string, Value>

  /** decodeInt(key, default): the int stored under `key`, or `default` when there is none. */
  function DecodeInt(store: Store, key: string, default: int): int
  {
    if key in store && store[key].IntValue? then store[key].i else default
  }

  /** decodeParcelable(key, Playlist.class): the playlist stored under `key`, or null (None). */
  function DecodePlaylist(store: Store, key: string): Option<seq<MusicItem>>
  {
    if key in store && store[key].PlaylistValue? then Some(store[key].items) else None
  }

  /** decodeParcelable(key, MusicItem.class): the music item stored under `key`, or null (None). */
  function DecodeMusicItem(store: Store, key: string): Option<MusicItem>
  {
    if key in store && store[key].MusicItemValue? then Some(store[key].item) else None
  }
}
