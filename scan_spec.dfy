/**
 * The meaning of the decoded-buffer section scanner of MusicDbParser, as functions over the
 * parser's state. Each handler is a function from the state before a section to the state
 * after it, the reader position it leaves behind and whether it raised an exception that
 * only the outer catch of the scan handles. The imperative parser in MusicDbParsers is
 * proved to compute exactly these functions.
 */
module ScanSpec {
  import opened Wrappers
  import opened Bytes
  import opened Text
  import opened Models

  // Section tags, as the ASCII bytes of their names. Encoding.ASCII.GetString turns every
  // byte above 0x7F into '?', so its result equals one of these names exactly when the four
  // bytes equal the name's bytes.
  const LAMA: seq<Byte> := [0x6C, 0x61, 0x6D, 0x61]  // "lama"
  const IAMA: seq<Byte> := [0x69, 0x61, 0x6D, 0x61]  // "iama"
  const LAMA_ARTISTS: seq<Byte> := [0x6C, 0x41, 0x6D, 0x61]  // "lAma"
  const IAMA_ARTIST: seq<Byte> := [0x69, 0x41, 0x6D, 0x61]  // "iAma"
  const LPMA_MASTER: seq<Byte> := [0x6C, 0x50, 0x6D, 0x61]  // "lPma"
  const LPMA: seq<Byte> := [0x6C, 0x70, 0x6D, 0x61]  // "lpma"
  const LTMA: seq<Byte> := [0x6C, 0x74, 0x6D, 0x61]  // "ltma"
  const ITMA: seq<Byte> := [0x69, 0x74, 0x6D, 0x61]  // "itma"
  const BOMA: seq<Byte> := [0x62, 0x6F, 0x6D, 0x61]  // "boma"
  const BOOK: seq<Byte> := [0x62, 0x6F, 0x6F, 0x6B]  // "book"
  const IPFA: seq<Byte> := [0x69, 0x70, 0x66, 0x61]  // "ipfa"

  /** The tags the section loop switches on. */
  datatype Tag = Lama | Iama | LamaArtists | IamaArtist | LpmaMaster | Lpma | Ltma | Itma | Boma | Other

  /** The case of the switch a four-byte signature selects. */
  function TagOf(sig: seq<Byte>): (t: Tag)
    ensures t == Boma <==> sig == BOMA
    ensures t == Other <==> sig !in {LAMA, IAMA, LAMA_ARTISTS, IAMA_ARTIST, LPMA_MASTER, LPMA, LTMA, ITMA, BOMA}
  {
    if sig == LAMA then Lama
    else if sig == IAMA then Iama
    else if sig == LAMA_ARTISTS then LamaArtists
    else if sig == IAMA_ARTIST then IamaArtist
    else if sig == LPMA_MASTER then LpmaMaster
    else if sig == LPMA then Lpma
    else if sig == LTMA then Ltma
    else if sig == ITMA then Itma
    else if sig == BOMA then Boma
    else Other
  }

  // boma subtypes.
  const NUMERICS: nat := 0x0001
  const PLAYLIST_TRACK: nat := 0x00CE
  const SMART_CRITERIA: nat := 0x00C9
  const PLAY_STATS: nat := 0x0017
  const FILE_URL: nat := 0x000B
  const PLAYLIST_NAME: nat := 0x00C8
  const ARTIST_NAME: nat := 0x0004
  const ALBUM_TITLE: nat := 0x012C
  const ALBUM_ALBUM_ARTIST: nat := 0x012D
  const ALBUM_ARTIST: nat := 0x012E

  /** The subtypes whose payload is a UTF-16 string. */
  const WIDECHAR_TYPES: set<nat> :=
    {0x0002, 0x0003, 0x0004, 0x0005, 0x0006, 0x0008, 0x000C, 0x000E, 0x001B, 0x001E,
     0x001F, 0x0020, 0x0021, 0x0022, 0x003F, 0x0040, 0x012C, 0x012D, 0x012E, 0x00C8}

  /** The subtypes whose payload is a "book" of path fragments. */
  const BOOK_TYPES: set<nat> := {0x0042, 0x01FC, 0x01FD, 0x0200}

  /**
   * The parser's mutable state. The dictionaries are maps together with their keys in
   * insertion order: the parser never removes an entry, and a Dictionary that only grows
   * enumerates its values in insertion order. The "current" entities are keys into the maps,
   * because the parser's references alias the stored records.
   */
  datatype ParserState = ParserState(
    tracks: map<nat, Track>,
    trackOrder: seq<nat>,
    albums: map<nat, Album>,
    albumOrder: seq<nat>,
    artists: map<nat, Artist>,
    artistOrder: seq<nat>,
    playlists: map<PlaylistKey, Playlist>,
    playlistOrder: seq<PlaylistKey>,
    unknownBomaTypes: map<nat, nat>,
    currentTrack: Option<nat>,
    currentAlbum: Option<nat>,
    currentArtist: Option<nat>,
    currentPlaylist: Option<PlaylistKey>)

  /** A freshly constructed parser. */
  function EmptyState(): (st: ParserState)
    ensures Consistent(st)
  {
    ParserState(map[], [], map[], [], map[], [], map[], [], map[], None, None, None, None)
  }

  /** Each key of the map listed once in the insertion order, and nothing else. */
  predicate Indexed<K, V>(m: map<K, V>, order: seq<K>)
  {
    && (forall i | 0 <= i < |order| :: order[i] in m)
    && (forall k | k in m :: k in order)
    && (forall i, j | 0 <= i < j < |order| :: order[i] != order[j])
  }

  /** Every current entity is a record stored in its dictionary: what the handlers need to run. */
  predicate Resolves(st: ParserState)
  {
    && (st.currentTrack.Some? ==> st.currentTrack.value in st.tracks)
    && (st.currentAlbum.Some? ==> st.currentAlbum.value in st.albums)
    && (st.currentArtist.Some? ==> st.currentArtist.value in st.artists)
    && (st.currentPlaylist.Some? ==> st.currentPlaylist.value in st.playlists)
  }

  /**
   * The parser's invariant: every current entity is a record stored in its dictionary, every
   * dictionary's insertion order lists its keys once each, and every record carries its key.
   */
  predicate Consistent(st: ParserState)
  {
    && Resolves(st)
    && Indexed(st.tracks, st.trackOrder)
    && Indexed(st.albums, st.albumOrder)
    && Indexed(st.artists, st.artistOrder)
    && Indexed(st.playlists, st.playlistOrder)
    && (forall id | id in st.tracks :: st.tracks[id].trackId == id)
    && (forall id | id in st.albums :: st.albums[id].albumId == id)
    && (forall id | id in st.artists :: st.artists[id].artistId == id)
    && (forall key | key in st.playlists :: st.playlists[key].playlistId == key.id)
  }

  /** b lists every key a lists, in a's order, before any key it added. */
  predicate Grows(a: ParserState, b: ParserState)
  {
    && a.trackOrder <= b.trackOrder && a.albumOrder <= b.albumOrder
    && a.artistOrder <= b.artistOrder && a.playlistOrder <= b.playlistOrder
  }

  /** a and b list the same keys in the same order: only references and record contents differ. */
  predicate SameOrders(a: ParserState, b: ParserState)
  {
    && a.trackOrder == b.trackOrder && a.albumOrder == b.albumOrder
    && a.artistOrder == b.artistOrder && a.playlistOrder == b.playlistOrder
  }

  /** The album dictionary and the album reference of a and b agree. */
  predicate SameAlbums(a: ParserState, b: ParserState)
  {
    a.albums == b.albums && a.currentAlbum == b.currentAlbum
  }

  /** What a handler leaves behind: the state, the reader position, and whether it threw. */
  datatype Step = Step(st: ParserState, pos: nat, faulted: bool)

  /** What the scanner needs besides its state: the decoded buffer, the header's library id and the text decoders. */
  datatype ScanInput = ScanInput(data: seq<Byte>, libraryId: nat, text: TextDecoders)

  /** ConvertAppleDate: a zero timestamp means "unset"; any other is seconds after the Apple epoch. */
  function AppleDate(ts: nat): (r: Option<nat>)
    ensures r.None? <==> ts == 0
    ensures r.Some? ==> r.value == ts
  {
    if ts == 0 then None else Some(ts)
  }

  // ---------------------------------------------------------------------------------------
  // Entity creation: each item tag adds its record only when the key is new.

  function CreateTrack(st: ParserState, id: nat): (r: ParserState)
    requires Resolves(st)
    ensures Resolves(r) && id in r.tracks
    ensures Grows(st, r)
    ensures r == st.(tracks := r.tracks, trackOrder := r.trackOrder)
    ensures r.tracks == if id in st.tracks then st.tracks else st.tracks[id := NewTrack(id)]
  {
    if id in st.tracks then st
    else st.(tracks := st.tracks[id := NewTrack(id)], trackOrder := st.trackOrder + [id])
  }

  function CreateAlbum(st: ParserState, id: nat): (r: ParserState)
    requires Resolves(st)
    ensures Resolves(r) && id in r.albums
    ensures Grows(st, r)
    ensures r == st.(albums := r.albums, albumOrder := r.albumOrder)
    ensures r.albums == if id in st.albums then st.albums else st.albums[id := Album(id, None, None, None)]
  {
    if id in st.albums then st
    else st.(albums := st.albums[id := Album(id, None, None, None)], albumOrder := st.albumOrder + [id])
  }

  function CreateArtist(st: ParserState, id: nat): (r: ParserState)
    requires Resolves(st)
    ensures Resolves(r) && id in r.artists
    ensures Grows(st, r)
    ensures r == st.(artists := r.artists, artistOrder := r.artistOrder)
    ensures r.artists == if id in st.artists then st.artists else st.artists[id := Artist(id, None)]
  {
    if id in st.artists then st
    else st.(artists := st.artists[id := Artist(id, None)], artistOrder := st.artistOrder + [id])
  }

  function CreatePlaylist(st: ParserState, key: PlaylistKey, p: Playlist): (r: ParserState)
    requires Resolves(st)
    ensures Resolves(r) && key in r.playlists
    ensures Grows(st, r)
    ensures r == st.(playlists := r.playlists, playlistOrder := r.playlistOrder)
    ensures r.playlists == if key in st.playlists then st.playlists else st.playlists[key := p]
  {
    if key in st.playlists then st
    else st.(playlists := st.playlists[key := p], playlistOrder := st.playlistOrder + [key])
  }

  /** The record the current-track reference points at. */
  function CurrentTrack(st: ParserState): Track
    requires Resolves(st) && st.currentTrack.Some?
  {
    st.tracks[st.currentTrack.value]
  }

  /** Writing through the current-track reference. */
  function WithCurrentTrack(st: ParserState, t: Track): (r: ParserState)
    requires Resolves(st) && st.currentTrack.Some?
    ensures Resolves(r)
    ensures SameOrders(st, r)
  {
    st.(tracks := st.tracks[st.currentTrack.value := t])
  }

  /** Writing through the current-playlist reference. */
  function WithCurrentPlaylist(st: ParserState, p: Playlist): (r: ParserState)
    requires Resolves(st) && st.currentPlaylist.Some?
    ensures Resolves(r)
    ensures SameOrders(st, r)
  {
    st.(playlists := st.playlists[st.currentPlaylist.value := p])
  }

  // ---------------------------------------------------------------------------------------
  // Item sections. `start` is the section's first byte, `size` its length field.

  /** ParseAlbumItem: reads the album id at 16 and skips the whole section; never makes the album current. */
  function AlbumItem(st: ParserState, data: seq<Byte>, start: nat, size: nat): (r: Step)
    requires Resolves(st)
    ensures Resolves(r.st)
    ensures Grows(st, r.st)
  {
    if start + 24 > |data| then Step(st, |data|, true)
    else Step(CreateAlbum(st, U64At(data, start + 16)), start + size, false)
  }

  /** ParseArtistItem: reads the artist id at 16, makes it current and stops after the id. */
  function ArtistItem(st: ParserState, data: seq<Byte>, start: nat): (r: Step)
    requires Resolves(st)
    ensures Resolves(r.st)
    ensures Grows(st, r.st)
  {
    if start + 24 > |data| then Step(st, |data|, true)
    else
      var id := U64At(data, start + 16);
      Step(CreateArtist(st, id).(currentArtist := Some(id)), start + 24, false)
  }

  /** A playlist's type from its track count and distinguished kind. */
  function Classify(trackCount: int, distinguishedKind: int): (t: PlaylistType)
    ensures t == Folder <==> trackCount == 0 && distinguishedKind == 0
    ensures t == System <==> distinguishedKind != 0
    ensures t == Manual <==> trackCount != 0 && distinguishedKind == 0
    ensures t != Smart
  {
    if trackCount == 0 && distinguishedKind == 0 then Folder
    else if distinguishedKind != 0 then System
    else Manual
  }

  /** The parent id at 50: zero when the section is short or when it names the library itself. */
  function PlaylistParent(data: seq<Byte>, start: nat, size: nat, libraryId: nat): nat
    requires size >= 58 ==> start + 58 <= |data|
  {
    if size < 58 then 0
    else
      var raw := U64At(data, start + 50);
      if raw == libraryId then 0 else raw
  }

  /** The fields of a playlist section a new record is built from. */
  datatype PlaylistHead = PlaylistHead(trackCount: int, id: nat, parentId: nat, kind: int)

  /** Reading a playlist section's fields: the fields, or the reader position of the exception. */
  datatype HeadRead = HeadFault(pos: nat) | Head(head: PlaylistHead)

  /**
   * The track count at 16 (signed), the persistent id at 30, the parent at 50 and the
   * distinguished kind at 79 (root playlists) or 80 (children), the last two only in
   * sections long enough to hold them.
   */
  function PlaylistHeadAt(data: seq<Byte>, start: nat, size: nat, libraryId: nat): (r: HeadRead)
    ensures r.Head? ==> start + 38 <= |data|
  {
    if start + 38 > |data| then HeadFault(|data|)
    else if size >= 58 && start + 58 > |data| then HeadFault(|data|)
    else
      var parentId := PlaylistParent(data, start, size, libraryId);
      var kindAt := start + (if parentId == 0 then 79 else 80);
      if size >= 82 && kindAt >= |data| then HeadFault(kindAt)
      else
        var kind := if size >= 82 then data[kindAt] as int else 0;
        Head(PlaylistHead(I32At(data, start + 16), U64At(data, start + 30), parentId, kind))
  }

  /**
   * ParsePlaylistItem: creates the playlist under the key (id, section start) if new, makes
   * it current, then sets its dates.
   */
  function PlaylistItem(st: ParserState, data: seq<Byte>, start: nat, size: nat, libraryId: nat): (r: Step)
    requires Resolves(st)
    ensures Resolves(r.st)
    ensures Grows(st, r.st)
  {
    match PlaylistHeadAt(data, start, size, libraryId)
    case HeadFault(pos) => Step(st, pos, true)
    case Head(h) =>
      var key := PlaylistKey(h.id, start);
      var created := Playlist(h.id, None, h.trackCount, Classify(h.trackCount, h.kind), h.parentId, h.kind,
                              false, h.id == 5, None, None, []);
      var st1 := CreatePlaylist(st, key, created).(currentPlaylist := Some(key));
      var d := PlaylistDates(st1.playlists[key], data, start, size);
      Step(WithCurrentPlaylist(st1, d.playlist), d.pos, d.faulted)
  }

  /** A playlist update and where the reader stopped. */
  datatype PlaylistStep = PlaylistStep(playlist: Playlist, pos: nat, faulted: bool)

  /**
   * The creation date at 22 (sections of at least 26 bytes) and the modification date at 138
   * (at least 142 bytes); the reader is left at 47.
   */
  function PlaylistDates(p: Playlist, data: seq<Byte>, start: nat, size: nat): (r: PlaylistStep)
    requires size >= 26 ==> start + 26 <= |data|
    ensures r.playlist.playlistId == p.playlistId
  {
    var p1 := if size >= 26 then p.(createdAt := AppleDate(U32At(data, start + 22))) else p;
    if size >= 142 && start + 142 > |data| then PlaylistStep(p1, |data|, true)
    else
      var p2 := if size >= 142 then p1.(modifiedAt := AppleDate(U32At(data, start + 138))) else p1;
      PlaylistStep(p2, start + 47, false)
  }

  /** A track field update and where the reader stopped. */
  datatype TrackStep = TrackStep(track: Track, pos: nat, faulted: bool)

  /**
   * The fixed-offset fields of a track section from offset 62 on, each stored only when it
   * passes its plausibility gate. A read past the end throws and keeps what was stored so far.
   */
  function TrackFields(t: Track, data: seq<Byte>, start: nat, size: nat): (r: TrackStep)
    ensures r.track.trackId == t.trackId
  {
    if size < 63 then TrackStep(t, start + 24, false)
    else if size >= 66 && start + 65 >= |data| then TrackStep(t, start + 65, true)
    else
      var t1 := if size >= 66 && 1 <= data[start + 65] <= 100 then t.(rating := Some(data[start + 65] as int)) else t;
      if start + 62 >= |data| then TrackStep(t1, start + 62, true)
      else
        var t2 := if data[start + 62] <= 3 then t1.(likeStatus := Some(LikeStatusOf(data[start + 62]))) else t1;
        if size < 172 then TrackStep(t2, start + 63, false)
        else TrackNumbers(t2, data, start)
  }

  /** Movement count and number at 86 and 88, each kept when it is between 1 and 999. */
  function TrackMovements(t: Track, data: seq<Byte>, start: nat): (r: TrackStep)
    ensures r.track.trackId == t.trackId
  {
    if start + 88 > |data| then TrackStep(t, |data|, true)
    else
      var mc := U16At(data, start + 86);
      var t1 := if 0 < mc < 1000 then t.(movementCount := Some(mc)) else t;
      if start + 90 > |data| then TrackStep(t1, |data|, true)
      else
        var mn := U16At(data, start + 88);
        TrackStep(if 0 < mn < 1000 then t1.(movementNumber := Some(mn)) else t1, start + 90, false)
  }

  /** Track number at 160, kept when between 1 and 9999; year at 168, kept when strictly between 1900 and 2100. */
  function TrackNumberAndYear(t: Track, data: seq<Byte>, start: nat): (r: TrackStep)
    ensures r.track.trackId == t.trackId
  {
    if start + 162 > |data| then TrackStep(t, |data|, true)
    else
      var tn := U16At(data, start + 160);
      var t1 := if 0 < tn < 10000 then t.(trackNumber := Some(tn)) else t;
      if start + 172 > |data| then TrackStep(t1, |data|, true)
      else
        var year := I32At(data, start + 168);
        TrackStep(if 1900 < year < 2100 then t1.(year := Some(year)) else t1, start + 172, false)
  }

  /** Album and artist references at 172 and 180, kept when non-zero. */
  function TrackReferences(t: Track, data: seq<Byte>, start: nat): (r: TrackStep)
    ensures r.track.trackId == t.trackId
  {
    if start + 180 > |data| then TrackStep(t, |data|, true)
    else
      var albumRef := U64At(data, start + 172);
      var t1 := if albumRef != 0 then t.(albumRef := Some(albumRef)) else t;
      if start + 188 > |data| then TrackStep(t1, |data|, true)
      else
        var artistRef := U64At(data, start + 180);
        TrackStep(if artistRef != 0 then t1.(artistRef := Some(artistRef)) else t1, start + 188, false)
  }

  /** The fields of sections of at least 172 bytes, in reading order; the first read past the end stops them. */
  function TrackNumbers(t: Track, data: seq<Byte>, start: nat): (r: TrackStep)
    ensures r.track.trackId == t.trackId
  {
    var a := TrackMovements(t, data, start);
    if a.faulted then a
    else
      var b := TrackNumberAndYear(a.track, data, start);
      if b.faulted then b
      else TrackReferences(b.track, data, start)
  }

  /** ParseTrackItem: the track id at 16, created if new and made current, then its fixed fields. */
  function TrackItem(st: ParserState, data: seq<Byte>, start: nat, size: nat): (r: Step)
    requires Resolves(st)
    ensures Resolves(r.st)
    ensures Grows(st, r.st)
  {
    if start + 24 > |data| then Step(st, |data|, true)
    else
      var id := U64At(data, start + 16);
      var st1 := CreateTrack(st, id).(currentTrack := Some(id));
      var f := TrackFields(st1.tracks[id], data, start, size);
      Step(WithCurrentTrack(st1, f.track), f.pos, f.faulted)
  }

  // ---------------------------------------------------------------------------------------
  // boma decoders. The reader stands at start + 16 when each is entered. They catch their
  // own exceptions; a failed fixed-width read leaves the reader at the end of the buffer.

  /**
   * The numeric fields of a track: bit rate at 108, date added at 112, date modified at 148,
   * duration at 176 and, in records of at least 320 bytes, file size at 316. A read past the
   * end stops the decoder with what was stored so far.
   */
  function NumericFields(t: Track, data: seq<Byte>, start: nat, size: nat): (r: TrackStep)
    ensures r.track.trackId == t.trackId
  {
    if start + 112 > |data| then TrackStep(t, |data|, true)
    else
      var t1 := t.(bitRate := Some(ToInt32(U32At(data, start + 108))));
      if start + 116 > |data| then TrackStep(t1, |data|, true)
      else NumericTail(t1.(dateAdded := AppleDate(U32At(data, start + 112))), data, start, size)
  }

  /** The fields after the date added: date modified, duration and, in long records, file size. */
  function NumericTail(t: Track, data: seq<Byte>, start: nat, size: nat): (r: TrackStep)
    ensures r.track.trackId == t.trackId
  {
    if start + 152 > |data| then TrackStep(t, |data|, true)
    else
      var t3 := t.(dateModified := AppleDate(U32At(data, start + 148)));
      if start + 180 > |data| then TrackStep(t3, |data|, true)
      else
        var t4 := t3.(duration := Some(ToInt32(U32At(data, start + 176))));
        if size < 320 then TrackStep(t4, start + 180, false)
        else if start + 320 > |data| then TrackStep(t4, |data|, true)
        else TrackStep(t4.(fileSize := Some(U32At(data, start + 316))), start + 320, false)
  }

  /** ParseBomaNumeric: only for the current track and records of at least 180 bytes; catches its own exceptions. */
  function BomaNumeric(st: ParserState, data: seq<Byte>, start: nat, size: nat): (r: Step)
    requires Resolves(st)
    ensures Resolves(r.st) && !r.faulted
    ensures SameOrders(st, r.st)
    ensures SameAlbums(st, r.st)
  {
    if st.currentTrack.None? || size < 180 then Step(st, start + 16, false)
    else
      var f := NumericFields(CurrentTrack(st), data, start, size);
      Step(WithCurrentTrack(st, f.track), f.pos, false)
  }

  /** Stores a track string under the field its subtype names; other subtypes leave the track as it is. */
  function SetTrackString(t: Track, subtype: nat, v: string): (r: Track)
    ensures r.trackId == t.trackId
  {
    if subtype == 0x0002 then t.(title := Some(v))
    else if subtype == 0x0003 then t.(album := Some(v))
    else if subtype == 0x0004 then t.(artist := Some(v))
    else if subtype == 0x0005 then t.(genre := Some(v))
    else if subtype == 0x0006 then t.(kind := Some(v))
    else if subtype == 0x0008 then t.(comment := Some(v))
    else if subtype == 0x000C then t.(composer := Some(v))
    else if subtype == 0x000E then t.(grouping := Some(v))
    else if subtype == 0x001B then t.(albumArtist := Some(v))
    else if subtype == 0x001E then t.(sortTitle := Some(v))
    else if subtype == 0x001F then t.(sortAlbum := Some(v))
    else if subtype == 0x0020 then t.(sortArtist := Some(v))
    else if subtype == 0x0021 then t.(sortAlbumArtist := Some(v))
    else if subtype == 0x0022 then t.(sortComposer := Some(v))
    else if subtype == 0x003F then t.(workName := Some(v))
    else if subtype == 0x0040 then t.(movementName := Some(v))
    else t
  }

  /** Stores an album string (unreachable while no album is ever current). */
  function SetAlbumString(a: Album, subtype: nat, v: string): (r: Album)
    ensures r.albumId == a.albumId
  {
    if subtype == ALBUM_TITLE then a.(title := Some(v))
    else if subtype == ALBUM_ALBUM_ARTIST then a.(albumArtist := Some(v))
    else if subtype == ALBUM_ARTIST then a.(artist := Some(v))
    else a
  }

  /** Routes a string to the first current entity in the order track, album, artist, playlist. */
  function RouteString(st: ParserState, subtype: nat, v: string): (r: ParserState)
    requires Resolves(st)
    ensures Resolves(r)
    ensures SameOrders(st, r)
    ensures st.currentAlbum.None? ==> SameAlbums(st, r)
  {
    if st.currentTrack.Some? then WithCurrentTrack(st, SetTrackString(CurrentTrack(st), subtype, v))
    else if st.currentAlbum.Some? then
      var id := st.currentAlbum.value;
      st.(albums := st.albums[id := SetAlbumString(st.albums[id], subtype, v)])
    else if st.currentArtist.Some? then
      if subtype == ARTIST_NAME then
        var id := st.currentArtist.value;
        st.(artists := st.artists[id := st.artists[id].(name := Some(v))])
      else st
    else if st.currentPlaylist.Some? then
      if subtype == PLAYLIST_NAME then
        WithCurrentPlaylist(st, st.playlists[st.currentPlaylist.value].(name := Some(v)))
      else st
    else st
  }

  /** The string a widechar record carries: its bytes decoded as UTF-16LE, trailing NULs trimmed. */
  function WidecharValue(bytes: seq<Byte>): string
  {
    TrimEndNul(DecodeUtf16Le(bytes))
  }

  /** ParseBomaWidechar: ignored while nothing is current; the byte length at 24, the string from 36; a blank value changes nothing. */
  function BomaWidechar(st: ParserState, data: seq<Byte>, start: nat, subtype: nat): (r: Step)
    requires Resolves(st)
    ensures Resolves(r.st) && !r.faulted
    ensures SameOrders(st, r.st)
    ensures st.currentAlbum.None? ==> SameAlbums(st, r.st)
  {
    if NothingCurrent(st) then Step(st, start + 16, false)
    else if start + 28 > |data| then Step(st, |data|, false)
    else
      var len := U32At(data, start + 24);
      if !(0 < len < 10000) then Step(st, start + 28, false)
      else
        var bytes := Available(data, start + 36, len);
        var pos := Min(start + 36, |data|) + |bytes|;
        var v := WidecharValue(bytes);
        if IsNullOrWhiteSpace(v) then Step(st, pos, false)
        else Step(RouteString(st, subtype, v), pos, false)
  }

  /** ParseBomaPlaylistTrack: an "ipfa" record appends the non-zero track id at 40 to the current playlist. */
  function BomaPlaylistTrack(st: ParserState, data: seq<Byte>, start: nat): (r: Step)
    requires Resolves(st)
    ensures Resolves(r.st) && !r.faulted
    ensures SameOrders(st, r.st)
    ensures SameAlbums(st, r.st)
  {
    if st.currentPlaylist.None? then Step(st, start + 16, false)
    else
      var sig := Available(data, start + 20, 4);
      if sig != IPFA then Step(st, start + 20 + |sig|, false)
      else if start + 48 > |data| then Step(st, |data|, false)
      else
        var trackId := U64At(data, start + 40);
        var p := st.playlists[st.currentPlaylist.value];
        if trackId != 0 then Step(WithCurrentPlaylist(st, p.(trackIds := p.trackIds + [trackId])), start + 48, false)
        else Step(st, start + 48, false)
  }

  /** boma 0x00C9: the current playlist has smart criteria, whatever its type was. */
  function BomaSmart(st: ParserState, start: nat): (r: Step)
    requires Resolves(st)
    ensures Resolves(r.st) && !r.faulted
    ensures SameOrders(st, r.st)
    ensures SameAlbums(st, r.st)
  {
    if st.currentPlaylist.None? then Step(st, start + 16, false)
    else
      var p := st.playlists[st.currentPlaylist.value];
      Step(WithCurrentPlaylist(st, p.(hasSmartCriteria := true, playlistType := Smart)), start + 16, false)
  }

  /** A path fragment shaped like a file-system UUID: 36 UTF-16 code units, four of them hyphens. */
  predicate IsUuidLike(s: string)
  {
    Utf16Length(s) == 36 && CountChar(s, '-') == 4
  }

  /** The fragments that make up the path: no UUID, no file:/// URL, no disk name, no lone separator. */
  predicate KeepFragment(s: string)
  {
    && !IsUuidLike(s)
    && !StartsWith(s, "file:///")
    && !Contains(s, "Macintosh")
    && !Contains(s, "HD")
    && s != "/"
  }

  /** Where the fragment loop ended: the kept fragments and where the reader stood. */
  datatype BookScanResult = BookScanResult(parts: seq<string>, readerPos: nat)

  /** One turn of the fragment loop: a read that throws, or the next cursor, where the reader stopped and the fragment kept (if any). */
  datatype FragmentStep = FragmentFault | Fragment(next: nat, readerPos: nat, kept: seq<string>)

  /**
   * The turn of the fragment loop at cursor `pos`. A length in 1..999 followed by the marker
   * 0x0101 introduces a fragment, padded to four bytes; any other word is skipped.
   */
  function FragmentAt(data: seq<Byte>, utf8: seq<Byte> -> string, pos: nat): (r: FragmentStep)
    ensures r.Fragment? ==> pos < r.next && pos < r.readerPos && |r.kept| <= 1
  {
    if pos + 4 > |data| then FragmentFault
    else
      var len := U32At(data, pos);
      if !(0 < len < 1000) then Fragment(pos + 4, pos + 4, [])
      else if pos + 8 > |data| then FragmentFault
      else if U32At(data, pos + 4) != 0x0101 then Fragment(pos + 4, pos + 8, [])
      else FragmentBody(data, utf8, pos, len)
  }

  /** A marked fragment of `len` bytes after the two words at pos: kept unless blank or filtered, then padded to four bytes. */
  function FragmentBody(data: seq<Byte>, utf8: seq<Byte> -> string, pos: nat, len: nat): (r: FragmentStep)
    ensures r.Fragment? && pos + 8 <= r.readerPos <= r.next && |r.kept| <= 1
  {
    var bytes := Available(data, pos + 8, len);
    var after := pos + 8 + |bytes|;
    var s := TrimEndNul(utf8(bytes));
    Fragment(after + (4 - len % 4) % 4, after, if !IsNullOrWhiteSpace(s) && KeepFragment(s) then [s] else [])
  }

  /** The fragment loop of ParseBomaBook from cursor `pos`, while pos < endPos - 8. None when a read throws. */
  function BookScan(data: seq<Byte>, utf8: seq<Byte> -> string, pos: nat, endPos: nat, readerPos: nat, parts: seq<string>): (r: Option<BookScanResult>)
    ensures r.Some? ==> |parts| <= |r.value.parts| && r.value.parts[..|parts|] == parts
    decreases endPos - pos
  {
    if pos + 8 >= endPos then Some(BookScanResult(parts, readerPos))
    else
      match FragmentAt(data, utf8, pos)
      case FragmentFault => None
      case Fragment(next, after, kept) => BookScan(data, utf8, next, endPos, after, parts + kept)
  }

  /** What a "book" record yields: the joined path when a fragment was kept, and where the reader stopped. */
  datatype BookRead = BookRead(path: Option<string>, pos: nat)

  /** The "book" signature at 20, then the fragment loop up to the end of the record. */
  function BookPath(data: seq<Byte>, utf8: seq<Byte> -> string, start: nat, size: nat): (r: BookRead)
  {
    var sig := Available(data, start + 20, 4);
    if sig != BOOK then BookRead(None, start + 20 + |sig|)
    else
      match BookScan(data, utf8, start + 24, start + size, start + 24, [])
      case None => BookRead(None, |data|)
      case Some(b) => BookRead(if |b.parts| > 0 then Some(Join("/", b.parts)) else None, b.readerPos)
  }

  /** ParseBomaBook: a "book" record sets the track's file path to the kept fragments joined by "/". */
  function BomaBook(st: ParserState, data: seq<Byte>, start: nat, size: nat, utf8: seq<Byte> -> string): (r: Step)
    requires Resolves(st)
    ensures Resolves(r.st) && !r.faulted
    ensures SameOrders(st, r.st)
    ensures SameAlbums(st, r.st)
  {
    if st.currentTrack.None? then Step(st, start + 16, false)
    else
      var b := BookPath(data, utf8, start, size);
      if b.path.Some? then Step(WithCurrentTrack(st, CurrentTrack(st).(filePath := b.path)), b.pos, false)
      else Step(st, b.pos, false)
  }

  /** ParseBomaPlayStats: last-played timestamp at 28 and play count at 32. */
  function BomaPlayStats(st: ParserState, data: seq<Byte>, start: nat): (r: Step)
    requires Resolves(st)
    ensures Resolves(r.st) && !r.faulted
    ensures SameOrders(st, r.st)
    ensures SameAlbums(st, r.st)
  {
    if st.currentTrack.None? then Step(st, start + 16, false)
    else if start + 36 > |data| then Step(st, |data|, false)
    else
      var t := CurrentTrack(st).(playCount := Some(ToInt32(U32At(data, start + 32))),
                                 lastPlayed := AppleDate(U32At(data, start + 28)));
      Step(WithCurrentTrack(st, t), start + 36, false)
  }

  /** A URL with the file:/// scheme becomes an absolute path. */
  function StripFileScheme(url: string): (r: string)
    ensures StartsWith(url, "file:///") ==> r == "/" + url[8..]
    ensures !StartsWith(url, "file:///") ==> r == url
  {
    if StartsWith(url, "file:///") then "/" + url[8..] else url
  }

  /** ParseBomaFileUrl: the URL length at 24, the UTF-8 URL from 36, unescaped. */
  function BomaFileUrl(st: ParserState, data: seq<Byte>, start: nat, text: TextDecoders): (r: Step)
    requires Resolves(st)
    ensures Resolves(r.st) && !r.faulted
    ensures SameOrders(st, r.st)
    ensures SameAlbums(st, r.st)
  {
    if st.currentTrack.None? then Step(st, start + 16, false)
    else if start + 36 > |data| then Step(st, |data|, false)
    else
      var len := U32At(data, start + 24);
      if !(0 < len < 1000) then Step(st, start + 36, false)
      else
        var bytes := Available(data, start + 36, len);
        var url := StripFileScheme(text.unescapeData(text.utf8(bytes)));
        Step(WithCurrentTrack(st, CurrentTrack(st).(fileUrl := Some(url))), start + 36 + |bytes|, false)
  }

  /** The counter of an unrecognised subtype goes up by one. */
  function CountUnknown(st: ParserState, subtype: nat): (r: ParserState)
    ensures subtype in r.unknownBomaTypes
    ensures SameOrders(st, r)
    ensures SameAlbums(st, r)
  {
    var n := if subtype in st.unknownBomaTypes then st.unknownBomaTypes[subtype] else 0;
    st.(unknownBomaTypes := st.unknownBomaTypes[subtype := n + 1])
  }

  /** The boma switch on the subtype. */
  function BomaDispatch(st: ParserState, inp: ScanInput, start: nat, size: nat, subtype: nat): (r: Step)
    requires Resolves(st)
    ensures Resolves(r.st) && !r.faulted
    ensures SameOrders(st, r.st)
    ensures st.currentAlbum.None? ==> SameAlbums(st, r.st)
  {
    if subtype == NUMERICS then BomaNumeric(st, inp.data, start, size)
    else if subtype in WIDECHAR_TYPES then BomaWidechar(st, inp.data, start, subtype)
    else if subtype == PLAYLIST_TRACK then BomaPlaylistTrack(st, inp.data, start)
    else if subtype == SMART_CRITERIA then BomaSmart(st, start)
    else if subtype in BOOK_TYPES then BomaBook(st, inp.data, start, size, inp.text.utf8)
    else if subtype == PLAY_STATS then BomaPlayStats(st, inp.data, start)
    else if subtype == FILE_URL then BomaFileUrl(st, inp.data, start, inp.text)
    else Step(CountUnknown(st, subtype), start + 16, false)
  }

  /** True when no entity is current. */
  predicate NothingCurrent(st: ParserState)
  {
    st.currentTrack.None? && st.currentAlbum.None? && st.currentArtist.None? && st.currentPlaylist.None?
  }

  /**
   * ParseBomaSection: ignored while nothing is current; otherwise the subtype at 12 (whose
   * read is outside the decoders' catch) selects the decoder.
   */
  function BomaSection(st: ParserState, inp: ScanInput, start: nat, size: nat): (r: Step)
    requires Resolves(st)
    ensures Resolves(r.st)
    ensures SameOrders(st, r.st)
    ensures st.currentAlbum.None? ==> SameAlbums(st, r.st)
  {
    if NothingCurrent(st) then Step(st, start + 12, false)
    else if start + 16 > |inp.data| then Step(st, |inp.data|, true)
    else BomaDispatch(st, inp, start, size, U32At(inp.data, start + 12))
  }

  /** Past the gate and the subtype read, a boma section is its decoder's step. */
  lemma {:induction false} BomaSectionDispatches(st: ParserState, inp: ScanInput, start: nat, size: nat)
    requires Resolves(st) && !NothingCurrent(st) && start + 16 <= |inp.data|
    ensures BomaSection(st, inp, start, size) == BomaDispatch(st, inp, start, size, U32At(inp.data, start + 12))
  {
  }

  // ---------------------------------------------------------------------------------------
  // The section loop.

  /** The four signature bytes are all zero: the end-of-sections marker. */
  predicate ZeroTagAt(data: seq<Byte>, p: nat)
    requires p + 4 <= |data|
  {
    forall i | p <= i < p + 4 :: data[i] == 0
  }

  /** The length field of the section at p: at +8 for boma, at +4 for every other tag. */
  function SizeField(data: seq<Byte>, p: nat): nat
    requires p + 8 <= |data|
    requires TagOf(data[p..p + 4]) == Boma ==> p + 12 <= |data|
  {
    if TagOf(data[p..p + 4]) == Boma then U32At(data, p + 8) else U32At(data, p + 4)
  }

  /** The switch of the section loop: what one section does, given its length field. */
  function Dispatch(st: ParserState, inp: ScanInput, start: nat, size: nat): (r: Step)
    requires Resolves(st) && start + 4 <= |inp.data|
    ensures Resolves(r.st)
    ensures Grows(st, r.st)
  {
    var data := inp.data;
    match TagOf(data[start..start + 4])
    case Lama => Step(st.(currentAlbum := None), start + size, false)
    case Iama => AlbumItem(st.(currentTrack := None, currentArtist := None), data, start, size)
    case LamaArtists => Step(st.(currentArtist := None), start + size, false)
    case IamaArtist => ArtistItem(st.(currentTrack := None, currentAlbum := None), data, start)
    case LpmaMaster => Step(st.(currentPlaylist := None), start + size, false)
    case Lpma =>
      PlaylistItem(st.(currentTrack := None, currentAlbum := None, currentArtist := None), data, start, size, inp.libraryId)
    case Ltma =>
      if start + 12 > |data| then Step(st.(currentTrack := None), |data|, true)
      else Step(st.(currentTrack := None), start + 12, false)
    case Itma => TrackItem(st, data, start, size)
    case Boma => BomaSection(st, inp, start, size)
    case Other => Step(st, start + 8, false)
  }

  /** The master tags and ltma close one current entity; an unknown tag skips its eight header bytes. */
  lemma {:induction false} DispatchMasters(st: ParserState, inp: ScanInput, start: nat, size: nat)
    requires Resolves(st) && start + 4 <= |inp.data|
    ensures var tag, s := TagOf(inp.data[start..start + 4]), Dispatch(st, inp, start, size);
            && (tag == Lama ==> s == Step(st.(currentAlbum := None), start + size, false))
            && (tag == LamaArtists ==> s == Step(st.(currentArtist := None), start + size, false))
            && (tag == LpmaMaster ==> s == Step(st.(currentPlaylist := None), start + size, false))
            && (tag == Ltma ==> s == if start + 12 > |inp.data| then Step(st.(currentTrack := None), |inp.data|, true)
                                    else Step(st.(currentTrack := None), start + 12, false))
            && (tag == Other ==> s == Step(st, start + 8, false))
  {
  }

  /** An lpma section is its playlist step, taken with no current track, album or artist. */
  lemma {:induction false} DispatchPlaylist(st: ParserState, inp: ScanInput, start: nat, size: nat)
    requires Resolves(st) && start + 4 <= |inp.data| && TagOf(inp.data[start..start + 4]) == Lpma
    ensures Dispatch(st, inp, start, size)
            == PlaylistItem(st.(currentTrack := None, currentAlbum := None, currentArtist := None), inp.data, start, size, inp.libraryId)
  {
  }

  /** How the section loop ended. */
  datatype Outcome =
    | EndOfData    // the cursor reached len - 8
    | ZeroTag      // an all-zero signature
    | Fault        // an exception reached the outer catch
    | NoProgress   // a zero-length section: the parser would revisit it forever

  /** The state when the loop ends, how many length fields were read, and why it ended. */
  datatype ScanResult = ScanResult(st: ParserState, sections: nat, outcome: Outcome)

  /** Where the cursor goes after a section: start + size when that lies inside the buffer, else where the handler left it. */
  function NextPos(data: seq<Byte>, start: nat, size: nat, handlerPos: nat): nat
  {
    if start + size <= |data| then start + size else handlerPos
  }

  /** ParseInnerSections from cursor `pos`, having read `count` length fields. */
  function Scan(st: ParserState, inp: ScanInput, pos: nat, count: nat): (r: ScanResult)
    requires Resolves(st)
    ensures Resolves(r.st)
    ensures count <= r.sections <= count + Max(0, |inp.data| - pos)
    decreases |inp.data| - pos
  {
    var data := inp.data;
    if pos + 8 >= |data| then ScanResult(st, count, EndOfData)
    else if ZeroTagAt(data, pos) then ScanResult(st, count, ZeroTag)
    else if TagOf(data[pos..pos + 4]) == Boma && pos + 12 > |data| then ScanResult(st, count, Fault)
    else
      var size := SizeField(data, pos);
      var s := Dispatch(st, inp, pos, size);
      if s.faulted then ScanResult(s.st, count + 1, Fault)
      else
        var next := NextPos(data, pos, size, s.pos);
        if next <= pos then ScanResult(s.st, count + 1, NoProgress)
        else Scan(s.st, inp, next, count + 1)
  }

  /** The map's values in the order their keys were inserted (Dictionary.Values.ToList). */
  function Values<K, V>(m: map<K, V>, order: seq<K>): (r: seq<V>)
    requires forall i | 0 <= i < |order| :: order[i] in m
    ensures |r| == |order|
    ensures forall i | 0 <= i < |order| :: r[i] == m[order[i]]
  {
    seq(|order|, i requires 0 <= i < |order| => m[order[i]])
  }
}
