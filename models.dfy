/**
 * The records the parser fills: tracks, albums, artists and playlists, and the library
 * snapshot that publishes them. Every optional field starts unset. Timestamps are whole
 * seconds since 1904-01-01T00:00:00Z (the Apple epoch).
 */
module Models {
  import opened Wrappers
  import opened Bytes

  /** A track's like status, stored from a byte 0..3. */
  datatype LikeStatus = Neutral | Disliked | Liked | DislikedExplicit

  function LikeStatusOf(b: nat): (r: LikeStatus)
    requires b <= 3
    ensures LikeStatusCode(r) == b
  {
    if b == 0 then Neutral else if b == 1 then Disliked else if b == 2 then Liked else DislikedExplicit
  }

  function LikeStatusCode(s: LikeStatus): nat
  {
    match s
    case Neutral => 0
    case Disliked => 1
    case Liked => 2
    case DislikedExplicit => 3
  }

  datatype PlaylistType = Manual | Smart | System | Folder

  datatype Track = Track(
    trackId: nat,
    title: Option<string>,
    artist: Option<string>,
    album: Option<string>,
    albumArtist: Option<string>,
    composer: Option<string>,
    genre: Option<string>,
    year: Option<int>,
    trackNumber: Option<int>,
    discNumber: Option<int>,
    duration: Option<int>,
    bitRate: Option<int>,
    sampleRate: Option<int>,
    playCount: Option<int>,
    dateAdded: Option<nat>,
    dateModified: Option<nat>,
    lastPlayed: Option<nat>,
    filePath: Option<string>,
    fileUrl: Option<string>,
    fileSize: Option<int>,
    comment: Option<string>,
    rating: Option<int>,
    likeStatus: Option<LikeStatus>,
    albumRef: Option<nat>,
    artistRef: Option<nat>,
    kind: Option<string>,
    grouping: Option<string>,
    sortTitle: Option<string>,
    sortAlbum: Option<string>,
    sortArtist: Option<string>,
    sortAlbumArtist: Option<string>,
    sortComposer: Option<string>,
    workName: Option<string>,
    movementName: Option<string>,
    movementNumber: Option<int>,
    movementCount: Option<int>)

  /** `new MusicTrack { TrackId = id }`. */
  function NewTrack(id: nat): (t: Track)
    ensures t.trackId == id
  {
    Track(id, None, None, None, None, None, None, None, None, None, None, None, None, None,
          None, None, None, None, None, None, None, None, None, None, None, None, None, None,
          None, None, None, None, None, None, None, None)
  }

  datatype Album = Album(albumId: nat, title: Option<string>, artist: Option<string>, albumArtist: Option<string>)

  datatype Artist = Artist(artistId: nat, name: Option<string>)

  datatype Playlist = Playlist(
    playlistId: nat,
    name: Option<string>,
    trackCount: int,
    playlistType: PlaylistType,
    parentId: nat,
    distinguishedKind: int,
    hasSmartCriteria: bool,
    isMaster: bool,
    createdAt: Option<nat>,
    modifiedAt: Option<nat>,
    trackIds: seq<nat>)

  /**
   * The playlist dictionary key "{id}_{sectionStart}": the decimal rendering of two
   * non-negative numbers joined by '_' determines both, so a pair is the same key.
   */
  datatype PlaylistKey = PlaylistKey(id: nat, sectionStart: nat)

  /** The fixed-layout envelope header. */
  datatype LibraryHeader = LibraryHeader(
    envelopeLength: nat,
    fileSize: nat,
    majorVersion: nat,
    minorVersion: nat,
    versionBytes: seq<Byte>,
    libraryId: nat,
    fileType: nat,
    trackCount: nat,
    playlistCount: nat,
    albumCount: nat,
    artistCount: nat,
    maxCryptSize: nat)

  /** The parsed library: the header and the four entity lists in insertion order. */
  datatype MusicLibrary = MusicLibrary(
    header: LibraryHeader,
    tracks: seq<Track>,
    albums: seq<Album>,
    artists: seq<Artist>,
    playlists: seq<Playlist>)
}
