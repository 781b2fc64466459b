/**
 * MusicDbParser: the envelope header reader and the section scanner over the decoded buffer.
 * The parser is a class whose fields are its dictionaries (with their keys in insertion
 * order) and its current-entity references; every handler reads through a BinaryReader and
 * is proved to compute the ScanSpec function of the same name.
 */
module MusicDbParsers {
  import opened Wrappers
  import opened Bytes
  import opened Text
  import opened Models
  import opened BinaryReaders
  import opened ScanSpec
  import opened MusicDbDecryptor
  import opened ScanInvariant

  // ---------------------------------------------------------------------------------------
  // The envelope header.

  /** Array.IndexOf(bytes, 0): the index of the first NUL byte, or -1 when there is none. */
  function IndexOfZero(bs: seq<Byte>): (r: int)
    ensures -1 <= r < |bs|
    ensures r == -1 <==> forall i | 0 <= i < |bs| :: bs[i] != 0
    ensures r >= 0 ==> bs[r] == 0 && forall i | 0 <= i < r :: bs[i] != 0
  {
    if |bs| == 0 then -1
    else if bs[0] == 0 then 0
    else
      var k := IndexOfZero(bs[1..]);
      if k == -1 then -1 else k + 1
  }

  /**
   * The bytes the version string is decoded from: everything before the first NUL, except
   * that a NUL in the first byte, or no NUL at all, selects all of them.
   */
  function VersionBytes(raw: seq<Byte>): (r: seq<Byte>)
    ensures |r| <= |raw| && r == raw[..|r|]
    ensures |raw| > 0 && raw[0] == 0 ==> r == raw
    ensures (forall i | 0 <= i < |raw| :: raw[i] != 0) ==> r == raw
    ensures |raw| > 0 && raw[0] != 0 ==>
              (forall i | 0 <= i < |r| :: r[i] != 0) && (|r| < |raw| ==> raw[|r|] == 0)
  {
    var nullIndex := IndexOfZero(raw);
    raw[..if nullIndex > 0 then nullIndex else |raw|]
  }

  /** The 88-byte header: the "hfma" signature, then little-endian fields; a short file throws EndOfStreamException. */
  function HeaderFields(file: seq<Byte>): Result<LibraryHeader, DecryptError>
  {
    if Available(file, 0, 4) != HFMA then Failure(BadSignature)
    else if |file| < 88 then Failure(EndOfStream)
    else
      Success(LibraryHeader(
        U32At(file, 4), U32At(file, 8), U16At(file, 12), U16At(file, 14), VersionBytes(file[16..48]),
        U64At(file, 48), U32At(file, 56), U32At(file, 68), U32At(file, 72), U32At(file, 76),
        U32At(file, 80), U32At(file, 84)))
  }

  /**
   * ParseHeader on the file's bytes: the header fields, then the rest of the envelope skipped
   * with a ReadBytes whose count is the (int) conversion of envelopeLength - 88, which throws
   * when that count is negative.
   */
  function HeaderOf(file: seq<Byte>): Result<LibraryHeader, DecryptError>
  {
    match HeaderFields(file)
    case Failure(e) => Failure(e)
    case Success(header) =>
      var remaining := header.envelopeLength - 88;
      if remaining > 0 && WrapInt32(remaining) < 0 then Failure(NegativeCount)
      else Success(header)
  }

  /** An unsigned 32-bit value whose (int) conversion is not negative converts to itself. */
  lemma {:induction false} WrapInt32NonNegative(x: int)
    requires 0 <= x < TWO_32 && WrapInt32(x) >= 0
    ensures WrapInt32(x) == x
  {
  }

  /** Why Parse throws, or, for a zero-length section, never returns. */
  datatype ParseError =
    | HeaderFailed(header: DecryptError)
    | KeyFailed(key: KeyError)
    | DecryptFailed(decrypt: DecryptError)
    | Diverges

  /** The library snapshot: the header and each dictionary's values in insertion order. */
  function Publish(header: LibraryHeader, st: ParserState): (lib: MusicLibrary)
    requires Consistent(st)
  {
    MusicLibrary(header, Values(st.tracks, st.trackOrder), Values(st.albums, st.albumOrder),
                 Values(st.artists, st.artistOrder), Values(st.playlists, st.playlistOrder))
  }

  /**
   * Parse on a fresh parser: the header, then the key (checked when the decryptor is first
   * used), then the decrypted and inflated payload, then the section scan from its start.
   */
  function ParseLibrary(file: seq<Byte>, keyVariable: Option<string>, cipher: BlockCipher, inflate: Inflater, text: TextDecoders)
    : Result<MusicLibrary, ParseError>
  {
    match HeaderOf(file)
    case Failure(e) => Failure(HeaderFailed(e))
    case Success(header) =>
      match GetAesKey(keyVariable)
      case Failure(e) => Failure(KeyFailed(e))
      case Success(key) =>
        match DecryptAndDecompress(file, key, cipher, inflate)
        case Failure(e) => Failure(DecryptFailed(e))
        case Success(decrypted) => ScanLibrary(header, decrypted.data, text)
  }

  /** The section scan over the decrypted payload from its start, published in insertion order. */
  function ScanLibrary(header: LibraryHeader, data: seq<Byte>, text: TextDecoders): Result<MusicLibrary, ParseError>
  {
    var inp := ScanInput(data, header.libraryId, text);
    var scan := Scan(EmptyState(), inp, 0, 0);
    if scan.outcome == NoProgress then Failure(Diverges)
    else
      ScanConsistent(EmptyState(), inp, 0, 0);
      Success(Publish(header, scan.st))
  }

  /** Every field of the header fits the width it is stored in. */
  predicate HeaderInRange(h: LibraryHeader)
  {
    && h.envelopeLength < TWO_31 && h.fileSize < TWO_32 && h.majorVersion < TWO_16 && h.minorVersion < TWO_16
    && h.libraryId < TWO_64 && h.fileType < TWO_32 && h.trackCount < TWO_32 && h.playlistCount < TWO_32
    && h.albumCount < TWO_32 && h.artistCount < TWO_32 && h.maxCryptSize < TWO_32
  }

  /** The 88-byte envelope header as the file stores it, with the 32 raw version bytes and 8 bytes at 60 that are not read. */
  function EncodeHeader(h: LibraryHeader, version: seq<Byte>, unused: seq<Byte>): (r: seq<Byte>)
    requires HeaderInRange(h) && |version| == 32 && |unused| == 8
    ensures |r| == 88
  {
    HFMA + EncodeU32(h.envelopeLength) + EncodeU32(h.fileSize) + EncodeU16(h.majorVersion) + EncodeU16(h.minorVersion)
    + version + EncodeU64(h.libraryId) + EncodeU32(h.fileType) + unused
    + EncodeU32(h.trackCount) + EncodeU32(h.playlistCount) + EncodeU32(h.albumCount) + EncodeU32(h.artistCount)
    + EncodeU32(h.maxCryptSize)
  }

  lemma {:induction false} ReadBackU16(file: seq<Byte>, p: nat, x: nat)
    requires x < TWO_16 && p + 2 <= |file| && file[p..p + 2] == EncodeU16(x)
    ensures U16At(file, p) == x
  {
    assert file == file[..p] + EncodeU16(x) + file[p + 2..];
    DecodeEncodeU16(x, file[..p], file[p + 2..]);
  }

  lemma {:induction false} ReadBackU32(file: seq<Byte>, p: nat, x: nat)
    requires x < TWO_32 && p + 4 <= |file| && file[p..p + 4] == EncodeU32(x)
    ensures U32At(file, p) == x
  {
    assert file == file[..p] + EncodeU32(x) + file[p + 4..];
    DecodeEncodeU32(x, file[..p], file[p + 4..]);
  }

  lemma {:induction false} ReadBackU64(file: seq<Byte>, p: nat, x: nat)
    requires x < TWO_64 && p + 8 <= |file| && file[p..p + 8] == EncodeU64(x)
    ensures U64At(file, p) == x
  {
    assert file == file[..p] + EncodeU64(x) + file[p + 8..];
    DecodeEncodeU64(x, file[..p], file[p + 8..]);
  }

  /**
   * ParseHeader reads back the header a file was written with, whatever follows it, as long
   * as the version bytes decode to the stored version and the envelope length is one the
   * (int) conversion keeps.
   */
  lemma {:induction false} HeaderRoundTrip(h: LibraryHeader, version: seq<Byte>, unused: seq<Byte>, rest: seq<Byte>)
    requires HeaderInRange(h) && |version| == 32 && |unused| == 8 && h.versionBytes == VersionBytes(version)
    ensures HeaderOf(EncodeHeader(h, version, unused) + rest) == Success(h)
  {
    var file := EncodeHeader(h, version, unused) + rest;
    assert file[..4] == HFMA;
    assert file[4..8] == EncodeU32(h.envelopeLength);
    assert file[8..12] == EncodeU32(h.fileSize);
    assert file[12..14] == EncodeU16(h.majorVersion);
    assert file[14..16] == EncodeU16(h.minorVersion);
    assert file[16..48] == version;
    assert file[48..56] == EncodeU64(h.libraryId);
    assert file[56..60] == EncodeU32(h.fileType);
    assert file[68..72] == EncodeU32(h.trackCount);
    assert file[72..76] == EncodeU32(h.playlistCount);
    assert file[76..80] == EncodeU32(h.albumCount);
    assert file[80..84] == EncodeU32(h.artistCount);
    assert file[84..88] == EncodeU32(h.maxCryptSize);
    ReadBackU32(file, 4, h.envelopeLength);
    ReadBackU32(file, 8, h.fileSize);
    ReadBackU16(file, 12, h.majorVersion);
    ReadBackU16(file, 14, h.minorVersion);
    ReadBackU64(file, 48, h.libraryId);
    ReadBackU32(file, 56, h.fileType);
    ReadBackU32(file, 68, h.trackCount);
    ReadBackU32(file, 72, h.playlistCount);
    ReadBackU32(file, 76, h.albumCount);
    ReadBackU32(file, 80, h.artistCount);
    ReadBackU32(file, 84, h.maxCryptSize);
    assert HeaderFields(file) == Success(h);
  }

  /** A file that does not start with "hfma" has no header. */
  lemma {:induction false} HeaderNeedsSignature(file: seq<Byte>)
    requires |file| < 4 || file[..4] != HFMA
    ensures HeaderOf(file) == Failure(BadSignature)
  {
    assert |file| >= 4 ==> Available(file, 0, 4) == file[..4];
  }

  /** The published tracks, albums and artists each carry distinct ids, in the order they were first seen. */
  lemma {:induction false} PublishedIdsDistinct(header: LibraryHeader, st: ParserState)
    requires Consistent(st)
    ensures var lib := Publish(header, st);
            && (forall i, j | 0 <= i < j < |lib.tracks| :: lib.tracks[i].trackId != lib.tracks[j].trackId)
            && (forall i, j | 0 <= i < j < |lib.albums| :: lib.albums[i].albumId != lib.albums[j].albumId)
            && (forall i, j | 0 <= i < j < |lib.artists| :: lib.artists[i].artistId != lib.artists[j].artistId)
            && (forall i | 0 <= i < |lib.tracks| :: lib.tracks[i].trackId == st.trackOrder[i])
  {
    var lib := Publish(header, st);
    forall i | 0 <= i < |lib.tracks| ensures lib.tracks[i].trackId == st.trackOrder[i] {
      assert lib.tracks[i] == st.tracks[st.trackOrder[i]];
    }
    forall i | 0 <= i < |lib.albums| ensures lib.albums[i].albumId == st.albumOrder[i] {
      assert lib.albums[i] == st.albums[st.albumOrder[i]];
    }
    forall i | 0 <= i < |lib.artists| ensures lib.artists[i].artistId == st.artistOrder[i] {
      assert lib.artists[i] == st.artists[st.artistOrder[i]];
    }
  }

  /** A library Parse returns lists each track, album and artist once. */
  lemma {:induction false} ParsedIdsDistinct(file: seq<Byte>, keyVariable: Option<string>, cipher: BlockCipher, inflate: Inflater, text: TextDecoders)
    ensures var r := ParseLibrary(file, keyVariable, cipher, inflate, text);
            r.Success? ==>
              && (forall i, j | 0 <= i < j < |r.value.tracks| :: r.value.tracks[i].trackId != r.value.tracks[j].trackId)
              && (forall i, j | 0 <= i < j < |r.value.albums| :: r.value.albums[i].albumId != r.value.albums[j].albumId)
              && (forall i, j | 0 <= i < j < |r.value.artists| :: r.value.artists[i].artistId != r.value.artists[j].artistId)
  {
    var r := ParseLibrary(file, keyVariable, cipher, inflate, text);
    if r.Success? {
      var header := HeaderOf(file).value;
      var decrypted := DecryptAndDecompress(file, GetAesKey(keyVariable).value, cipher, inflate).value;
      var inp := ScanInput(decrypted.data, header.libraryId, text);
      ScanConsistent(EmptyState(), inp, 0, 0);
      PublishedIdsDistinct(header, Scan(EmptyState(), inp, 0, 0).st);
    }
  }

  /** The reads of ParseHeader up to the end of the 88-byte header; a read past the end throws. */
  method ReadHeaderFields(reader: BinaryReader) returns (r: Result<LibraryHeader, DecryptError>)
    requires reader.pos == 0
    modifies reader
    ensures r == HeaderFields(reader.data)
    ensures r.Success? ==> reader.pos == 88
  {
    var signature := reader.ReadBytes(4);
    if signature != HFMA {
      return Failure(BadSignature);
    }
    assert |reader.data| < 88 ==> HeaderFields(reader.data) == Failure(EndOfStream);
    var envelopeLength := reader.ReadUInt32();
    if envelopeLength.None? { return Failure(EndOfStream); }
    var fileSize := reader.ReadUInt32();
    if fileSize.None? { return Failure(EndOfStream); }
    var majorVersion := reader.ReadUInt16();
    if majorVersion.None? { return Failure(EndOfStream); }
    var minorVersion := reader.ReadUInt16();
    if minorVersion.None? { return Failure(EndOfStream); }
    assert reader.pos == 16;
    var versionBytes := reader.ReadBytes(32);
    var libraryId := reader.ReadUInt64();
    if libraryId.None? { return Failure(EndOfStream); }
    var fileType := reader.ReadUInt32();
    if fileType.None? { return Failure(EndOfStream); }
    assert reader.pos == 60;
    var skipped := reader.ReadBytes(8);
    var trackCount := reader.ReadUInt32();
    if trackCount.None? { return Failure(EndOfStream); }
    var playlistCount := reader.ReadUInt32();
    if playlistCount.None? { return Failure(EndOfStream); }
    var albumCount := reader.ReadUInt32();
    if albumCount.None? { return Failure(EndOfStream); }
    var artistCount := reader.ReadUInt32();
    if artistCount.None? { return Failure(EndOfStream); }
    var maxCryptSize := reader.ReadUInt32();
    if maxCryptSize.None? { return Failure(EndOfStream); }
    assert reader.pos == 88;
    r := Success(LibraryHeader(
      envelopeLength.value, fileSize.value, majorVersion.value, minorVersion.value, VersionBytes(versionBytes),
      libraryId.value, fileType.value, trackCount.value, playlistCount.value, albumCount.value, artistCount.value,
      maxCryptSize.value));
  }

  /** ParseHeader's reads: the header fields, then the skip to the end of the envelope. */
  method ReadHeader(reader: BinaryReader) returns (r: Result<LibraryHeader, DecryptError>)
    requires reader.pos == 0
    modifies reader
    ensures r == HeaderOf(reader.data)
    ensures r.Success? ==> reader.pos == Max(88, Min(r.value.envelopeLength, |reader.data|))
  {
    r := ReadHeaderFields(reader);
    if r.Failure? {
      return;
    }
    var remaining := r.value.envelopeLength - reader.pos;
    if remaining > 0 {
      var count := WrapInt32(remaining);
      if count < 0 {
        return Failure(NegativeCount);
      }
      WrapInt32NonNegative(remaining);
      var rest := reader.ReadBytes(count);
    }
  }

  class MusicDbParser {
    var tracks: map<nat, Track>
    var trackOrder: seq<nat>
    var albums: map<nat, Album>
    var albumOrder: seq<nat>
    var artists: map<nat, Artist>
    var artistOrder: seq<nat>
    var playlists: map<PlaylistKey, Playlist>
    var playlistOrder: seq<PlaylistKey>
    var unknownBomaTypes: map<nat, nat>
    var currentTrack: Option<nat>
    var currentAlbum: Option<nat>
    var currentArtist: Option<nat>
    var currentPlaylist: Option<PlaylistKey>
    var libraryId: nat
    var maxCryptSize: nat
    /** Encoding.UTF8.GetString and Uri.UnescapeDataString. */
    const text: TextDecoders

    /** The parser's fields as a ScanSpec state. */
    ghost function State(): ParserState
      reads this
    {
      ParserState(tracks, trackOrder, albums, albumOrder, artists, artistOrder, playlists, playlistOrder,
                  unknownBomaTypes, currentTrack, currentAlbum, currentArtist, currentPlaylist)
    }

    /** The current-entity references resolve: what every handler needs. */
    ghost predicate Valid()
      reads this
    {
      Resolves(State())
    }

    constructor (text: TextDecoders)
      ensures Valid() && State() == EmptyState()
      ensures libraryId == 0 && maxCryptSize == 0 && this.text == text
    {
      tracks, trackOrder := map[], [];
      albums, albumOrder := map[], [];
      artists, artistOrder := map[], [];
      playlists, playlistOrder := map[], [];
      unknownBomaTypes := map[];
      currentTrack, currentAlbum, currentArtist, currentPlaylist := None, None, None, None;
      libraryId, maxCryptSize := 0, 0;
      this.text := text;
    }

    /** Adds a new track record under its id unless one is already there. */
    method AddTrack(id: nat)
      requires Valid()
      modifies this
      ensures State() == CreateTrack(old(State()), id)
      ensures libraryId == old(libraryId) && maxCryptSize == old(maxCryptSize)
    {
      if id !in tracks {
        tracks := tracks[id := NewTrack(id)];
        trackOrder := trackOrder + [id];
      }
    }

    /** ParseHeader: reads the header fields, keeps the library id and the maximum encrypted size, skips the envelope. */
    method ParseHeader(reader: BinaryReader) returns (r: Result<LibraryHeader, DecryptError>)
      requires reader.pos == 0
      modifies this, reader
      ensures r == HeaderOf(reader.data)
      ensures r.Success? ==> libraryId == r.value.libraryId && maxCryptSize == r.value.maxCryptSize
      ensures r.Success? ==> reader.pos == Max(88, Min(r.value.envelopeLength, |reader.data|))
      ensures State() == old(State())
    {
      r := ReadHeader(reader);
      if r.Success? {
        libraryId := r.value.libraryId;
        maxCryptSize := r.value.maxCryptSize;
      }
    }

    // -------------------------------------------------------------------------------------
    // Item sections. Each is entered with the reader just after the tag and length fields.

    /** ParseAlbumItem: creates the album if its id is new, then jumps to the section's end. */
    method ParseAlbumItem(reader: BinaryReader, sectionLength: nat) returns (faulted: bool)
      requires Valid() && reader.pos >= 8
      modifies this, reader
      ensures var s := AlbumItem(old(State()), reader.data, old(reader.pos) - 8, sectionLength);
              State() == s.st && reader.pos == s.pos && faulted == s.faulted
      ensures libraryId == old(libraryId) && maxCryptSize == old(maxCryptSize)
    {
      var sectionStart := reader.pos - 8;
      var associatedLength := reader.ReadUInt32();
      if associatedLength.None? { return true; }
      var bomaCount := reader.ReadUInt32();
      if bomaCount.None? { return true; }
      var albumId := reader.ReadUInt64();
      if albumId.None? { return true; }
      var id := albumId.value;
      if id !in albums {
        albums := albums[id := Album(id, None, None, None)];
        albumOrder := albumOrder + [id];
      }
      reader.Seek(sectionStart + 24);
      reader.Seek(sectionStart + sectionLength);
      return false;
    }

    /** ParseArtistItem: creates the artist if its id is new and makes it current. */
    method ParseArtistItem(reader: BinaryReader, sectionLength: nat) returns (faulted: bool)
      requires Valid() && reader.pos >= 8
      modifies this, reader
      ensures var s := ArtistItem(old(State()), reader.data, old(reader.pos) - 8);
              State() == s.st && reader.pos == s.pos && faulted == s.faulted
      ensures libraryId == old(libraryId) && maxCryptSize == old(maxCryptSize)
    {
      var sectionStart := reader.pos - 8;
      var associatedLength := reader.ReadUInt32();
      if associatedLength.None? { return true; }
      var bomaCount := reader.ReadUInt32();
      if bomaCount.None? { return true; }
      var artistId := reader.ReadUInt64();
      if artistId.None? { return true; }
      var id := artistId.value;
      if id !in artists {
        artists := artists[id := Artist(id, None)];
        artistOrder := artistOrder + [id];
      }
      currentArtist := Some(id);
      reader.Seek(sectionStart + 24);
      return false;
    }

    /** ParsePlaylistItem: the playlist under the key (id, section start), made current, with its dates. */
    method ParsePlaylistItem(reader: BinaryReader, sectionLength: nat) returns (faulted: bool)
      requires Valid() && reader.pos >= 8
      modifies this, reader
      ensures var s := PlaylistItem(old(State()), reader.data, old(reader.pos) - 8, sectionLength, libraryId);
              State() == s.st && reader.pos == s.pos && faulted == s.faulted
      ensures libraryId == old(libraryId) && maxCryptSize == old(maxCryptSize)
    {
      var sectionStart := reader.pos - 8;
      var head := ReadPlaylistHead(reader, sectionStart, sectionLength, libraryId);
      if head.HeadFault? { return true; }
      var trackCount, id, parentId, distinguishedKind :=
        head.head.trackCount, head.head.id, head.head.parentId, head.head.kind;
      var key := PlaylistKey(id, sectionStart);
      var playlistType;
      if trackCount == 0 && distinguishedKind == 0 {
        playlistType := Folder;
      } else if distinguishedKind != 0 {
        playlistType := System;
      } else {
        playlistType := Manual;
      }
      AddPlaylist(key, Playlist(id, None, trackCount, playlistType, parentId, distinguishedKind,
                                false, id == 5, None, None, []));
      currentPlaylist := Some(key);
      var playlist;
      playlist, faulted := ReadPlaylistDates(reader, playlists[key], sectionStart, sectionLength);
      playlists := playlists[key := playlist];
    }

    /** Adds a playlist under its key unless one is already there. */
    method AddPlaylist(key: PlaylistKey, p: Playlist)
      requires Valid()
      modifies this
      ensures State() == CreatePlaylist(old(State()), key, p)
      ensures libraryId == old(libraryId) && maxCryptSize == old(maxCryptSize)
    {
      if key !in playlists {
        playlists := playlists[key := p];
        playlistOrder := playlistOrder + [key];
      }
    }

    /**
     * ParseTrackItem: the track created if new and made current, then its fixed fields. The
     * source writes each field through the current-track reference, which aliases the stored
     * record; here the record is read into a local and stored back once the reads end,
     * normally or by an exception.
     */
    method ParseTrackItem(reader: BinaryReader, sectionLength: nat) returns (faulted: bool)
      requires Valid() && reader.pos >= 8
      modifies this, reader
      ensures var s := TrackItem(old(State()), reader.data, old(reader.pos) - 8, sectionLength);
              State() == s.st && reader.pos == s.pos && faulted == s.faulted
      ensures libraryId == old(libraryId) && maxCryptSize == old(maxCryptSize)
    {
      var sectionStart := reader.pos - 8;
      var unknown := reader.ReadUInt32();
      if unknown.None? { return true; }
      var bomaCount := reader.ReadUInt32();
      if bomaCount.None? { return true; }
      var trackId := reader.ReadUInt64();
      if trackId.None? { return true; }
      var id := trackId.value;
      AddTrack(id);
      currentTrack := Some(id);
      var track;
      track, faulted := ReadTrackFields(reader, tracks[id], sectionStart, sectionLength);
      tracks := tracks[id := track];
    }

    // -------------------------------------------------------------------------------------
    // boma sections. ParseBomaSection is entered just after the length field, 12 bytes in;
    // each decoder just after the subtype, 16 bytes in.

    /** ParseBomaSection: ignored while nothing is current; the subtype, read outside the decoders' catch, selects the decoder. */
    method ParseBomaSection(reader: BinaryReader, sectionLength: nat) returns (faulted: bool)
      requires Valid() && reader.pos >= 12
      modifies this, reader
      ensures var s := BomaSection(old(State()), ScanInput(reader.data, libraryId, text), old(reader.pos) - 12, sectionLength);
              State() == s.st && reader.pos == s.pos && faulted == s.faulted
      ensures libraryId == old(libraryId) && maxCryptSize == old(maxCryptSize)
    {
      if currentTrack.None? && currentAlbum.None? && currentArtist.None? && currentPlaylist.None? {
        return false;
      }
      ghost var st0, inp := State(), ScanInput(reader.data, libraryId, text);
      ghost var start := reader.pos - 12;
      var subType := reader.ReadUInt32();
      if subType.None? { return true; }
      BomaSectionDispatches(st0, inp, start, sectionLength);
      assert subType.value == U32At(inp.data, start + 12);
      DispatchBoma(reader, sectionLength, subType.value, st0, inp, start);
      assert old(State()) == st0 && old(reader.pos) - 12 == start;
      assert ScanInput(reader.data, libraryId, text) == inp;
      return false;
    }

    /** The switch on the subtype. Every decoder catches its own exceptions. */
    method DispatchBoma(reader: BinaryReader, sectionLength: nat, subType: nat,
                        ghost st0: ParserState, ghost inp: ScanInput, ghost start: nat)
      requires Valid() && State() == st0 && inp == ScanInput(reader.data, libraryId, text) && reader.pos == start + 16
      modifies this, reader
      ensures var s := BomaDispatch(st0, inp, start, sectionLength, subType);
              State() == s.st && reader.pos == s.pos
      ensures libraryId == old(libraryId) && maxCryptSize == old(maxCryptSize)
    {
      if subType == NUMERICS {
        ParseBomaNumeric(reader, sectionLength);
      } else if subType in WIDECHAR_TYPES {
        ParseBomaWidechar(reader, subType);
      } else if subType == PLAYLIST_TRACK {
        ParseBomaPlaylistTrack(reader);
      } else if subType == SMART_CRITERIA {
        MarkSmartCriteria(start);
      } else if subType in BOOK_TYPES {
        ParseBomaBook(reader, sectionLength);
      } else if subType == PLAY_STATS {
        ParseBomaPlayStats(reader);
      } else if subType == FILE_URL {
        ParseBomaFileUrl(reader);
      } else {
        CountUnknownBoma(subType);
      }
    }

    /** The smart-criteria record marks the current playlist as a smart playlist. */
    method MarkSmartCriteria(ghost start: nat)
      requires Valid()
      modifies this
      ensures State() == BomaSmart(old(State()), start).st
      ensures libraryId == old(libraryId) && maxCryptSize == old(maxCryptSize)
    {
      if currentPlaylist.Some? {
        var key := currentPlaylist.value;
        playlists := playlists[key := playlists[key].(hasSmartCriteria := true, playlistType := Smart)];
      }
    }

    /** An unhandled subtype is counted in the unknown-types dictionary. */
    method CountUnknownBoma(subType: nat)
      modifies this
      ensures State() == CountUnknown(old(State()), subType)
      ensures libraryId == old(libraryId) && maxCryptSize == old(maxCryptSize)
    {
      if subType !in unknownBomaTypes {
        unknownBomaTypes := unknownBomaTypes[subType := 0];
      }
      unknownBomaTypes := unknownBomaTypes[subType := unknownBomaTypes[subType] + 1];
    }

    /** ParseBomaNumeric: the current track's numeric fields, for records of at least 180 bytes. */
    method ParseBomaNumeric(reader: BinaryReader, sectionLength: nat)
      requires Valid() && reader.pos >= 16
      modifies this, reader
      ensures var s := BomaNumeric(old(State()), reader.data, old(reader.pos) - 16, sectionLength);
              State() == s.st && reader.pos == s.pos
      ensures libraryId == old(libraryId) && maxCryptSize == old(maxCryptSize)
    {
      if currentTrack.None? || sectionLength < 180 { return; }
      var id := currentTrack.value;
      var track, faulted := ReadNumericFields(reader, tracks[id], reader.pos - 16, sectionLength);
      tracks := tracks[id := track];
    }

    /** ParseBomaWidechar: a UTF-16 string for the first current entity, unless it is blank. */
    method ParseBomaWidechar(reader: BinaryReader, subType: nat)
      requires Valid() && reader.pos >= 16
      modifies this, reader
      ensures var s := BomaWidechar(old(State()), reader.data, old(reader.pos) - 16, subType);
              State() == s.st && reader.pos == s.pos
      ensures libraryId == old(libraryId) && maxCryptSize == old(maxCryptSize)
    {
      if currentTrack.None? && currentAlbum.None? && currentArtist.None? && currentPlaylist.None? {
        return;
      }
      ghost var st0, start := State(), reader.pos - 16;
      var skipped := reader.ReadBytes(8);
      var stringLength := reader.ReadUInt32();
      if stringLength.None? { return; }
      var length := stringLength.value;
      assert start + 28 <= |reader.data| && length == U32At(reader.data, start + 24);
      if 0 < length < 10000 {
        var value := ReadWidecharString(reader, start, length);
        if !IsNullOrWhiteSpace(value) {
          SetString(subType, value);
        }
        assert old(State()) == st0 && old(reader.pos) - 16 == start;
      }
    }

    /** The widechar switch: the value goes to the first current entity, under the field its subtype names. */
    method SetString(subType: nat, value: string)
      requires Valid()
      modifies this
      ensures State() == RouteString(old(State()), subType, value)
      ensures libraryId == old(libraryId) && maxCryptSize == old(maxCryptSize)
    {
      if currentTrack.Some? {
        var id := currentTrack.value;
        tracks := tracks[id := SetTrackString(tracks[id], subType, value)];
      } else if currentAlbum.Some? {
        var id := currentAlbum.value;
        albums := albums[id := SetAlbumString(albums[id], subType, value)];
      } else if currentArtist.Some? {
        if subType == ARTIST_NAME {
          var id := currentArtist.value;
          artists := artists[id := artists[id].(name := Some(value))];
        }
      } else if currentPlaylist.Some? {
        if subType == PLAYLIST_NAME {
          var key := currentPlaylist.value;
          playlists := playlists[key := playlists[key].(name := Some(value))];
        }
      }
    }

    /** ParseBomaPlaylistTrack: an "ipfa" record adds its non-zero track id to the current playlist. */
    method ParseBomaPlaylistTrack(reader: BinaryReader)
      requires Valid() && reader.pos >= 16
      modifies this, reader
      ensures var s := BomaPlaylistTrack(old(State()), reader.data, old(reader.pos) - 16);
              State() == s.st && reader.pos == s.pos
      ensures libraryId == old(libraryId) && maxCryptSize == old(maxCryptSize)
    {
      if currentPlaylist.None? { return; }
      var bomaStart := reader.pos - 16;
      reader.Seek(bomaStart + 20);
      var ipfaSig := reader.ReadBytes(4);
      if ipfaSig != IPFA { return; }
      reader.Seek(bomaStart + 40);
      var trackId := reader.ReadUInt64();
      if trackId.None? { return; }
      if trackId.value != 0 {
        var key := currentPlaylist.value;
        playlists := playlists[key := playlists[key].(trackIds := playlists[key].trackIds + [trackId.value])];
      }
    }

    /** ParseBomaBook: a "book" record gives the current track a file path made of its kept fragments. */
    method ParseBomaBook(reader: BinaryReader, sectionLength: nat)
      requires Valid() && reader.pos >= 16
      modifies this, reader
      ensures var s := BomaBook(old(State()), reader.data, old(reader.pos) - 16, sectionLength, text.utf8);
              State() == s.st && reader.pos == s.pos
      ensures libraryId == old(libraryId) && maxCryptSize == old(maxCryptSize)
    {
      if currentTrack.None? { return; }
      var path := ReadBook(reader, reader.pos - 16, sectionLength, text.utf8);
      if path.Some? {
        var id := currentTrack.value;
        tracks := tracks[id := tracks[id].(filePath := path)];
      }
    }

    /** ParseBomaPlayStats: the current track's last-played date and play count. */
    method ParseBomaPlayStats(reader: BinaryReader)
      requires Valid() && reader.pos >= 16
      modifies this, reader
      ensures var s := BomaPlayStats(old(State()), reader.data, old(reader.pos) - 16);
              State() == s.st && reader.pos == s.pos
      ensures libraryId == old(libraryId) && maxCryptSize == old(maxCryptSize)
    {
      if currentTrack.None? { return; }
      ghost var st0, start := State(), reader.pos - 16;
      var padding := reader.ReadUInt32();
      if padding.None? { return; }
      var persistentId := reader.ReadUInt64();
      if persistentId.None? { return; }
      var playDate := reader.ReadUInt32();
      if playDate.None? { return; }
      var playCount := reader.ReadUInt32();
      if playCount.None? { return; }
      var id := currentTrack.value;
      tracks := tracks[id := tracks[id].(playCount := Some(ToInt32(playCount.value)), lastPlayed := AppleDate(playDate.value))];
    }

    /** ParseBomaFileUrl: the current track's file URL, decoded and unescaped, without its file:/// scheme. */
    method ParseBomaFileUrl(reader: BinaryReader)
      requires Valid() && reader.pos >= 16
      modifies this, reader
      ensures var s := BomaFileUrl(old(State()), reader.data, old(reader.pos) - 16, text);
              State() == s.st && reader.pos == s.pos
      ensures libraryId == old(libraryId) && maxCryptSize == old(maxCryptSize)
    {
      if currentTrack.None? { return; }
      ghost var st0, start := State(), reader.pos - 16;
      var urlLength := ReadFileUrlHead(reader);
      if urlLength.None? { return; }
      var length := urlLength.value;
      if 0 < length < 1000 {
        var urlBytes := reader.ReadBytes(length);
        var url := text.unescapeData(text.utf8(urlBytes));
        if StartsWith(url, "file:///") {
          url := "/" + url[8..];
        }
        assert url == StripFileScheme(text.unescapeData(text.utf8(urlBytes)));
        var id := currentTrack.value;
        tracks := tracks[id := tracks[id].(fileUrl := Some(url))];
        assert State() == WithCurrentTrack(st0, CurrentTrack(st0).(fileUrl := Some(url)));
      }
    }

    // -------------------------------------------------------------------------------------
    // The section loop.

    /**
     * One case of the switch of ParseInnerSections, entered just after the length field: the
     * context resets of the master tags, the item parsers, and the boma decoders.
     */
    method ParseSection(reader: BinaryReader, startPos: nat, tag: Tag, sectionSize: nat) returns (faulted: bool)
      requires Valid() && startPos + 4 <= |reader.data| && tag == TagOf(reader.data[startPos..startPos + 4])
      requires reader.pos == if tag == Boma then startPos + 12 else startPos + 8
      modifies this, reader
      ensures var s := Dispatch(old(State()), ScanInput(reader.data, libraryId, text), startPos, sectionSize);
              State() == s.st && reader.pos == s.pos && faulted == s.faulted
      ensures libraryId == old(libraryId) && maxCryptSize == old(maxCryptSize)
    {
      if tag in {Iama, IamaArtist, Lpma, Itma, Boma} {
        faulted := ParseEntitySection(reader, startPos, tag, sectionSize);
      } else {
        faulted := ResetContext(reader, startPos, tag, sectionSize);
      }
    }

    /** The master tags close the current entity of their kind and skip their section; ltma reads its count. */
    method ResetContext(reader: BinaryReader, startPos: nat, tag: Tag, sectionSize: nat) returns (faulted: bool)
      requires Valid() && startPos + 4 <= |reader.data| && tag == TagOf(reader.data[startPos..startPos + 4])
      requires tag !in {Iama, IamaArtist, Lpma, Itma, Boma} && reader.pos == startPos + 8
      modifies this, reader
      ensures var s := Dispatch(old(State()), ScanInput(reader.data, libraryId, text), startPos, sectionSize);
              State() == s.st && reader.pos == s.pos && faulted == s.faulted
      ensures libraryId == old(libraryId) && maxCryptSize == old(maxCryptSize)
    {
      DispatchMasters(State(), ScanInput(reader.data, libraryId, text), startPos, sectionSize);
      match tag
      case Lama => faulted := CloseMaster(reader, startPos, tag, sectionSize);
      case LamaArtists => faulted := CloseMaster(reader, startPos, tag, sectionSize);
      case LpmaMaster => faulted := CloseMaster(reader, startPos, tag, sectionSize);
      case Ltma =>
        currentTrack := None;
        var trackCount := reader.ReadUInt32();
        faulted := trackCount.None?;
      case Other =>
        faulted := false;
    }

    /** lama, lAma and lPma: the current album, artist or playlist is closed and the section skipped whole. */
    method CloseMaster(reader: BinaryReader, startPos: nat, tag: Tag, sectionSize: nat) returns (faulted: bool)
      requires tag in {Lama, LamaArtists, LpmaMaster}
      modifies this, reader
      ensures tag == Lama ==> State() == old(State()).(currentAlbum := None)
      ensures tag == LamaArtists ==> State() == old(State()).(currentArtist := None)
      ensures tag == LpmaMaster ==> State() == old(State()).(currentPlaylist := None)
      ensures reader.pos == startPos + sectionSize && !faulted
      ensures libraryId == old(libraryId) && maxCryptSize == old(maxCryptSize)
    {
      if tag == Lama {
        currentAlbum := None;
      } else if tag == LamaArtists {
        currentArtist := None;
      } else {
        currentPlaylist := None;
      }
      reader.Seek(startPos + sectionSize);
      faulted := false;
    }

    /** The item tags close the other entities and hand over to their parser; boma to the decoders. */
    method ParseEntitySection(reader: BinaryReader, startPos: nat, tag: Tag, sectionSize: nat) returns (faulted: bool)
      requires Valid() && startPos + 4 <= |reader.data| && tag == TagOf(reader.data[startPos..startPos + 4])
      requires tag in {Iama, IamaArtist, Lpma, Itma, Boma}
      requires reader.pos == if tag == Boma then startPos + 12 else startPos + 8
      modifies this, reader
      ensures var s := Dispatch(old(State()), ScanInput(reader.data, libraryId, text), startPos, sectionSize);
              State() == s.st && reader.pos == s.pos && faulted == s.faulted
      ensures libraryId == old(libraryId) && maxCryptSize == old(maxCryptSize)
    {
      match tag
      case Iama => faulted := ParseAlbumSection(reader, startPos, sectionSize);
      case IamaArtist => faulted := ParseArtistSection(reader, startPos, sectionSize);
      case Lpma =>
        DispatchPlaylist(State(), ScanInput(reader.data, libraryId, text), startPos, sectionSize);
        faulted := ParsePlaylistSection(reader, startPos, sectionSize);
      case Itma => faulted := ParseTrackItem(reader, sectionSize);
      case Boma => faulted := ParseBomaSection(reader, sectionSize);
    }

    /** iama: a new current album; no current track or artist. */
    method ParseAlbumSection(reader: BinaryReader, startPos: nat, sectionSize: nat) returns (faulted: bool)
      requires Valid() && startPos + 4 <= |reader.data| && TagOf(reader.data[startPos..startPos + 4]) == Iama
      requires reader.pos == startPos + 8
      modifies this, reader
      ensures var s := Dispatch(old(State()), ScanInput(reader.data, libraryId, text), startPos, sectionSize);
              State() == s.st && reader.pos == s.pos && faulted == s.faulted
      ensures libraryId == old(libraryId) && maxCryptSize == old(maxCryptSize)
    {
      ghost var st0, inp := State(), ScanInput(reader.data, libraryId, text);
      ghost var cleared := st0.(currentTrack := None, currentArtist := None);
      assert Dispatch(st0, inp, startPos, sectionSize) == AlbumItem(cleared, reader.data, startPos, sectionSize);
      currentTrack, currentArtist := None, None;
      assert State() == cleared;
      faulted := ParseAlbumItem(reader, sectionSize);
      assert old(State()) == st0 && ScanInput(reader.data, libraryId, text) == inp;
    }

    /** iama (artist): a new current artist; no current track or album. */
    method ParseArtistSection(reader: BinaryReader, startPos: nat, sectionSize: nat) returns (faulted: bool)
      requires Valid() && startPos + 4 <= |reader.data| && TagOf(reader.data[startPos..startPos + 4]) == IamaArtist
      requires reader.pos == startPos + 8
      modifies this, reader
      ensures var s := Dispatch(old(State()), ScanInput(reader.data, libraryId, text), startPos, sectionSize);
              State() == s.st && reader.pos == s.pos && faulted == s.faulted
      ensures libraryId == old(libraryId) && maxCryptSize == old(maxCryptSize)
    {
      ghost var st0, inp := State(), ScanInput(reader.data, libraryId, text);
      ghost var cleared := st0.(currentTrack := None, currentAlbum := None);
      assert Dispatch(st0, inp, startPos, sectionSize) == ArtistItem(cleared, reader.data, startPos);
      currentTrack, currentAlbum := None, None;
      assert State() == cleared;
      faulted := ParseArtistItem(reader, sectionSize);
      assert old(State()) == st0 && ScanInput(reader.data, libraryId, text) == inp;
    }

    /** lpma: a new current playlist; no current track, album or artist. */
    method ParsePlaylistSection(reader: BinaryReader, startPos: nat, sectionSize: nat) returns (faulted: bool)
      requires Valid() && reader.pos == startPos + 8
      modifies this, reader
      ensures var s := PlaylistItem(old(State()).(currentTrack := None, currentAlbum := None, currentArtist := None),
                                    reader.data, startPos, sectionSize, libraryId);
              State() == s.st && reader.pos == s.pos && faulted == s.faulted
      ensures libraryId == old(libraryId) && maxCryptSize == old(maxCryptSize)
    {
      ghost var cleared := State().(currentTrack := None, currentAlbum := None, currentArtist := None);
      currentTrack, currentAlbum, currentArtist := None, None, None;
      assert State() == cleared;
      faulted := ParsePlaylistItem(reader, sectionSize);
      assert old(State()).(currentTrack := None, currentAlbum := None, currentArtist := None) == cleared;
    }

    /**
     * ParseInnerSections: the section loop from the reader's position, the number of length
     * fields read and why the loop ended. Where the source would revisit a zero-length section
     * forever, the loop stops with NoProgress.
     */
    method ParseInnerSections(reader: BinaryReader) returns (sectionCount: nat, outcome: Outcome)
      requires Valid()
      modifies this, reader
      ensures var r := Scan(old(State()), ScanInput(reader.data, libraryId, text), old(reader.pos), 0);
              State() == r.st && sectionCount == r.sections && outcome == r.outcome
      ensures libraryId == old(libraryId) && maxCryptSize == old(maxCryptSize)
    {
      ghost var inp := ScanInput(reader.data, libraryId, text);
      ghost var st0, pos0 := State(), reader.pos;
      sectionCount := 0;
      while reader.pos + 8 < |reader.data|
        invariant Valid() && libraryId == old(libraryId) && maxCryptSize == old(maxCryptSize)
        invariant Scan(State(), inp, reader.pos, sectionCount) == Scan(st0, inp, pos0, 0)
        decreases |reader.data| - reader.pos
      {
        var stop;
        sectionCount, stop := ParseNextSection(reader, inp, sectionCount);
        if stop.Some? {
          return sectionCount, stop.value;
        }
      }
      return sectionCount, EndOfData;
    }

    /**
     * One pass of the section loop: the head at the cursor, the handler, then the jump to the
     * section's end; `stop` says why the loop ends after it, if it does.
     */
    method ParseNextSection(reader: BinaryReader, ghost inp: ScanInput, sectionCount: nat) returns (count: nat, stop: Option<Outcome>)
      requires Valid() && inp == ScanInput(reader.data, libraryId, text) && reader.pos + 8 < |reader.data|
      modifies this, reader
      ensures Valid() && libraryId == old(libraryId) && maxCryptSize == old(maxCryptSize)
      ensures stop.None? ==> old(reader.pos) < reader.pos
                             && Scan(State(), inp, reader.pos, count) == Scan(old(State()), inp, old(reader.pos), sectionCount)
      ensures stop.Some? ==> Scan(old(State()), inp, old(reader.pos), sectionCount) == ScanResult(State(), count, stop.value)
    {
      var startPos := reader.pos;
      ghost var st := State();
      var zero, tag, size := ReadSectionHead(reader);
      if zero {
        return sectionCount, Some(ZeroTag);
      }
      if size.None? {
        return sectionCount, Some(Fault);
      }
      ghost var s := Dispatch(st, inp, startPos, size.value);
      count := sectionCount + 1;
      var faulted := ParseSection(reader, startPos, tag, size.value);
      if faulted {
        return count, Some(Fault);
      }
      var nextPos := startPos + size.value;
      if nextPos <= |reader.data| {
        reader.Seek(nextPos);
      }
      assert reader.pos == NextPos(inp.data, startPos, size.value, s.pos);
      if reader.pos <= startPos {
        return count, Some(NoProgress);
      }
      stop := None;
    }
  }

  /**
   * Parse on a fresh parser: the header from the file, the key, the decrypted and inflated
   * payload, then the section loop over it from its start; the dictionaries' values in
   * insertion order make up the library.
   */
  method Parse(file: seq<Byte>, keyVariable: Option<string>, cipher: BlockCipher, inflate: Inflater, text: TextDecoders)
    returns (r: Result<MusicLibrary, ParseError>)
    ensures r == ParseLibrary(file, keyVariable, cipher, inflate, text)
  {
    var parser := new MusicDbParser(text);
    var reader := new BinaryReader(file);
    var header := parser.ParseHeader(reader);
    if header.Failure? {
      return Failure(HeaderFailed(header.error));
    }
    var key := GetAesKey(keyVariable);
    if key.Failure? {
      return Failure(KeyFailed(key.error));
    }
    var decrypted := DecryptAndDecompressFile(file, key.value, cipher, inflate);
    if decrypted.Failure? {
      return Failure(DecryptFailed(decrypted.error));
    }
    parser.maxCryptSize := decrypted.value.maxCryptSize;
    r := ScanPayload(parser, header.value, decrypted.value.data);
  }

  /** The section loop over the decrypted payload on a parser that holds no entity yet. */
  method ScanPayload(parser: MusicDbParser, header: LibraryHeader, data: seq<Byte>)
    returns (r: Result<MusicLibrary, ParseError>)
    requires parser.State() == EmptyState() && parser.libraryId == header.libraryId
    modifies parser
    ensures r == ScanLibrary(header, data, parser.text)
  {
    var reader := new BinaryReader(data);
    ghost var inp := ScanInput(data, header.libraryId, parser.text);
    var sectionCount, outcome := parser.ParseInnerSections(reader);
    ghost var scan := Scan(EmptyState(), inp, 0, 0);
    assert parser.State() == scan.st && outcome == scan.outcome;
    if outcome == NoProgress {
      return Failure(Diverges);
    }
    ScanConsistent(EmptyState(), inp, 0, 0);
    r := Success(MusicLibrary(header,
                              Values(parser.tracks, parser.trackOrder), Values(parser.albums, parser.albumOrder),
                              Values(parser.artists, parser.artistOrder), Values(parser.playlists, parser.playlistOrder)));
  }

  /** A widechar record's string: eight skipped bytes, then `length` bytes as UTF-16LE with trailing NULs trimmed. */
  method ReadWidecharString(reader: BinaryReader, ghost start: nat, length: nat) returns (value: string)
    requires reader.pos == start + 28 <= |reader.data|
    modifies reader
    ensures var bytes := Available(reader.data, start + 36, length);
            value == WidecharValue(bytes) && reader.pos == Min(start + 36, |reader.data|) + |bytes|
  {
    var skipped := reader.ReadBytes(8);
    var stringBytes := reader.ReadBytes(length);
    value := TrimEndNul(DecodeUtf16Le(stringBytes));
  }

  /** The file URL record's five fields after the subtype: padding, unknown, the URL length, padding, unknown. */
  method ReadFileUrlHead(reader: BinaryReader) returns (urlLength: Option<nat>)
    modifies reader
    ensures var p := old(reader.pos);
            && (p + 20 <= |reader.data| ==> urlLength == Some(U32At(reader.data, p + 8)) && reader.pos == p + 20)
            && (p + 20 > |reader.data| ==> urlLength.None? && reader.pos == |reader.data|)
  {
    var padding := reader.ReadUInt32();
    if padding.None? { return None; }
    var unknown := reader.ReadUInt32();
    if unknown.None? { return None; }
    urlLength := reader.ReadUInt32();
    if urlLength.None? { return None; }
    padding := reader.ReadUInt32();
    if padding.None? { return None; }
    unknown := reader.ReadUInt32();
    if unknown.None? { return None; }
  }

  /**
   * The head of the section at the reader's position: its four signature bytes, then for boma
   * the marker and the length field, for every other tag the length field.
   */
  method ReadSectionHead(reader: BinaryReader) returns (zero: bool, tag: Tag, size: Option<nat>)
    requires reader.pos + 8 < |reader.data|
    modifies reader
    ensures var p := old(reader.pos);
            && zero == ZeroTagAt(reader.data, p)
            && (!zero ==> tag == TagOf(reader.data[p..p + 4]))
            && (!zero ==> (size.None? <==> tag == Boma && p + 12 > |reader.data|))
            && (!zero && size.Some? ==> size.value == SizeField(reader.data, p)
                                        && reader.pos == if tag == Boma then p + 12 else p + 8)
  {
    var startPos := reader.pos;
    var signature := reader.ReadBytes(4);
    assert signature == reader.data[startPos..startPos + 4];
    zero := signature == [0, 0, 0, 0];
    assert zero ==> forall i | startPos <= i < startPos + 4 :: reader.data[i] == signature[i - startPos];
    assert !zero ==> signature[0] != 0 || signature[1] != 0 || signature[2] != 0 || signature[3] != 0;
    tag := TagOf(signature);
    if tag == Boma {
      var marker := reader.ReadUInt32();
      size := reader.ReadUInt32();
    } else {
      size := reader.ReadUInt32();
    }
  }

  /** The reads of ParsePlaylistItem before the record is created. */
  method ReadPlaylistHead(reader: BinaryReader, sectionStart: nat, sectionLength: nat, libraryId: nat)
    returns (r: HeadRead)
    modifies reader
    ensures r == PlaylistHeadAt(reader.data, sectionStart, sectionLength, libraryId)
    ensures r.HeadFault? ==> reader.pos == r.pos
  {
    reader.Seek(sectionStart + 12);
    var bomaCount := reader.ReadInt32();
    if bomaCount.None? { return HeadFault(reader.pos); }
    var trackCount := reader.ReadInt32();
    if trackCount.None? { return HeadFault(reader.pos); }
    reader.Seek(sectionStart + 30);
    var playlistId := reader.ReadUInt64();
    if playlistId.None? { return HeadFault(reader.pos); }
    var parentId: nat := 0;
    if sectionLength >= 58 {
      reader.Seek(sectionStart + 50);
      var parent := reader.ReadUInt64();
      if parent.None? { return HeadFault(reader.pos); }
      parentId := parent.value;
      if parentId == libraryId {
        parentId := 0;
      }
    }
    var distinguishedKind: int := 0;
    if sectionLength >= 82 {
      var distKindOffset := if parentId == 0 then 79 else 80;
      reader.Seek(sectionStart + distKindOffset);
      var kind := reader.ReadByte();
      if kind.None? { return HeadFault(reader.pos); }
      distinguishedKind := kind.value;
    }
    return Head(PlaylistHead(trackCount.value, playlistId.value, parentId, distinguishedKind));
  }

  /** The playlist's dates, written through the current-playlist reference in the source. */
  method ReadPlaylistDates(reader: BinaryReader, p: Playlist, sectionStart: nat, sectionLength: nat)
    returns (playlist: Playlist, faulted: bool)
    requires sectionLength >= 26 ==> sectionStart + 26 <= |reader.data|
    modifies reader
    ensures PlaylistDates(p, reader.data, sectionStart, sectionLength) == PlaylistStep(playlist, reader.pos, faulted)
  {
    playlist := p;
    if sectionLength >= 26 {
      reader.Seek(sectionStart + 22);
      var createdDate := reader.ReadUInt32();
      playlist := playlist.(createdAt := AppleDate(createdDate.value));
    }
    if sectionLength >= 142 {
      reader.Seek(sectionStart + 138);
      var modifiedDate := reader.ReadUInt32();
      if modifiedDate.None? { return playlist, true; }
      playlist := playlist.(modifiedAt := AppleDate(modifiedDate.value));
    }
    reader.Seek(sectionStart + 47);
    return playlist, false;
  }

  /** The fields of a track section from offset 62 on, each stored only when it passes its gate. */
  method ReadTrackFields(reader: BinaryReader, t: Track, sectionStart: nat, sectionLength: nat)
    returns (track: Track, faulted: bool)
    requires reader.pos == sectionStart + 24
    modifies reader
    ensures TrackFields(t, reader.data, sectionStart, sectionLength) == TrackStep(track, reader.pos, faulted)
  {
    track, faulted := t, false;
    if sectionLength >= 66 {
      reader.Seek(sectionStart + 65);
      var rating := reader.ReadByte();
      if rating.None? { return track, true; }
      if 0 < rating.value <= 100 {
        track := track.(rating := Some(rating.value));
      }
    }
    if sectionLength >= 63 {
      reader.Seek(sectionStart + 62);
      var likeStatus := reader.ReadByte();
      if likeStatus.None? { return track, true; }
      if likeStatus.value <= 3 {
        track := track.(likeStatus := Some(LikeStatusOf(likeStatus.value)));
      }
    }
    if sectionLength >= 172 {
      track, faulted := ReadTrackNumbers(reader, track, sectionStart);
    }
  }

  /** Movement count and number, track number, year, album and artist references. */
  method ReadTrackNumbers(reader: BinaryReader, t: Track, sectionStart: nat) returns (track: Track, faulted: bool)
    modifies reader
    ensures TrackNumbers(t, reader.data, sectionStart) == TrackStep(track, reader.pos, faulted)
  {
    track, faulted := ReadTrackMovements(reader, t, sectionStart);
    if faulted { return; }
    track, faulted := ReadTrackNumberAndYear(reader, track, sectionStart);
    if faulted { return; }
    track, faulted := ReadTrackReferences(reader, track, sectionStart);
  }

  method ReadTrackMovements(reader: BinaryReader, t: Track, sectionStart: nat) returns (track: Track, faulted: bool)
    modifies reader
    ensures TrackMovements(t, reader.data, sectionStart) == TrackStep(track, reader.pos, faulted)
  {
    track := t;
    reader.Seek(sectionStart + 86);
    var movementCount := reader.ReadUInt16();
    if movementCount.None? { return track, true; }
    if 0 < movementCount.value < 1000 {
      track := track.(movementCount := Some(movementCount.value));
    }
    var movementNumber := reader.ReadUInt16();
    if movementNumber.None? { return track, true; }
    if 0 < movementNumber.value < 1000 {
      track := track.(movementNumber := Some(movementNumber.value));
    }
    return track, false;
  }

  method ReadTrackNumberAndYear(reader: BinaryReader, t: Track, sectionStart: nat) returns (track: Track, faulted: bool)
    modifies reader
    ensures TrackNumberAndYear(t, reader.data, sectionStart) == TrackStep(track, reader.pos, faulted)
  {
    track := t;
    reader.Seek(sectionStart + 160);
    var trackNumber := reader.ReadUInt16();
    if trackNumber.None? { return track, true; }
    if 0 < trackNumber.value < 10000 {
      track := track.(trackNumber := Some(trackNumber.value));
    }
    var skipped := reader.ReadBytes(6);
    var year := reader.ReadInt32();
    if year.None? { return track, true; }
    if 1900 < year.value < 2100 {
      track := track.(year := Some(year.value));
    }
    return track, false;
  }

  method ReadTrackReferences(reader: BinaryReader, t: Track, sectionStart: nat) returns (track: Track, faulted: bool)
    requires reader.pos == sectionStart + 172
    modifies reader
    ensures TrackReferences(t, reader.data, sectionStart) == TrackStep(track, reader.pos, faulted)
  {
    track := t;
    reader.Seek(sectionStart + 172);
    var albumRef := reader.ReadUInt64();
    if albumRef.None? { return track, true; }
    if albumRef.value != 0 {
      track := track.(albumRef := Some(albumRef.value));
    }
    var artistRef := reader.ReadUInt64();
    if artistRef.None? { return track, true; }
    if artistRef.value != 0 {
      track := track.(artistRef := Some(artistRef.value));
    }
    return track, false;
  }

  /** The numeric fields of ParseBomaNumeric, written through the current-track reference in the source. */
  method ReadNumericFields(reader: BinaryReader, t: Track, bomaStart: nat, sectionLength: nat)
    returns (track: Track, faulted: bool)
    requires reader.pos == bomaStart + 16
    modifies reader
    ensures NumericFields(t, reader.data, bomaStart, sectionLength) == TrackStep(track, reader.pos, faulted)
  {
    track := t;
    var skipped := reader.ReadBytes(92);
    var bitRate := reader.ReadUInt32();
    if bitRate.None? { return track, true; }
    assert reader.pos == bomaStart + 112;
    track := track.(bitRate := Some(ToInt32(bitRate.value)));
    var dateAdded := reader.ReadUInt32();
    if dateAdded.None? { return track, true; }
    track := track.(dateAdded := AppleDate(dateAdded.value));
    track, faulted := ReadNumericTail(reader, track, bomaStart, sectionLength);
  }

  /** The reads after the date added, from 116 bytes into the record. */
  method ReadNumericTail(reader: BinaryReader, t: Track, bomaStart: nat, sectionLength: nat)
    returns (track: Track, faulted: bool)
    requires reader.pos == bomaStart + 116
    modifies reader
    ensures NumericTail(t, reader.data, bomaStart, sectionLength) == TrackStep(track, reader.pos, faulted)
  {
    track := t;
    var skipped := reader.ReadBytes(32);
    var dateModified := reader.ReadUInt32();
    if dateModified.None? { return track, true; }
    assert reader.pos == bomaStart + 152;
    track := track.(dateModified := AppleDate(dateModified.value));
    skipped := reader.ReadBytes(24);
    var duration := reader.ReadUInt32();
    if duration.None? { return track, true; }
    assert reader.pos == bomaStart + 180;
    track := track.(duration := Some(ToInt32(duration.value)));
    if sectionLength >= 320 {
      skipped := reader.ReadBytes(136);
      var fileSize := reader.ReadUInt32();
      if fileSize.None? { return track, true; }
      track := track.(fileSize := Some(fileSize.value));
    }
    return track, false;
  }

  /** The reads of ParseBomaBook: the "book" signature at 20, then the fragment loop; the path when a fragment was kept. */
  method ReadBook(reader: BinaryReader, bomaStart: nat, sectionLength: nat, utf8: seq<Byte> -> string)
    returns (path: Option<string>)
    modifies reader
    ensures BookPath(reader.data, utf8, bomaStart, sectionLength) == BookRead(path, reader.pos)
  {
    reader.Seek(bomaStart + 20);
    var bookSig := reader.ReadBytes(4);
    if bookSig != BOOK { return None; }
    var pathParts, faulted := ReadBookPath(reader, bomaStart + sectionLength, utf8);
    if faulted { return None; }
    if |pathParts| > 0 {
      return Some(Join("/", pathParts));
    }
    return None;
  }

  /**
   * The fragment loop of ParseBomaBook, from the reader's position to endPos: the kept
   * fragments, or a fault when a read throws.
   */
  method ReadBookPath(reader: BinaryReader, endPos: nat, utf8: seq<Byte> -> string)
    returns (pathParts: seq<string>, faulted: bool)
    modifies reader
    ensures BookScan(reader.data, utf8, old(reader.pos), endPos, old(reader.pos), []) ==
              if faulted then None else Some(BookScanResult(pathParts, reader.pos))
    ensures faulted ==> reader.pos == |reader.data|
  {
    pathParts := [];
    var pos := reader.pos;
    ghost var start := reader.pos;
    while pos + 8 < endPos
      invariant BookScan(reader.data, utf8, pos, endPos, reader.pos, pathParts) ==
                BookScan(reader.data, utf8, start, endPos, start, [])
      decreases endPos - pos
    {
      var step := ReadFragment(reader, pos, utf8);
      if step.FragmentFault? { return pathParts, true; }
      pathParts := pathParts + step.kept;
      pos := step.next;
    }
    return pathParts, false;
  }

  /** One turn of the fragment loop: the length word at pos, the marker, the fragment and its padding. */
  method ReadFragment(reader: BinaryReader, pos: nat, utf8: seq<Byte> -> string) returns (r: FragmentStep)
    modifies reader
    ensures r == FragmentAt(reader.data, utf8, pos)
    ensures r.FragmentFault? ==> reader.pos == |reader.data|
    ensures r.Fragment? ==> reader.pos == r.readerPos
  {
    reader.Seek(pos);
    var strLen := reader.ReadUInt32();
    if strLen.None? { return FragmentFault; }
    var length := strLen.value;
    if !(0 < length < 1000) { return Fragment(pos + 4, reader.pos, []); }
    var marker := reader.ReadUInt32();
    if marker.None? { return FragmentFault; }
    if marker.value != 0x0101 { return Fragment(pos + 4, reader.pos, []); }
    r := ReadFragmentBody(reader, pos, length, utf8);
  }

  /** The fragment's bytes after its length word and marker, decoded and trimmed, then the padding skipped over. */
  method ReadFragmentBody(reader: BinaryReader, pos: nat, length: nat, utf8: seq<Byte> -> string) returns (r: FragmentStep)
    requires reader.pos == pos + 8
    modifies reader
    ensures r == FragmentBody(reader.data, utf8, pos, length) && reader.pos == r.readerPos
  {
    var strBytes := reader.ReadBytes(length);
    var str := TrimEndNul(utf8(strBytes));
    var kept := if !IsNullOrWhiteSpace(str) && KeepFragment(str) then [str] else [];
    var padding := (4 - length % 4) % 4;
    return Fragment(reader.pos + padding, reader.pos, kept);
  }
}
