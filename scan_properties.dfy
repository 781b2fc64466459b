/**
 * What the section scanner promises, stated over the ScanSpec functions: how each tag moves
 * the current-entity references, that items reuse existing records, the plausibility gates of
 * track sections, how playlists are classified, what the boma decoders may change, which book
 * fragments make up a path, and how the section loop ends.
 */
module ScanProperties {
  import opened Wrappers
  import opened Bytes
  import opened Text
  import opened Models
  import opened ScanSpec
  import opened ScanInvariant

  // ---------------------------------------------------------------------------------------
  // Context transitions.

  /** The dictionaries and the unknown-subtype counters of two states agree. */
  predicate SameMaps(a: ParserState, b: ParserState)
  {
    && a.tracks == b.tracks && a.trackOrder == b.trackOrder
    && a.albums == b.albums && a.albumOrder == b.albumOrder
    && a.artists == b.artists && a.artistOrder == b.artistOrder
    && a.playlists == b.playlists && a.playlistOrder == b.playlistOrder
    && a.unknownBomaTypes == b.unknownBomaTypes
  }

  /**
   * The master tags lama, lAma, lPma and ltma each clear exactly one reference and change
   * nothing else; lama, lAma and lPma skip their whole section.
   */
  lemma {:induction false} MasterTagsClearOne(st: ParserState, inp: ScanInput, start: nat, size: nat)
    requires Resolves(st) && start + 4 <= |inp.data|
    requires TagOf(inp.data[start..start + 4]) in {Lama, LamaArtists, LpmaMaster, Ltma}
    ensures var r := Dispatch(st, inp, start, size);
            && SameMaps(r.st, st)
            && (TagOf(inp.data[start..start + 4]) == Lama ==>
                  r.st == st.(currentAlbum := None) && r.pos == start + size && !r.faulted)
            && (TagOf(inp.data[start..start + 4]) == LamaArtists ==>
                  r.st == st.(currentArtist := None) && r.pos == start + size && !r.faulted)
            && (TagOf(inp.data[start..start + 4]) == LpmaMaster ==>
                  r.st == st.(currentPlaylist := None) && r.pos == start + size && !r.faulted)
            && (TagOf(inp.data[start..start + 4]) == Ltma ==>
                  r.st == st.(currentTrack := None) && (r.faulted <==> start + 12 > |inp.data|))
  {
  }

  /** iama clears the track and artist references and leaves the album and playlist references alone. */
  lemma {:induction false} IamaContext(st: ParserState, inp: ScanInput, start: nat, size: nat)
    requires Resolves(st) && start + 4 <= |inp.data| && TagOf(inp.data[start..start + 4]) == Iama
    ensures var r := Dispatch(st, inp, start, size);
            && r.st.currentTrack.None? && r.st.currentArtist.None?
            && r.st.currentAlbum == st.currentAlbum && r.st.currentPlaylist == st.currentPlaylist
  {
    var r := AlbumItem(st.(currentTrack := None, currentArtist := None), inp.data, start, size);
    assert Dispatch(st, inp, start, size).st == r.st;
  }

  /** iAma clears the track and album references and, once its id is read, makes that artist current. */
  lemma {:induction false} IamaArtistContext(st: ParserState, inp: ScanInput, start: nat, size: nat)
    requires Resolves(st) && start + 4 <= |inp.data| && TagOf(inp.data[start..start + 4]) == IamaArtist
    ensures var r := Dispatch(st, inp, start, size);
            && r.st.currentTrack.None? && r.st.currentAlbum.None? && r.st.currentPlaylist == st.currentPlaylist
            && (start + 24 <= |inp.data| ==> r.st.currentArtist == Some(U64At(inp.data, start + 16)) && !r.faulted)
            && (start + 24 > |inp.data| ==> r.st.currentArtist == st.currentArtist && r.faulted)
  {
    assert Dispatch(st, inp, start, size) == ArtistItem(st.(currentTrack := None, currentAlbum := None), inp.data, start);
  }

  /**
   * lpma clears the track, album and artist references and, once its head is read, makes the
   * playlist stored under (id, section start) current.
   */
  lemma {:induction false} LpmaContext(st: ParserState, inp: ScanInput, start: nat, size: nat)
    requires Resolves(st) && start + 4 <= |inp.data| && TagOf(inp.data[start..start + 4]) == Lpma
    ensures var r := Dispatch(st, inp, start, size);
            var head := PlaylistHeadAt(inp.data, start, size, inp.libraryId);
            && r.st.currentTrack.None? && r.st.currentAlbum.None? && r.st.currentArtist.None?
            && (head.Head? ==> r.st.currentPlaylist == Some(PlaylistKey(U64At(inp.data, start + 30), start)))
            && (head.HeadFault? ==> r.st.currentPlaylist == st.currentPlaylist && r.faulted)
  {
    var cleared := st.(currentTrack := None, currentAlbum := None, currentArtist := None);
    assert Dispatch(st, inp, start, size) == PlaylistItem(cleared, inp.data, start, size, inp.libraryId);
  }

  /** itma makes its track current once the id is read, and clears nothing. */
  lemma {:induction false} ItmaContext(st: ParserState, inp: ScanInput, start: nat, size: nat)
    requires Resolves(st) && start + 4 <= |inp.data| && TagOf(inp.data[start..start + 4]) == Itma
    ensures var r := Dispatch(st, inp, start, size);
            && r.st.currentAlbum == st.currentAlbum && r.st.currentArtist == st.currentArtist
            && r.st.currentPlaylist == st.currentPlaylist
            && (start + 24 <= |inp.data| ==> r.st.currentTrack == Some(U64At(inp.data, start + 16)))
            && (start + 24 > |inp.data| ==> r.st.currentTrack == st.currentTrack && r.faulted)
  {
    assert Dispatch(st, inp, start, size) == TrackItem(st, inp.data, start, size);
  }

  /** Album records are created bare and no section writes any of their strings. */
  predicate AlbumsBare(st: ParserState)
  {
    forall id | id in st.albums :: st.albums[id] == Album(id, None, None, None)
  }

  /** No album is current and every album record is bare. */
  predicate NoAlbumData(st: ParserState)
  {
    st.currentAlbum.None? && AlbumsBare(st)
  }

  lemma {:induction false} DispatchAlbumNoAlbumData(st: ParserState, inp: ScanInput, start: nat, size: nat)
    requires Resolves(st) && start + 4 <= |inp.data| && TagOf(inp.data[start..start + 4]) == Iama && NoAlbumData(st)
    ensures NoAlbumData(Dispatch(st, inp, start, size).st)
  {
    AlbumItemBare(st.(currentTrack := None, currentArtist := None), inp.data, start, size);
  }

  lemma {:induction false} DispatchArtistNoAlbumData(st: ParserState, inp: ScanInput, start: nat, size: nat)
    requires Resolves(st) && start + 4 <= |inp.data| && TagOf(inp.data[start..start + 4]) == IamaArtist && NoAlbumData(st)
    ensures NoAlbumData(Dispatch(st, inp, start, size).st)
  {
    assert Dispatch(st, inp, start, size).st.albums == st.albums;
  }

  lemma {:induction false} DispatchPlaylistNoAlbumData(st: ParserState, inp: ScanInput, start: nat, size: nat)
    requires Resolves(st) && start + 4 <= |inp.data| && TagOf(inp.data[start..start + 4]) == Lpma && NoAlbumData(st)
    ensures NoAlbumData(Dispatch(st, inp, start, size).st)
  {
    PlaylistItemKeepsAlbums(st.(currentTrack := None, currentAlbum := None, currentArtist := None),
                            inp.data, start, size, inp.libraryId);
  }

  lemma {:induction false} DispatchTrackNoAlbumData(st: ParserState, inp: ScanInput, start: nat, size: nat)
    requires Resolves(st) && start + 4 <= |inp.data| && TagOf(inp.data[start..start + 4]) == Itma && NoAlbumData(st)
    ensures NoAlbumData(Dispatch(st, inp, start, size).st)
  {
    TrackItemKeepsAlbums(st, inp.data, start, size);
  }

  lemma {:induction false} DispatchBomaNoAlbumData(st: ParserState, inp: ScanInput, start: nat, size: nat)
    requires Resolves(st) && start + 4 <= |inp.data| && TagOf(inp.data[start..start + 4]) == Boma && NoAlbumData(st)
    ensures NoAlbumData(Dispatch(st, inp, start, size).st)
  {
    assert SameAlbums(st, BomaSection(st, inp, start, size).st);
  }

  /** No handler makes an album current, and while none is, the album dictionary only gains bare records. */
  lemma {:induction false} DispatchKeepsNoAlbumData(st: ParserState, inp: ScanInput, start: nat, size: nat)
    requires Resolves(st) && start + 4 <= |inp.data| && NoAlbumData(st)
    ensures NoAlbumData(Dispatch(st, inp, start, size).st)
  {
    match TagOf(inp.data[start..start + 4])
    case Iama => DispatchAlbumNoAlbumData(st, inp, start, size);
    case IamaArtist => DispatchArtistNoAlbumData(st, inp, start, size);
    case Lpma => DispatchPlaylistNoAlbumData(st, inp, start, size);
    case Itma => DispatchTrackNoAlbumData(st, inp, start, size);
    case Boma => DispatchBomaNoAlbumData(st, inp, start, size);
    case Lama => assert Dispatch(st, inp, start, size).st == st.(currentAlbum := None);
    case LamaArtists => assert Dispatch(st, inp, start, size).st == st.(currentArtist := None);
    case LpmaMaster => assert Dispatch(st, inp, start, size).st == st.(currentPlaylist := None);
    case Ltma => assert Dispatch(st, inp, start, size).st == st.(currentTrack := None);
    case Other => assert Dispatch(st, inp, start, size).st == st;
  }

  /** An album section adds a bare record when its id is new and never makes the album current. */
  lemma {:induction false} AlbumItemBare(st: ParserState, data: seq<Byte>, start: nat, size: nat)
    requires Resolves(st) && NoAlbumData(st)
    ensures NoAlbumData(AlbumItem(st, data, start, size).st)
  {
  }

  /** A playlist section touches only the playlists and the references. */
  lemma {:induction false} PlaylistItemKeepsAlbums(st: ParserState, data: seq<Byte>, start: nat, size: nat, libraryId: nat)
    requires Resolves(st)
    ensures var r := PlaylistItem(st, data, start, size, libraryId);
            r.st.albums == st.albums && r.st.currentAlbum == st.currentAlbum
  {
  }

  /** A track section touches only the tracks and the track reference. */
  lemma {:induction false} TrackItemKeepsAlbums(st: ParserState, data: seq<Byte>, start: nat, size: nat)
    requires Resolves(st)
    ensures var r := TrackItem(st, data, start, size);
            r.st.albums == st.albums && r.st.currentAlbum == st.currentAlbum
  {
  }

  /**
   * Over a whole scan, no album ever becomes current and every album record keeps its title,
   * artist and album artist unset.
   */
  lemma {:induction false} ScanNoAlbum(st: ParserState, inp: ScanInput, pos: nat, count: nat)
    requires Resolves(st) && NoAlbumData(st)
    ensures NoAlbumData(Scan(st, inp, pos, count).st)
    decreases |inp.data| - pos
  {
    var data := inp.data;
    if pos + 8 >= |data| || ZeroTagAt(data, pos) || (TagOf(data[pos..pos + 4]) == Boma && pos + 12 > |data|) {
    } else {
      var size := SizeField(data, pos);
      var s := Dispatch(st, inp, pos, size);
      DispatchKeepsNoAlbumData(st, inp, pos, size);
      if !s.faulted {
        var next := NextPos(data, pos, size, s.pos);
        if next > pos {
          ScanNoAlbum(s.st, inp, next, count + 1);
        }
      }
    }
  }

  // ---------------------------------------------------------------------------------------
  // Entity creation: an item whose key exists reuses the stored record.

  /** iama adds a bare album only when its id is new; an existing album stays as it was. */
  lemma {:induction false} AlbumItemReuses(st: ParserState, data: seq<Byte>, start: nat, size: nat)
    requires Resolves(st) && start + 24 <= |data|
    ensures var r := AlbumItem(st, data, start, size);
            var id := U64At(data, start + 16);
            && (id in st.albums ==> r.st.albums == st.albums && r.st.albumOrder == st.albumOrder)
            && (id !in st.albums ==>
                  r.st.albums == st.albums[id := Album(id, None, None, None)] && r.st.albumOrder == st.albumOrder + [id])
  {
  }

  /** iAma adds a bare artist only when its id is new; an existing artist stays as it was. */
  lemma {:induction false} ArtistItemReuses(st: ParserState, data: seq<Byte>, start: nat)
    requires Resolves(st) && start + 24 <= |data|
    ensures var r := ArtistItem(st, data, start);
            var id := U64At(data, start + 16);
            && (id in st.artists ==> r.st.artists == st.artists && r.st.artistOrder == st.artistOrder)
            && (id !in st.artists ==>
                  r.st.artists == st.artists[id := Artist(id, None)] && r.st.artistOrder == st.artistOrder + [id])
  {
  }

  /**
   * itma continues from the stored record when its id exists and from an empty one otherwise:
   * the fixed fields are laid over that record and no other track changes.
   */
  lemma {:induction false} TrackItemReuses(st: ParserState, data: seq<Byte>, start: nat, size: nat)
    requires Resolves(st) && start + 24 <= |data|
    ensures var r := TrackItem(st, data, start, size);
            var id := U64At(data, start + 16);
            var base := if id in st.tracks then st.tracks[id] else NewTrack(id);
            && r.st.tracks == st.tracks[id := TrackFields(base, data, start, size).track]
            && r.st.trackOrder == if id in st.tracks then st.trackOrder else st.trackOrder + [id]
  {
  }

  /**
   * lpma continues from the playlist stored under (id, section start) when there is one: only
   * its dates are read again, and its type, parent, kind and track list stay as they were.
   */
  lemma {:induction false} PlaylistItemReuses(st: ParserState, data: seq<Byte>, start: nat, size: nat, libraryId: nat)
    requires Resolves(st)
    requires PlaylistHeadAt(data, start, size, libraryId).Head?
    ensures var r := PlaylistItem(st, data, start, size, libraryId);
            var key := PlaylistKey(PlaylistHeadAt(data, start, size, libraryId).head.id, start);
            key in st.playlists ==>
              && r.st.playlists == st.playlists[key := PlaylistDates(st.playlists[key], data, start, size).playlist]
              && r.st.playlistOrder == st.playlistOrder
  {
  }

  // ---------------------------------------------------------------------------------------
  // Playlists.

  /**
   * A new playlist record: its id, its signed track count, its type from the count and the
   * distinguished kind, its parent, master exactly when its id is 5, no smart criteria and no
   * tracks; then its dates.
   */
  lemma {:induction false} PlaylistItemCreates(st: ParserState, data: seq<Byte>, start: nat, size: nat, libraryId: nat)
    requires Resolves(st)
    requires PlaylistHeadAt(data, start, size, libraryId).Head?
    ensures var h := PlaylistHeadAt(data, start, size, libraryId).head;
            var key := PlaylistKey(h.id, start);
            var r := PlaylistItem(st, data, start, size, libraryId);
            key !in st.playlists ==>
              && key in r.st.playlists
              && r.st.playlistOrder == st.playlistOrder + [key]
              && var p := r.st.playlists[key];
              && p.playlistId == h.id && p.trackCount == h.trackCount && p.name.None?
              && p.playlistType == Classify(h.trackCount, h.kind)
              && p.parentId == h.parentId && p.distinguishedKind == h.kind
              && (p.isMaster <==> h.id == 5)
              && !p.hasSmartCriteria && p.trackIds == []
  {
  }

  /**
   * The head of a playlist section: the parent is read only from sections of at least 58
   * bytes and is zero exactly when absent, zero or the library itself; the distinguished
   * kind is the byte at 79 under the root and at 80 under a parent, in sections of at least
   * 82 bytes, and zero otherwise.
   */
  lemma {:induction false} PlaylistHeadRules(data: seq<Byte>, start: nat, size: nat, libraryId: nat)
    requires PlaylistHeadAt(data, start, size, libraryId).Head?
    ensures var h := PlaylistHeadAt(data, start, size, libraryId).head;
            && h.id == U64At(data, start + 30) && h.trackCount == I32At(data, start + 16)
            && (size < 58 ==> h.parentId == 0)
            && (size >= 58 ==> (&& start + 58 <= |data|
                                && (h.parentId == 0 <==> U64At(data, start + 50) in {0, libraryId})
                                && (h.parentId != 0 ==> h.parentId == U64At(data, start + 50))))
            && (size >= 82 ==> var at := start + (if h.parentId == 0 then 79 else 80);
                                 at < |data| && h.kind == data[at] as int)
            && (size < 82 ==> h.kind == 0)
  {
  }

  /** A smart-criteria record makes the current playlist smart, whatever its type was, and changes nothing else. */
  lemma {:induction false} SmartCriteriaOverrides(st: ParserState, inp: ScanInput, start: nat, size: nat)
    requires Resolves(st) && st.currentPlaylist.Some?
    requires start + 16 <= |inp.data| && U32At(inp.data, start + 12) == SMART_CRITERIA
    ensures var r := BomaSection(st, inp, start, size);
            var key := st.currentPlaylist.value;
            var p := st.playlists[key];
            && r.st == st.(playlists := st.playlists[key := p.(hasSmartCriteria := true, playlistType := Smart)])
            && r.st.playlists[key].playlistType == Smart
  {
    assert !NothingCurrent(st);
    assert BomaSection(st, inp, start, size) == BomaSmart(st, start);
  }

  // ---------------------------------------------------------------------------------------
  // Track sections: the plausibility gates.

  /** A field the fixed fields leave alone: every one but the eight gated ones. */
  predicate SameOutsideGated(a: Track, b: Track)
  {
    b == a.(rating := b.rating, likeStatus := b.likeStatus, movementCount := b.movementCount,
            movementNumber := b.movementNumber, trackNumber := b.trackNumber, year := b.year,
            albumRef := b.albumRef, artistRef := b.artistRef)
  }

  /** Movement count at 86 and number at 88 are stored only when between 1 and 999. */
  lemma {:induction false} TrackMovementsGates(t: Track, data: seq<Byte>, start: nat)
    ensures var r := TrackMovements(t, data, start).track;
            && SameOutsideGated(t, r)
            && r.rating == t.rating && r.likeStatus == t.likeStatus && r.trackNumber == t.trackNumber
            && r.year == t.year && r.albumRef == t.albumRef && r.artistRef == t.artistRef
            && (r.movementCount != t.movementCount ==>
                  start + 88 <= |data| && 0 < U16At(data, start + 86) < 1000 && r.movementCount == Some(U16At(data, start + 86)))
            && (r.movementNumber != t.movementNumber ==>
                  start + 90 <= |data| && 0 < U16At(data, start + 88) < 1000 && r.movementNumber == Some(U16At(data, start + 88)))
  {
  }

  /** The track number at 160 is stored only when between 1 and 9999, the year at 168 only when between 1901 and 2099. */
  lemma {:induction false} TrackNumberAndYearGates(t: Track, data: seq<Byte>, start: nat)
    ensures var r := TrackNumberAndYear(t, data, start).track;
            && SameOutsideGated(t, r)
            && r.rating == t.rating && r.likeStatus == t.likeStatus && r.movementCount == t.movementCount
            && r.movementNumber == t.movementNumber && r.albumRef == t.albumRef && r.artistRef == t.artistRef
            && (r.trackNumber != t.trackNumber ==>
                  start + 162 <= |data| && 0 < U16At(data, start + 160) < 10000 && r.trackNumber == Some(U16At(data, start + 160)))
            && (r.year != t.year ==>
                  start + 172 <= |data| && 1900 < I32At(data, start + 168) < 2100 && r.year == Some(I32At(data, start + 168)))
  {
  }

  /** The album and artist references at 172 and 180 are stored only when non-zero. */
  lemma {:induction false} TrackReferencesGates(t: Track, data: seq<Byte>, start: nat)
    ensures var r := TrackReferences(t, data, start).track;
            && SameOutsideGated(t, r)
            && r.rating == t.rating && r.likeStatus == t.likeStatus && r.movementCount == t.movementCount
            && r.movementNumber == t.movementNumber && r.trackNumber == t.trackNumber && r.year == t.year
            && (r.albumRef != t.albumRef ==>
                  start + 180 <= |data| && U64At(data, start + 172) != 0 && r.albumRef == Some(U64At(data, start + 172)))
            && (r.artistRef != t.artistRef ==>
                  start + 188 <= |data| && U64At(data, start + 180) != 0 && r.artistRef == Some(U64At(data, start + 180)))
  {
  }

  /**
   * The fixed fields of a track section: each of the eight gated fields changes only to a
   * value that passes its gate, read from its offset in a section long enough to hold it; a
   * value that fails leaves the field as it was, and no other field changes.
   */
  lemma {:induction false} TrackFieldsGates(t: Track, data: seq<Byte>, start: nat, size: nat)
    ensures var r := TrackFields(t, data, start, size).track;
            && SameOutsideGated(t, r)
            && (r.rating != t.rating ==>
                  size >= 66 && start + 65 < |data| && 1 <= data[start + 65] <= 100 && r.rating == Some(data[start + 65] as int))
            && (r.likeStatus != t.likeStatus ==>
                  size >= 63 && start + 62 < |data| && data[start + 62] <= 3
                  && r.likeStatus == Some(LikeStatusOf(data[start + 62])))
            && (r.movementCount != t.movementCount ==>
                  size >= 172 && start + 88 <= |data| && 0 < U16At(data, start + 86) < 1000)
            && (r.movementNumber != t.movementNumber ==>
                  size >= 172 && start + 90 <= |data| && 0 < U16At(data, start + 88) < 1000)
            && (r.trackNumber != t.trackNumber ==>
                  size >= 172 && start + 162 <= |data| && 0 < U16At(data, start + 160) < 10000)
            && (r.year != t.year ==>
                  size >= 172 && start + 172 <= |data| && 1900 < I32At(data, start + 168) < 2100)
            && (r.albumRef != t.albumRef ==> size >= 172 && start + 180 <= |data| && U64At(data, start + 172) != 0)
            && (r.artistRef != t.artistRef ==> size >= 172 && start + 188 <= |data| && U64At(data, start + 180) != 0)
  {
    if size >= 172 && !(size >= 66 && start + 65 >= |data|) && start + 62 < |data| {
      var t1 := if 1 <= data[start + 65] <= 100 then t.(rating := Some(data[start + 65] as int)) else t;
      var t2 := if data[start + 62] <= 3 then t1.(likeStatus := Some(LikeStatusOf(data[start + 62]))) else t1;
      TrackNumbersGates(t2, data, start);
    }
  }

  /** The three stages for sections of at least 172 bytes, in reading order. */
  lemma {:induction false} TrackNumbersGates(t: Track, data: seq<Byte>, start: nat)
    ensures var r := TrackNumbers(t, data, start).track;
            && SameOutsideGated(t, r)
            && r.rating == t.rating && r.likeStatus == t.likeStatus
            && (r.movementCount != t.movementCount ==> start + 88 <= |data| && 0 < U16At(data, start + 86) < 1000)
            && (r.movementNumber != t.movementNumber ==> start + 90 <= |data| && 0 < U16At(data, start + 88) < 1000)
            && (r.trackNumber != t.trackNumber ==> start + 162 <= |data| && 0 < U16At(data, start + 160) < 10000)
            && (r.year != t.year ==> start + 172 <= |data| && 1900 < I32At(data, start + 168) < 2100)
            && (r.albumRef != t.albumRef ==> start + 180 <= |data| && U64At(data, start + 172) != 0)
            && (r.artistRef != t.artistRef ==> start + 188 <= |data| && U64At(data, start + 180) != 0)
  {
    var a := TrackMovements(t, data, start);
    TrackMovementsGates(t, data, start);
    if !a.faulted {
      var b := TrackNumberAndYear(a.track, data, start);
      TrackNumberAndYearGates(a.track, data, start);
      if !b.faulted {
        TrackReferencesGates(b.track, data, start);
      }
    }
  }

  // ---------------------------------------------------------------------------------------
  // boma records.

  /** While nothing is current a boma record changes nothing, and its subtype is not even read. */
  lemma {:induction false} BomaIgnoredWhenNothingCurrent(st: ParserState, inp: ScanInput, start: nat, size: nat)
    requires Resolves(st) && NothingCurrent(st)
    ensures BomaSection(st, inp, start, size) == Step(st, start + 12, false)
  {
  }

  /**
   * The numeric block changes nothing unless a track is current and the record is at least
   * 180 bytes long; then only the current track changes, and only to its numeric fields.
   */
  lemma {:induction false} NumericBlockGate(st: ParserState, inp: ScanInput, start: nat, size: nat)
    requires Resolves(st) && start + 16 <= |inp.data| && U32At(inp.data, start + 12) == NUMERICS
    ensures var r := BomaSection(st, inp, start, size);
            && (st.currentTrack.None? || size < 180 ==> r.st == st)
            && (st.currentTrack.Some? && size >= 180 ==>
                  r.st == st.(tracks := st.tracks[st.currentTrack.value :=
                                NumericFields(CurrentTrack(st), inp.data, start, size).track]))
  {
    if !NothingCurrent(st) {
      assert BomaSection(st, inp, start, size) == BomaNumeric(st, inp.data, start, size);
    }
  }

  /**
   * The numeric fields: bit rate, dates and duration from their offsets, a zero date read as
   * unset (so it clears a date set before), and the file size only from records of at least
   * 320 bytes. No other field changes.
   */
  lemma {:induction false} NumericFieldsRules(t: Track, data: seq<Byte>, start: nat, size: nat)
    ensures var r := NumericFields(t, data, start, size).track;
            && r == t.(bitRate := r.bitRate, dateAdded := r.dateAdded, dateModified := r.dateModified,
                       duration := r.duration, fileSize := r.fileSize)
            && (start + 112 <= |data| ==> r.bitRate == Some(I32At(data, start + 108)))
            && (start + 116 <= |data| ==> r.dateAdded == AppleDate(U32At(data, start + 112))
                                          && (r.dateAdded.None? <==> U32At(data, start + 112) == 0))
            && (start + 152 <= |data| ==> r.dateModified == AppleDate(U32At(data, start + 148)))
            && (start + 180 <= |data| ==> r.duration == Some(I32At(data, start + 176)))
            && (r.fileSize != t.fileSize ==> size >= 320 && start + 320 <= |data| && r.fileSize == Some(U32At(data, start + 316)))
  {
  }

  /**
   * An "ipfa" membership record appends its track id to the current playlist when the id is
   * non-zero, after the ids already there and even when it is among them; nothing else changes.
   */
  lemma {:induction false} PlaylistTrackAppends(st: ParserState, inp: ScanInput, start: nat, size: nat)
    requires Resolves(st) && st.currentPlaylist.Some?
    requires start + 48 <= |inp.data| && U32At(inp.data, start + 12) == PLAYLIST_TRACK
    requires inp.data[start + 20..start + 24] == IPFA
    ensures var r := BomaSection(st, inp, start, size);
            var key := st.currentPlaylist.value;
            var p := st.playlists[key];
            var id := U64At(inp.data, start + 40);
            && r.st == st.(playlists := st.playlists[key := p.(trackIds := r.st.playlists[key].trackIds)])
            && r.st.playlists[key].trackIds == p.trackIds + (if id != 0 then [id] else [])
  {
    assert !NothingCurrent(st);
    assert BomaSection(st, inp, start, size) == BomaPlaylistTrack(st, inp.data, start);
    assert Available(inp.data, start + 20, 4) == IPFA;
  }

  /** A membership record without the "ipfa" signature changes nothing. */
  lemma {:induction false} PlaylistTrackNeedsSignature(st: ParserState, data: seq<Byte>, start: nat)
    requires Resolves(st) && Available(data, start + 20, 4) != IPFA
    ensures BomaPlaylistTrack(st, data, start).st == st
  {
  }

  /** The subtypes a decoder handles. */
  predicate KnownSubtype(subtype: nat)
  {
    subtype in {NUMERICS, PLAYLIST_TRACK, SMART_CRITERIA, PLAY_STATS, FILE_URL} || subtype in WIDECHAR_TYPES
    || subtype in BOOK_TYPES
  }

  /** An unknown subtype raises its own counter by exactly one and changes nothing else. */
  lemma {:induction false} UnknownSubtypeCounted(st: ParserState, inp: ScanInput, start: nat, size: nat)
    requires Resolves(st) && !NothingCurrent(st) && start + 16 <= |inp.data|
    requires !KnownSubtype(U32At(inp.data, start + 12))
    ensures var subtype := U32At(inp.data, start + 12);
            var before := if subtype in st.unknownBomaTypes then st.unknownBomaTypes[subtype] else 0;
            var r := BomaSection(st, inp, start, size);
            && r.st == st.(unknownBomaTypes := r.st.unknownBomaTypes)
            && r.st.unknownBomaTypes == st.unknownBomaTypes[subtype := before + 1]
            && r.pos == start + 16 && !r.faulted
  {
    var subtype := U32At(inp.data, start + 12);
    assert BomaSection(st, inp, start, size) == BomaDispatch(st, inp, start, size, subtype);
  }

  // ---------------------------------------------------------------------------------------
  // Wide-character strings.

  /**
   * A widechar record changes the state only with a byte length in 1..9999 and a decoded
   * value that is not blank, and then exactly as the routing of that value says.
   */
  lemma {:induction false} WidecharGates(st: ParserState, data: seq<Byte>, start: nat, subtype: nat)
    requires Resolves(st)
    ensures var r := BomaWidechar(st, data, start, subtype);
            r.st != st ==>
              && start + 28 <= |data|
              && var len := U32At(data, start + 24);
              && 0 < len < 10000
              && var v := WidecharValue(Available(data, start + 36, len));
              && !IsNullOrWhiteSpace(v)
              && r.st == RouteString(st, subtype, v)
  {
  }

  /**
   * Routing goes to the first current entity in the order track, album, artist, playlist:
   * with a track current only that track changes (and only through its own subtypes); with
   * only an artist current only subtype 0x0004 names it; with only a playlist current only
   * subtype 0x00C8 names it.
   */
  lemma {:induction false} RoutePriority(st: ParserState, subtype: nat, v: string)
    requires Resolves(st)
    ensures var r := RouteString(st, subtype, v);
            && (st.currentTrack.Some? ==>
                  r == st.(tracks := st.tracks[st.currentTrack.value := SetTrackString(CurrentTrack(st), subtype, v)]))
            && (st.currentTrack.None? && st.currentAlbum.None? && st.currentArtist.Some? ==>
                  && r.tracks == st.tracks && r.playlists == st.playlists
                  && (subtype == ARTIST_NAME ==> r.artists[st.currentArtist.value].name == Some(v))
                  && (subtype != ARTIST_NAME ==> r == st))
            && (NoneButPlaylist(st) ==>
                  && r.tracks == st.tracks && r.artists == st.artists
                  && (subtype == PLAYLIST_NAME ==> r.playlists[st.currentPlaylist.value].name == Some(v))
                  && (subtype != PLAYLIST_NAME ==> r == st))
            && (NothingCurrent(st) ==> r == st)
  {
  }

  /** Only the playlist reference is set. */
  predicate NoneButPlaylist(st: ParserState)
  {
    st.currentTrack.None? && st.currentAlbum.None? && st.currentArtist.None? && st.currentPlaylist.Some?
  }

  /** Subtype 0x0004 sets the current track's artist; only when no track (and no album) is current does it name the artist. */
  lemma {:induction false} ArtistStringRouting(st: ParserState, v: string)
    requires Resolves(st) && (st.currentTrack.Some? || st.currentArtist.Some?)
    ensures var r := RouteString(st, ARTIST_NAME, v);
            && (st.currentTrack.Some? ==>
                  r.tracks[st.currentTrack.value] == CurrentTrack(st).(artist := Some(v)) && r.artists == st.artists)
            && (st.currentTrack.None? && st.currentAlbum.None? ==>
                  r.artists[st.currentArtist.value] == st.artists[st.currentArtist.value].(name := Some(v))
                  && r.tracks == st.tracks)
  {
  }

  /** Each track subtype writes its own field and nothing else; other subtypes leave the track alone. */
  lemma {:induction false} SetTrackStringOneField(t: Track, subtype: nat, v: string)
    ensures var r := SetTrackString(t, subtype, v);
            && (subtype !in WIDECHAR_TYPES ==> r == t)
            && (subtype == 0x0002 ==> r == t.(title := Some(v)))
            && (subtype == 0x0004 ==> r == t.(artist := Some(v)))
            && (subtype == 0x001B ==> r == t.(albumArtist := Some(v)))
            && (subtype in {ALBUM_TITLE, ALBUM_ALBUM_ARTIST, ALBUM_ARTIST, PLAYLIST_NAME} ==> r == t)
  {
  }

  /** Decoding a widechar record that holds the UTF-16 encoding of a string gives the string back. */
  lemma {:induction false} WidecharValueOfEncoding(s: string)
    requires s == "" || s[|s| - 1] != '\0'
    ensures WidecharValue(EncodeUtf16Le(s)) == s
  {
    DecodeEncodeUtf16Le(s);
  }

  // ---------------------------------------------------------------------------------------
  // book records.

  /** A fragment is kept: not blank, and none of the excluded shapes. */
  predicate Kept(s: string)
  {
    !IsNullOrWhiteSpace(s) && KeepFragment(s)
  }

  /** Every fragment the loop keeps passes the filter. */
  lemma {:induction false} BookScanKeeps(data: seq<Byte>, utf8: seq<Byte> -> string, pos: nat, endPos: nat,
                                          readerPos: nat, parts: seq<string>)
    requires forall i | 0 <= i < |parts| :: Kept(parts[i])
    ensures var r := BookScan(data, utf8, pos, endPos, readerPos, parts);
            r.Some? ==> forall i | 0 <= i < |r.value.parts| :: Kept(r.value.parts[i])
    decreases endPos - pos
  {
    if pos + 8 < endPos {
      match FragmentAt(data, utf8, pos)
      case FragmentFault =>
      case Fragment(next, after, kept) =>
        assert forall i | 0 <= i < |kept| :: Kept(kept[i]);
        BookScanKeeps(data, utf8, next, endPos, after, parts + kept);
    }
  }

  /**
   * A fragment read in full is padded to a multiple of four bytes: the cursor moves past the
   * 8-byte head, the text and at most three bytes of padding, to a multiple of four from where
   * it was. A word that does not introduce a fragment moves it by four.
   */
  lemma {:induction false} FragmentPadding(data: seq<Byte>, utf8: seq<Byte> -> string, pos: nat)
    requires pos + 8 <= |data|
    ensures var r := FragmentAt(data, utf8, pos);
            var len := U32At(data, pos);
            && r.Fragment?
            && (0 < len < 1000 && U32At(data, pos + 4) == 0x0101 && pos + 8 + len <= |data| ==>
                  && pos + 8 + len <= r.next < pos + 12 + len && (r.next - pos) % 4 == 0
                  && r.readerPos == pos + 8 + len)
            && (!(0 < len < 1000) || U32At(data, pos + 4) != 0x0101 ==> r.next == pos + 4)
  {
  }

  /**
   * The file path a book record yields: present exactly when the "book" signature is at 20 and
   * the fragment loop keeps at least one fragment, and then the kept fragments, in order,
   * joined by "/".
   */
  lemma {:induction false} BookPathFromKeptFragments(data: seq<Byte>, utf8: seq<Byte> -> string, start: nat, size: nat)
    ensures var r := BookPath(data, utf8, start, size);
            var b := BookScan(data, utf8, start + 24, start + size, start + 24, []);
            r.path.Some? ==>
              && Available(data, start + 20, 4) == BOOK
              && b.Some? && |b.value.parts| > 0
              && r.path.value == Join("/", b.value.parts)
              && forall i | 0 <= i < |b.value.parts| :: Kept(b.value.parts[i])
    ensures var b := BookScan(data, utf8, start + 24, start + size, start + 24, []);
            Available(data, start + 20, 4) == BOOK && b.Some? && |b.value.parts| > 0 ==>
              BookPath(data, utf8, start, size).path == Some(Join("/", b.value.parts))
  {
    BookScanKeeps(data, utf8, start + 24, start + size, start + 24, []);
  }

  /**
   * A book record writes only the current track's file path: the path the record yields when
   * it yields one, and otherwise the path the track already had. Without a current track
   * nothing changes.
   */
  lemma {:induction false} BookSetsFilePath(st: ParserState, data: seq<Byte>, start: nat, size: nat, utf8: seq<Byte> -> string)
    requires Resolves(st)
    ensures var r := BomaBook(st, data, start, size, utf8);
            var path := BookPath(data, utf8, start, size).path;
            && (st.currentTrack.None? ==> r.st == st)
            && (st.currentTrack.Some? ==>
                  var key := st.currentTrack.value;
                  && key in r.st.tracks
                  && var t := r.st.tracks[key];
                  && r.st == st.(tracks := st.tracks[key := t])
                  && t == st.tracks[key].(filePath := t.filePath)
                  && (path.Some? ==> t.filePath == path)
                  && (path.None? ==> t.filePath == st.tracks[key].filePath))
  {
  }

  // ---------------------------------------------------------------------------------------
  // Play statistics, file URL and playlist dates.

  /**
   * Play statistics: with a current track and the five words present, the play count is the
   * word at 32 read as a signed 32-bit integer and the last-played date is the timestamp at 28
   * (unset when zero); no other field and no other record changes. Otherwise nothing changes.
   */
  lemma {:induction false} PlayStatsRules(st: ParserState, data: seq<Byte>, start: nat)
    requires Resolves(st)
    ensures var r := BomaPlayStats(st, data, start);
            && (st.currentTrack.None? || start + 36 > |data| ==> r.st == st)
            && (st.currentTrack.Some? && start + 36 <= |data| ==>
                  var key := st.currentTrack.value;
                  && key in r.st.tracks
                  && var t := r.st.tracks[key];
                  && r.st == st.(tracks := st.tracks[key := t])
                  && t == st.tracks[key].(playCount := t.playCount, lastPlayed := t.lastPlayed)
                  && t.playCount == Some(ToInt32(U32At(data, start + 32)))
                  && -TWO_31 <= t.playCount.value < TWO_31
                  && (U32At(data, start + 32) < TWO_31 ==> t.playCount.value == U32At(data, start + 32))
                  && t.lastPlayed == AppleDate(U32At(data, start + 28))
                  && (t.lastPlayed.None? <==> U32At(data, start + 28) == 0))
  {
  }

  /**
   * File URL: with a current track and the five header words present, the URL is stored exactly
   * when its length at 24 is in 1..999, and it is the UTF-8 text from 36, unescaped, with a
   * file:/// scheme turned into a leading "/". No other field and no other record changes.
   */
  lemma {:induction false} FileUrlRules(st: ParserState, data: seq<Byte>, start: nat, text: TextDecoders)
    requires Resolves(st)
    ensures var r := BomaFileUrl(st, data, start, text);
            && (st.currentTrack.None? || start + 36 > |data| ==> r.st == st)
            && (st.currentTrack.Some? && start + 36 <= |data| ==>
                  var key := st.currentTrack.value;
                  var len := U32At(data, start + 24);
                  && (!(0 < len < 1000) ==> r.st == st)
                  && (0 < len < 1000 ==>
                        var url := text.unescapeData(text.utf8(Available(data, start + 36, len)));
                        && key in r.st.tracks
                        && var t := r.st.tracks[key];
                        && r.st == st.(tracks := st.tracks[key := t])
                        && t == st.tracks[key].(fileUrl := Some(StripFileScheme(url)))
                        && (StartsWith(url, "file:///") ==> t.fileUrl == Some("/" + url[8..]))
                        && (!StartsWith(url, "file:///") ==> t.fileUrl == Some(url))))
  {
  }

  /**
   * Playlist dates: the creation date from the timestamp at 22 in sections of at least 26
   * bytes, the modification date from the timestamp at 138 in sections of at least 142 bytes
   * (a read past the buffer's end faults and keeps the old value); every other field is kept.
   */
  lemma {:induction false} PlaylistDatesRules(p: Playlist, data: seq<Byte>, start: nat, size: nat)
    requires size >= 26 ==> start + 26 <= |data|
    ensures var r := PlaylistDates(p, data, start, size);
            && r.playlist == p.(createdAt := r.playlist.createdAt, modifiedAt := r.playlist.modifiedAt)
            && (size >= 26 ==> r.playlist.createdAt == AppleDate(U32At(data, start + 22)))
            && (size < 26 ==> r.playlist.createdAt == p.createdAt)
            && (size >= 142 && start + 142 <= |data| ==>
                  r.playlist.modifiedAt == AppleDate(U32At(data, start + 138)) && !r.faulted)
            && (size >= 142 && start + 142 > |data| ==> r.playlist.modifiedAt == p.modifiedAt && r.faulted)
            && (size < 142 ==> r.playlist.modifiedAt == p.modifiedAt && !r.faulted)
  {
  }

  /** A path fragment shaped like a volume UUID, a URL, a disk name or a lone separator is dropped. */
  lemma {:induction false} DroppedFragments(s: string)
    ensures StartsWith(s, "file:///") ==> !Kept(s)
    ensures s == "/" ==> !Kept(s)
    ensures Utf16Length(s) == 36 && CountChar(s, '-') == 4 ==> !Kept(s)
    ensures Contains(s, "Macintosh") || Contains(s, "HD") ==> !Kept(s)
    ensures IsNullOrWhiteSpace(s) ==> !Kept(s)
  {
  }

  // ---------------------------------------------------------------------------------------
  // The section loop: progress and termination.

  /** The fragment loop leaves the reader no earlier than where it began. */
  lemma {:induction false} BookScanReaderPos(data: seq<Byte>, utf8: seq<Byte> -> string, pos: nat, endPos: nat,
                                              readerPos: nat, parts: seq<string>, lo: nat)
    requires lo <= pos && lo <= readerPos
    ensures var r := BookScan(data, utf8, pos, endPos, readerPos, parts); r.Some? ==> r.value.readerPos >= lo
    decreases endPos - pos
  {
    if pos + 8 < endPos {
      match FragmentAt(data, utf8, pos)
      case FragmentFault =>
      case Fragment(next, after, kept) => BookScanReaderPos(data, utf8, next, endPos, after, parts + kept, lo);
    }
  }

  /** A book record leaves the reader past the record's start. */
  lemma {:induction false} BookPathAdvances(data: seq<Byte>, utf8: seq<Byte> -> string, start: nat, size: nat)
    requires start < |data|
    ensures BookPath(data, utf8, start, size).pos > start
  {
    BookScanReaderPos(data, utf8, start + 24, start + size, start + 24, [], start + 24);
  }

  /** A boma record that does not throw leaves the reader past the record's start. */
  lemma {:induction false} BomaAdvances(st: ParserState, inp: ScanInput, start: nat, size: nat)
    requires Resolves(st) && start < |inp.data|
    ensures var r := BomaSection(st, inp, start, size); !r.faulted ==> r.pos > start
  {
    if !NothingCurrent(st) && start + 16 <= |inp.data| {
      var subtype := U32At(inp.data, start + 12);
      if subtype in BOOK_TYPES && subtype != NUMERICS && subtype !in WIDECHAR_TYPES {
        BookPathAdvances(inp.data, inp.text.utf8, start, size);
      }
    }
  }

  /** A track section that does not throw leaves the reader past the section's start. */
  lemma {:induction false} TrackItemAdvances(st: ParserState, data: seq<Byte>, start: nat, size: nat)
    requires Resolves(st)
    ensures var r := TrackItem(st, data, start, size); !r.faulted ==> r.pos > start
  {
  }

  /**
   * Every handler that does not throw leaves the reader past the section's start, except an
   * album or master section, which moves it to start + size.
   */
  lemma {:induction false} DispatchAdvances(st: ParserState, inp: ScanInput, start: nat, size: nat)
    requires Resolves(st) && start + 4 <= |inp.data|
    ensures var r := Dispatch(st, inp, start, size); !r.faulted ==> r.pos > start || r.pos == start + size
  {
    match TagOf(inp.data[start..start + 4])
    case Itma =>
      assert Dispatch(st, inp, start, size) == TrackItem(st, inp.data, start, size);
      TrackItemAdvances(st, inp.data, start, size);
    case Boma =>
      assert Dispatch(st, inp, start, size) == BomaSection(st, inp, start, size);
      BomaAdvances(st, inp, start, size);
    case _ =>
  }

  /**
   * After a section that did not throw, the cursor fails to move forward exactly when the
   * section's length field is zero: the loop the source would then repeat forever.
   */
  lemma {:induction false} NoProgressIffEmptySection(st: ParserState, inp: ScanInput, pos: nat)
    requires Resolves(st) && pos + 8 < |inp.data|
    requires TagOf(inp.data[pos..pos + 4]) == Boma ==> pos + 12 <= |inp.data|
    ensures var size := SizeField(inp.data, pos);
            var s := Dispatch(st, inp, pos, size);
            !s.faulted ==> (NextPos(inp.data, pos, size, s.pos) <= pos <==> size == 0)
  {
    DispatchAdvances(st, inp, pos, SizeField(inp.data, pos));
  }

  /**
   * One turn of the loop: either it stops there, or it moves strictly forward with the state
   * the handler left.
   */
  lemma {:induction false} ScanOneStep(st: ParserState, inp: ScanInput, pos: nat, count: nat) returns (more: bool, st1: ParserState, next: nat)
    requires Resolves(st)
    ensures more ==> pos < next && pos + 8 < |inp.data| && Resolves(st1) && Grows(st, st1)
    ensures more ==> Scan(st, inp, pos, count) == Scan(st1, inp, next, count + 1)
    ensures !more ==> Grows(st, Scan(st, inp, pos, count).st)
  {
    var data := inp.data;
    more, st1, next := false, st, pos;
    if pos + 8 < |data| && !ZeroTagAt(data, pos) && !(TagOf(data[pos..pos + 4]) == Boma && pos + 12 > |data|) {
      var size := SizeField(data, pos);
      var s := Dispatch(st, inp, pos, size);
      var n := NextPos(data, pos, size, s.pos);
      if !s.faulted && n > pos {
        more, st1, next := true, s.st, n;
        assert Scan(st, inp, pos, count) == Scan(s.st, inp, n, count + 1);
      } else {
        assert Scan(st, inp, pos, count) == ScanResult(s.st, count + 1, if s.faulted then Fault else NoProgress);
      }
    }
  }

  // ---------------------------------------------------------------------------------------
  // The dictionaries only grow: what a fault leaves behind is what was built before it.

  /**
   * Whatever ends the scan, the records built before that point are all still listed, in the
   * order they were added: a fault only stops the loop.
   */
  lemma {:induction false} ScanGrows(st: ParserState, inp: ScanInput, pos: nat, count: nat)
    requires Resolves(st)
    ensures Grows(st, Scan(st, inp, pos, count).st)
    decreases |inp.data| - pos
  {
    var more, st1, next := ScanOneStep(st, inp, pos, count);
    if more {
      ScanGrows(st1, inp, next, count + 1);
    }
  }
}
