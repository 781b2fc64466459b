/**
 * The parser's dictionaries stay well-formed across the whole scan: every handler keeps each
 * insertion order listing its dictionary's keys once each, keeps every record under its own
 * key, and only points the current-entity references at stored records. This is what lets
 * the published lists be read off the dictionaries in insertion order.
 */
module ScanInvariant {
  import opened Wrappers
  import opened Bytes
  import opened Text
  import opened Models
  import opened ScanSpec

  /** Adding a new key at the end of the insertion order keeps the dictionary indexed. */
  lemma {:induction false} IndexedAdd<K, V>(m: map<K, V>, order: seq<K>, k: K, v: V)
    requires Indexed(m, order) && k !in m
    ensures Indexed(m[k := v], order + [k])
  {
    var order' := order + [k];
    forall i, j | 0 <= i < j < |order'|
      ensures order'[i] != order'[j]
    {
      if j == |order| {
        assert order'[i] == order[i] && order[i] in m;
      }
    }
  }

  lemma {:induction false} CreateTrackConsistent(st: ParserState, id: nat)
    requires Consistent(st)
    ensures Consistent(CreateTrack(st, id))
  {
    if id !in st.tracks {
      IndexedAdd(st.tracks, st.trackOrder, id, NewTrack(id));
    }
  }

  lemma {:induction false} CreateAlbumConsistent(st: ParserState, id: nat)
    requires Consistent(st)
    ensures Consistent(CreateAlbum(st, id))
  {
    if id !in st.albums {
      IndexedAdd(st.albums, st.albumOrder, id, Album(id, None, None, None));
    }
  }

  lemma {:induction false} CreateArtistConsistent(st: ParserState, id: nat)
    requires Consistent(st)
    ensures Consistent(CreateArtist(st, id))
  {
    if id !in st.artists {
      IndexedAdd(st.artists, st.artistOrder, id, Artist(id, None));
    }
  }

  lemma {:induction false} CreatePlaylistConsistent(st: ParserState, key: PlaylistKey, p: Playlist)
    requires Consistent(st) && p.playlistId == key.id
    ensures Consistent(CreatePlaylist(st, key, p))
  {
    if key !in st.playlists {
      IndexedAdd(st.playlists, st.playlistOrder, key, p);
    }
  }

  /** Any write through the current-track reference that keeps the track's id. */
  lemma {:induction false} CurrentTrackWrites(st: ParserState)
    requires Consistent(st) && st.currentTrack.Some?
    ensures forall t: Track | t.trackId == st.currentTrack.value :: Consistent(WithCurrentTrack(st, t))
  {
  }

  /** Any write through the current-playlist reference that keeps the playlist's id. */
  lemma {:induction false} CurrentPlaylistWrites(st: ParserState)
    requires Consistent(st) && st.currentPlaylist.Some?
    ensures forall p: Playlist | p.playlistId == st.currentPlaylist.value.id :: Consistent(WithCurrentPlaylist(st, p))
  {
  }

  lemma {:induction false} AlbumItemConsistent(st: ParserState, data: seq<Byte>, start: nat, size: nat)
    requires Consistent(st)
    ensures Consistent(AlbumItem(st, data, start, size).st)
  {
    if start + 24 <= |data| {
      CreateAlbumConsistent(st, U64At(data, start + 16));
    }
  }

  lemma {:induction false} ArtistItemConsistent(st: ParserState, data: seq<Byte>, start: nat)
    requires Consistent(st)
    ensures Consistent(ArtistItem(st, data, start).st)
  {
    if start + 24 <= |data| {
      CreateArtistConsistent(st, U64At(data, start + 16));
    }
  }

  lemma {:induction false} PlaylistItemConsistent(st: ParserState, data: seq<Byte>, start: nat, size: nat, libraryId: nat)
    requires Consistent(st)
    ensures Consistent(PlaylistItem(st, data, start, size, libraryId).st)
  {
    match PlaylistHeadAt(data, start, size, libraryId)
    case HeadFault(_) =>
    case Head(h) =>
      var key := PlaylistKey(h.id, start);
      var created := Playlist(h.id, None, h.trackCount, Classify(h.trackCount, h.kind), h.parentId, h.kind,
                              false, h.id == 5, None, None, []);
      CreatePlaylistConsistent(st, key, created);
      var st1 := CreatePlaylist(st, key, created).(currentPlaylist := Some(key));
      CurrentPlaylistWrites(st1);
  }

  lemma {:induction false} TrackItemConsistent(st: ParserState, data: seq<Byte>, start: nat, size: nat)
    requires Consistent(st)
    ensures Consistent(TrackItem(st, data, start, size).st)
  {
    if start + 24 <= |data| {
      var id := U64At(data, start + 16);
      CreateTrackConsistent(st, id);
      CurrentTrackWrites(CreateTrack(st, id).(currentTrack := Some(id)));
    }
  }

  /** Any write through the current-album reference that keeps the album's id. */
  lemma {:induction false} CurrentAlbumWrite(st: ParserState, a: Album)
    requires Consistent(st) && st.currentAlbum.Some? && a.albumId == st.currentAlbum.value
    ensures Consistent(st.(albums := st.albums[st.currentAlbum.value := a]))
  {
  }

  /** Any write through the current-artist reference that keeps the artist's id. */
  lemma {:induction false} CurrentArtistWrite(st: ParserState, a: Artist)
    requires Consistent(st) && st.currentArtist.Some? && a.artistId == st.currentArtist.value
    ensures Consistent(st.(artists := st.artists[st.currentArtist.value := a]))
  {
  }

  lemma {:induction false} RouteStringConsistent(st: ParserState, subtype: nat, v: string)
    requires Consistent(st)
    ensures Consistent(RouteString(st, subtype, v))
  {
    if st.currentTrack.Some? {
      CurrentTrackWrites(st);
    } else if st.currentAlbum.Some? {
      var id := st.currentAlbum.value;
      CurrentAlbumWrite(st, SetAlbumString(st.albums[id], subtype, v));
    } else if st.currentArtist.Some? {
      if subtype == ARTIST_NAME {
        var id := st.currentArtist.value;
        CurrentArtistWrite(st, st.artists[id].(name := Some(v)));
      }
    } else if st.currentPlaylist.Some? {
      CurrentPlaylistWrites(st);
    }
  }

  lemma {:induction false} BomaNumericConsistent(st: ParserState, data: seq<Byte>, start: nat, size: nat)
    requires Consistent(st)
    ensures Consistent(BomaNumeric(st, data, start, size).st)
  {
    if st.currentTrack.Some? {
      CurrentTrackWrites(st);
    }
  }

  lemma {:induction false} BomaWidecharConsistent(st: ParserState, data: seq<Byte>, start: nat, subtype: nat)
    requires Consistent(st)
    ensures Consistent(BomaWidechar(st, data, start, subtype).st)
  {
    if !NothingCurrent(st) && start + 28 <= |data| {
      var len := U32At(data, start + 24);
      if 0 < len < 10000 {
        RouteStringConsistent(st, subtype, WidecharValue(Available(data, start + 36, len)));
      }
    }
  }

  lemma {:induction false} BomaPlaylistTrackConsistent(st: ParserState, data: seq<Byte>, start: nat)
    requires Consistent(st)
    ensures Consistent(BomaPlaylistTrack(st, data, start).st)
  {
    if st.currentPlaylist.Some? {
      CurrentPlaylistWrites(st);
    }
  }

  lemma {:induction false} BomaSmartConsistent(st: ParserState, start: nat)
    requires Consistent(st)
    ensures Consistent(BomaSmart(st, start).st)
  {
    if st.currentPlaylist.Some? {
      CurrentPlaylistWrites(st);
    }
  }

  lemma {:induction false} BomaBookConsistent(st: ParserState, data: seq<Byte>, start: nat, size: nat, utf8: seq<Byte> -> string)
    requires Consistent(st)
    ensures Consistent(BomaBook(st, data, start, size, utf8).st)
  {
    if st.currentTrack.Some? {
      CurrentTrackWrites(st);
    }
  }

  lemma {:induction false} BomaPlayStatsConsistent(st: ParserState, data: seq<Byte>, start: nat)
    requires Consistent(st)
    ensures Consistent(BomaPlayStats(st, data, start).st)
  {
    if st.currentTrack.Some? {
      CurrentTrackWrites(st);
    }
  }

  lemma {:induction false} BomaFileUrlConsistent(st: ParserState, data: seq<Byte>, start: nat, text: TextDecoders)
    requires Consistent(st)
    ensures Consistent(BomaFileUrl(st, data, start, text).st)
  {
    if st.currentTrack.Some? {
      CurrentTrackWrites(st);
    }
  }

  lemma {:induction false} BomaSectionConsistent(st: ParserState, inp: ScanInput, start: nat, size: nat)
    requires Consistent(st)
    ensures Consistent(BomaSection(st, inp, start, size).st)
  {
    if !NothingCurrent(st) && start + 16 <= |inp.data| {
      var subtype := U32At(inp.data, start + 12);
      if subtype == NUMERICS {
        BomaNumericConsistent(st, inp.data, start, size);
      } else if subtype in WIDECHAR_TYPES {
        BomaWidecharConsistent(st, inp.data, start, subtype);
      } else if subtype == PLAYLIST_TRACK {
        BomaPlaylistTrackConsistent(st, inp.data, start);
      } else if subtype == SMART_CRITERIA {
        BomaSmartConsistent(st, start);
      } else if subtype in BOOK_TYPES {
        BomaBookConsistent(st, inp.data, start, size, inp.text.utf8);
      } else if subtype == PLAY_STATS {
        BomaPlayStatsConsistent(st, inp.data, start);
      } else if subtype == FILE_URL {
        BomaFileUrlConsistent(st, inp.data, start, inp.text);
      }
    }
  }

  lemma {:induction false} DispatchAlbumConsistent(st: ParserState, inp: ScanInput, start: nat, size: nat)
    requires Consistent(st) && start + 4 <= |inp.data| && TagOf(inp.data[start..start + 4]) == Iama
    ensures Consistent(Dispatch(st, inp, start, size).st)
  {
    AlbumItemConsistent(st.(currentTrack := None, currentArtist := None), inp.data, start, size);
  }

  lemma {:induction false} DispatchArtistConsistent(st: ParserState, inp: ScanInput, start: nat, size: nat)
    requires Consistent(st) && start + 4 <= |inp.data| && TagOf(inp.data[start..start + 4]) == IamaArtist
    ensures Consistent(Dispatch(st, inp, start, size).st)
  {
    ArtistItemConsistent(st.(currentTrack := None, currentAlbum := None), inp.data, start);
  }

  lemma {:induction false} DispatchPlaylistConsistent(st: ParserState, inp: ScanInput, start: nat, size: nat)
    requires Consistent(st) && start + 4 <= |inp.data| && TagOf(inp.data[start..start + 4]) == Lpma
    ensures Consistent(Dispatch(st, inp, start, size).st)
  {
    PlaylistItemConsistent(st.(currentTrack := None, currentAlbum := None, currentArtist := None),
                           inp.data, start, size, inp.libraryId);
  }

  lemma {:induction false} DispatchTrackConsistent(st: ParserState, inp: ScanInput, start: nat, size: nat)
    requires Consistent(st) && start + 4 <= |inp.data| && TagOf(inp.data[start..start + 4]) == Itma
    ensures Consistent(Dispatch(st, inp, start, size).st)
  {
    TrackItemConsistent(st, inp.data, start, size);
  }

  lemma {:induction false} DispatchBomaConsistent(st: ParserState, inp: ScanInput, start: nat, size: nat)
    requires Consistent(st) && start + 4 <= |inp.data| && TagOf(inp.data[start..start + 4]) == Boma
    ensures Consistent(Dispatch(st, inp, start, size).st)
  {
    BomaSectionConsistent(st, inp, start, size);
  }

  /** Every section handler keeps the dictionaries well-formed. */
  lemma {:induction false} DispatchConsistent(st: ParserState, inp: ScanInput, start: nat, size: nat)
    requires Consistent(st) && start + 4 <= |inp.data|
    ensures Consistent(Dispatch(st, inp, start, size).st)
  {
    match TagOf(inp.data[start..start + 4])
    case Iama => DispatchAlbumConsistent(st, inp, start, size);
    case IamaArtist => DispatchArtistConsistent(st, inp, start, size);
    case Lpma => DispatchPlaylistConsistent(st, inp, start, size);
    case Itma => DispatchTrackConsistent(st, inp, start, size);
    case Boma => DispatchBomaConsistent(st, inp, start, size);
    case _ => DispatchContextConsistent(st, inp, start, size);
  }

  /** The master tags and unknown tags only clear a reference, which keeps every fact of the invariant. */
  lemma {:induction false} DispatchContextConsistent(st: ParserState, inp: ScanInput, start: nat, size: nat)
    requires Consistent(st) && start + 4 <= |inp.data|
    requires TagOf(inp.data[start..start + 4]) in {Lama, LamaArtists, LpmaMaster, Ltma, Other}
    ensures Consistent(Dispatch(st, inp, start, size).st)
  {
    var st1 := Dispatch(st, inp, start, size).st;
    assert st1 in {st.(currentAlbum := None), st.(currentArtist := None), st.(currentPlaylist := None),
                   st.(currentTrack := None), st};
  }

  /** The scan ends with well-formed dictionaries when it starts with them. */
  lemma {:induction false} ScanConsistent(st: ParserState, inp: ScanInput, pos: nat, count: nat)
    requires Consistent(st)
    ensures Consistent(Scan(st, inp, pos, count).st)
    decreases |inp.data| - pos
  {
    var data := inp.data;
    if pos + 8 < |data| && !ZeroTagAt(data, pos) && !(TagOf(data[pos..pos + 4]) == Boma && pos + 12 > |data|) {
      var size := SizeField(data, pos);
      DispatchConsistent(st, inp, pos, size);
      var s := Dispatch(st, inp, pos, size);
      var next := NextPos(data, pos, size, s.pos);
      if !s.faulted && next > pos {
        ScanConsistent(s.st, inp, next, count + 1);
      }
    }
  }
}
