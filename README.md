# AppMusicLibParser in Dafny

This project models the core of AppMusicLibParser, a reader for Apple Music's `Library.musicdb`
file, and proves properties of the model. The core has three parts.

- **The section scanner** (`MusicDbParser`). It checks the `hfma` envelope header, then walks the
  decrypted and inflated payload section by section. Each section starts with a four-byte tag
  (`lama`, `iama`, `lAma`, `iAma`, `lPma`, `lpma`, `ltma`, `itma`, `boma`) and a length field.
  Item sections create tracks, albums, artists and playlists in four dictionaries and move four
  "current entity" references. `boma` attribute records then write through those references:
  - the numeric block;
  - UTF-16 strings;
  - the smart-playlist marker;
  - `ipfa` playlist membership;
  - `book` file-path fragments;
  - play statistics;
  - the file URL.
- **The decryptor framing** (`MusicDbDecryptor`). It covers:
  - the AES key check;
  - the empty-input rule of `Decrypt`;
  - the choice of how many payload bytes are encrypted;
  - the split into an encrypted prefix and a plain tail, and their concatenation before inflation;
  - `IsEncrypted`.
- **The compare command** (`CompareCommand`). It covers:
  - the byte-by-byte list of differences;
  - the hex context window with the changed byte in brackets;
  - the maximal runs of consecutive differing offsets;
  - the filter for isolated single-byte changes.

Files:

| file | module | contents |
|---|---|---|
| `wrappers.dfy` | `Wrappers` | `Option` and `Result` |
| `bytes.dfy` | `Bytes` | little-endian reads and encodings, C#'s `(int)` wrap-around |
| `binary_reader.dfy` | `BinaryReaders` | `BinaryReader` over an in-memory buffer: a class with a cursor |
| `text.dfy` | `Text` | UTF-16LE decoding and encoding, `TrimEnd('\0')`, white space, ordinal string tests |
| `models.dfy` | `Models` | the records: `Track`, `Album`, `Artist`, `Playlist`, `PlaylistType`, `LikeStatus` |
| `scan_spec.dfy` | `ScanSpec` | every section handler and boma decoder as a function on the parser state, and `Scan`, the section loop |
| `scan_invariant.dfy` | `ScanInvariant` | every handler keeps the dictionaries well-formed |
| `scan_properties.dfy` | `ScanProperties` | context transitions, plausibility gates, routing, path fragments, progress |
| `music_db_parser.dfy` | `MusicDbParsers` | `ParseHeader`, `Parse`, and the class `MusicDbParser`, whose methods are proved to compute the `ScanSpec` functions |
| `music_db_decryptor.dfy` | `MusicDbDecryptor` | key check, `Decrypt`, `IsEncrypted`, `DecryptAndDecompressFile` |
| `compare_command.dfy` | `CompareCommand` | differences, `GetContext`, runs, isolated changes, `Execute` |

The parser is a class. Its fields are:
- the four dictionaries, each as a `map` together with the `seq` of its keys in insertion order,
  because `Dictionary.Values` enumerates in that order;
- the unknown-subtype counters;
- the four current-entity references, each an `Option` of a key into its dictionary.

A key is used rather than a copy of the record, so a write through a reference changes the stored
record, as in the source. Each handler method `ensures` that the new `State()` and reader
position are the `ScanSpec` function of the old ones. The section loop is proved equal to the
recursive `Scan`. Every property of the scanner is a lemma about those functions.

Names used below:
- **Consistent** (`ScanSpec.Consistent`) means three things. Every current reference names a
  stored record. Each insertion order lists its dictionary's keys once each. Every record carries
  its own key.
- **Grows** (`ScanSpec.Grows`) means that a step only appends keys to the insertion orders.

## Model

| member | source | states |
|---|---|---|
| MusicDbParsers.IndexOfZero | MusicParser/Parsers/MusicDbParser.cs:89 | the index of the first NUL byte, or -1 exactly when the bytes hold no NUL |
| MusicDbParsers.VersionBytes | MusicParser/Parsers/MusicDbParser.cs:88-90 | the version string's bytes stop before the first NUL; a NUL at index 0, or no NUL at all, selects all 32 bytes |
| MusicDbParsers.HeaderRoundTrip | MusicParser/Parsers/MusicDbParser.cs:79-100 | the header reads back every field from its offset: envelope length at 4, file size at 8, versions at 12 and 14, library id at 48, file type at 56, counts at 68, 72, 76 and 80, maximum encrypted size at 84 |
| MusicDbParsers.HeaderNeedsSignature | MusicParser/Parsers/MusicDbParser.cs:79-81 | a file that does not start with "hfma" is rejected |
| MusicDbParsers.ReadHeaderFields | MusicParser/Parsers/MusicDbParser.cs:79-100 | the reads of the header through the reader give the header function's result, and leave the cursor at 88 |
| MusicDbParsers.ReadHeader | MusicParser/Parsers/MusicDbParser.cs:79-123 | the rest of the envelope is skipped: the cursor ends at the envelope length, clipped to the file and never before 88 |
| MusicDbParsers.MusicDbParser.ParseHeader | MusicParser/Parsers/MusicDbParser.cs:75-126 | keeps the library id and the maximum encrypted size from the header and changes no entity |
| MusicDbParsers.PublishedIdsDistinct | MusicParser/Parsers/MusicDbParser.cs:241-244 | the published tracks, albums and artists each carry distinct ids, in the order they were first seen |
| MusicDbParsers.ParsedIdsDistinct | MusicParser/Parsers/MusicDbParser.cs:41-73 | a library that Parse returns lists each track, album and artist once |
| MusicDbParsers.Parse | MusicParser/Parsers/MusicDbParser.cs:41-73 | Parse reads the header, checks the key, decrypts and inflates the payload and scans it from its start; the result is the library function's |
| MusicDbParsers.ScanPayload | MusicParser/Parsers/MusicDbParser.cs:58-60 | the scan of the inflated payload on a parser that holds no entity yet publishes the scan's dictionaries |
| MusicDbParsers.MusicDbParser.constructor | MusicParser/Parsers/MusicDbParser.cs:20-39 | a new parser holds no entity, no current reference and a library id of 0 |
| MusicDbParsers.MusicDbParser.AddTrack | MusicParser/Parsers/MusicDbParser.cs:391-392 | the track is added under its id only when the id is new |
| MusicDbParsers.MusicDbParser.AddPlaylist | MusicParser/Parsers/MusicDbParser.cs:346-357 | the playlist is added under its key only when the key is new |
| MusicDbParsers.MusicDbParser.ParseAlbumItem | MusicParser/Parsers/MusicDbParser.cs:247-262 | the new state, cursor and fault flag are those of the album handler: the album is created when new, and the cursor moves to the section's end |
| MusicDbParsers.MusicDbParser.ParseArtistItem | MusicParser/Parsers/MusicDbParser.cs:264-279 | the new state and cursor are those of the artist handler: the artist is created when new and made current, and the cursor stops after the id |
| MusicDbParsers.MusicDbParser.ParsePlaylistItem | MusicParser/Parsers/MusicDbParser.cs:281-378 | the new state and cursor are those of the playlist handler |
| MusicDbParsers.MusicDbParser.ParseTrackItem | MusicParser/Parsers/MusicDbParser.cs:380-450 | the new state and cursor are those of the track handler |
| MusicDbParsers.MusicDbParser.ParseBomaSection | MusicParser/Parsers/MusicDbParser.cs:452-525 | the new state and cursor are those of the boma handler, including the subtype read outside the decoders' catch |
| MusicDbParsers.MusicDbParser.DispatchBoma | MusicParser/Parsers/MusicDbParser.cs:460-522 | the subtype switch computes the decoder step of its subtype |
| MusicDbParsers.MusicDbParser.MarkSmartCriteria | MusicParser/Parsers/MusicDbParser.cs:493-499 | the smart-criteria record's step on the parser state |
| MusicDbParsers.MusicDbParser.CountUnknownBoma | MusicParser/Parsers/MusicDbParser.cs:516-521 | the unknown-subtype counter's step on the parser state |
| MusicDbParsers.MusicDbParser.ParseBomaNumeric | MusicParser/Parsers/MusicDbParser.cs:658-689 | the numeric block's step on the parser state and cursor |
| MusicDbParsers.MusicDbParser.ParseBomaWidechar | MusicParser/Parsers/MusicDbParser.cs:691-764 | the UTF-16 string record's step on the parser state and cursor |
| MusicDbParsers.MusicDbParser.SetString | MusicParser/Parsers/MusicDbParser.cs:709-760 | the nested switches store the value as the routing function does |
| MusicDbParsers.MusicDbParser.ParseBomaPlaylistTrack | MusicParser/Parsers/MusicDbParser.cs:766-790 | the membership record's step on the parser state and cursor |
| MusicDbParsers.MusicDbParser.ParseBomaBook | MusicParser/Parsers/MusicDbParser.cs:584-656 | the book record's step on the parser state and cursor |
| MusicDbParsers.MusicDbParser.ParseBomaPlayStats | MusicParser/Parsers/MusicDbParser.cs:527-550 | the play-statistics record's step on the parser state and cursor |
| MusicDbParsers.MusicDbParser.ParseBomaFileUrl | MusicParser/Parsers/MusicDbParser.cs:552-582 | the file URL record's step on the parser state and cursor |
| MusicDbParsers.MusicDbParser.ParseSection | MusicParser/Parsers/MusicDbParser.cs:159-209 | the tag switch computes the dispatch step of the section |
| MusicDbParsers.MusicDbParser.ResetContext | MusicParser/Parsers/MusicDbParser.cs:161-200 | the master tags and ltma compute their dispatch step |
| MusicDbParsers.MusicDbParser.CloseMaster | MusicParser/Parsers/MusicDbParser.cs:161-186 | lama, lAma and lPma each clear exactly their own reference and move the cursor to the section's end, without fault |
| MusicDbParsers.MusicDbParser.ParseEntitySection | MusicParser/Parsers/MusicDbParser.cs:166-208 | the item tags and boma compute their dispatch step |
| MusicDbParsers.MusicDbParser.ParseAlbumSection | MusicParser/Parsers/MusicDbParser.cs:166-170 | iama clears the track and artist references, then runs the album handler |
| MusicDbParsers.MusicDbParser.ParseArtistSection | MusicParser/Parsers/MusicDbParser.cs:177-181 | iAma clears the track and album references, then runs the artist handler |
| MusicDbParsers.MusicDbParser.ParsePlaylistSection | MusicParser/Parsers/MusicDbParser.cs:188-193 | lpma clears the track, album and artist references, then runs the playlist handler |
| MusicDbParsers.MusicDbParser.ParseInnerSections | MusicParser/Parsers/MusicDbParser.cs:128-245 | the section loop ends in the state, section count and outcome of the scan function |
| MusicDbParsers.MusicDbParser.ParseNextSection | MusicParser/Parsers/MusicDbParser.cs:136-229 | one turn of the loop either advances the cursor and leaves the rest of the scan unchanged, or ends the scan with its result |
| MusicDbParsers.ReadSectionHead | MusicParser/Parsers/MusicDbParser.cs:138-155 | the all-zero test, the tag and the length field are those the section loop uses; a boma header cut short by the buffer's end gives no length; otherwise the cursor ends after the length field, at +12 for boma and +8 for every other tag |
| MusicDbParsers.ReadPlaylistHead | MusicParser/Parsers/MusicDbParser.cs:283-321 | the reads before the playlist record is created give the playlist head |
| MusicDbParsers.ReadPlaylistDates | MusicParser/Parsers/MusicDbParser.cs:362-374 | the creation and modification dates give the playlist dates step |
| MusicDbParsers.ReadTrackFields | MusicParser/Parsers/MusicDbParser.cs:396-449 | the reads of the track's fixed fields give the gated-fields step |
| MusicDbParsers.ReadTrackNumbers | MusicParser/Parsers/MusicDbParser.cs:415-449 | the reads of a section of 172 bytes or more give their step |
| MusicDbParsers.ReadTrackMovements | MusicParser/Parsers/MusicDbParser.cs:417-426 | the movement reads give their step |
| MusicDbParsers.ReadTrackNumberAndYear | MusicParser/Parsers/MusicDbParser.cs:428-437 | the track number and year reads give their step |
| MusicDbParsers.ReadTrackReferences | MusicParser/Parsers/MusicDbParser.cs:439-448 | the album and artist reference reads give their step |
| MusicDbParsers.ReadNumericFields | MusicParser/Parsers/MusicDbParser.cs:666-686 | the numeric block's reads give its step |
| MusicDbParsers.ReadNumericTail | MusicParser/Parsers/MusicDbParser.cs:673-686 | the reads after the date added give their step |
| MusicDbParsers.ReadWidecharString | MusicParser/Parsers/MusicDbParser.cs:700-707 | the string is the UTF-16LE decoding of the bytes from 36 on, NULs trimmed, and the cursor stops after them |
| MusicDbParsers.ReadFileUrlHead | MusicParser/Parsers/MusicDbParser.cs:558-562 | the URL length is the second of five words; a read past the end faults with the cursor at the end |
| MusicDbParsers.ReadBook | MusicParser/Parsers/MusicDbParser.cs:590-653 | the reads of a book record give the book path function's result |
| MusicDbParsers.ReadBookPath | MusicParser/Parsers/MusicDbParser.cs:600-648 | the fragment loop gives the kept fragments of the fragment scan, or faults with the cursor at the end |
| MusicDbParsers.ReadFragment | MusicParser/Parsers/MusicDbParser.cs:605-647 | one turn of the fragment loop gives the fragment step |
| MusicDbParsers.ReadFragmentBody | MusicParser/Parsers/MusicDbParser.cs:615-637 | a marked fragment's bytes and padding give the fragment step |
| ScanSpec.TagOf | MusicParser/Parsers/MusicDbParser.cs:143-159 | a signature selects boma exactly when it is "boma", and the default case exactly when it is none of the nine tags |
| ScanSpec.EmptyState | MusicParser/Parsers/MusicDbParser.cs:22-32 | a new parser's state is Consistent |
| ScanSpec.AppleDate | MusicParser/Parsers/MusicDbParser.cs:792-805 | a timestamp of zero is unset; any other is that many seconds after the 1904 epoch |
| ScanSpec.CreateTrack | MusicParser/Parsers/MusicDbParser.cs:391-392 | a track record is added only when its id is new; nothing else changes |
| ScanSpec.CreateAlbum | MusicParser/Parsers/MusicDbParser.cs:255-256 | an album record is added only when its id is new; nothing else changes |
| ScanSpec.CreateArtist | MusicParser/Parsers/MusicDbParser.cs:272-273 | an artist record is added only when its id is new; nothing else changes |
| ScanSpec.CreatePlaylist | MusicParser/Parsers/MusicDbParser.cs:346-357 | a playlist record is added only when its key is new; nothing else changes |
| ScanSpec.AlbumItem | MusicParser/Parsers/MusicDbParser.cs:247-262 | the album handler only appends to the insertion orders and keeps every reference resolvable |
| ScanSpec.ArtistItem | MusicParser/Parsers/MusicDbParser.cs:264-279 | the artist handler only appends to the insertion orders and keeps every reference resolvable |
| ScanSpec.Classify | MusicParser/Parsers/MusicDbParser.cs:331-344 | Folder exactly when track count and kind are both zero, System exactly when the kind is non-zero, otherwise Manual, never Smart |
| ScanSpec.PlaylistHeadAt | MusicParser/Parsers/MusicDbParser.cs:283-321 | a head is read only when the reads through offset 38 fit in the buffer |
| ScanSpec.PlaylistItem | MusicParser/Parsers/MusicDbParser.cs:281-378 | the playlist handler only appends to the insertion orders and keeps every reference resolvable |
| ScanSpec.PlaylistDates | MusicParser/Parsers/MusicDbParser.cs:362-374 | the dates keep the playlist's id |
| ScanSpec.TrackFields | MusicParser/Parsers/MusicDbParser.cs:396-449 | the fixed fields keep the track's id |
| ScanSpec.TrackItem | MusicParser/Parsers/MusicDbParser.cs:380-450 | the track handler only appends to the insertion orders and keeps every reference resolvable |
| ScanSpec.NumericFields | MusicParser/Parsers/MusicDbParser.cs:666-686 | the numeric block keeps the track's id |
| ScanSpec.BomaNumeric | MusicParser/Parsers/MusicDbParser.cs:658-689 | the numeric block never faults, adds no key and leaves the albums alone |
| ScanSpec.SetTrackString | MusicParser/Parsers/MusicDbParser.cs:714-732 | a track string keeps the track's id |
| ScanSpec.SetAlbumString | MusicParser/Parsers/MusicDbParser.cs:737-742 | an album string keeps the album's id |
| ScanSpec.RouteString | MusicParser/Parsers/MusicDbParser.cs:709-760 | routing a string adds no key, and leaves the albums alone while no album is current |
| ScanSpec.BomaWidechar | MusicParser/Parsers/MusicDbParser.cs:691-764 | a string record never faults and adds no key |
| ScanSpec.BomaPlaylistTrack | MusicParser/Parsers/MusicDbParser.cs:766-790 | a membership record never faults, adds no key and leaves the albums alone |
| ScanSpec.BomaSmart | MusicParser/Parsers/MusicDbParser.cs:493-499 | the smart marker never faults, adds no key and leaves the albums alone |
| ScanSpec.FragmentAt | MusicParser/Parsers/MusicDbParser.cs:605-647 | each turn of the fragment loop moves its cursor strictly forward and keeps at most one fragment |
| ScanSpec.FragmentBody | MusicParser/Parsers/MusicDbParser.cs:613-638 | a marked fragment moves the cursor past its two header words and keeps at most one fragment |
| ScanSpec.BookScan | MusicParser/Parsers/MusicDbParser.cs:603-648 | the fragment loop only appends to the parts it starts with |
| ScanSpec.BomaBook | MusicParser/Parsers/MusicDbParser.cs:584-656 | a book record never faults, adds no key and leaves the albums alone |
| ScanSpec.BomaPlayStats | MusicParser/Parsers/MusicDbParser.cs:527-550 | a play-statistics record never faults, adds no key and leaves the albums alone |
| ScanSpec.StripFileScheme | MusicParser/Parsers/MusicDbParser.cs:573-576 | a URL starting with file:/// becomes "/" followed by the rest after those eight characters; any other is kept |
| ScanSpec.BomaFileUrl | MusicParser/Parsers/MusicDbParser.cs:552-582 | a file URL record never faults, adds no key and leaves the albums alone |
| ScanSpec.CountUnknown | MusicParser/Parsers/MusicDbParser.cs:516-521 | afterwards the subtype has a counter; the insertion orders and the albums are kept |
| ScanSpec.BomaDispatch | MusicParser/Parsers/MusicDbParser.cs:458-524 | inside the catch no decoder faults or adds a key |
| ScanSpec.BomaSection | MusicParser/Parsers/MusicDbParser.cs:452-525 | a boma record adds no key, and leaves the albums alone while no album is current |
| ScanSpec.BomaSectionDispatches | MusicParser/Parsers/MusicDbParser.cs:454-460 | once something is current and the subtype is read, a boma record is its subtype's decoder |
| ScanSpec.Dispatch | MusicParser/Parsers/MusicDbParser.cs:159-209 | every section only appends to the insertion orders and keeps every reference resolvable |
| ScanSpec.DispatchMasters | MusicParser/Parsers/MusicDbParser.cs:161-200 | lama, lAma and lPma clear their reference and skip to the section's end; ltma clears the track and faults exactly when its count is cut off; an unknown tag changes nothing and skips eight bytes |
| ScanSpec.DispatchPlaylist | MusicParser/Parsers/MusicDbParser.cs:188-193 | lpma runs the playlist handler with no current track, album or artist |
| ScanSpec.Scan | MusicParser/Parsers/MusicDbParser.cs:136-238 | the count of length fields read only grows, by at most one per byte left in the buffer, so the loop is bounded by the buffer's length |
| ScanSpec.Values | MusicParser/Parsers/MusicDbParser.cs:241-244 | a dictionary's values list, in insertion order, the record of each key |
| ScanInvariant.IndexedAdd | MusicParser/Parsers/MusicDbParser.cs:255-256 | appending a new key to the insertion order keeps the dictionary indexed |
| ScanInvariant.CreateTrackConsistent | MusicParser/Parsers/MusicDbParser.cs:391-392 | adding a track keeps the state Consistent |
| ScanInvariant.CreateAlbumConsistent | MusicParser/Parsers/MusicDbParser.cs:255-256 | adding an album keeps the state Consistent |
| ScanInvariant.CreateArtistConsistent | MusicParser/Parsers/MusicDbParser.cs:272-273 | adding an artist keeps the state Consistent |
| ScanInvariant.CreatePlaylistConsistent | MusicParser/Parsers/MusicDbParser.cs:346-357 | adding a playlist keeps the state Consistent |
| ScanInvariant.CurrentTrackWrites | MusicParser/Parsers/MusicDbParser.cs:402 | any write through the current-track reference that keeps the id keeps the state Consistent |
| ScanInvariant.CurrentPlaylistWrites | MusicParser/Parsers/MusicDbParser.cs:366 | any write through the current-playlist reference that keeps the id keeps the state Consistent |
| ScanInvariant.CurrentAlbumWrite | MusicParser/Parsers/MusicDbParser.cs:739-741 | a write through the current-album reference that keeps the id keeps the state Consistent |
| ScanInvariant.CurrentArtistWrite | MusicParser/Parsers/MusicDbParser.cs:749 | a write through the current-artist reference that keeps the id keeps the state Consistent |
| ScanInvariant.AlbumItemConsistent | MusicParser/Parsers/MusicDbParser.cs:247-262 | the album handler keeps the state Consistent |
| ScanInvariant.ArtistItemConsistent | MusicParser/Parsers/MusicDbParser.cs:264-279 | the artist handler keeps the state Consistent |
| ScanInvariant.PlaylistItemConsistent | MusicParser/Parsers/MusicDbParser.cs:281-378 | the playlist handler keeps the state Consistent |
| ScanInvariant.TrackItemConsistent | MusicParser/Parsers/MusicDbParser.cs:380-450 | the track handler keeps the state Consistent |
| ScanInvariant.RouteStringConsistent | MusicParser/Parsers/MusicDbParser.cs:709-760 | routing a string keeps the state Consistent |
| ScanInvariant.BomaNumericConsistent | MusicParser/Parsers/MusicDbParser.cs:658-689 | the numeric block keeps the state Consistent |
| ScanInvariant.BomaWidecharConsistent | MusicParser/Parsers/MusicDbParser.cs:691-764 | a string record keeps the state Consistent |
| ScanInvariant.BomaPlaylistTrackConsistent | MusicParser/Parsers/MusicDbParser.cs:766-790 | a membership record keeps the state Consistent |
| ScanInvariant.BomaSmartConsistent | MusicParser/Parsers/MusicDbParser.cs:493-499 | the smart marker keeps the state Consistent |
| ScanInvariant.BomaBookConsistent | MusicParser/Parsers/MusicDbParser.cs:584-656 | a book record keeps the state Consistent |
| ScanInvariant.BomaPlayStatsConsistent | MusicParser/Parsers/MusicDbParser.cs:527-550 | a play-statistics record keeps the state Consistent |
| ScanInvariant.BomaFileUrlConsistent | MusicParser/Parsers/MusicDbParser.cs:552-582 | a file URL record keeps the state Consistent |
| ScanInvariant.BomaSectionConsistent | MusicParser/Parsers/MusicDbParser.cs:452-525 | a boma record keeps the state Consistent |
| ScanInvariant.DispatchAlbumConsistent | MusicParser/Parsers/MusicDbParser.cs:166-170 | an iama section keeps the state Consistent |
| ScanInvariant.DispatchArtistConsistent | MusicParser/Parsers/MusicDbParser.cs:177-181 | an iAma section keeps the state Consistent |
| ScanInvariant.DispatchPlaylistConsistent | MusicParser/Parsers/MusicDbParser.cs:188-193 | an lpma section keeps the state Consistent |
| ScanInvariant.DispatchTrackConsistent | MusicParser/Parsers/MusicDbParser.cs:202-204 | an itma section keeps the state Consistent |
| ScanInvariant.DispatchBomaConsistent | MusicParser/Parsers/MusicDbParser.cs:206-208 | a boma section keeps the state Consistent |
| ScanInvariant.DispatchContextConsistent | MusicParser/Parsers/MusicDbParser.cs:161-200 | the master tags, ltma and unknown tags keep the state Consistent |
| ScanInvariant.DispatchConsistent | MusicParser/Parsers/MusicDbParser.cs:159-209 | every section keeps the state Consistent |
| ScanInvariant.ScanConsistent | MusicParser/Parsers/MusicDbParser.cs:136-244 | the scan ends Consistent, so the published lists are well-formed even after a fault |
| ScanProperties.MasterTagsClearOne | MusicParser/Parsers/MusicDbParser.cs:161-200 | lama, lAma, lPma and ltma each clear exactly one reference and leave every dictionary as it was |
| ScanProperties.IamaContext | MusicParser/Parsers/MusicDbParser.cs:166-170 | iama clears the track and artist references and leaves the album and playlist references as they were |
| ScanProperties.IamaArtistContext | MusicParser/Parsers/MusicDbParser.cs:177-181 | iAma clears the track and album references, then makes the artist whose id is at 16 current |
| ScanProperties.LpmaContext | MusicParser/Parsers/MusicDbParser.cs:188-193 | lpma clears the track, album and artist references, then makes the playlist with key (id at 30, section start) current |
| ScanProperties.ItmaContext | MusicParser/Parsers/MusicDbParser.cs:202-204 | itma makes the track whose id is at 16 current and clears nothing |
| ScanProperties.DispatchAlbumNoAlbumData | MusicParser/Parsers/MusicDbParser.cs:166-170 | iama keeps the album reference unset and the album records bare |
| ScanProperties.DispatchArtistNoAlbumData | MusicParser/Parsers/MusicDbParser.cs:177-181 | iAma keeps the album reference unset and the album records bare |
| ScanProperties.DispatchPlaylistNoAlbumData | MusicParser/Parsers/MusicDbParser.cs:188-193 | lpma keeps the album reference unset and the album records bare |
| ScanProperties.DispatchTrackNoAlbumData | MusicParser/Parsers/MusicDbParser.cs:202-204 | itma keeps the album reference unset and the album records bare |
| ScanProperties.DispatchBomaNoAlbumData | MusicParser/Parsers/MusicDbParser.cs:206-208 | boma keeps the album reference unset and the album records bare |
| ScanProperties.DispatchKeepsNoAlbumData | MusicParser/Parsers/MusicDbParser.cs:159-209 | no section makes an album current, so no album string is ever written |
| ScanProperties.AlbumItemBare | MusicParser/Parsers/MusicDbParser.cs:247-262 | the album handler adds only bare album records and never makes one current |
| ScanProperties.PlaylistItemKeepsAlbums | MusicParser/Parsers/MusicDbParser.cs:281-378 | the playlist handler leaves the albums and the album reference alone |
| ScanProperties.TrackItemKeepsAlbums | MusicParser/Parsers/MusicDbParser.cs:380-450 | the track handler leaves the albums and the album reference alone |
| ScanProperties.ScanNoAlbum | MusicParser/Parsers/MusicDbParser.cs:735-743 | over a whole scan no album becomes current and every album record stays bare, so the album string branch is never taken |
| ScanProperties.AlbumItemReuses | MusicParser/Parsers/MusicDbParser.cs:255-256 | an existing album is reused unchanged; a new id adds a bare album at the end of the order |
| ScanProperties.ArtistItemReuses | MusicParser/Parsers/MusicDbParser.cs:272-275 | an existing artist is reused unchanged; a new id adds a bare artist at the end of the order |
| ScanProperties.TrackItemReuses | MusicParser/Parsers/MusicDbParser.cs:391-394 | the track under the id at 16, existing or new, receives the fixed fields; only a new id extends the order |
| ScanProperties.PlaylistItemReuses | MusicParser/Parsers/MusicDbParser.cs:346-374 | an existing playlist key keeps its record and only its dates are read again |
| ScanProperties.PlaylistItemCreates | MusicParser/Parsers/MusicDbParser.cs:346-357 | a new playlist carries the id, track count, parent, kind and type of its head, is master exactly when the id is 5, and has no name, no criteria and no tracks |
| ScanProperties.PlaylistHeadRules | MusicParser/Parsers/MusicDbParser.cs:283-321 | id at 30 and track count at 16; the parent is read at 50 only from 58 bytes on and is zero exactly when it is 0 or the library id; the kind is read at 79 without a parent and at 80 with one, only from 82 bytes on |
| ScanProperties.SmartCriteriaOverrides | MusicParser/Parsers/MusicDbParser.cs:493-499 | subtype 0x00C9 marks the current playlist as smart, whatever its type was, and changes nothing else |
| ScanProperties.TrackFieldsGates | MusicParser/Parsers/MusicDbParser.cs:396-449 | each fixed track field changes only when its gate passes: rating 1..100 from 66 bytes, like status 0..3 from 63 bytes, movements 1..999, number 1..9999, year 1901..2099 and non-zero references from 172 bytes; every other field is kept |
| ScanProperties.TrackMovementsGates | MusicParser/Parsers/MusicDbParser.cs:417-426 | movement count and number change only to a value in 1..999 |
| ScanProperties.TrackNumberAndYearGates | MusicParser/Parsers/MusicDbParser.cs:428-437 | the track number changes only to 1..9999, the year only to 1901..2099 |
| ScanProperties.TrackReferencesGates | MusicParser/Parsers/MusicDbParser.cs:439-448 | the album and artist references change only to non-zero values |
| ScanProperties.TrackNumbersGates | MusicParser/Parsers/MusicDbParser.cs:415-449 | in sections of 172 bytes or more, each field changes only when its gate passes |
| ScanProperties.BomaIgnoredWhenNothingCurrent | MusicParser/Parsers/MusicDbParser.cs:454 | while nothing is current a boma record changes nothing and its subtype is not read |
| ScanProperties.NumericBlockGate | MusicParser/Parsers/MusicDbParser.cs:660-686 | the numeric block changes nothing without a current track or under 180 bytes, and otherwise writes only the current track |
| ScanProperties.NumericFieldsRules | MusicParser/Parsers/MusicDbParser.cs:666-686 | bit rate at 108, date added at 112 (unset exactly when zero), date modified at 148, duration at 176, file size at 316 only from 320 bytes on; no other field changes |
| ScanProperties.PlaylistTrackAppends | MusicParser/Parsers/MusicDbParser.cs:772-787 | an ipfa record appends the id at 40 to the current playlist's tracks when non-zero, keeping order and duplicates, and changes nothing else |
| ScanProperties.PlaylistTrackNeedsSignature | MusicParser/Parsers/MusicDbParser.cs:775-778 | without "ipfa" at 20 a membership record changes nothing |
| ScanProperties.UnknownSubtypeCounted | MusicParser/Parsers/MusicDbParser.cs:516-521 | an unknown subtype raises its own counter by exactly one and changes nothing else |
| ScanProperties.WidecharGates | MusicParser/Parsers/MusicDbParser.cs:700-709 | a string record changes the state only for a length in 1..9999 and a value that is not blank, and then routes that value |
| ScanProperties.RoutePriority | MusicParser/Parsers/MusicDbParser.cs:712-759 | the value goes to the first current entity in the order track, album, artist, playlist; an artist takes only 0x0004 and a playlist only 0x00C8 |
| ScanProperties.ArtistStringRouting | MusicParser/Parsers/MusicDbParser.cs:712-750 | 0x0004 sets the current track's artist, and names the current artist only when no track is current |
| ScanProperties.SetTrackStringOneField | MusicParser/Parsers/MusicDbParser.cs:714-732 | each track subtype writes its own field and nothing else; other subtypes leave the track alone |
| ScanProperties.WidecharValueOfEncoding | MusicParser/Parsers/MusicDbParser.cs:706-707 | decoding the UTF-16LE encoding of a string without a trailing NUL gives the string back |
| ScanProperties.BookScanKeeps | MusicParser/Parsers/MusicDbParser.cs:618-632 | every fragment the loop keeps passes the filter |
| ScanProperties.FragmentPadding | MusicParser/Parsers/MusicDbParser.cs:608-646 | a marked fragment of length 1..999 moves the cursor to the next multiple of four after its bytes; any other word moves it by four |
| ScanProperties.BookPathFromKeptFragments | MusicParser/Parsers/MusicDbParser.cs:593-653 | a path is present exactly when "book" is at 20 and at least one fragment is kept, and it is the kept fragments joined by "/" |
| ScanProperties.BookSetsFilePath | MusicParser/Parsers/MusicDbParser.cs:584-656 | with no current track nothing changes; otherwise only the current track's file path changes, to the book path when there is one, and is kept when there is none |
| ScanProperties.PlayStatsRules | MusicParser/Parsers/MusicDbParser.cs:527-550 | with no current track or under 36 bytes nothing changes; otherwise only the play count (the signed 32-bit value at 32) and the last-played date (at 28, unset exactly when zero) of the current track change |
| ScanProperties.FileUrlRules | MusicParser/Parsers/MusicDbParser.cs:552-582 | with no current track, under 36 bytes, or a length at 24 outside 1..999 nothing changes; otherwise only the current track's URL changes, to the unescaped UTF-8 text at 36 with "file:///" rewritten to "/" |
| ScanProperties.PlaylistDatesRules | MusicParser/Parsers/MusicDbParser.cs:362-374 | only the two dates change: created at 22 from 26 bytes on, modified at 138 from 142 bytes on, and a section that claims 142 bytes but overruns the buffer faults with the modified date kept |
| ScanProperties.DroppedFragments | MusicParser/Parsers/MusicDbParser.cs:618-629 | UUID-shaped, file:///, Macintosh or HD, "/" and blank fragments are dropped |
| ScanProperties.BookScanReaderPos | MusicParser/Parsers/MusicDbParser.cs:603-648 | the fragment loop leaves the reader no earlier than where it began |
| ScanProperties.BookPathAdvances | MusicParser/Parsers/MusicDbParser.cs:590-653 | a book record leaves the reader past the record's start |
| ScanProperties.BomaAdvances | MusicParser/Parsers/MusicDbParser.cs:452-525 | a boma record that does not fault leaves the reader past its start |
| ScanProperties.TrackItemAdvances | MusicParser/Parsers/MusicDbParser.cs:380-450 | a track section that does not fault leaves the reader past its start |
| ScanProperties.DispatchAdvances | MusicParser/Parsers/MusicDbParser.cs:159-209 | a section that does not fault leaves the reader past its start or at start + length |
| ScanProperties.NoProgressIffEmptySection | MusicParser/Parsers/MusicDbParser.cs:214-225 | a section that does not fault leaves the cursor no further on exactly when its length field is zero |
| ScanProperties.ScanOneStep | MusicParser/Parsers/MusicDbParser.cs:136-229 | one turn of the loop moves the cursor forward, only appends keys, and the rest of the scan continues from there |
| ScanProperties.ScanGrows | MusicParser/Parsers/MusicDbParser.cs:136-238 | a scan only appends keys to the insertion orders: nothing built is ever lost, even at a fault |
| Models.LikeStatusOf | MusicParser/Parsers/MusicDbParser.cs:409-411 | a like-status byte 0..3 is stored as the status with that code |
| Models.NewTrack | MusicParser/Parsers/MusicDbParser.cs:391-392 | a new track carries its id |
| Text.DecodeEncodeUtf16Le | MusicParser/Parsers/MusicDbParser.cs:707 | decoding UTF-16LE undoes encoding it |
| Text.TrimEndNul | MusicParser/Parsers/MusicDbParser.cs:707 | trailing NULs are removed, and nothing else |
| MusicDbDecryptor.GetAesKey | MusicParser/Crypto/MusicDbDecryptor.cs:17-36 | the key is accepted exactly when it is set and 16 characters long; missing or empty and wrong length are distinct errors |
| MusicDbDecryptor.AsciiEncode | MusicParser/Crypto/MusicDbDecryptor.cs:28 | one byte per character, the character's code for ASCII characters |
| MusicDbDecryptor.Ecb | MusicParser/Crypto/MusicDbDecryptor.cs:48-54 | ECB decryption preserves the length |
| MusicDbDecryptor.EcbBlock | MusicParser/Crypto/MusicDbDecryptor.cs:48-54 | block k of the output is the decryption of block k of the input |
| MusicDbDecryptor.Decrypt | MusicParser/Crypto/MusicDbDecryptor.cs:43-55 | empty input gives empty output; any other input decrypts exactly when it is block-aligned, to as many bytes |
| MusicDbDecryptor.IsEncrypted | MusicParser/Crypto/MusicDbDecryptor.cs:117-127 | true exactly when the data holds at least one 16-byte block |
| MusicDbDecryptor.TruncDiv | MusicParser/Crypto/MusicDbDecryptor.cs:97 | C#'s division truncates toward zero |
| MusicDbDecryptor.WrapInt32 | MusicParser/Crypto/MusicDbDecryptor.cs:99-102 | the (int) conversion lands in the 32-bit range and keeps values already in it |
| MusicDbDecryptor.CryptSize | MusicParser/Crypto/MusicDbDecryptor.cs:94-97 | the header's maximum when it is set and below the payload length, else the payload rounded down to whole blocks |
| MusicDbDecryptor.CryptSizeBounds | MusicParser/Crypto/MusicDbDecryptor.cs:94-97 | the encrypted size never exceeds the payload; without the header's maximum it is block-aligned and leaves less than a block |
| MusicDbDecryptor.DecryptNeedsSignature | MusicParser/Crypto/MusicDbDecryptor.cs:82-84 | a file that does not start with "hfma" is rejected |
| MusicDbDecryptor.Framing | MusicParser/Crypto/MusicDbDecryptor.cs:76-112 | the envelope length at 4 and the maximum at 84 frame the payload; the inflater gets the decrypted prefix then the plain tail, as long as the payload; a misaligned prefix fails |
| MusicDbDecryptor.FramingFrom | MusicParser/Crypto/MusicDbDecryptor.cs:93-111 | the same framing, from the end of the envelope on |
| MusicDbDecryptor.TailFraming | MusicParser/Crypto/MusicDbDecryptor.cs:102-103 | the tail is the rest of the file, byte for byte |
| MusicDbDecryptor.DecryptAndDecompressFile | MusicParser/Crypto/MusicDbDecryptor.cs:76-112 | the reads through the reader give the framing function's result |
| MusicDbDecryptor.DecryptPayload | MusicParser/Crypto/MusicDbDecryptor.cs:93-111 | the payload reads give the payload framing's result |
| MusicDbDecryptor.InflateTail | MusicParser/Crypto/MusicDbDecryptor.cs:102-111 | the tail read and the inflation give the tail function's result |
| CompareCommand.DifferencesBelow | MusicParser.App/Commands/CompareCommand.cs:41-50 | the differences below n are at most n, each at an offset below n |
| CompareCommand.Offsets | MusicParser.App/Commands/CompareCommand.cs:151 | the offsets of the differences, in order |
| CompareCommand.DifferencesBelowExact | MusicParser.App/Commands/CompareCommand.cs:41-50 | below n, an offset is listed exactly when the bytes differ there, with both bytes, in increasing order |
| CompareCommand.DifferencesExact | MusicParser.App/Commands/CompareCommand.cs:41-50 | over the common length, an offset is listed exactly when the bytes differ there, with both bytes, in strictly increasing order |
| CompareCommand.NoDifferencesMeansPrefix | MusicParser.App/Commands/CompareCommand.cs:55-64 | no differences means the shorter buffer is a prefix of the longer, which the command reports as identical |
| CompareCommand.FindDifferences | MusicParser.App/Commands/CompareCommand.cs:41-50 | the comparison loop computes the differences |
| CompareCommand.HexDigit | MusicParser.App/Commands/CompareCommand.cs:134-136 | one upper-case hex digit |
| CompareCommand.Hex2 | MusicParser.App/Commands/CompareCommand.cs:134-136 | a byte is two upper-case hex digits |
| CompareCommand.Token | MusicParser.App/Commands/CompareCommand.cs:133-136 | the marked byte takes four characters, every other one three |
| CompareCommand.TrimEnd | MusicParser.App/Commands/CompareCommand.cs:139 | a prefix that does not end in white space |
| CompareCommand.TrimEndDropsBlanks | MusicParser.App/Commands/CompareCommand.cs:139 | trimming the end removes only white space |
| CompareCommand.TrimStart | MusicParser.App/Commands/CompareCommand.cs:139 | a suffix; a string that starts with a non-blank character is kept whole |
| CompareCommand.WindowStart | MusicParser.App/Commands/CompareCommand.cs:122 | the window starts at most the context size before the offset, and never after it |
| CompareCommand.WindowEnd | MusicParser.App/Commands/CompareCommand.cs:123 | the window's exclusive end lies inside the buffer, at most one past offset + context size, and past the offset when the offset is in the buffer |
| CompareCommand.RenderWindow | MusicParser.App/Commands/CompareCommand.cs:130-138 | the StringBuilder loop appends the token of every window byte, in order |
| CompareCommand.GetContext | MusicParser.App/Commands/CompareCommand.cs:120-140 | the result is the trimmed rendering of the window's bytes |
| CompareCommand.CountCharAppend | MusicParser.App/Commands/CompareCommand.cs:130-137 | brackets of a concatenation add up |
| CompareCommand.TokenBrackets | MusicParser.App/Commands/CompareCommand.cs:133-136 | a token holds a bracket exactly when its byte is the marked one |
| CompareCommand.RenderFromBrackets | MusicParser.App/Commands/CompareCommand.cs:131-137 | the rest of a rendering holds one bracket when the offset is still ahead, else none |
| CompareCommand.RenderBrackets | MusicParser.App/Commands/CompareCommand.cs:131-137 | a rendering brackets exactly one byte when the offset lies in the window, none otherwise |
| CompareCommand.RenderFromMarks | MusicParser.App/Commands/CompareCommand.cs:131-137 | the marked byte sits three characters per earlier byte into the rest of the rendering |
| CompareCommand.RenderMarksOffset | MusicParser.App/Commands/CompareCommand.cs:131-137 | the marked byte appears as "[XX]", three characters per earlier window byte into the rendering |
| CompareCommand.TrimEndKeepsBrackets | MusicParser.App/Commands/CompareCommand.cs:139 | trimming keeps every bracket |
| CompareCommand.TrimKeeps | MusicParser.App/Commands/CompareCommand.cs:139 | trimming a string that starts with a non-blank character only drops trailing blanks |
| CompareCommand.RenderStart | MusicParser.App/Commands/CompareCommand.cs:131-137 | a rendering starts with a hex digit or a bracket |
| CompareCommand.TrimKeepsPiece | MusicParser.App/Commands/CompareCommand.cs:139 | trimming keeps a bracketed piece and every bracket |
| CompareCommand.TrimmedRenderMarks | MusicParser.App/Commands/CompareCommand.cs:130-139 | the trimmed rendering holds exactly one bracket, around the byte at the offset, whose hex it shows |
| CompareCommand.ContextMarksOffset | MusicParser.App/Commands/CompareCommand.cs:120-140 | the context of an offset inside the buffer brackets exactly that byte, three characters per earlier window byte in |
| CompareCommand.Runs | MusicParser.App/Commands/CompareCommand.cs:145-176 | no more runs than offsets, no run exactly when there is no offset, and the last run ends at the last offset |
| CompareCommand.Report | MusicParser.App/Commands/CompareCommand.cs:164-176 | no more ranges than runs |
| CompareCommand.Expand | MusicParser.App/Commands/CompareCommand.cs:166 | a run covers end - start + 1 offsets |
| CompareCommand.RunsSnoc | MusicParser.App/Commands/CompareCommand.cs:153-170 | an offset that follows the last run grows it; any other starts a new run |
| CompareCommand.FlattenSnoc | MusicParser.App/Commands/CompareCommand.cs:145-176 | flattening distributes over appending a run |
| CompareCommand.FlattenGrow | MusicParser.App/Commands/CompareCommand.cs:158-161 | growing the last run by one offset appends that offset |
| CompareCommand.RunsFlatten | MusicParser.App/Commands/CompareCommand.cs:145-176 | read one after the other, the runs give the offsets back |
| CompareCommand.MaximalGrow | MusicParser.App/Commands/CompareCommand.cs:158-161 | growing the last run keeps the runs maximal |
| CompareCommand.MaximalAppend | MusicParser.App/Commands/CompareCommand.cs:162-170 | starting a run at a non-consecutive offset keeps the runs maximal |
| CompareCommand.RunsMaximal | MusicParser.App/Commands/CompareCommand.cs:145-176 | no run could be extended by the start of the next one |
| CompareCommand.RunsPartition | MusicParser.App/Commands/CompareCommand.cs:145-176 | the runs split the offsets into maximal consecutive pieces |
| CompareCommand.SeparatedGrow | MusicParser.App/Commands/CompareCommand.cs:158-161 | growing the last run keeps the runs separated |
| CompareCommand.SeparatedAppend | MusicParser.App/Commands/CompareCommand.cs:162-170 | starting a run past a gap keeps the runs separated |
| CompareCommand.RunsSeparated | MusicParser.App/Commands/CompareCommand.cs:145-176 | with increasing offsets the runs are disjoint, increasing and separated by at least one offset |
| CompareCommand.ReportedRanges | MusicParser.App/Commands/CompareCommand.cs:164-176 | every reported range is a run of five or more offsets, with count = end - start + 1 |
| CompareCommand.ReportSnoc | MusicParser.App/Commands/CompareCommand.cs:164-167 | one more run adds its range when it covers five offsets or more |
| CompareCommand.ReportLast | MusicParser.App/Commands/CompareCommand.cs:173-176 | the final open range is reported like the closed ones |
| CompareCommand.RangeOpen | MusicParser.App/Commands/CompareCommand.cs:153-157 | the first offset opens a range of its own |
| CompareCommand.RangeGrow | MusicParser.App/Commands/CompareCommand.cs:158-161 | an offset that follows the open range grows it |
| CompareCommand.RangeClose | MusicParser.App/Commands/CompareCommand.cs:162-170 | any other offset closes the open range, reporting it when it covers five offsets or more |
| CompareCommand.RangeFinish | MusicParser.App/Commands/CompareCommand.cs:173-176 | after the last offset the reported ranges are those of the maximal runs |
| CompareCommand.AnalyzeRanges | MusicParser.App/Commands/CompareCommand.cs:145-176 | the range loop reports exactly the maximal runs of five or more |
| CompareCommand.IsolatedChanges | MusicParser.App/Commands/CompareCommand.cs:188-193 | keeps exactly the differences whose neighbours inside the compared range are equal in both buffers |
| CompareCommand.IsolatedChangesExact | MusicParser.App/Commands/CompareCommand.cs:188-193 | an offset is kept exactly when the bytes differ there and each in-range neighbour agrees |
| CompareCommand.AsWrittenAgrees | MusicParser.App/Commands/CompareCommand.cs:188-193 | whenever the filter as written does not throw, it agrees with the intended one |
| CompareCommand.AsWrittenThrowsOn | MusicParser.App/Commands/CompareCommand.cs:188-193 | the filter as written throws exactly when the second buffer is shorter and its last byte is a difference |
| CompareCommand.AsWrittenThrows | MusicParser.App/Commands/CompareCommand.cs:188-193 | on two buffers, the filter throws exactly when the second is shorter, not empty, and differs at its last byte |
| CompareCommand.AsWrittenCounterexample | MusicParser.App/Commands/CompareCommand.cs:188-193 | [0, 1, 0] against [0, 2] makes the filter as written throw |
| CompareCommand.InOffsets | MusicParser.App/Commands/CompareCommand.cs:151 | an offset is listed exactly when some difference carries it |
| CompareCommand.DifferenceAt | MusicParser.App/Commands/CompareCommand.cs:46-48 | a listed difference carries the two buffers' bytes at its offset, which differ |
| CompareCommand.DifferencesWithin | MusicParser.App/Commands/CompareCommand.cs:42-44 | every difference lies inside both buffers |
| CompareCommand.Rows | MusicParser.App/Commands/CompareCommand.cs:79-92 | one table row per difference shown |
| CompareCommand.RowsAt | MusicParser.App/Commands/CompareCommand.cs:79-92 | row k holds difference k and the contexts of both buffers around its offset |
| CompareCommand.RowsStep | MusicParser.App/Commands/CompareCommand.cs:79-92 | one more difference adds its row at the end |
| CompareCommand.ContextRows | MusicParser.App/Commands/CompareCommand.cs:79-92 | the table loop builds the rows in order |
| CompareCommand.ContextRow | MusicParser.App/Commands/CompareCommand.cs:82-83 | a row holds the difference and the two contexts around its offset |
| CompareCommand.Execute | MusicParser.App/Commands/CompareCommand.cs:28-111 | identical exactly when there are no differences; otherwise the differences, the first 100 as rows, the maximal runs of five or more, and the isolated changes under the corrected filter; exit code 0 |
| CompareCommand.ExitCodeAsWritten | MusicParser.App/Commands/CompareCommand.cs:188-193 | as written, the out-of-range read reaches the catch and the command exits with 1 exactly when the second buffer is shorter, non-empty and differs from the first at its last byte, and with 0 otherwise |
| CompareCommand.ExitCodes | MusicParser.App/Commands/CompareCommand.cs:55-64 | [1, 2, 3] against [1, 2] has no differences and exits with 0; as written, [0, 1, 0] against [0, 2] exits with 1 |

## Left out

- I/O, and three library calls that become parameters. File access, `Environment`, console output and logging are not modelled. The file is a byte sequence, and the key variable is an `Option<string>`. AES-128 block decryption is a function parameter; ECB is the concrete block map around it. zlib inflation is a function parameter that may reject its input.
- UTF-8 decoding and `Uri.UnescapeDataString` are also parameters (`TextDecoders`). UTF-16LE decoding, `TrimEnd('\0')`, the white-space test and the `file:///` rewrite are concrete.
- `DateTime`: an Apple timestamp is kept as its count of seconds since 1904. `AddSeconds` cannot overflow for a 32-bit count, so its catch is not modelled.
- `CreateDecryptionStream` is not modelled. It wraps the same ECB block map in a stream.
- `MusicDbParsers.Parse`: a zero-length section makes the source loop forever on that section. The model stops there and reports `Diverges`. `NoProgressIffEmptySection` proves that this happens exactly for a length field of zero.
- `MusicDbParsers.MusicDbParser.ParsePlaylistItem`: the playlist key is the pair (id, section start). The source's key is the string `"{id}_{start}"`, which is equally injective.
- `ScanSpec.StripFileScheme` and `ScanSpec.KeepFragment`: `StartsWith("file:///")` is modelled as an ordinal prefix test. The source's test is culture-sensitive.
- The unused `_playlistCounter`, the unused `bomaCount` reads and the `allParts` list of `ParseBomaBook` have no effect on the result and are not modelled.
- `MusicLibrary`'s `LibraryPath` and `ParsedAt` are not modelled: one is the file name and the other the clock.
- `MusicDbDecryptor.GetAesKey`: a Dafny `string` holds Unicode scalar values, so a key holding an unpaired UTF-16 surrogate cannot be written down. The ASCII encoder would replace it with one `?`, as `AsciiEncode` does for every non-ASCII scalar value.
- `MusicDbDecryptor.IsEncrypted` and `MusicDbDecryptor.Decrypt` take a key that has already been checked. In the source the key is read when the class is first used, so with a missing or malformed key the first `Decrypt` call throws. The model reports that error from `Parse`.
- `BinaryReaders.BinaryReader.ReadBytes`: a count that the `(int)` conversion makes negative is an error, as in the source. The allocation of a huge count is not modelled: the read returns what the buffer holds.
- `CompareCommand.Execute`: the table cells, the `Take(20)` of the printed ranges and the printing of the isolated changes are console output. The source prints isolated changes only when there are 1 to 49 of them, and then only the first 20. The model returns the rows, all ranges and all isolated changes.
- `CompareCommand.Execute` takes the two decrypted buffers. The command reads each file through `DecryptAndDecompressFile`, and a failure there ends in the catch with exit code 1; that path is not modelled here.
- `CompareCommand.Execute` is stated with the corrected isolated-change filter. The exit code of the source as written is `ExecuteExitCodeAsWritten`, which is 1 exactly on the inputs `ExitCodeAsWritten` names (the second buffer shorter and differing at its last byte) and 0 otherwise.
- `CompareCommand.GetContext`: requires that the window is not inverted, which holds for every offset inside the buffer. The source would throw for an offset past the end, but `Execute` never passes one.
- `ScanSpec.Scan`: a section whose start plus length exceeds `int.MaxValue` makes the `MemoryStream.Position` setter throw (MusicParser/Parsers/MusicDbParser.cs:163, 174, 185, 261), which ends the parse in a fault; the model does not add that bound: it moves to the far offset, past the end of the buffer, and the loop ends with `EndOfData` instead of `Fault`.
- `MusicDbDecryptor.Framing`: the framing lemma assumes a file under 2 GiB, where every `(int)` conversion keeps its value. Larger files go through the same functions, which model the wrap-around.

## Findings

| source | as written | input that shows it | evidently intended | confidence | as-written member | corrected member |
|---|---|---|---|---|---|---|
| MusicParser.App/Commands/CompareCommand.cs:188-193 | the right-edge test of the isolated-change filter compares the offset with `data1.Length - 1` only, then reads `data2[offset + 1]`; when the second buffer is shorter and differs at its last byte, the read is out of range, the exception reaches the catch at 105-110, and the command exits with 1 | `[0, 1, 0]` against `[0, 2]` | a neighbour outside the compared range (the common length) counts as equal, and the command completes with exit code 0 | not executed | CompareCommand.AsWrittenCounterexample | CompareCommand.IsolatedChangesExact |
