# Minimal music player: a Dafny model

This project models the logic of a small music-catalog web application. A
browser client loads a song list once at start-up. If the server cannot be
reached it falls back to four built-in songs and shows a notice. The user
picks a song and controls one shared audio element with play/pause and stop.
The server offers two read-only queries over one `songs` table: list every
song newest first, and fetch one song by id.

Modules, one per source file or component:

- `Wrappers` (wrappers.dfy): `Option` for `T | null`, `Result` for "returns or throws".
- `Strings` (strings.dfy): first-occurrence search, decimal rendering and reading, `padStart(2, '0')`.
- `SongSchema` (song_schema.dfy): the `Song` record, the URL check, and the two request validators (server/src/schema.ts).
- `SongTable` (song_table.dfy): the `songs` table as a store with its key invariant and its single-row INSERT (server/src/db/schema.ts).
- `SongQueries` (song_queries.dfy): `getSongs` and `getSong` (server/src/handlers), plus the validate-then-query procedures.
- `Catalog` (catalog.dfy): the built-in fallback songs (client/src/App.tsx).
- `TimeFormat` (time_format.dfy): `formatTime` (client/src/App.tsx), with a reader that inverts it.
- `Player` (player.dfy): the component state as one record, and every handler and media-element listener as a pure transition on it (client/src/App.tsx). It also defines the event-driven machine, its two invariants, and the four discrete phases (Idle, Ready, Playing, Failed).

Modelling choices:

- Timestamps are whole milliseconds since the Unix epoch, the value a JavaScript `Date` holds.
- Playback times are whole seconds, so `Math.floor(time / 60)` and `Math.floor(time % 60)` become `/` and `%` on naturals.
- JSON numbers in request payloads are `real`s, so the integer check can fail.
- The catalog request is an input: `Fetched(songs)` or `FetchFailed`.
- A rejected `play()` is its own event, `PlayRejected`, and can arrive at any later point.
- The audio element is a record with four fields: the bound URL, the paused flag, the position and its `error` attribute. The element is absent until the mount effect creates it.
- `HTMLMediaElement.load()` pauses the element, rewinds it to 0 and clears its error. This follows the media element load algorithm of the HTML Living Standard.
- `play()` on an element whose error code is `MEDIA_ERR_SRC_NOT_SUPPORTED` returns an already-rejected promise and leaves the element paused (the `play()` method steps of the HTML Living Standard). A URL that cannot be loaded leaves exactly that error behind. Any other element is unpaused by `play()`.
- The id in `WHERE id = $1` is sent as an untyped parameter, so PostgreSQL types it after the 4-byte `id` column. An id above 2147483647 passes the validator but makes the query fail with "value "…" is out of range for type integer", and the handler rethrows that failure.
- The database is either `Reachable(store)` or `Unreachable(error)`. The handlers are pure functions of it. They return no new store, so they cannot change it, and a storage error comes back unchanged as `Failure`.
- `created_at DESC` without a tie-breaker allows any order among equal timestamps. The contract of `GetSongs` says only "a permutation of the rows, newest first". The executable body is one admissible order. `NewestFirstIsUnique` shows that the order is fully determined when no two timestamps coincide.
- The `serial` id column is a 4-byte integer. The store keeps the sequence's next value, and drawing past 2147483647 fails. An INSERT that fails a NOT NULL check has already drawn its id. That value is not reused, as in PostgreSQL.

Behaviour of the code that a reader might not expect, modelled as written:

- A rejected `play()` only records a message (client/src/App.tsx:121-123). `isPlaying` stays true, so the phase stays Playing (the last clause of `Player.PhaseTransitions`). A controller that left Playing on a failed start would differ here. When `play()` refuses outright, the display says Playing while the element stays paused (`Player.RefusedStartPlaysNothing`).
- The component registers no `pause` listener (client/src/App.tsx:75-91). When the browser pauses the element on its own (a media key, its media-session controls, loss of audio focus), `isPlaying` stays true and the display says Playing while nothing plays (`Player.BrowserPausePlaysNothing`).
- Rows with equal `created_at` come back in no guaranteed order, because the SQL has no secondary key. Insertion order for ties is not promised.
- `stop` checks only that the audio element exists, not that a song is selected (client/src/App.tsx:129). The `error` listener likewise sets its message whether or not a song is selected.
- The table requires only that `name` is not NULL. An empty name is stored as it is.

## Model

| member | source | states |
|---|---|---|
| `SongSchema.ValidUrlIsSchemeThenColon` | server/src/schema.ts:5-10 | The stand-in for the URL check on `audioUrl` accepts a string iff it splits into a scheme (a letter, then letters, digits, '+', '-' or '.'), a colon and a remainder. |
| `SongSchema.ValidUrlSamples` | server/src/schema.ts:8 | The stand-in accepts "http://" and refuses " https://a", the two places where it departs from the URL parser; it accepts "mailto:", where the two agree. |
| `SongSchema.ColonlessRefused` | server/src/schema.ts:8 | Any string without a colon, a bare file name included, is refused, as the URL parser refuses it. |
| `SongSchema.ParseGetSongsInput` | server/src/schema.ts:15 | The list input accepts every object and needs no field; anything that is not an object is rejected with one issue. |
| `SongSchema.ParseGetSongInput` | server/src/schema.ts:20-22 | The single-song input succeeds exactly when `id` is present, is a number, is an integer and is above 0. The accepted id equals the number sent. Every failure reports at least one issue. |
| `SongSchema.AcceptsExactlyPositiveIntegers` | server/src/schema.ts:21 | An integer id is accepted, with the same value, iff it is positive. Zero and negative integers fail with the positivity issue alone. |
| `SongSchema.RejectsNonInteger` | server/src/schema.ts:21 | A number with a fractional part is rejected with the integer issue. When it is also not above 0, the positivity issue is reported too, after the integer issue. |
| `SongSchema.RejectsMissingOrNonNumericId` | server/src/schema.ts:20-21 | A missing id is reported as required, and a non-numeric id as "expected number". Neither reaches the numeric checks. |
| `SongTable.Insert` | server/src/db/schema.ts:4-9 | An insert succeeds iff the sequence is not exhausted, `name` and `audio_url` are given, and `created_at` is not NULL. On success it appends one row carrying the given name and URL. Its `created_at` is the given value, or the insertion time when none was given. Its id is above every existing id and fits 4 bytes. The table invariant (unique ids, all drawn from the sequence) is kept whether the insert succeeds or fails. |
| `SongQueries.GetSongs` | server/src/handlers/get_songs.ts:7-20 | A storage failure is passed to the caller unchanged. Otherwise the result is a permutation of the stored rows, ordered newest first. |
| `SongQueries.SortNewestFirst` | server/src/handlers/get_songs.ts:12 | The ordering step returns the same rows (as a multiset), with no row older than one after it. |
| `SongQueries.GetSongsReturnsEveryRow` | server/src/handlers/get_songs.ts:10-15 | The list has as many entries as the table has rows, and holds exactly the stored rows with their stored fields. An empty table gives an empty list. |
| `SongQueries.NewestFirstIsUnique` | server/src/handlers/get_songs.ts:12 | Two newest-first orderings of the same rows with pairwise distinct timestamps are identical. Only ties leave the order open. |
| `SongQueries.GetSongsDeterminedByTimestamps` | server/src/handlers/get_songs.ts:10-13 | With distinct timestamps, the list query returns exactly the one newest-first arrangement of the stored rows. |
| `SongQueries.LaterInsertListedFirst` | server/src/tests/get_songs.test.ts:45-70 | Two inserts into an empty table, the second strictly later, are listed second-first, with the names they were inserted with. |
| `SongQueries.RowsWithId` | server/src/handlers/get_song.ts:10-13 | The WHERE clause keeps exactly the stored rows whose id equals the requested id. |
| `SongQueries.GetSong` | server/src/handlers/get_song.ts:7-26 | A storage failure is passed on unchanged. On a reachable database the query succeeds iff the id fits 4 bytes; a larger id fails with PostgreSQL's out-of-range error. On success the result is `None` iff no stored row has the id, and a returned song is a stored row carrying the requested id. |
| `SongQueries.OutOfRangeIdIsAbsent` | server/src/db/schema.ts:5 | A valid table holds no id above 2147483647, so the out-of-range failure never hides a stored row. |
| `SongQueries.GetSongFindsStoredRow` | server/src/handlers/get_song.ts:12-21 | In a valid table, asking for a stored row's id returns that very row, with its name, URL and timestamp, because ids are unique. |
| `SongQueries.InsertThenQuery` | server/src/tests/get_song.test.ts:13-35 | After a successful insert, looking up the new id returns the inserted song with the inserted name and URL, and the list query contains it. |
| `SongQueries.GetSongsProcedure` | server/src/schema.ts:14-15 | A non-object payload is a validation error. With a valid payload, a storage failure is a storage error. Otherwise the result is the newest-first list of all rows. |
| `SongQueries.GetSongProcedure` | server/src/schema.ts:19-22 | The result is a validation error exactly when the id fails validation. A valid id on an unreachable database gets that database's error. On a reachable one, an id above 2147483647 gets the out-of-range error; any other valid id succeeds, with `None` iff no stored row has that id. A returned song is stored and has the id that was sent. |
| `SongQueries.ValidationPrecedesStorage` | server/src/schema.ts:20-22 | A malformed id gets the same failure whatever state the database is in, so storage is never consulted for it. |
| `Catalog.DemoAudioUrlIsValid` | client/src/App.tsx:15 | The shared placeholder URL passes the URL check on `audioUrl`. |
| `Catalog.PredefinedSongsShape` | client/src/App.tsx:11-36 | The fallback list has four songs with ids 1 to 4 in order, all on the one placeholder URL. They are dated one day apart from 1 January 2024, and every one conforms to the song record schema. |
| `Strings.PadStart2` | client/src/App.tsx:140 | Padding returns strings of length at least two. The original string is the suffix, and only '0's are added in front. |
| `Strings.Decimal` | client/src/App.tsx:140 | A whole number renders as at least one digit, "0" for zero and no leading '0' otherwise; below 10 one digit, below 100 at most two. |
| `Strings.CanonicalIsDecimal` | client/src/App.tsx:140 | Every numeral without a leading '0' is the rendering of the value it denotes, so rendering is onto such numerals and no two of them share a value. |
| `Strings.DecimalRoundTrip` | client/src/App.tsx:140 | Reading back the decimal rendering of a whole number gives that number. |
| `TimeFormat.FormatTime` | client/src/App.tsx:137-141 | The display is a numeral without leading '0' denoting the whole minutes, a colon, and exactly two digits denoting the seconds within the minute. |
| `TimeFormat.FormatTimeIsTheOnlyDisplay` | client/src/App.tsx:137-141 | Any string that shows the minutes and seconds of a time in that form is exactly that time's display. |
| `TimeFormat.PaddedSeconds` | client/src/App.tsx:139-140 | Any seconds value below 60 renders as exactly two digits with the same value. |
| `TimeFormat.ParseFormatRoundTrip` | client/src/App.tsx:137-141 | Reading a formatted time back gives the original number of seconds. |
| `TimeFormat.FormatTimeInjective` | client/src/App.tsx:137-141 | Two different times never produce the same display. |
| `Player.BeginLoad` | client/src/App.tsx:49-53 | Starting a load raises the loading flag and clears the message. Nothing else changes. |
| `Player.FinishLoad` | client/src/App.tsx:53-63 | A settled request shows either the fetched list with the fallback flag cleared, or the four built-in songs with the flag set. The loading flag drops either way, and nothing else changes. |
| `Player.LoadSongs` | client/src/App.tsx:49-64 | After a whole load, loading is over and the message is clear. The fallback flag is set iff the request failed, and the list is the fetched one or the built-in one. Selection, playback, element and times are untouched. |
| `Player.FailedFetchShowsFallbackCatalog` | client/src/App.tsx:56-60 | A failed request leaves exactly four songs on screen, ids 1 to 4 on the shared placeholder URL, with the fallback flag set. |
| `Player.CreateAudio` | client/src/App.tsx:71-73 | After the mount effect an element exists. A new element is unbound, paused, at 0 and without an error, and an existing one is kept. Nothing else changes. |
| `Player.OnLoadedMetadata` | client/src/App.tsx:75-77 | Only the duration changes. It becomes the element's duration, or 0 when that is not a number. |
| `Player.OnTimeUpdate` | client/src/App.tsx:79-81 | Only the displayed time changes, together with the element's own position, which it reports. |
| `Player.OnEnded` | client/src/App.tsx:83-86 | The end of playback clears the playing flag and rewinds the display to 0. Nothing else changes. |
| `Player.OnMediaError` | client/src/App.tsx:88-91 | An element error shows its message and clears the playing flag; the element carries the error code. Nothing else changes. |
| `Player.OnPlayRejected` | client/src/App.tsx:121-123 | A rejected start only sets its message. The playing flag keeps its value. |
| `Player.SelectSong` | client/src/App.tsx:102-112 | Selecting makes the song current and clears the message. It resets the playing flag, the time and the duration to off/0, and rebinds an existing element to the song's URL, paused, rewound and with its error cleared. The song list, the loading flag and the fallback flag stay. |
| `Player.PlayPause` | client/src/App.tsx:114-126 | Without an element or a current song nothing changes. Otherwise the playing flag flips at once. When playing, the element is paused; otherwise `play()` unpauses it, unless the element's unsupported-source error makes `play()` refuse and leave it as it was. Nothing else changes. |
| `Player.Play` | client/src/App.tsx:121 | `play()` changes only the paused flag, and the element ends paused iff it was paused and its source is unsupported. |
| `Player.Stop` | client/src/App.tsx:128-135 | Without an element nothing changes. Otherwise the element is paused and rewound, and the playing flag and displayed time are cleared. The current song and the duration stay. |
| `Player.SecondSelectionWins` | client/src/App.tsx:102-112 | Selecting one song and then another leaves the same state as selecting only the second, with the element bound to the second URL. |
| `Player.StopIdempotent` | client/src/App.tsx:128-135 | Stopping a stopped player changes nothing. |
| `Player.StepKeepsPlayingImpliesSelected` | client/src/App.tsx:75-135 | Every handler and listener keeps the rule that only a selected song can be playing. |
| `Player.RunKeepsPlayingImpliesSelected` | client/src/App.tsx:75-135 | Any sequence of events keeps the rule that only a selected song can be playing. |
| `Player.NeverPlayingWithoutSong` | client/src/App.tsx:40-41 | From the first render, in every order of events, the player is never playing without a selected song. |
| `Player.StepKeepsAudioFollowsSelection` | client/src/App.tsx:102-135 | Once the element exists, every event, a pause by the browser included, keeps three facts: the element exists, it stays bound to the current song's URL, and only a selected song can be playing. |
| `Player.RunKeepsAudioFollowsSelection` | client/src/App.tsx:102-135 | Any sequence of events keeps the element existing and bound to the current song, with only a selected song playing. |
| `Player.StepKeepsElementPlaysWhenFlagged` | client/src/App.tsx:102-135 | Every event except a pause the browser makes on its own keeps the element unpaused while the playing flag is set, unless `play()` refused an unsupported source. |
| `Player.RunKeepsElementPlaysWhenFlagged` | client/src/App.tsx:102-135 | Any sequence of events without a browser-made pause keeps the element unpaused while the flag is set, except after a refused start. |
| `Player.MountedElementFollowsSelection` | client/src/App.tsx:66-100 | After both mount effects, the catalog is loading and the element exists, unbound, paused and without an error. From there every event sequence keeps the element bound to the selection, and every sequence without a browser-made pause also keeps it unpaused while the flag says playing, except after a refused start. |
| `Player.OnBrowserPause` | client/src/App.tsx:75-91 | A pause the browser makes on its own pauses the element and changes nothing else, because no listener hears it. |
| `Player.BrowserPausePlaysNothing` | client/src/App.tsx:75-126 | Selecting a song, clicking play/pause and then a browser-made pause reaches a state where the flag says playing (phase Playing), `play()` did not refuse, and the element is paused. |
| `Player.RefusedStartPlaysNothing` | client/src/App.tsx:88-126 | Selecting a song, its element failing with an unsupported source, then clicking play/pause reaches a state where the flag says playing (phase Playing) and the element is paused. |
| `Player.PhaseTransitions` | client/src/App.tsx:102-135 | Selecting always leads to Ready, and play/pause does nothing while Idle. Play/pause leads from Ready or Failed to Playing and leaves Playing. Stop leads to Ready or Failed. `ended` leaves Playing, and an element error leads to Failed. A rejected start stays Playing. |

## Left out

- Rendering, styling and icons (client/src/App.tsx:143-288). This includes the progress-bar percentage, a floating-point division.
- React hook mechanics (`useState`, `useEffect`, `useCallback`, `useRef`). State is a record, and each handler is one atomic transition.
- The unmount cleanup (client/src/App.tsx:94-99) only releases the element, and it is not modelled.
- The tRPC request itself. Its settled outcome is an input. The router file that attaches the validators to the handlers is not part of this model, and the procedures assume "validate, then run the handler".
- `play()` resolving successfully is not an event. Only its rejection is. The element's own changes when playback ends or fails are not modelled beyond the duration and position the listeners read. A pause the browser makes on its own is the event `BrowserPaused`; a browser-made resume is not modelled.
- Drizzle and PostgreSQL execution. Storage is a sequence of rows, and the clock is a `now` parameter. Explicit ids on INSERT and multi-row INSERT statements are not modelled. The application itself issues no INSERT at all; the tests do, some with several rows in one statement (server/src/tests/get_songs.test.ts:19-30), and those rows share one `now()` as their default `created_at`. A successful such statement is equivalent to single-row inserts given the same `now`. A failing one is atomic: it stores no row, although every id it drew is spent.
- `console` logging, `Date` parsing of the built-in dates (their epoch values are written out), and `toLocaleDateString`.
- The validator library's internals. NaN and infinite numbers cannot be represented as reals, and the date coercion of `created_at` is not modelled.
- The runtime check of outgoing songs against the song record schema. The `Song` datatype carries the shape, and `ConformsToSongSchema` carries the URL refinement.
- SongSchema.ValidUrlIsSchemeThenColon: `z.string().url()` runs the WHATWG URL parser (`new URL()`), which is library code. The stand-in checks only a scheme and a colon and differs from the parser in both directions: it accepts "http://" (the parser refuses an empty host) and refuses " https://a" (the parser strips leading spaces). On "mailto:" the two agree (`SongSchema.ValidUrlSamples`).
- Player.OnLoadedMetadata: takes the duration in whole seconds, so an infinite duration (a live stream) and fractional durations are not modelled.
- Player.OnTimeUpdate: takes the position in whole seconds; fractional positions are not modelled.
- SongQueries.OutOfRangeForInteger: spells the id in plain decimal. JavaScript writes numbers of 10^21 and above in exponent form, so the database message would differ for such ids.
- Player.PlayPause: only the unsupported-source error makes `play()` refuse outright. With any other error code the element is modelled as unpaused at once, the later outcome of the start attempt being the separate `PlayRejected` event.
- TimeFormat.FormatTime: takes whole non-negative seconds. The element's `currentTime` and `duration` are fractional during playback (client/src/App.tsx:76, 80), but `formatTime` floors both parts, so a time x ≥ 0 shows as `FormatTime(⌊x⌋)` and the whole seconds lose nothing in the display. Negative times never occur: the element reports none.
