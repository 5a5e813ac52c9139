# np2bio, modelled in Dafny

np2bio polls Spotify once a minute and mirrors what is playing into a
Twitter profile bio. While a track plays, the bio becomes an announcement
naming the title, artists, album and track URL. When playback stops, the
bio is set back to the configured default one (`BIO_DEFAULT`). A one-time
login flow obtains a Spotify refresh token and writes it, with the other
credentials, to a `.env` file.

This project models the deterministic logic of `main.go` and proves what it
does:

- `ProfileSync`: the body of the ticker loop. `Reconcile` is one tick as a
  state-in/state-out function over the held `last_title`. `Run` folds it
  over a sequence of polls. `BioSync` is the same loop as an object: it has
  a `lastTitle` field, records every pushed bio, and has `Tick` and `Poll`
  methods.
- `NowPlaying`: `get_spotify_np` from the decoded body onwards. It covers the
  "unexpected end of JSON input" case, the `is_playing` null check, the type
  assertions, and the loop that joins artist names with `", "`.
- `GoReflect`: the `isNil` helper. Each dynamic value carries a kind tag in
  place of `reflect`.
- `Tokens`: extracting the access token from a decoded token response, with
  its null check.
- `EnvFile`: the seven-line `.env` text built in `save_refresh_token`, and a
  line reader that loads it back.
- `Json`: a decoded JSON value (null, bool, number, string, array, object),
  the result of decoding (a document, "unexpected end of input", or any
  other error), and the three ways the process dies. These are `log.Fatal`,
  `os.Exit(1)`, and a panic from a failed type assertion.

Three behaviours of the code differ from what one might expect; the model
follows the code:

- **The default bio is not pushed just once.** One would expect the switch
  back to the default bio to happen once per stop. But the default-bio
  branch does not clear `last_title` (main.go:96-101). So while nothing
  plays, every poll pushes the default bio again (`StoppedRepushesDefault`,
  `FourPolls`). Resuming the same track announces nothing
  (`PauseThenResume`).
- **Only a truncated body means "not playing".** An empty or truncated
  body gives the decoding error "unexpected end of JSON input", and only
  this error means "nothing is playing". Every other decoding error is
  fatal.
- **An empty title empties the cell.** Announcing a playing track with an
  empty title sets `last_title` to `""` (`EmptyTitleResets`). This is the
  only way the cell becomes empty again (`EmptiedOnlyByEmptyTitle`). The
  same track is then announced on every poll past five seconds
  (`EmptyTitleRepeats`).

## Model

| member | source | states |
|---|---|---|
| `Json.ExitStatus` | main.go:252-256 | every fatal path exits non-zero: with status 2 exactly for a panic (a failed type assertion), with 1 for log.Fatal and os.Exit(1) |
| `GoReflect.ReflectIsNil` | main.go:219 | reflect's IsNil answers exactly for pointer, map, chan, slice and func kinds, giving the nil-ness of the reference, and panics on every other kind |
| `GoReflect.IsNilAsWritten` | main.go:213-222 | `isNil` as written: true for the nil interface, false for unlisted kinds, and a panic exactly for array values |
| `GoReflect.AsWrittenPanicsOnArray` | main.go:218-219 | counterexample: any array value makes `isNil` as written panic |
| `GoReflect.IsNil` | main.go:213-222 | corrected `isNil`: true exactly for the nil interface and for a nil pointer, map, chan or slice; false for everything else, strings, bools and arrays included |
| `GoReflect.IsNilAgrees` | main.go:213-222 | the corrected and as-written `isNil` give the same answer on every non-array value |
| `GoReflect.FromJson` | main.go:240 | decoded JSON becomes the nil interface exactly for null; arrays and objects become non-nil slices and maps, never arrays |
| `GoReflect.IsNilOfJson` | main.go:205 | on decoded JSON, both versions of `isNil` hold exactly for null or a missing key, and never panic |
| `Tokens.AccessToken` | main.go:199-210 | any decoding error is fatal; a non-object body panics; a null or missing `access_token` exits with status 1; any other non-string one panics; the result is a token exactly when the field is a string, and it is that string |
| `Tokens.AccessTokenReturned` | main.go:210 | any object whose `access_token` is a string yields that string |
| `NowPlaying.Join` | main.go:261-267 | the reference definition of the artist string: the names with one separator between consecutive names |
| `NowPlaying.JoinSnoc` | main.go:262-266 | appending a name to a non-empty list adds exactly one separator and then the name |
| `NowPlaying.JoinEndsWithLast` | main.go:264-266 | no trailing separator: the joined string ends with the last name |
| `NowPlaying.JoinStartsWithFirst` | main.go:263 | no leading separator: the joined string starts with the first name |
| `NowPlaying.JoinLength` | main.go:261-267 | the joined length is the sum of the name lengths plus one separator per gap between names |
| `NowPlaying.JoinThree` | main.go:261-267 | `["X","Y","Z"]` joins to `"X, Y, Z"` |
| `NowPlaying.JoinArtists` | main.go:261-267 | the loop succeeds exactly when every artist has a string name, and then yields the names joined with `", "` in array order (`""` for none, the name alone for one); otherwise it fails with a type-assertion panic |
| `NowPlaying.PlayingTrack` | main.go:258-273 | a playing response yields a track exactly as `Reports` reads it from the item, artists, album, URL and progress paths; any other shape panics |
| `NowPlaying.Normalize` | main.go:239-280 | "unexpected end" means not playing, with empty strings and no error; any other decoding error is fatal; a null or missing `is_playing` exits with status 1, and any other non-bool one panics; not playing always means empty title, artist and album and zero url and progress, and happens exactly for a truncated body or `is_playing == false`; playing results come from the response's item, artists, album, URL and progress paths |
| `NowPlaying.NormalizeComplete` | main.go:256-273 | conversely, a response reporting a playing track normalizes to exactly that track |
| `NowPlaying.GetNowPlaying` | main.go:239-280 | the step-by-step assignment of the named results computes exactly `Normalize` |
| `ProfileSync.Announcement` | main.go:84 | the announcement starts with the note emoji and `#NowPlaying #np: `, and ends with a newline followed by the track URL |
| `ProfileSync.Announces` | main.go:81-83 | the announcement condition: playing, the held title empty or different, and progress over 5000 ms |
| `ProfileSync.Reconcile` | main.go:80-102 | while playing, a push happens iff (held title empty or different) and progress > 5000, with the announcement text; not playing, a push happens iff a title is held, with the default bio; the held title becomes the track title exactly on an announcement and is otherwise unchanged, so the default-bio branch keeps it |
| `ProfileSync.Run` | main.go:77-102 | the loop over successive polls from a held title; it never pushes more than once per poll, and announces no more often than it pushes |
| `ProfileSync.RunSnoc` | main.go:77-80 | one more poll extends a run by one reconciliation step from the held title |
| `ProfileSync.HeldIsLastAnnounced` | main.go:73-102 | after any run, the held title is the last announced title, or the starting one if nothing was announced |
| `ProfileSync.HeldFromStart` | main.go:73 | starting from `""`, `last_title` is always `""` or the title of an announced track |
| `ProfileSync.PushesCoverAnnouncements` | main.go:84-100 | every pushed bio is the default bio or the announcement of one of the polled tracks; there are at least as many pushes as announcements |
| `ProfileSync.SameTrackPushesAtMostOnce` | main.go:82-92 | polls playing one non-empty title push at most once; after a push that title is held |
| `ProfileSync.HeldTrackPushesNothing` | main.go:82 | polls of the held (non-empty) track push nothing and change nothing |
| `ProfileSync.StoppedRepushesDefault` | main.go:94-101 | while nothing plays and a title is held, every poll pushes the default bio and the title stays held |
| `ProfileSync.StoppedFromEmptyIsQuiet` | main.go:96 | while nothing plays and nothing is held, nothing is pushed |
| `ProfileSync.PauseThenResume` | main.go:81-101 | pausing an announced track pushes the default bio, and only it, once per paused poll; resuming it pushes nothing more and keeps the title held |
| `ProfileSync.EmptyTitleRepeats` | main.go:82-91 | a playing track with an empty title past five seconds is announced on every poll |
| `ProfileSync.EmptyTitleResets` | main.go:82-91 | announcing a playing track whose title is empty, past 5000 ms, resets a held title to `""` |
| `ProfileSync.EmptiedOnlyByEmptyTitle` | main.go:91 | starting from a held title, the cell is empty after a run only if a track with an empty title was announced |
| `ProfileSync.AnnounceThenSilence` | main.go:81-92 | a track announced at 10 s is not announced again at 70 s |
| `ProfileSync.FourPolls` | main.go:80-102 | announce at 10 s, silence at 70 s, then the default bio on each of two stopped polls |
| `ProfileSync.BioSync.constructor` | main.go:73 | the loop starts with `last_title == ""` and no pushes |
| `ProfileSync.BioSync.Tick` | main.go:80-102 | one tick updates `lastTitle` and appends the pushed bio exactly as `Reconcile` says; the object stays equal to `Run` over every poll seen |
| `ProfileSync.BioSync.Poll` | main.go:80-102 | a fatal access-token outcome, or else a fatal normalization, changes nothing and is reported; otherwise the normalized result is ticked |
| `EnvFile.EnvText` | main.go:163 | the text of the format string: seven `KEY=value` lines, each ended by a newline |
| `EnvFile.EnvTextIsRendered` | main.go:163 | the format string's text consists of those seven `KEY=value` lines, in that order |
| `EnvFile.IndexOf` | main.go:163 | the position of the first occurrence of a character, or the length when it is absent |
| `EnvFile.IndexAfter` | main.go:163 | in a prefix free of the character followed by the character, the first occurrence is right after that prefix |
| `EnvFile.ParseLine` | main.go:163 | a line parses iff it holds `=`; it splits at the first `=` and the parts re-join to the line |
| `EnvFile.ParseRender` | main.go:163 | rendered pairs parse back to the same pairs in the same order, when keys hold no `=` or newline and values no newline |
| `EnvFile.ToMapHolds` | main.go:163 | with distinct keys, the loaded map holds every pair |
| `EnvFile.EntriesMap` | main.go:163 | the loaded map gives each of the seven keys its value |
| `EnvFile.LoadEnvText` | main.go:163 | round trip: if no value holds a newline, the text loads back as the same credentials (refresh token, client id and secret included) |

## Findings

| source | as written | input that shows it | evidently intended | confidence | as-written member | corrected member |
|---|---|---|---|---|---|---|
| main.go:218-219 | `reflect.Array` is in the switch, so `reflect.ValueOf(i).IsNil()` is called on an array value, and that call panics for arrays | any array value, e.g. `[0]int{}` | false (an array is a value and is never nil) | medium; not executed; no value decoded from JSON is an array, so the program's own calls never trigger it | `GoReflect.IsNilAsWritten` (`GoReflect.AsWrittenPanicsOnArray`) | `GoReflect.IsNil` (`GoReflect.IsNilAgrees`, `GoReflect.IsNilOfJson`) |

## Left out

- HTTP requests and responses, and `http.DefaultClient` (main.go:141-154, 181-197, 225-237): network I/O. The decoded response body is an input (`ParseResult`), and transport failures are not modelled.
- The `/login` and `/callback` handlers, the listener goroutine, the `auth_code` channel and `pass_callback` (main.go:23-35, 108-134): concurrency and HTTP serving.
- `time.Ticker` (main.go:75-79): a tick is one call of `Reconcile` / `BioSync.Tick`. Timing is not modelled.
- The Twitter client, `VerifyCredentials` and `UpdateProfile` (main.go:59-71, 89, 100): a foreign library. A push is an appended bio in the recorded sequence, and its result is ignored, as in the code.
- The startup credential checks and the authorization URL printed at startup (main.go:37-57): environment loading and console output. `BIO_DEFAULT` is a parameter.
- Console output in the loop and in the two Spotify calls (main.go:85, 201, 206, 241, 243, 253), and in `save_refresh_token` (main.go:158): logging with no effect on state or results.
- `ProfileSync.BioSync.Poll`: the access token only authorizes the currently-playing request; the request itself is not modelled, so the token's value is not used.
- `json.Unmarshal`, `base64` and `os.Getenv` (main.go:145, 157, 186): library calls. `os.Exit` and `log.Fatal` become `Fatal` outcomes.
- Extracting the refresh token in `save_refresh_token` (main.go:154-162) and the exit after saving (main.go:173): the model covers only the `.env` text of line 163.
- `EnvFile.Load`: a plain `KEY=value` line reader, not godotenv's grammar (quotes, escapes, comments, `export`, trimming), and not `godotenv.Write`'s sorted, quoted output (main.go:168). So the round trip covers the text at line 163, not the file on disk.
- `NowPlaying.Normalize`: `progress_ms` is a float64 in the code. It is an integer here, and only the comparison with 5000 uses it.
- `NowPlaying.Normalize`: every failed type assertion on a playing response is one `TypeAssertion` outcome. Which field failed first is not distinguished.
- `GoReflect.Kind`: only the kinds `isNil` distinguishes are modelled, not all of `reflect.Kind`.
- Number decoding: a JSON number is an integer, not a float64.
