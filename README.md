# MusicListen playback core in Dafny

MusicListen is a music streaming web site. Its browser player is a single
`MusicPlayer` object that holds a play queue with a current-index pointer,
shuffle and repeat modes, volume and mute, and the queue and lyrics panels.
The server's `FileHelper` decides how uploads are accepted and named, which
file a delete removes, and how durations and counters are printed. The page
script reads song cards into track records and prints durations.

This project models that core and proves what it promises.

- `wrappers.dfy`, module `Wrappers`: the `Option` type.
- `text.dfy`, module `Text`: decimal digits, integer printing, and JavaScript `parseInt`. Also `padStart(2, '0')`, white space, substring search and ASCII lower-casing.
- `clock.dfy`, module `Clock`: JavaScript numbers (a value or NaN) and the `m:ss` text that both `formatTime` and `formatDuration` build. It also has `ParseClock`, which reads `m:ss` and `h:mm:ss` back; it is the partner every formatter is proved against.
- `player_spec.dfy`, module `PlayerSpec`: the player as a pure state machine. Each player method is a total function over a `Player` value that holds every field of the object, its audio element and its two panels. There is an `Event` type for user actions and media events, `Step` and `Run` over events, and the lemmas.
- `player.dfy`, module `PlayerObject`: the `MusicPlayer` class. Its fields are updated in place by methods that follow the script statement by statement. Each method ensures that the new `Snapshot()` equals the `PlayerSpec` transition of the old one, and says what `localStorage` holds afterwards. `PlayCollection` is the `forEach`/`push` loop of `playAlbum` and `playPlaylist`.
- `file_helper.dfy`, module `FileHelper`: `Path.GetExtension`, `Path.Combine`, the upload, save and delete decisions, `FormatDuration` and `FormatNumber`.
- `site.dfy`, module `Site`: `formatDuration` and `getSongDataFromElement`.

External inputs are parameters:
- The value `Math.random()` returns is `rand`, with `0 <= rand < 1`.
- The `Guid` text that names an uploaded file is `guid`.
- The `FileSettings` configuration keys are options.
- The directory separator is `sep`.

The browser's media events arrive as `Event` values: `Playing`, `Pausing`, `Metadata` and `TimeUpdate`.

Setting `audio.src` is modelled as the media element resetting: position 0, duration unknown (NaN). `play()` clears its paused flag. A JavaScript array read outside the array gives `undefined`, so `SongAt` returns `None`, and `playSong(undefined)` does nothing.

`localStorage` is the class `PlayerObject.LocalStorage`. It is not ghost state, because the constructor really reads it back.

Two behaviours of the player that are easy to misread; the model follows the code:
- **Previous.** `playPrevious` restarts the current track only when more than 3 seconds have played. At 1.5 s it moves to the previous entry; at 10 s it restarts. `PlayerSpec.PreviousScenario` and `PlayerSpec.PreviousRestartsAfterThreeSeconds` state this.
- **Removing the current entry.** The pointer is not left on the entry that moves into its place. It is decremented, and so points at the previous entry, unless it is 0. `PlayerSpec.RemoveFromQueueEffect` states every case.

## Model

| member | source | states |
|---|---|---|
| `PlayerSpec.ConstructedIsValid` | WebListenMusic/wwwroot/js/player.js:7-21 | the object the constructor builds and loads from any storage whose volume lies in `[0, 1]` satisfies the pointer, volume, mute and panel invariant, with the pointer at 0 |
| `PlayerSpec.ReloadRestoresQueueAndVolume` | WebListenMusic/wwwroot/js/player.js:90-108 | `loadFromStorage` on a fresh object after `saveToStorage` restores exactly the saved queue and volume |
| `PlayerSpec.AddToQueueAppends` | WebListenMusic/wwwroot/js/player.js:141-148 | `addToQueue` appends exactly one element at the end, keeps the old queue as a prefix without de-duplication, and leaves the pointer alone |
| `PlayerSpec.EnqueueSurvivesReload` | WebListenMusic/wwwroot/js/player.js:98-108 | a track enqueued and saved is found at the same position after a reload |
| `PlayerSpec.InvalidInputsAreNoOps` | WebListenMusic/wwwroot/js/player.js:111-166 | `playSong` without a playable song, `addToQueue(null)`, and `playFromQueue` or `removeFromQueue` outside `[0, n)` change nothing |
| `PlayerSpec.PlaySongKeepsQueue` | WebListenMusic/wwwroot/js/player.js:111-138 | a valid `playSong` sets `currentSong` and `src` and plays from 0, but never changes the queue or the pointer |
| `PlayerSpec.RemoveAt` | WebListenMusic/wwwroot/js/player.js:163 | `splice(i, 1)` keeps the entries before `i`, shifts those after it down by one, and removes exactly one occurrence of the entry (as multisets) |
| `PlayerSpec.RemoveFromQueueEffect` | WebListenMusic/wwwroot/js/player.js:160-169 | removal before the pointer shifts it onto the same track; removal after it keeps pointer and track; removing the current entry moves to the previous one, or stays at 0; the pointer stays in range |
| `PlayerSpec.PlayFromQueueEffect` | WebListenMusic/wwwroot/js/player.js:151-157 | an in-range `playFromQueue(i)` always points at `i` and keeps the queue; it plays `queue[i]` when that entry has an audio URL, and otherwise changes nothing else |
| `PlayerSpec.PreviousRestartsAfterThreeSeconds` | WebListenMusic/wwwroot/js/player.js:189-193 | past 3 seconds `playPrevious` only rewinds to 0; nothing else changes |
| `PlayerSpec.NextAndPreviousOnEmptyQueue` | WebListenMusic/wwwroot/js/player.js:189-212 | on an empty queue `playNext` is a no-op, and `playPrevious` is one within the first 3 seconds |
| `PlayerSpec.ShuffleIndexInRange` | WebListenMusic/wwwroot/js/player.js:198 | `Math.floor(Math.random() * n)` lies in `[0, n)` |
| `PlayerSpec.ShuffleReachesEveryIndex` | WebListenMusic/wwwroot/js/player.js:212 | every index in `[0, n)` is the shuffle target for some random value |
| `PlayerSpec.NextInOrder` | WebListenMusic/wwwroot/js/player.js:208-219 | with shuffle off, next is `(c + 1) % n`: `c + 1`, or 0 after the last entry, and it plays that entry |
| `PlayerSpec.PreviousInOrder` | WebListenMusic/wwwroot/js/player.js:189-205 | with shuffle off and within 3 seconds, previous is `c - 1`, or `n - 1` from 0, and it plays that entry |
| `PlayerSpec.ShuffledTargetsInRange` | WebListenMusic/wwwroot/js/player.js:197-198 | with shuffle on, next and previous land on an index inside the queue |
| `PlayerSpec.PreviousUndoesNext` | WebListenMusic/wwwroot/js/player.js:189-219 | with shuffle off, previous right after next returns to the original entry when the entry reached can be played |
| `PlayerSpec.RepeatCycles` | WebListenMusic/wwwroot/js/player.js:228-229 | `toggleRepeat` goes off to all to one to off, so three calls are the identity |
| `PlayerSpec.TogglesFlipOnlyTheirFlag` | WebListenMusic/wwwroot/js/player.js:222-253 | `toggleShuffle` and `toggleMute` flip their own flag and leave queue, pointer and volume untouched |
| `PlayerSpec.PanelsExclusive` | WebListenMusic/wwwroot/js/player.js:256-275 | the two panels are never open together; opening one closes the other; toggling an open panel leaves both closed |
| `PlayerSpec.EndedPolicy` | WebListenMusic/wwwroot/js/player.js:365-376 | with shuffle off: repeat-one rewinds and replays with the pointer unchanged; repeat-all advances with wrap-around; off at the last entry does nothing; off before it advances by one; an empty queue does nothing |
| `PlayerSpec.RepeatOneReplaysForever` | WebListenMusic/wwwroot/js/player.js:365-369 | with repeat-one, any number of track endings keeps the pointer, the queue, the current song and the source, and leaves it playing |
| `PlayerSpec.WrapAroundScenario` | WebListenMusic/wwwroot/js/player.js:365-376 | three tracks enqueued, the third played, repeat set to all: when it ends, the pointer is 0 and the first track plays |
| `PlayerSpec.PreviousScenario` | WebListenMusic/wwwroot/js/player.js:189-205 | previous at 5 s on the second of three entries restarts it; a second previous moves to the first entry |
| `PlayerSpec.Clamp01` | WebListenMusic/wwwroot/js/player.js:317 | `Math.max(0, Math.min(1, x))` lies in `[0, 1]` and is `x` inside it, 0 below and 1 above |
| `PlayerSpec.SetVolumeClampsAndUnmutes` | WebListenMusic/wwwroot/js/player.js:315-323 | `setVolume` clamps into `[0, 1]`, unmutes the player and the element, keeps the queue, and saves the new volume |
| `PlayerSpec.MuteThenSetVolume` | WebListenMusic/wwwroot/js/player.js:249-323 | mute then `setVolume(0.7)` leaves the player unmuted at 0.7; mute alone keeps the volume |
| `PlayerSpec.VolumeIconFor` | WebListenMusic/wwwroot/js/player.js:334-346 | the mute icon exactly when muted or at volume 0; the down icon exactly when below 0.5 otherwise; the up icon in every other case |
| `PlayerSpec.VolumeKeys` | WebListenMusic/wwwroot/js/player.js:444-453 | ArrowUp and ArrowDown step the volume by 0.1 within `[0, 1]`, keep element and object volume equal, and leave mute alone |
| `PlayerSpec.SeekKeys` | WebListenMusic/wwwroot/js/player.js:429-443 | keys typed in an input or textarea are ignored; ArrowLeft moves back 5 s, not below 0; ArrowRight moves forward 5 s, not past the duration, and does nothing while the duration is unknown |
| `PlayerSpec.PlayCollectionLoads` | WebListenMusic/wwwroot/js/player.js:566-571 | an album with an in-range start replaces the queue with its songs, points at the start, plays it, and keeps the invariant |
| `PlayerSpec.PlayCollectionUncheckedStart` | WebListenMusic/wwwroot/js/player.js:591-596 | a start index outside the songs breaks the pointer invariant and plays nothing |
| `PlayerSpec.FormatTimeReadsBack` | WebListenMusic/wwwroot/js/player.js:484-490 | `formatTime` prints "0:00" for NaN, and for a non-negative time minutes and two-digit seconds that read back as its whole seconds |
| `PlayerSpec.FormatTime` | WebListenMusic/wwwroot/js/player.js:484-490 | models `formatTime`; its properties are stated by `PlayerSpec.FormatTimeReadsBack` and `Clock.MinutesSecondsOfNonNegative` |
| `PlayerSpec.LyricsBody` | WebListenMusic/wwwroot/js/player.js:293-301 | models the lyrics test: markup only for lyrics that are not blank; its text is `PlayerSpec.BreakLines` of them |
| `PlayerSpec.BreakLines` | WebListenMusic/wwwroot/js/player.js:295 | the lyrics markup contains no newline |
| `PlayerSpec.BreakLinesRoundTrip` | WebListenMusic/wwwroot/js/player.js:295 | replacing newlines by `<br>` loses nothing: lyrics without a literal `<br>` are recovered exactly |
| `PlayerSpec.TargetsInRange` | WebListenMusic/wwwroot/js/player.js:197-214 | the index next or previous computes is inside a non-empty queue |
| `PlayerSpec.NextPreservesValid` | WebListenMusic/wwwroot/js/player.js:208-219 | `playNext` keeps the invariant |
| `PlayerSpec.PreviousPreservesValid` | WebListenMusic/wwwroot/js/player.js:189-206 | `playPrevious` keeps the invariant |
| `PlayerSpec.KeyPreservesValid` | WebListenMusic/wwwroot/js/player.js:429-469 | every keyboard shortcut keeps the invariant |
| `PlayerSpec.StepPreservesValid` | WebListenMusic/wwwroot/js/player.js:141-388 | every admissible event keeps the invariant: a random value in `[0, 1)`, non-negative media times, and an album or playlist started inside its songs |
| `PlayerSpec.RunPreservesValid` | WebListenMusic/wwwroot/js/player.js:141-219 | any sequence of admissible events keeps the invariant, so the queue pointer stays in range |
| `PlayerSpec.QueueOnlyChangedByEdits` | WebListenMusic/wwwroot/js/player.js:222-225 | shuffle and every other event except add, remove, clear and album loading leave the queue's contents and order unchanged |
| `PlayerObject.MusicPlayer.constructor` | WebListenMusic/wwwroot/js/player.js:7-21 | the initial fields, then `loadFromStorage`, establish the invariant |
| `PlayerObject.MusicPlayer.LoadFromStorage` | WebListenMusic/wwwroot/js/player.js:90-103 | restores whichever of the stored volume and queue is present |
| `PlayerObject.MusicPlayer.SaveToStorage` | WebListenMusic/wwwroot/js/player.js:105-108 | storage then holds the current volume and queue |
| `PlayerObject.MusicPlayer.PlaySong` | WebListenMusic/wwwroot/js/player.js:111-138 | the new state is `PlayerSpec.PlaySong` of the old one |
| `PlayerObject.MusicPlayer.AddToQueue` | WebListenMusic/wwwroot/js/player.js:141-148 | the new state is `PlayerSpec.AddToQueue` of the old one, and storage holds the new queue after a real append |
| `PlayerObject.MusicPlayer.PlayFromQueue` | WebListenMusic/wwwroot/js/player.js:151-157 | the new state is `PlayerSpec.PlayFromQueue` of the old one, and the invariant holds |
| `PlayerObject.MusicPlayer.RemoveFromQueue` | WebListenMusic/wwwroot/js/player.js:160-169 | the spliced queue and decremented pointer of `PlayerSpec.RemoveFromQueue`, saved for an index in range, storage untouched otherwise |
| `PlayerObject.MusicPlayer.ClearQueue` | WebListenMusic/wwwroot/js/player.js:172-177 | empty queue, pointer 0, and storage holds the empty queue |
| `PlayerObject.MusicPlayer.TogglePlay` | WebListenMusic/wwwroot/js/player.js:180-186 | pauses a playing element and starts a paused one |
| `PlayerObject.MusicPlayer.PlayPrevious` | WebListenMusic/wwwroot/js/player.js:189-206 | the new state is `PlayerSpec.PlayPrevious` of the old one, and the invariant holds |
| `PlayerObject.MusicPlayer.PlayNext` | WebListenMusic/wwwroot/js/player.js:208-219 | the new state is `PlayerSpec.PlayNext` of the old one, and the invariant holds |
| `PlayerObject.MusicPlayer.ToggleShuffle` | WebListenMusic/wwwroot/js/player.js:222-225 | flips `isShuffle` alone |
| `PlayerObject.MusicPlayer.ToggleRepeat` | WebListenMusic/wwwroot/js/player.js:228-246 | `repeatMode` becomes `(repeatMode + 1) % 3` |
| `PlayerObject.MusicPlayer.ToggleMute` | WebListenMusic/wwwroot/js/player.js:249-253 | flips mute on the object and the element, and returns the icon the new state shows |
| `PlayerObject.MusicPlayer.ToggleQueue` | WebListenMusic/wwwroot/js/player.js:256-264 | flips the queue panel, closing the lyrics panel when it opens |
| `PlayerObject.MusicPlayer.ToggleLyrics` | WebListenMusic/wwwroot/js/player.js:267-275 | flips the lyrics panel, closing the queue panel when it opens |
| `PlayerObject.MusicPlayer.SetVolume` | WebListenMusic/wwwroot/js/player.js:315-323 | the clamped, unmuted state of `PlayerSpec.SetVolume`, saved, with the icon it shows |
| `PlayerObject.MusicPlayer.OnEnded` | WebListenMusic/wwwroot/js/player.js:365-376 | the new state is `PlayerSpec.OnEnded` of the old one, and the invariant holds |
| `PlayerObject.MusicPlayer.OnPlay` | WebListenMusic/wwwroot/js/player.js:378-382 | `isPlaying` becomes true |
| `PlayerObject.MusicPlayer.OnPause` | WebListenMusic/wwwroot/js/player.js:384-388 | `isPlaying` becomes false |
| `PlayerObject.MusicPlayer.OnMetadataLoaded` | WebListenMusic/wwwroot/js/player.js:349-351 | the element's duration becomes known and the total-time label is `formatTime` of it |
| `PlayerObject.MusicPlayer.OnTimeUpdate` | WebListenMusic/wwwroot/js/player.js:353-357 | the element's position is recorded and the elapsed-time label is `formatTime` of it |
| `PlayerObject.MusicPlayer.HandleKeyboard` | WebListenMusic/wwwroot/js/player.js:429-469 | the new state is `PlayerSpec.HandleKeyboard` of the old one, and storage, including the stored volume, is untouched |
| `PlayerObject.PlayCollection` | WebListenMusic/wwwroot/js/player.js:566-571 | the push loop leaves the state of `PlayerSpec.PlayCollection` and saves it; the invariant holds when the start index is in range |
| `PlayerObject.EnqueueThenReload` | WebListenMusic/wwwroot/js/player.js:141-148 | a player opened again on the same storage has the enqueued track last in its queue |
| `Clock.MinutesSecondsOfNonNegative` | WebListenMusic/wwwroot/js/player.js:487-489 | for a non-negative time the text is whole minutes, a colon and two-digit seconds, and reads back as its floor |
| `Text.ParseIntOfIntToString` | WebListenMusic/wwwroot/js/site.js:227 | `parseInt` of a printed integer gives the integer back |
| `FileHelper.GetExtension` | WebListenMusic/Helpers/FileHelper.cs:42 | the extension is a suffix of the path: empty, or a dot followed by a name without dots or separators |
| `FileHelper.ExtensionOfName` | WebListenMusic/Helpers/FileHelper.cs:42-67 | a bare file name, or one after a directory ending in a separator, followed by an extension has exactly that extension |
| `FileHelper.UploadFile` | WebListenMusic/Helpers/FileHelper.cs:35-77 | models `UploadFileAsync`'s outcome; its cases are stated by `FileHelper.UploadDecision` and `FileHelper.UploadUrlShape` |
| `FileHelper.SaveFile` | WebListenMusic/Helpers/FileHelper.cs:110-131 | models `SaveFileAsync`'s outcome; stated by `FileHelper.SaveFileShape` |
| `FileHelper.UploadDecision` | WebListenMusic/Helpers/FileHelper.cs:38-58 | a missing or empty file gives null; an unlisted extension is rejected; a file over the folder's limit is rejected; otherwise it is saved, and each of these holds in both directions |
| `FileHelper.DefaultLimits` | WebListenMusic/Helpers/FileHelper.cs:50-58 | without configuration the limit is 52428800 (50 MB) for "songs" and 5242880 (5 MB) for any other folder, and the messages say so |
| `FileHelper.UploadUrlShape` | WebListenMusic/Helpers/FileHelper.cs:42-77 | a saved upload's URL is `/uploads/<folder>/<guid><ext>` with the lower-cased extension, which is allowed when a list was given |
| `FileHelper.SaveFileShape` | WebListenMusic/Helpers/FileHelper.cs:110-131 | `SaveFileAsync` never rejects; it returns null exactly for a missing or empty file, and otherwise `/<folder>/<guid><ext>` |
| `FileHelper.DeleteTarget` | WebListenMusic/Helpers/FileHelper.cs:138-150 | models the static `DeleteFile`: which file it removes; stated by `FileHelper.DeleteGuard` and `FileHelper.DeleteRemovesUploadedFile` |
| `FileHelper.DeleteGuard` | WebListenMusic/Helpers/FileHelper.cs:138-142 | the static delete does nothing exactly for a null or empty URL, or one containing "default" |
| `FileHelper.DeleteFileTarget` | WebListenMusic/Helpers/FileHelper.cs:86-93 | the instance delete touches a file exactly for a present, non-empty URL that does not contain "default" |
| `FileHelper.DeleteOverloadsAgree` | WebListenMusic/Helpers/FileHelper.cs:86-100 | the instance overload deletes what the static one does with the environment's web root, and has the same guard |
| `FileHelper.DeleteRemovesUploadedFile` | WebListenMusic/Helpers/FileHelper.cs:138-150 | deleting the URL an upload returned targets the very file the upload wrote |
| `FileHelper.FormatDuration` | WebListenMusic/Helpers/FileHelper.cs:158-164 | models `FormatDuration` as written; stated by `FileHelper.FormatDurationReadsBackModuloDay` and the examples |
| `FileHelper.FormatDurationMinutesExample` | WebListenMusic/Helpers/FileHelper.cs:152-157 | 185 seconds print as "3:05" |
| `FileHelper.FormatDurationHoursExample` | WebListenMusic/Helpers/FileHelper.cs:152-157 | 3725 seconds print as "1:02:05" |
| `FileHelper.FormatDurationReadsBackModuloDay` | WebListenMusic/Helpers/FileHelper.cs:158-164 | a non-negative duration prints as `h:mm:ss` exactly when its hour of the day is not 0 and as `m:ss` otherwise, with two-digit fields, and reads back as the seconds modulo one day |
| `FileHelper.FormatDurationDropsDays` | WebListenMusic/Helpers/FileHelper.cs:160-163 | 90000 prints as "1:00:00" and 86400 as "0:00" |
| `FileHelper.FormatDurationTotalHoursReadsBack` | WebListenMusic/Helpers/FileHelper.cs:158-164 | printing total hours, every non-negative duration reads back exactly, has three fields exactly from one hour up, and under a day equals the original's text |
| `FileHelper.FormatNumber` | WebListenMusic/Helpers/FileHelper.cs:173-185 | models `FormatNumber` as written; stated by `FileHelper.FormatNumberReadsBack` and `FileHelper.FormatNumberSmall` |
| `FileHelper.RoundedTenthsNearest` | WebListenMusic/Helpers/FileHelper.cs:177-183 | the `0.#` rounding is within half a tenth of the exact quotient |
| `FileHelper.ParseCompactOfText` | WebListenMusic/Helpers/FileHelper.cs:177-183 | a count of tenths printed with `0.#` and a suffix reads back as the same count and unit |
| `FileHelper.FormatNumberSmall` | WebListenMusic/Helpers/FileHelper.cs:184 | below 1000 the number is printed in full and reads back as itself |
| `FileHelper.FormatNumberReadsBack` | WebListenMusic/Helpers/FileHelper.cs:173-185 | from 1000 up the suffix is B exactly from 1e9, M exactly from 1e6 below 1e9, K exactly below 1e6, and the digits are the quotient rounded to tenths |
| `FileHelper.FormatNumberExamples` | WebListenMusic/Helpers/FileHelper.cs:166-172 | 1500 gives "1.5K", 2500000 gives "2.5M", 1000000000 gives "1B" |
| `FileHelper.FormatNumberThousandThousands` | WebListenMusic/Helpers/FileHelper.cs:179-183 | 999999 prints as "1000K" and 999950000 as "1000M" |
| `FileHelper.PromotedTenthsBounds` | WebListenMusic/Helpers/FileHelper.cs:179-183 | moving to the next unit when a mantissa would round to 1000 keeps the rounded tenths between 10 and 9999 |
| `FileHelper.FormatNumberPromotedMantissa` | WebListenMusic/Helpers/FileHelper.cs:173-185 | with the unit chosen after rounding, the printed K or M mantissa reads back, lies in `[1, 1000)` and is within half a tenth of the exact quotient |
| `FileHelper.FormatNumberPromotedExample` | WebListenMusic/Helpers/FileHelper.cs:179-183 | with the unit chosen after rounding, 999999 prints as "1M" |
| `Site.FormatDuration` | WebListenMusic/wwwroot/js/site.js:299-304 | models `formatDuration`; stated by `Site.FormatDurationReadsBack` and `Site.FormatDurationMatchesPlayer` |
| `Site.GetSongDataFromElement` | WebListenMusic/wwwroot/js/site.js:222-234 | models `getSongDataFromElement`; stated by `Site.SongDataNeedsId`, `Site.SongDataDefaults` and `Site.SongDataOfRenderedCard` |
| `Site.OrDefault` | WebListenMusic/wwwroot/js/site.js:228-231 | a text attribute falls back to its default exactly when it is empty |
| `Site.FormatDurationMatchesPlayer` | WebListenMusic/wwwroot/js/site.js:299-304 | the page's `formatDuration` and the player's `formatTime` print every value alike, 0 included |
| `Site.FormatDurationReadsBack` | WebListenMusic/wwwroot/js/site.js:300-303 | "0:00" for NaN; a non-negative value prints as uncapped whole minutes and two-digit seconds, reading back as its floor |
| `Site.FormatDurationMatchesServer` | WebListenMusic/wwwroot/js/site.js:299-304 | under an hour, the page and the server print whole seconds the same way |
| `Site.SongDataNeedsId` | WebListenMusic/wwwroot/js/site.js:222-224 | a card yields no song exactly when its song id is missing or empty |
| `Site.SongDataDefaults` | WebListenMusic/wwwroot/js/site.js:226-233 | missing title, artist and cover fall back to "Unknown", "Unknown Artist" and the default cover; present values and `audioUrl` pass through; an unparsable duration is 0 |
| `Site.SongDataOfRenderedCard` | WebListenMusic/wwwroot/js/site.js:222-234 | reading a card rendered from a song gives back that song |

## Left out

- DOM work is not modelled: `initElements` and the event wiring, the queue list HTML, icon and button classes, toasts and timers. The lyrics panel is modelled only through its newline replacement and the blank-lyrics test (`PlayerSpec.LyricsBody`).
- Network calls are not modelled: `updatePlayCount`, and the fetches of the global `playSong`, `playAlbum`, `playPlaylist` and `addToQueue`. Only the effect on the queue once album or playlist songs arrive is modelled.
- The audio element is a record. The rejection of its `play()` promise and its asynchronous loading are not modelled; its events arrive as `Event` values.
- The element raising `Infinity` as a duration (streams) is not modelled: a number is either NaN or finite.
- `seek` and the slider geometry of `setVolume` are not modelled; the slider ratio is an input. The progress percentage of `onTimeUpdate` is not modelled either.
- `localStorage` values are not serialised: JSON and `parseFloat(volume.toString())` are treated as exact round trips.
- PlayerObject.MusicPlayer.constructor: it requires a stored volume inside `[0, 1]`. This player only ever saves such volumes; an out-of-range value, which would make the element's volume assignment throw, is not modelled.
- PlayerObject.MusicPlayer.LoadFromStorage: it keeps the invariant only from the constructor's pointer of 0, the only place the script calls it.
- PlayerSpec.StepPreservesValid / PlayerSpec.RunPreservesValid: they assume admissible events. `playAlbum` and `playPlaylist` accept any start index, and a start outside the songs leaves the pointer out of range (`PlayerSpec.PlayCollectionUncheckedStart`), so the invariant is not promised for such an event.
- Floating point: volumes and times are exact reals, so the 0.1 volume steps accumulate no rounding.
- `FormatNumber` uses exact decimal rounding, half away from zero, instead of the double's `"0.#"` formatting. The decimal separator is taken to be `.`, that of the invariant culture.
- `parseInt` is modelled in radix 10 only; its `0x` prefix is not.
- White space for `trim` and `parseInt` is the ASCII white space and U+00A0 only. The other characters JavaScript skips (U+FEFF, U+2028, U+2029 and the other Unicode space separators such as U+3000) count as text, so lyrics made only of them are treated as present.
- `ToLowerInvariant` lower-cases ASCII letters only.
- `Path.GetExtension` stops at both `/` and `\`, as on Windows. `Path.Combine` is simplified: an empty part, a part starting with a separator, or a trailing separator; drive letters are not modelled.
- File-system work is not modelled: writing the stream, creating directories, and the `File.Exists` check before deleting. GUID generation and configuration reads are parameters.
- The page script's `initSongCards` passes a song record to the global `playSong`, which expects an id. That is outside this model.
- Integer width: `FormatDuration` and `FormatNumber` take C# `int`, but no step of either can overflow, so the model uses unbounded integers.

## Findings

| source | as written | input that shows it | evidently intended | confidence | as-written member | corrected member |
|---|---|---|---|---|---|---|
| WebListenMusic/Helpers/FileHelper.cs:160-163 | `TimeSpan.Hours` is the hour of the day, so whole days are dropped | 90000 seconds (25 h) prints "1:00:00"; 86400 prints "0:00" | the total number of hours in front | medium, not executed | `FileHelper.FormatDurationDropsDays` | `FileHelper.FormatDurationTotalHoursReadsBack` |
| WebListenMusic/Helpers/FileHelper.cs:179-183 | the unit is chosen before rounding, so a mantissa can round up to 1000 | 999999 prints "1000K"; 999950000 prints "1000M" | "1M" and "1B": move to the next unit when the rounded mantissa reaches 1000 | high, not executed | `FileHelper.FormatNumberThousandThousands` | `FileHelper.FormatNumberPromotedMantissa` |
