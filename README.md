# Starfield background and playlist player — a Dafny model

The page script `script.js` does two independent things:

- **Starfield** (`starfield.dfy`, module `Starfield`). 150 stars fly towards the
  viewer. Each frame, every star pushes its current position onto a trail. The trail
  is a FIFO bounded by the star's `maxTrail`, which is chosen in [5, 12] at creation.
  The star's depth then drops by `speed * 50`. A star that reaches depth ≤ 0
  respawns at a new position, at depth equal to the canvas width, with an empty
  trail. A star is drawn through a pinhole projection that scales its offset from
  the canvas centre by `width / z`. A star is a `Star` class updated in place by
  `Step`. `AdvanceAll` is the per-frame `forEach` over all stars.
- **Playlist player** (`player.dfy`, module `Player`). The playlist holds five fixed
  tracks. The player state is the current track index, whether playback is on, one
  "active" flag per playlist entry on the page (`active: array<bool>`), the
  play/pause icon, the labels shown, and a log of the play and pause commands sent
  to the media element. `LoadTrack`, `TogglePlayPause` and `Ended` are the click
  and media-event handlers.
- **Time labels** (`time_format.dfy`, module `TimeFormat`). `formatTime` turns a
  media time into `m:ss`. A NaN time gives `"0:00"`. `ParseClock` reads a label
  back and is the formatter's partner in the round-trip lemmas.

Random draws (`Math.random()`, always in [0, 1)) are parameters: the six creation
draws go to the `Star` constructor, and the two respawn draws go to `Step`. Canvas
dimensions are the canvas element's unsigned integers (`nat`). Positions, depths and
speeds are exact reals, not floating point. The media element is reduced to its
observable commands (`media`, a sequence of `Play`/`Pause`) and to the `source` it
is given.

Two details of the code that the model keeps:

- Depth is not always positive: a star's initial depth is
  `Math.random() * width` and can be 0. A respawn sets the depth to the canvas
  width, which can also be 0. So `Star.Valid` only promises depth ≥ 0. It also
  promises that every trail snapshot has depth > 0: a snapshot with depth 0 is
  pushed only in the frame where the star respawns, and the respawn clears the
  trail. `Star.Step` promises depth > 0 after the frame whenever the canvas width
  is positive, so every projection the script computes has a non-zero divisor.
- When playback is on, the `ended` handler asks the media element to play twice: once
  inside `loadTrack`, once in the handler itself. `Ended` records both commands.

## Model

| member | source | states |
|---|---|---|
| `Starfield.PushBounded` | script.js:42-47 | From a trail within its bound, the new trail is the latest `maxTrail` entries of the old trail plus the snapshot, so it stays within the bound. The snapshot is the newest entry. Below the bound nothing is evicted. At the bound exactly the oldest entry goes, and the rest keep their order. |
| `Starfield.TrailHoldsLatestSnapshots` | script.js:42-47 | Over any number of frames without a respawn, the trail is exactly the most recent `maxTrail` snapshots, oldest first, and never longer than `maxTrail` (induction over frames). |
| `Starfield.MaxTrailFromDraw` | script.js:29 | The trail bound drawn at creation lies in [5, 12]. |
| `Starfield.SpeedFromDraw` | script.js:26 | The speed drawn at creation lies in [0.02, 0.07). |
| `Starfield.SizeFromDraw` | script.js:27 | The radius drawn at creation lies in [1, 3). |
| `Starfield.Project` | script.js:61-63 | A coordinate seen at depth equal to the canvas width projects to itself (scale 1). The canvas centre always projects to itself. |
| `Starfield.ProjectionMovesOutward` | script.js:61-63 | As depth drops, a projected coordinate stays on the same side of the centre and never moves closer to it. With a positive canvas width and a strict drop in depth, a coordinate off the centre moves strictly away from it (the outward-radiating effect). |
| `Starfield.ScreenPosition` | script.js:61-63 | A snapshot at depth equal to the canvas width is drawn at its raw `(x, y)`. |
| `Starfield.Star.constructor` | script.js:21-31 | A new star takes its position and depth from the draws scaled by the canvas size (`Scaled`), takes speed, size and trail bound from the draw functions, has an empty trail, and satisfies the star invariant. |
| `Starfield.Star.Step` | script.js:40-58 | Keeps the star invariant, including the trail bound. Depth drops by exactly `speed * 50`. If it is still positive, the old position is pushed with `PushBounded` and `x`, `y` stay. Otherwise the star respawns at the two draws scaled by the canvas width and height, at depth equal to the canvas width, with an empty trail. With a positive canvas width the depth afterwards is positive. |
| `Starfield.AdvanceAll` | script.js:40-58 | Every star of the pool is advanced exactly once, as `Step` describes, with its own pair of respawn draws, and every star keeps its invariant. |
| `TimeFormat.Decimal` | script.js:254 | A non-negative integer is printed as a non-empty string of digits with no leading zero, one digit exactly when it is below 10, and reading the digits back gives the number. |
| `TimeFormat.Mod60` | script.js:253 | For a non-negative time, `% 60` leaves a value in [0, 60), and what it removes is exactly 60 times the whole minutes. |
| `TimeFormat.TwoDigits` | script.js:254 | Seconds below a minute are written as exactly two digits (a padding zero below 10) that read back as the seconds. |
| `TimeFormat.Clock` | script.js:254 | The label is the minutes' decimal digits, then a colon, then the two-digit seconds. |
| `TimeFormat.FormatTime` | script.js:250-255 | Every label, including the NaN label, has the `m:ss` shape: digits, a colon, then two digits. |
| `TimeFormat.WholeMinutes` | script.js:252 | `floor(s / 60)` is `floor(s) div 60`: the whole minutes of the whole number of seconds. |
| `TimeFormat.WholeSeconds` | script.js:253 | `floor(s % 60)` is `floor(s) mod 60`: the seconds past those minutes. |
| `TimeFormat.ClockRoundTrip` | script.js:254 | A label built from `m` minutes and `ss` seconds (below 60) reads back as `m * 60 + ss` seconds. |
| `TimeFormat.FormatTimeValue` | script.js:250-255 | The label for a known time `s` is exactly `floor(s) div 60` in plain digits with no leading zero, a colon, then `floor(s) mod 60` padded to two digits. |
| `TimeFormat.FormatTimeReadsBack` | script.js:250-255 | The label for any non-negative time reads back as `floor(s)`: only the fraction of a second is lost. |
| `TimeFormat.FormatTimePastAMinute` | script.js:250-255 | `formatTime(65)` is `"1:05"`. |
| `TimeFormat.FormatTimeUnderAMinute` | script.js:250-255 | `formatTime(9)` is `"0:09"`, and `formatTime(NaN)` is `"0:00"`. |
| `Player.NextIndex` | script.js:243 | After a track ends, the index moves to the next track, wraps from the last track to the first, and stays within the playlist. |
| `Player.AfterEnded` | script.js:242-244 | However many tracks end in a row, the index stays within the playlist. |
| `Player.AfterEndedModular` | script.js:242-244 | After `n` tracks in a row have ended, the index is `(i + n) mod 5` (induction on `n`). |
| `Player.AfterEndedCycles` | script.js:242-244 | Once all five tracks have ended in turn, the same track is loaded again. |
| `Player.EndedRepeatedly` | script.js:242-248 | Handling `n` `ended` notifications in a row with `Ended` leaves the player valid, keeps `isPlaying`, and moves the index to `AfterEnded(i, n)`, which is `(i + n) mod 5`. |
| `Player.Player.constructor` | script.js:257 | On page load (initial state from lines 150-151, then `loadTrack(0)`), the player is stopped at track 0 with no commands sent. Only entry 0 is highlighted, whatever the markup had. |
| `Player.Player.LoadTrack` | script.js:170-192 | Sets the index to `index`, shows that track's metadata and source, and highlights exactly its entry. Resets progress and the elapsed label to `0:00`. Leaves `isPlaying`, the icon and the total label unchanged. Sends `Play` exactly when playback is on. |
| `Player.Player.TogglePlayPause` | script.js:203-212 | Flips `isPlaying` and sends `Pause` when it was playing, `Play` otherwise. Afterwards the icon is "pause" exactly when playing. The track, highlight and labels are unchanged. |
| `Player.Player.Ended` | script.js:242-248 | Moves to `NextIndex` of the old index with that entry alone highlighted. Keeps `isPlaying`. Sends two `Play` commands when playing and none when stopped. |
| `Player.Player.DurationKnown` | script.js:183-185 | When the media's duration becomes known, the total-time label is `formatTime` of that duration. |
| `Player.LastTrackWrapsAround` | script.js:242-248 | From a loaded page, selecting the last track and letting it end loads track 0. The first entry's highlight is set and the last entry's is cleared. |
| `Player.ToggleTwiceFromStopped` | script.js:203-212 | From a loaded, stopped page, two presses send `Play` then `Pause`, and leave the player stopped with the play icon. |

## Left out

- Canvas drawing: the translucent clearing rectangle, the trail dots' alpha and radius, the star disc, the glow, and the on-canvas visibility test (script.js:36-37, 66-96). These are side effects with floating-point styling values. Only the projection they use is modelled.
- The animation loop (`requestAnimationFrame`, script.js:99-103) and the `resize` handler (script.js:12-18). The loop is host-scheduled and never ends. A resize changes the `width` and `height` passed to later frames and nothing else.
- `Math.random()`: its draws are parameters, assumed to lie in [0, 1).
- Floating-point arithmetic: the model computes over exact reals. `Project` needs a positive depth, which `Star.Valid` and `Star.Step` supply (see above). The Infinity or NaN that JavaScript yields on a zero canvas width is not modelled.
- Volume persistence (`loadVolume`, `saveVolume` and the volume slider, script.js:154-167, 236-240): `localStorage` I/O and `parseFloat`.
- Progress and seek (`updateProgress` and the seek slider, script.js:216-234): percentage arithmetic in floating point on the media element's times.
- The media element and DOM calls: `play`/`pause` are logged as commands, and `src` is kept as a field. The titles, artwork and labels are string fields. Re-adding the `loadedmetadata` listener on every `loadTrack` is host event plumbing. Only the listener's effect is modelled, as `Player.DurationKnown`.
- `TimeFormat.FormatTime`: Infinity (an unbounded stream's duration) and negative times are outside its domain. The media element reports NaN or a finite non-negative time for these mp3 tracks. The model prints the minutes in plain digits for every time, while JavaScript uses exponent notation once the minute count reaches 10^21.
- The page is assumed to have exactly five `.playlist-item` entries, one per track. The markup is not part of this model.
