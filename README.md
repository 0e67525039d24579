# Podcast player state, in Dafny

A model of the playback-state controller of the podcastr web player
(`podecastr/src/contexts/PlayerContext.tsx`). The controller holds five
pieces of state — the queued episode list, the index of the current
episode, and the flags `isPlaying`, `isLooping` and `isShuffling` — and
offers nine operations that overwrite them (`play`, `playList`,
`togglePlay`, `toggleLoop`, `toggleShuffle`, `setPlayingState`,
`clearPlayerState`, `playNext`, `playPrevious`) plus two derived flags,
`hasNext` and `hasPrevious`.

- `playback.dfy`, module `Playback`: the state as a value (`State`), the
  bounds invariant `Valid` (an empty list has index 0, otherwise
  `0 <= index < |list|`), each operation as a function from state to state,
  and the lemmas about them: the toggles are involutions, `playNext`
  outside shuffle mode moves exactly when `hasNext` says so and
  `playPrevious` exactly when `hasPrevious` says so, repeated navigation
  stops at the ends of the list, the shuffle draw stays in range and can
  reach every episode, and every run of operations keeps the invariant
  unless `playList` is handed an index outside its list.
- `player_context.dfy`, module `PlayerContext`: class `Player` with the
  five fields. Each operation is a method whose frame names exactly the
  fields it may set, whose postcondition states the new values, and which
  is tied to the matching `Playback` function. `Walkthrough` is a client
  that walks a three-episode list forward and back, then shuffles over
  five, using only the method contracts.

`Math.random()` is a parameter: a `Roll`, an exact real in `[0, 1)`, and
the shuffle index is the floor of `roll * |episodeList|`, which is 0 for
an empty list.

`playList` stores the caller's index without checking it
(`PlayerContext.tsx:56`). The model keeps that behaviour: the invariant
holds afterwards exactly when the index is in bounds, and `PlayListPastEnd`
exhibits a call that breaks it. `Valid` also requires index 0 when the
list is empty; every operation except `playList` keeps it.

## Model

| member | source | states |
|---|---|---|
| `Playback.Initial` | podecastr/src/contexts/PlayerContext.tsx:41-45 | the starting state (empty list, index 0, flags off) satisfies the invariant and offers neither next nor previous |
| `Playback.Play` | podecastr/src/contexts/PlayerContext.tsx:47-51 | after `play(e)` the invariant holds, `e` is the current episode, playback is on, there is no previous, and there is a next only in shuffle mode |
| `Playback.PlayList` | podecastr/src/contexts/PlayerContext.tsx:54-58 | after `playList(L, i)` the invariant holds if and only if `i` is in bounds for `L`; when it is, `L[i]` is the current episode; playback is on |
| `Playback.PlayListPastEnd` | podecastr/src/contexts/PlayerContext.tsx:54-58 | `playList([e], 1)` leaves the player in a state that breaks the bounds invariant (no validation of the index) |
| `Playback.TogglePlay` | podecastr/src/contexts/PlayerContext.tsx:62-64 | `togglePlay` inverts `isPlaying` |
| `Playback.TogglePlayTwice` | podecastr/src/contexts/PlayerContext.tsx:62-64 | two `togglePlay` calls restore the whole state |
| `Playback.ToggleLoop` | podecastr/src/contexts/PlayerContext.tsx:68-70 | `toggleLoop` inverts `isLooping` |
| `Playback.ToggleLoopTwice` | podecastr/src/contexts/PlayerContext.tsx:68-70 | two `toggleLoop` calls restore the whole state |
| `Playback.ToggleShuffle` | podecastr/src/contexts/PlayerContext.tsx:73-75 | `toggleShuffle` inverts `isShuffling`, and `hasNext` holds on one side of the toggle |
| `Playback.ToggleShuffleTwice` | podecastr/src/contexts/PlayerContext.tsx:73-75 | two `toggleShuffle` calls restore the whole state |
| `Playback.SetPlayingState` | podecastr/src/contexts/PlayerContext.tsx:78-80 | `setPlayingState(b)` leaves `isPlaying == b` |
| `Playback.ClearPlayerState` | podecastr/src/contexts/PlayerContext.tsx:83-86 | from any state, `clearPlayerState` yields a valid state with no previous, and a next only in shuffle mode |
| `Playback.ShuffleIndex` | podecastr/src/contexts/PlayerContext.tsx:95 | `floor(random * n)` is 0 for an empty list and below `n` otherwise |
| `Playback.ShuffleIndexReaches` | podecastr/src/contexts/PlayerContext.tsx:95 | every index below `n` is produced by some draw of the random source |
| `Playback.PlayNext` | podecastr/src/contexts/PlayerContext.tsx:92-104 | `playNext` changes neither the list nor any flag; it preserves the invariant, and in shuffle mode establishes it from any state |
| `Playback.PlayNextFollowsHasNext` | podecastr/src/contexts/PlayerContext.tsx:89-104 | outside shuffle mode `playNext` advances the index by exactly one when `hasNext` holds, and leaves the state unchanged if and only if `hasNext` fails |
| `Playback.ShuffleNextReachesAll` | podecastr/src/contexts/PlayerContext.tsx:94-97 | in shuffle mode `playNext` can land on any index of the list, the current one included |
| `Playback.PlayPrevious` | podecastr/src/contexts/PlayerContext.tsx:108-113 | `playPrevious` changes neither the list nor any flag, preserves the invariant and never makes a non-negative index negative |
| `Playback.PlayPreviousFollowsHasPrevious` | podecastr/src/contexts/PlayerContext.tsx:90-113 | `playPrevious` decrements the index by exactly one when `hasPrevious` holds, and leaves the state unchanged if and only if it fails |
| `Playback.NavigationEnds` | podecastr/src/contexts/PlayerContext.tsx:89-90 | in a valid non-empty state, `hasNext` fails outside shuffle mode exactly at the last episode, and `hasPrevious` fails exactly at the first |
| `Playback.PlayNextTimesStopsAtLast` | podecastr/src/contexts/PlayerContext.tsx:99-102 | from any state outside shuffle mode, `k` presses of next leave an index `i` with `i + 1 < |L|` at `min(i + k, |L| - 1)`, and leave an index at or past the last episode (including one `playList` left past the end) where it is |
| `Playback.PlayPreviousTimesStopsAtFirst` | podecastr/src/contexts/PlayerContext.tsx:108-113 | `k` presses of previous leave the index at `max(i - k, 0)` for a positive index (so an index past the end comes back into the list) and never move an index at or below 0 |
| `Playback.RunPreservesValid` | podecastr/src/contexts/PlayerContext.tsx:47-113 | any sequence of operations without an out-of-bounds `playList` preserves the invariant |
| `Playback.ReachableIsValid` | podecastr/src/contexts/PlayerContext.tsx:41-113 | every state reachable from the initial one by such operations satisfies the invariant |
| `PlayerContext.Player.constructor` | podecastr/src/contexts/PlayerContext.tsx:41-45 | a new player holds the initial state, which is valid |
| `PlayerContext.Player.Play` | podecastr/src/contexts/PlayerContext.tsx:47-51 | sets list `[e]`, index 0, `isPlaying`; frame leaves `isLooping` and `isShuffling` alone |
| `PlayerContext.Player.PlayList` | podecastr/src/contexts/PlayerContext.tsx:54-58 | sets list and index exactly as given and `isPlaying`; valid afterwards if and only if the index is in bounds |
| `PlayerContext.Player.TogglePlay` | podecastr/src/contexts/PlayerContext.tsx:62-64 | negates `isPlaying` and may change nothing else |
| `PlayerContext.Player.ToggleLoop` | podecastr/src/contexts/PlayerContext.tsx:68-70 | negates `isLooping` and may change nothing else |
| `PlayerContext.Player.ToggleShuffle` | podecastr/src/contexts/PlayerContext.tsx:73-75 | negates `isShuffling` and may change nothing else |
| `PlayerContext.Player.SetPlayingState` | podecastr/src/contexts/PlayerContext.tsx:78-80 | sets `isPlaying` to the argument and may change nothing else |
| `PlayerContext.Player.ClearPlayerState` | podecastr/src/contexts/PlayerContext.tsx:83-86 | sets the empty list and index 0; the three flags are outside its frame |
| `PlayerContext.Player.PlayNext` | podecastr/src/contexts/PlayerContext.tsx:92-104 | in shuffle mode sets the index to the drawn one; otherwise increments it when `hasNext` held and leaves it otherwise; only the index may change; the invariant is kept, and restored by a shuffle |
| `PlayerContext.Player.PlayPrevious` | podecastr/src/contexts/PlayerContext.tsx:108-113 | decrements the index when `hasPrevious` held, else leaves it; only the index may change; the invariant is kept |

## Left out

- The React machinery (context creation, `useState`, the provider element,
  `children`, `usePlayer`): each operation is one atomic step on the
  current state. React's deferred, batched state updates (two calls in one
  event handler both reading the same stale value) are not modelled.
- `Math.random()` as floating point: a draw is an exact real in `[0, 1)`,
  supplied by the caller; floating-point rounding of `random * length` is
  not modelled.
- The index is an integer: JavaScript would also accept a fractional or
  non-finite number in `playList`, which the model does not represent.
- The fields of `Episode` are carried but no operation inspects them.
- `isLooping` is only stored and toggled, as in the source; no loop
  behaviour exists to model.
- Audio playback, rendering and episode fetching are not part of this
  component.
