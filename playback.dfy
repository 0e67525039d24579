/** The playback state of the podcast player and its transitions, as values.

    The player keeps five pieces of state: the list of episodes queued for
    playback, the index of the current one, and the flags isPlaying,
    isLooping and isShuffling. Every operation of the player is one atomic
    step from a State to the next State; the functions below are that step,
    and the class in PlayerContext performs it in place. */
module Playback {

  /** An episode as the page supplies it. No transition inspects its fields. */
  datatype Episode = Episode(title: string, members: string, thumbnail: string, duration: real, url: string)

  /** A value drawn by the random source: a number in [0, 1). */
  type Roll = r: real | 0.0 <= r < 1.0

  datatype State = State(
    episodeList: seq<Episode>,
    currentEpisodeIndex: int,
    isPlaying: bool,
    isLooping: bool,
    isShuffling: bool)

  /** The index names an episode of the list, or is 0 when the list is empty. */
  predicate InBounds(list: seq<Episode>, index: int) {
    if list == [] then index == 0 else 0 <= index < |list|
  }

  /** The bounds invariant of the player. */
  predicate Valid(s: State) {
    InBounds(s.episodeList, s.currentEpisodeIndex)
  }

  /** The episode being played, when the index names one. */
  function CurrentEpisode(s: State): Episode
    requires Valid(s) && s.episodeList != []
  {
    s.episodeList[s.currentEpisodeIndex]
  }

  /** True when "next" may move: in shuffle mode always, otherwise when an
      episode follows the current one. */
  predicate HasNext(s: State) {
    s.isShuffling || s.currentEpisodeIndex + 1 < |s.episodeList|
  }

  /** True when "previous" moves. */
  predicate HasPrevious(s: State) {
    s.currentEpisodeIndex > 0
  }

  /** The state the player starts in: nothing queued, nothing playing. */
  function Initial(): (s: State)
    ensures Valid(s) && !HasNext(s) && !HasPrevious(s)
  {
    State([], 0, false, false, false)
  }

  /** Play a single episode: it becomes the whole list and the current one. */
  function Play(s: State, episode: Episode): (r: State)
    ensures Valid(r) && r.episodeList != [] && CurrentEpisode(r) == episode && r.isPlaying
    ensures !HasPrevious(r) && (HasNext(r) <==> s.isShuffling)
  {
    s.(episodeList := [episode], currentEpisodeIndex := 0, isPlaying := true)
  }

  /** Play a list starting at a caller-chosen index. The index is stored as
      given, so the invariant afterwards holds exactly when it is in bounds. */
  function PlayList(s: State, list: seq<Episode>, index: int): (r: State)
    ensures Valid(r) <==> InBounds(list, index)
    ensures list != [] && InBounds(list, index) ==>
      Valid(r) && r.episodeList != [] && CurrentEpisode(r) == list[index]
    ensures r.isPlaying
  {
    s.(episodeList := list, currentEpisodeIndex := index, isPlaying := true)
  }

  function TogglePlay(s: State): (r: State)
    ensures r.isPlaying != s.isPlaying
  {
    s.(isPlaying := !s.isPlaying)
  }

  function ToggleLoop(s: State): (r: State)
    ensures r.isLooping != s.isLooping
  {
    s.(isLooping := !s.isLooping)
  }

  function ToggleShuffle(s: State): (r: State)
    ensures r.isShuffling != s.isShuffling
    ensures HasNext(r) || HasNext(s)
  {
    s.(isShuffling := !s.isShuffling)
  }

  function SetPlayingState(s: State, playing: bool): (r: State)
    ensures r.isPlaying == playing
  {
    s.(isPlaying := playing)
  }

  /** Empty the list; the flags, isPlaying included, are kept. */
  function ClearPlayerState(s: State): (r: State)
    ensures Valid(r) && !HasPrevious(r) && (HasNext(r) <==> s.isShuffling)
  {
    s.(episodeList := [], currentEpisodeIndex := 0)
  }

  lemma ShuffleProductBounds(n: nat, roll: Roll)
    ensures 0.0 <= roll * n as real
    ensures n > 0 ==> roll * n as real < n as real
  {
  }

  /** The index a shuffled "next" lands on: the floor of roll * n. With an
      empty list the product is 0, so the index is 0. */
  function ShuffleIndex(n: nat, roll: Roll): (k: nat)
    ensures n == 0 ==> k == 0
    ensures n > 0 ==> k < n
  {
    ShuffleProductBounds(n, roll);
    (roll * n as real).Floor
  }

  /** Every index of a non-empty list is drawn by some roll. */
  lemma ShuffleIndexReaches(n: nat, k: nat) returns (roll: Roll)
    requires k < n
    ensures ShuffleIndex(n, roll) == k
  {
    roll := k as real / n as real;
    assert roll * n as real == k as real;
  }

  /** Move to the next episode: a random one in shuffle mode (possibly the
      current one), otherwise the following one if there is one. */
  function PlayNext(s: State, roll: Roll): (r: State)
    ensures r.episodeList == s.episodeList
    ensures r.isPlaying == s.isPlaying && r.isLooping == s.isLooping && r.isShuffling == s.isShuffling
    ensures Valid(s) || s.isShuffling ==> Valid(r)
  {
    if s.isShuffling then
      s.(currentEpisodeIndex := ShuffleIndex(|s.episodeList|, roll))
    else if HasNext(s) then
      s.(currentEpisodeIndex := s.currentEpisodeIndex + 1)
    else
      s
  }

  /** Move to the preceding episode if there is one. */
  function PlayPrevious(s: State): (r: State)
    ensures r.episodeList == s.episodeList
    ensures r.isPlaying == s.isPlaying && r.isLooping == s.isLooping && r.isShuffling == s.isShuffling
    ensures Valid(s) ==> Valid(r)
    ensures s.currentEpisodeIndex >= 0 ==> r.currentEpisodeIndex >= 0
  {
    var previousEpisodeIndex := s.currentEpisodeIndex - 1;
    if HasPrevious(s) then s.(currentEpisodeIndex := previousEpisodeIndex) else s
  }

  // ---------------------------------------------------------------------
  // Properties of single steps

  /** Each toggle is an involution. */
  lemma TogglePlayTwice(s: State)
    ensures TogglePlay(TogglePlay(s)) == s
  {
  }

  lemma ToggleLoopTwice(s: State)
    ensures ToggleLoop(ToggleLoop(s)) == s
  {
  }

  lemma ToggleShuffleTwice(s: State)
    ensures ToggleShuffle(ToggleShuffle(s)) == s
  {
  }

  /** playList does not check its index: an index past the end of the list
      is stored and the invariant is broken. */
  lemma PlayListPastEnd(s: State, e: Episode)
    ensures !Valid(PlayList(s, [e], 1))
  {
  }

  /** Without shuffle, "next" moves exactly when hasNext holds, and then by one. */
  lemma PlayNextFollowsHasNext(s: State, roll: Roll)
    requires !s.isShuffling
    ensures HasNext(s) ==> PlayNext(s, roll).currentEpisodeIndex == s.currentEpisodeIndex + 1
    ensures !HasNext(s) <==> PlayNext(s, roll) == s
  {
  }

  /** In shuffle mode with a non-empty list, "next" can land on any episode,
      the current one included. */
  lemma ShuffleNextReachesAll(s: State, k: nat) returns (roll: Roll)
    requires s.isShuffling && k < |s.episodeList|
    ensures PlayNext(s, roll).currentEpisodeIndex == k
  {
    roll := ShuffleIndexReaches(|s.episodeList|, k);
  }

  /** "previous" moves exactly when hasPrevious holds, and then by one. */
  lemma PlayPreviousFollowsHasPrevious(s: State)
    ensures HasPrevious(s) ==> PlayPrevious(s).currentEpisodeIndex == s.currentEpisodeIndex - 1
    ensures !HasPrevious(s) <==> PlayPrevious(s) == s
  {
  }

  /** In a valid non-empty state, hasNext fails without shuffle exactly at the
      last episode and hasPrevious fails exactly at the first. */
  lemma NavigationEnds(s: State)
    requires Valid(s) && s.episodeList != []
    ensures !s.isShuffling ==> (!HasNext(s) <==> s.currentEpisodeIndex == |s.episodeList| - 1)
    ensures !HasPrevious(s) <==> s.currentEpisodeIndex == 0
  {
  }

  // ---------------------------------------------------------------------
  // Repeated navigation

  function Min(a: int, b: int): int { if a <= b then a else b }
  function Max(a: int, b: int): int { if a >= b then a else b }

  /** "next" pressed k times outside shuffle mode (the roll is then unused). */
  function PlayNextTimes(s: State, k: nat): State
    requires !s.isShuffling
    decreases k
  {
    if k == 0 then s else PlayNextTimes(PlayNext(s, 0.0), k - 1)
  }

  /** "previous" pressed k times. */
  function PlayPreviousTimes(s: State, k: nat): State
    decreases k
  {
    if k == 0 then s else PlayPreviousTimes(PlayPrevious(s), k - 1)
  }

  /** Outside shuffle mode, repeated "next" advances one episode per press
      and stops at the last episode; an index already at or past the last
      episode, as playList can leave it, is never moved. */
  lemma {:induction false} PlayNextTimesStopsAtLast(s: State, k: nat)
    requires !s.isShuffling
    ensures PlayNextTimes(s, k).currentEpisodeIndex ==
      if s.currentEpisodeIndex + 1 >= |s.episodeList| then s.currentEpisodeIndex
      else Min(s.currentEpisodeIndex + k, |s.episodeList| - 1)
    ensures PlayNextTimes(s, k).episodeList == s.episodeList
    decreases k
  {
    if k > 0 {
      PlayNextTimesStopsAtLast(PlayNext(s, 0.0), k - 1);
    }
  }

  /** Repeated "previous" goes back one episode per press and stops at 0; so
      from an index past the end, left there by playList, it comes back into
      the list. A negative index is never moved. */
  lemma {:induction false} PlayPreviousTimesStopsAtFirst(s: State, k: nat)
    ensures PlayPreviousTimes(s, k).currentEpisodeIndex ==
      if s.currentEpisodeIndex <= 0 then s.currentEpisodeIndex else Max(s.currentEpisodeIndex - k, 0)
    ensures PlayPreviousTimes(s, k).episodeList == s.episodeList
    decreases k
  {
    if k > 0 {
      PlayPreviousTimesStopsAtFirst(PlayPrevious(s), k - 1);
    }
  }

  // ---------------------------------------------------------------------
  // Sequences of operations

  /** One call of the player's operations, with its arguments. */
  datatype Action =
    | CallPlay(episode: Episode)
    | CallPlayList(list: seq<Episode>, index: int)
    | CallTogglePlay
    | CallToggleLoop
    | CallToggleShuffle
    | CallSetPlayingState(playing: bool)
    | CallClearPlayerState
    | CallPlayNext(roll: Roll)
    | CallPlayPrevious

  function Step(s: State, a: Action): State {
    match a
    case CallPlay(e) => Play(s, e)
    case CallPlayList(list, index) => PlayList(s, list, index)
    case CallTogglePlay => TogglePlay(s)
    case CallToggleLoop => ToggleLoop(s)
    case CallToggleShuffle => ToggleShuffle(s)
    case CallSetPlayingState(playing) => SetPlayingState(s, playing)
    case CallClearPlayerState => ClearPlayerState(s)
    case CallPlayNext(roll) => PlayNext(s, roll)
    case CallPlayPrevious => PlayPrevious(s)
  }

  function Run(s: State, trace: seq<Action>): State
    decreases |trace|
  {
    if trace == [] then s else Run(Step(s, trace[0]), trace[1..])
  }

  /** A call that keeps the invariant: every call except playList with an
      index outside its list. */
  predicate InBoundsCall(a: Action) {
    a.CallPlayList? ==> InBounds(a.list, a.index)
  }

  /** Every operation except an out-of-bounds playList preserves the
      invariant, so any run of such calls does. */
  lemma {:induction false} RunPreservesValid(s: State, trace: seq<Action>)
    requires Valid(s)
    requires forall i :: 0 <= i < |trace| ==> InBoundsCall(trace[i])
    ensures Valid(Run(s, trace))
    decreases |trace|
  {
    if trace != [] {
      assert InBoundsCall(trace[0]);
      RunPreservesValid(Step(s, trace[0]), trace[1..]);
    }
  }

  /** Every state reached from the initial state by such calls is valid. */
  lemma ReachableIsValid(trace: seq<Action>)
    requires forall i :: 0 <= i < |trace| ==> InBoundsCall(trace[i])
    ensures Valid(Run(Initial(), trace))
  {
    RunPreservesValid(Initial(), trace);
  }
}
