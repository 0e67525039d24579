/** The player's state holder: one object whose five fields the operations
    overwrite in place. Each method is one atomic step; its postcondition
    names the fields it sets, its frame lets it touch no other, and it is
    tied to the matching step of Playback, where the properties of the
    steps are proved. */
module PlayerContext {
  import opened Playback

  class Player {
    var episodeList: seq<Episode>
    var currentEpisodeIndex: int
    var isPlaying: bool
    var isLooping: bool
    var isShuffling: bool

    /** The fields as one Playback.State value. */
    function Snapshot(): State
      reads this
    {
      State(episodeList, currentEpisodeIndex, isPlaying, isLooping, isShuffling)
    }

    /** A new player: empty list, index 0, every flag off. */
    constructor ()
      ensures Snapshot() == Initial()
      ensures Valid(Snapshot())
    {
      episodeList := [];
      currentEpisodeIndex := 0;
      isPlaying := false;
      isLooping := false;
      isShuffling := false;
    }

    predicate HasNext()
      reads this
    {
      Playback.HasNext(Snapshot())
    }

    predicate HasPrevious()
      reads this
    {
      Playback.HasPrevious(Snapshot())
    }

    method Play(episode: Episode)
      modifies this`episodeList, this`currentEpisodeIndex, this`isPlaying
      ensures episodeList == [episode] && currentEpisodeIndex == 0 && isPlaying
      ensures Snapshot() == Playback.Play(old(Snapshot()), episode)
    {
      episodeList := [episode];
      currentEpisodeIndex := 0;
      isPlaying := true;
    }

    method PlayList(list: seq<Episode>, index: int)
      modifies this`episodeList, this`currentEpisodeIndex, this`isPlaying
      ensures episodeList == list && currentEpisodeIndex == index && isPlaying
      ensures Valid(Snapshot()) <==> InBounds(list, index)
      ensures Snapshot() == Playback.PlayList(old(Snapshot()), list, index)
    {
      episodeList := list;
      currentEpisodeIndex := index;
      isPlaying := true;
    }

    method TogglePlay()
      modifies this`isPlaying
      ensures isPlaying == !old(isPlaying)
      ensures Snapshot() == Playback.TogglePlay(old(Snapshot()))
    {
      isPlaying := !isPlaying;
    }

    method ToggleLoop()
      modifies this`isLooping
      ensures isLooping == !old(isLooping)
      ensures Snapshot() == Playback.ToggleLoop(old(Snapshot()))
    {
      isLooping := !isLooping;
    }

    method ToggleShuffle()
      modifies this`isShuffling
      ensures isShuffling == !old(isShuffling)
      ensures Snapshot() == Playback.ToggleShuffle(old(Snapshot()))
    {
      isShuffling := !isShuffling;
    }

    method SetPlayingState(playing: bool)
      modifies this`isPlaying
      ensures isPlaying == playing
      ensures Snapshot() == Playback.SetPlayingState(old(Snapshot()), playing)
    {
      isPlaying := playing;
    }

    /** Empties the list and resets the index; isPlaying is left as it was. */
    method ClearPlayerState()
      modifies this`episodeList, this`currentEpisodeIndex
      ensures episodeList == [] && currentEpisodeIndex == 0
      ensures Snapshot() == Playback.ClearPlayerState(old(Snapshot()))
    {
      episodeList := [];
      currentEpisodeIndex := 0;
    }

    /** roll stands for the value the random source yields on this call. */
    method PlayNext(roll: Roll)
      modifies this`currentEpisodeIndex
      ensures old(isShuffling) ==> currentEpisodeIndex == ShuffleIndex(|episodeList|, roll)
      ensures !old(isShuffling) && old(HasNext()) ==> currentEpisodeIndex == old(currentEpisodeIndex) + 1
      ensures !old(isShuffling) && !old(HasNext()) ==> currentEpisodeIndex == old(currentEpisodeIndex)
      ensures old(Valid(Snapshot())) || isShuffling ==> Valid(Snapshot())
      ensures Snapshot() == Playback.PlayNext(old(Snapshot()), roll)
    {
      if isShuffling {
        var nextRandomEpisodeIndex := ShuffleIndex(|episodeList|, roll);
        currentEpisodeIndex := nextRandomEpisodeIndex;
      } else if HasNext() {
        var nextEpisodeIndex := currentEpisodeIndex + 1;
        currentEpisodeIndex := nextEpisodeIndex;
      }
    }

    method PlayPrevious()
      modifies this`currentEpisodeIndex
      ensures old(HasPrevious()) ==> currentEpisodeIndex == old(currentEpisodeIndex) - 1
      ensures !old(HasPrevious()) ==> currentEpisodeIndex == old(currentEpisodeIndex)
      ensures old(Valid(Snapshot())) ==> Valid(Snapshot())
      ensures Snapshot() == Playback.PlayPrevious(old(Snapshot()))
    {
      var previousEpisodeIndex := currentEpisodeIndex - 1;
      if HasPrevious() {
        currentEpisodeIndex := previousEpisodeIndex;
      }
    }
  }

  /** A client that uses only the contracts above: the walk through a
      three-episode list, and the shuffle draw on five episodes. */
  method Walkthrough(a: Episode, b: Episode, c: Episode, roll: Roll)
  {
    var p := new Player();
    p.PlayList([a, b, c], 1);
    p.PlayNext(roll);
    assert p.currentEpisodeIndex == 2 && !p.HasNext();
    p.PlayNext(roll);
    assert p.currentEpisodeIndex == 2;
    p.PlayPrevious();
    p.PlayPrevious();
    assert p.currentEpisodeIndex == 0 && !p.HasPrevious();
    p.PlayPrevious();
    assert p.currentEpisodeIndex == 0;
    p.TogglePlay();
    p.TogglePlay();
    assert p.isPlaying;
    p.ToggleShuffle();
    p.PlayList([a, b, c, a, b], 0);
    p.PlayNext(roll);
    assert 0 <= p.currentEpisodeIndex < 5;
    p.ClearPlayerState();
    assert p.episodeList == [] && p.currentEpisodeIndex == 0 && p.isPlaying;
  }
}
