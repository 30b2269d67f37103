/**
 * The shared application state (lib/store.ts): the repository record, the
 * player-state record, and the five atoms every component reads and
 * overwrites, modelled as the fields of one store object.
 */
module Store {
  import opened Wrappers

  /**
   * One repository as the views see it. After shaping (module GitHub) the
   * description and language are always present strings; JavaScript's
   * falsy empty string is the only "no language" value left.
   */
  datatype Repository = Repository(
    id: int,
    name: string,
    fullName: string,
    description: string,
    htmlUrl: string,
    stargazersCount: int,
    forksCount: int,
    language: string,
    topics: seq<string>,
    readme: Option<string>,
    socialPreview: Option<string>)

  /** The player record; `currentRepoIndex` indexes the filtered list. */
  datatype PlayerState = PlayerState(
    isPlaying: bool,
    currentTime: int,
    totalTime: int,
    currentRepoIndex: int,
    isVisible: bool)

  /** The default duration of every "track", in seconds. */
  const DefaultTotalTime: int := 180

  /** The player atom's initial value. */
  function InitialPlayerState(): (p: PlayerState)
    ensures !p.isPlaying && !p.isVisible
    ensures p.currentTime == 0 && p.totalTime == DefaultTotalTime && p.currentRepoIndex == 0
    ensures PlayerInvariant(p)
  {
    PlayerState(false, 0, DefaultTotalTime, 0, false)
  }

  /**
   * What every write to the player atom keeps: elapsed time strictly below the
   * duration (the player's tick resets before reaching it) and a
   * non-negative index.
   */
  predicate PlayerInvariant(p: PlayerState) {
    0 <= p.currentTime < p.totalTime && 0 <= p.currentRepoIndex
  }

  /**
   * The atoms of lib/store.ts. Each component method in this model names the
   * fields it overwrites in its `modifies` clause.
   */
  class AppStore {
    var repositories: seq<Repository>
    var player: PlayerState
    var searchQuery: string
    var selectedLanguage: Option<string>
    var centeredIndex: int

    ghost predicate Valid()
      reads this
    {
      PlayerInvariant(player) && 0 <= centeredIndex
    }

    constructor ()
      ensures Valid()
      ensures repositories == []
      ensures player == InitialPlayerState()
      ensures searchQuery == "" && selectedLanguage == None
      ensures centeredIndex == 0
    {
      repositories := [];
      player := InitialPlayerState();
      searchQuery := "";
      selectedLanguage := None;
      centeredIndex := 0;
    }
  }

  /**
   * The updater that selecting a track applies (`openPlayer`, `handleAlbumClick`):
   * show the player, start playing from the beginning of the chosen index.
   */
  function StartPlaying(prev: PlayerState, index: int): (next: PlayerState)
    ensures next.isPlaying && next.isVisible && next.currentTime == 0
    ensures next.currentRepoIndex == index && next.totalTime == prev.totalTime
    ensures PlayerInvariant(prev) && index >= 0 ==> PlayerInvariant(next)
  {
    prev.(currentRepoIndex := index, isVisible := true, isPlaying := true, currentTime := 0)
  }

  /** Selecting forgets everything about the prior state except the duration. */
  lemma StartPlayingForgetsPrior(p: PlayerState, q: PlayerState, index: int)
    requires p.totalTime == q.totalTime
    ensures StartPlaying(p, index) == StartPlaying(q, index)
  {
  }
}
