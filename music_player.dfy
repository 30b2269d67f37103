/**
 * components/music-player.tsx: the full-screen player. Its handlers overwrite
 * the shared player record and centered index; its interval runs the tick
 * updater once a second while playing.
 */
module MusicPlayer {
  import opened Wrappers
  import opened Js
  import opened Store
  import opened RepoFilter

  /** `(i + 1) % len`: the next index, wrapping from the last to the first. */
  function NextIndex(i: int, len: int): (r: int)
    requires len > 0
    ensures 0 <= i ==> 0 <= r < len && r == (i + 1) % len
    ensures 0 <= i < len - 1 ==> r == i + 1
    ensures i == len - 1 ==> r == 0
  {
    Rem(i + 1, len)
  }

  /** `i === 0 ? len - 1 : i - 1`: the previous index, wrapping from the first to the last. */
  function PrevIndex(i: int, len: int): (r: int)
    ensures 0 <= i < len ==> 0 <= r < len
    ensures 0 < i ==> r == i - 1
    ensures i == 0 ==> r == len - 1
  {
    if i == 0 then len - 1 else i - 1
  }

  /** Next then previous, or previous then next, returns to the same index. */
  lemma NextPrevRoundTrip(i: int, len: int)
    requires 0 <= i < len
    ensures PrevIndex(NextIndex(i, len), len) == i
    ensures NextIndex(PrevIndex(i, len), len) == i
  {
  }

  /**
   * The interval's updater: one second more, or, when that reaches the
   * duration, the next index of the filtered list from time 0.
   */
  function TickUpdate(prev: PlayerState, len: int): (next: PlayerState)
    requires len > 0
    ensures next.isPlaying == prev.isPlaying && next.isVisible == prev.isVisible
    ensures next.totalTime == prev.totalTime
    ensures prev.currentTime + 1 < prev.totalTime ==>
      next.currentTime == prev.currentTime + 1 && next.currentRepoIndex == prev.currentRepoIndex
    ensures prev.currentTime + 1 >= prev.totalTime ==>
      next.currentTime == 0 && next.currentRepoIndex == NextIndex(prev.currentRepoIndex, len)
    ensures PlayerInvariant(prev) ==> PlayerInvariant(next)
    ensures 0 <= prev.currentRepoIndex < len ==> 0 <= next.currentRepoIndex < len
  {
    var newTime := prev.currentTime + 1;
    if newTime >= prev.totalTime then
      prev.(currentRepoIndex := NextIndex(prev.currentRepoIndex, len), currentTime := 0)
    else
      prev.(currentTime := newTime)
  }

  /** `k` consecutive ticks over a filtered list of length `len`. */
  function Ticks(p: PlayerState, len: int, k: nat): PlayerState
    requires len > 0
    decreases k
  {
    if k == 0 then p else Ticks(TickUpdate(p, len), len, k - 1)
  }

  /** Before the duration is reached, each tick adds exactly one second and keeps the index. */
  lemma {:induction false} TicksBeforeEnd(p: PlayerState, len: int, k: nat)
    requires len > 0 && 0 <= p.currentTime && k < p.totalTime - p.currentTime
    ensures Ticks(p, len, k) == p.(currentTime := p.currentTime + k)
    decreases k
  {
    if k > 0 {
      TicksBeforeEnd(TickUpdate(p, len), len, k - 1);
    }
  }

  /**
   * The tick that reaches the duration advances the index exactly once and
   * restarts the time: after `totalTime - currentTime` ticks the state is the
   * next track at time 0, everything else unchanged.
   */
  lemma {:induction false} TicksToEnd(p: PlayerState, len: int)
    requires len > 0 && 0 <= p.currentTime < p.totalTime
    ensures Ticks(p, len, p.totalTime - p.currentTime)
         == p.(currentTime := 0, currentRepoIndex := NextIndex(p.currentRepoIndex, len))
    decreases p.totalTime - p.currentTime
  {
    if p.currentTime + 1 < p.totalTime {
      TicksToEnd(TickUpdate(p, len), len);
    }
  }

  /** The player never displays the full duration: a tick from `totalTime - 1` shows 0. */
  lemma TickNeverShowsTotal(p: PlayerState, len: int)
    requires len > 0 && PlayerInvariant(p)
    ensures TickUpdate(p, len).currentTime != p.totalTime
  {
  }

  /** `filteredRepos[currentRepoIndex] || filteredRepos[centeredIndex]`. */
  function CurrentRepo(filtered: seq<Repository>, index: int, centered: int): (r: Option<Repository>)
    ensures r.Some? <==> (0 <= index < |filtered| || 0 <= centered < |filtered|)
    ensures 0 <= index < |filtered| ==> r == Some(filtered[index])
    ensures !(0 <= index < |filtered|) && 0 <= centered < |filtered| ==> r == Some(filtered[centered])
    ensures r.Some? ==> r.value in filtered
  {
    match ElementAt(filtered, index)
    case Some(repo) => Some(repo)
    case None => ElementAt(filtered, centered)
  }

  /** The player renders only when visible and a current repository exists. */
  predicate Shown(s: AppStore)
    reads s
  {
    s.player.isVisible && CurrentRepo(Filtered(s), s.player.currentRepoIndex, s.centeredIndex).Some?
  }

  /** Whenever the player is shown, the filtered list is non-empty. */
  lemma ShownHasTracks(s: AppStore)
    requires Shown(s)
    ensures |Filtered(s)| > 0
  {
  }

  /** One run of the interval callback. */
  method Tick(s: AppStore)
    requires s.Valid() && |Filtered(s)| > 0
    modifies s`player
    ensures s.player == TickUpdate(old(s.player), |Filtered(s)|)
    ensures s.Valid()
  {
    s.player := TickUpdate(s.player, |Filtered(s)|);
  }

  /** `togglePlay`: flips the playing flag only. */
  method TogglePlay(s: AppStore)
    modifies s`player
    ensures s.player == old(s.player).(isPlaying := !old(s.player).isPlaying)
    ensures old(s.Valid()) ==> s.Valid()
  {
    s.player := s.player.(isPlaying := !s.player.isPlaying);
  }

  /** `nextRepo`: next index of the filtered list from time 0; the carousel follows. */
  method NextRepo(s: AppStore)
    requires |Filtered(s)| > 0
    modifies s`player, s`centeredIndex
    ensures s.player == old(s.player).(currentRepoIndex := NextIndex(old(s.player).currentRepoIndex, |Filtered(s)|), currentTime := 0)
    ensures s.centeredIndex == s.player.currentRepoIndex
    ensures old(s.Valid()) ==> s.Valid()
  {
    var nextIndex := NextIndex(s.player.currentRepoIndex, |Filtered(s)|);
    s.player := s.player.(currentRepoIndex := nextIndex, currentTime := 0);
    s.centeredIndex := nextIndex;
  }

  /** `prevRepo`: previous index of the filtered list from time 0; the carousel follows. */
  method PrevRepo(s: AppStore)
    requires |Filtered(s)| > 0
    modifies s`player, s`centeredIndex
    ensures s.player == old(s.player).(currentRepoIndex := PrevIndex(old(s.player).currentRepoIndex, |Filtered(s)|), currentTime := 0)
    ensures s.centeredIndex == s.player.currentRepoIndex
    ensures old(s.Valid()) ==> s.Valid()
  {
    var prevIndex := PrevIndex(s.player.currentRepoIndex, |Filtered(s)|);
    s.player := s.player.(currentRepoIndex := prevIndex, currentTime := 0);
    s.centeredIndex := prevIndex;
  }

  /** `closePlayer`: hides and pauses, nothing else. */
  method ClosePlayer(s: AppStore)
    modifies s`player
    ensures s.player == old(s.player).(isVisible := false, isPlaying := false)
    ensures old(s.Valid()) ==> s.Valid()
  {
    s.player := s.player.(isVisible := false, isPlaying := false);
  }

  /**
   * What the sync effect makes of the player record: a visible player takes
   * the carousel's centered index, a hidden one is left alone.
   */
  function Synced(p: PlayerState, centered: int): (q: PlayerState)
    ensures p.isVisible ==> q == p.(currentRepoIndex := centered)
    ensures !p.isVisible ==> q == p
  {
    if p.isVisible && p.currentRepoIndex != centered then p.(currentRepoIndex := centered) else p
  }

  /**
   * The tick's move to the next index does not survive: the player is visible
   * whenever it plays, so the sync effect that runs after the index changes
   * puts it back on the centered index. On a synced player, a tick followed by
   * the effect only adds a second, or restarts the same track at 0.
   */
  lemma AdvanceUndoneWhileVisible(p: PlayerState, len: int, centered: int)
    requires len > 0 && p.isVisible && p.currentRepoIndex == centered
    ensures Synced(TickUpdate(p, len), centered)
         == if p.currentTime + 1 < p.totalTime then p.(currentTime := p.currentTime + 1) else p.(currentTime := 0)
  {
  }

  /** The sync effect: a visible player follows the carousel's centered index. */
  method SyncWithCentered(s: AppStore)
    modifies s`player
    ensures s.player == Synced(old(s.player), s.centeredIndex)
    ensures old(s.player.isVisible && s.player.currentRepoIndex != s.centeredIndex) ==>
      s.player == old(s.player).(currentRepoIndex := s.centeredIndex)
    ensures !old(s.player.isVisible && s.player.currentRepoIndex != s.centeredIndex) ==>
      s.player == old(s.player)
    ensures s.player.isVisible ==> s.player.currentRepoIndex == s.centeredIndex
    ensures old(s.Valid()) ==> s.Valid()
  {
    if s.player.isVisible && s.player.currentRepoIndex != s.centeredIndex {
      s.player := s.player.(currentRepoIndex := s.centeredIndex);
    }
  }
}
