/**
 * components/album-grid.tsx: one card per filtered repository; clicking a
 * card opens the player on that card's position in the filtered list.
 */
module AlbumGrid {
  import opened Store
  import opened RepoFilter
  import opened MusicPlayer

  /** The empty state, or the cards with the index each one dispatches when clicked. */
  datatype GridView = EmptyState | Cards(clickIndices: seq<int>)

  /** `filteredRepos.length === 0 ? <empty/> : filteredRepos.map((repo, index) => ... handleAlbumClick(index))`. */
  function View(filtered: seq<Repository>): (v: GridView)
    ensures v == EmptyState <==> |filtered| == 0
    ensures v.Cards? ==> |v.clickIndices| == |filtered|
    ensures v.Cards? ==> forall k :: 0 <= k < |v.clickIndices| ==> v.clickIndices[k] == k
  {
    if |filtered| == 0 then EmptyState else Cards(seq(|filtered|, k => k))
  }

  /** Every index a card can dispatch lies inside the filtered list. */
  lemma ClickIndicesInRange(filtered: seq<Repository>, k: int)
    requires View(filtered).Cards? && k in View(filtered).clickIndices
    ensures 0 <= k < |filtered|
  {
  }

  /** `handleAlbumClick(index)`: plays the clicked card from time 0, whatever the prior state. */
  method HandleAlbumClick(s: AppStore, index: int)
    requires View(Filtered(s)).Cards? && index in View(Filtered(s)).clickIndices
    modifies s`player
    ensures s.player == StartPlaying(old(s.player), index)
    ensures 0 <= s.player.currentRepoIndex < |Filtered(s)|
    ensures old(s.Valid()) ==> s.Valid()
  {
    ClickIndicesInRange(Filtered(s), index);
    s.player := StartPlaying(s.player, index);
  }

  /**
   * The click writes the clicked index and makes the player visible, so the
   * sync effect that follows moves it to the centered index: the player ends
   * up on the centered card, not on the clicked one.
   */
  lemma ClickIsOverriddenBySync(p: PlayerState, k: int, centered: int)
    ensures Synced(StartPlaying(p, k), centered) == StartPlaying(p, centered)
  {
  }
}
