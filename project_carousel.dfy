/**
 * components/project-carousel.tsx: the swipeable carousel. Swipes, drags and
 * arrow keys step the shared centered index within the filtered list; Enter
 * and space open the player on the centered track.
 */
module ProjectCarousel {
  import opened Wrappers
  import opened Js
  import opened Store
  import opened RepoFilter
  import opened Text

  /** `'left'` moves to the next card, `'right'` to the previous one. */
  datatype Direction = Left | Right

  /** What `handleSwipe(direction)` makes of the centered index over a list of length `len`. */
  function SwipeTarget(direction: Direction, centered: int, len: int): (r: int)
    ensures direction == Left && centered < len - 1 ==> r == centered + 1
    ensures direction == Right && centered > 0 ==> r == centered - 1
    ensures r == centered || r == centered + 1 || r == centered - 1
    ensures r != centered <==> (direction == Left && centered < len - 1) || (direction == Right && centered > 0)
    ensures 0 <= centered < len ==> 0 <= r < len
    ensures 0 <= centered ==> 0 <= r
  {
    if direction == Left && centered < len - 1 then centered + 1
    else if direction == Right && centered > 0 then centered - 1
    else centered
  }

  /** Drags shorter than this many pixels either way are ignored. */
  const SwipeThreshold: real := 50.0

  /** `handleDragEnd`: a drag to the right beyond the threshold is a `'right'` swipe, to the left a `'left'` one. */
  function DragDirection(offsetX: real): (d: Option<Direction>)
    ensures d == Some(Right) <==> offsetX > SwipeThreshold
    ensures d == Some(Left) <==> offsetX < -SwipeThreshold
    ensures d == None <==> -SwipeThreshold <= offsetX <= SwipeThreshold
  {
    if offsetX > SwipeThreshold then Some(Right)
    else if offsetX < -SwipeThreshold then Some(Left)
    else None
  }

  /** What a key press does while the carousel is mounted. */
  datatype KeyAction = Swipe(direction: Direction) | OpenPlayerAction

  /** `handleKeyDown`: ArrowLeft shows the previous card, ArrowRight the next, Enter and space open the player. */
  function KeyToAction(key: string): (a: Option<KeyAction>)
    ensures key == "ArrowLeft" <==> a == Some(Swipe(Right))
    ensures key == "ArrowRight" <==> a == Some(Swipe(Left))
    ensures key == "Enter" || key == " " <==> a == Some(OpenPlayerAction)
  {
    if key == "ArrowLeft" then Some(Swipe(Right))
    else if key == "ArrowRight" then Some(Swipe(Left))
    else if key == "Enter" || key == " " then Some(OpenPlayerAction)
    else None
  }

  /** What the carousel renders: the empty state, the centered card, or a failing render. */
  datatype CarouselView = NoTracks | Centered(repo: Repository) | RenderFault

  /**
   * An empty filtered list shows "No tracks found" and touches no element;
   * otherwise `filteredRepos[centeredIndex]` is dereferenced, which throws
   * when the centered index lies outside the (possibly narrowed) list.
   */
  function View(filtered: seq<Repository>, centered: int): (v: CarouselView)
    ensures v == NoTracks <==> |filtered| == 0
    ensures v.Centered? <==> 0 <= centered < |filtered|
    ensures v.Centered? ==> v.repo == filtered[centered]
  {
    if |filtered| == 0 then NoTracks
    else match ElementAt(filtered, centered)
      case Some(repo) => Centered(repo)
      case None => RenderFault
  }

  /**
   * The query and language setters leave the centered index as it is, so
   * once a filter narrows the store's list to the centered index or below,
   * the view fails.
   */
  lemma NarrowedFilterFaults(s: AppStore)
    requires 0 < |Filtered(s)| <= s.centeredIndex
    ensures View(Filtered(s), s.centeredIndex) == RenderFault
  {
  }

  /** Such a narrowing exists: selecting a language shrinks two cards to one, and index 1 then fails. */
  lemma LanguageFilterNarrows()
    ensures exists a: Repository, b: Repository ::
      View(FilterRepos([a, b], "", None), 1).Centered?
      && View(FilterRepos([a, b], "", Some(a.language)), 1) == RenderFault
  {
    var a := Repository(1, "a", "o/a", "", "", 0, 0, "Go", [], None, None);
    var b := Repository(2, "b", "o/b", "", "", 0, 0, "Rust", [], None, None);
    KeepsAllWhenUnfiltered([a, b]);
    var r := FilterRepos([a, b], "", Some("Go"));
    ContainsEmpty(ToLower(a.name));
    assert Matches(a, "", Some("Go")) && !Matches(b, "", Some("Go"));
    assert multiset(r) == multiset{a};
    assert |r| == |multiset(r)| == 1;
  }

  /** `handleSwipe`: steps the centered index within the filtered list. */
  method HandleSwipe(s: AppStore, direction: Direction)
    modifies s`centeredIndex
    ensures s.centeredIndex == SwipeTarget(direction, old(s.centeredIndex), |Filtered(s)|)
    ensures old(s.Valid()) ==> s.Valid()
  {
    var len := |Filtered(s)|;
    if direction == Left && s.centeredIndex < len - 1 {
      s.centeredIndex := s.centeredIndex + 1;
    } else if direction == Right && s.centeredIndex > 0 {
      s.centeredIndex := s.centeredIndex - 1;
    }
  }

  /** `handleDragEnd`: a long enough drag swipes; a short one changes nothing. */
  method HandleDragEnd(s: AppStore, offsetX: real)
    modifies s`centeredIndex
    ensures DragDirection(offsetX).Some? ==>
      s.centeredIndex == SwipeTarget(DragDirection(offsetX).value, old(s.centeredIndex), |Filtered(s)|)
    ensures DragDirection(offsetX).None? ==> s.centeredIndex == old(s.centeredIndex)
    ensures old(s.Valid()) ==> s.Valid()
  {
    if offsetX > SwipeThreshold {
      HandleSwipe(s, Right);
    } else if offsetX < -SwipeThreshold {
      HandleSwipe(s, Left);
    }
  }

  /** `openPlayer`: shows the player, playing the centered track from time 0. */
  method OpenPlayer(s: AppStore)
    modifies s`player
    ensures s.player == StartPlaying(old(s.player), s.centeredIndex)
    ensures old(s.Valid()) ==> s.Valid()
  {
    s.player := StartPlaying(s.player, s.centeredIndex);
  }

  /** The key handler: arrows swipe, Enter and space open the player, other keys do nothing. */
  method HandleKeyDown(s: AppStore, key: string)
    modifies s`centeredIndex, s`player
    ensures KeyToAction(key) == Some(OpenPlayerAction) ==>
      s.player == StartPlaying(old(s.player), s.centeredIndex) && s.centeredIndex == old(s.centeredIndex)
    ensures KeyToAction(key).Some? && KeyToAction(key).value.Swipe? ==>
      s.centeredIndex == SwipeTarget(KeyToAction(key).value.direction, old(s.centeredIndex), |Filtered(s)|)
      && s.player == old(s.player)
    ensures KeyToAction(key).None? ==> s.centeredIndex == old(s.centeredIndex) && s.player == old(s.player)
    ensures old(s.Valid()) ==> s.Valid()
  {
    if key == "ArrowLeft" {
      HandleSwipe(s, Right);
    } else if key == "ArrowRight" {
      HandleSwipe(s, Left);
    } else if key == "Enter" || key == " " {
      OpenPlayer(s);
    }
  }
}
