/**
 * app/page.tsx: the home page keeps its own "now playing" project, play flag
 * and elapsed time (component state, not the shared player record), and reads
 * the shared repository list. Its navigation works on the full, unfiltered
 * list and finds the current project by id.
 */
module Home {
  import opened Wrappers
  import opened Js
  import opened Store
  import opened RepoFilter
  import SearchFilter
  import Sequences

  /**
   * `repositories.findIndex(repo => repo.id === nowPlayingProject?.id)`:
   * the first position holding the current project's id, or -1 (always -1
   * when nothing is playing, since no id equals `undefined`).
   */
  function FindIndexById(repos: seq<Repository>, current: Option<Repository>): (r: int)
    ensures -1 <= r < |repos|
    ensures r == -1 <==> current.None? || forall j :: 0 <= j < |repos| ==> repos[j].id != current.value.id
    ensures r >= 0 ==> repos[r].id == current.value.id && forall j :: 0 <= j < r ==> repos[j].id != current.value.id
  {
    if current.None? || repos == [] then -1
    else if repos[0].id == current.value.id then 0
    else
      var rest := FindIndexById(repos[1..], current);
      assert forall j :: 1 <= j < |repos| ==> repos[j] == repos[1..][j - 1];
      if rest == -1 then -1 else rest + 1
  }

  /**
   * `nextProject`'s choice: `repositories[(idx + 1) % length]`. An unknown
   * current project gives idx -1 and so the first repository; an empty list
   * gives a NaN index and so `undefined`.
   */
  function NextProjectOf(repos: seq<Repository>, current: Option<Repository>): (r: Option<Repository>)
    ensures |repos| == 0 <==> r.None?
    ensures r.Some? ==> r.value in repos
    ensures FindIndexById(repos, current) == -1 && |repos| > 0 ==> r == Some(repos[0])
    ensures 0 <= FindIndexById(repos, current) < |repos| - 1 ==> r == Some(repos[FindIndexById(repos, current) + 1])
    ensures |repos| > 0 && FindIndexById(repos, current) == |repos| - 1 ==> r == Some(repos[0])
  {
    if |repos| == 0 then None
    else
      var idx := FindIndexById(repos, current);
      RemOfSuccessor(idx, |repos|);
      ElementAt(repos, Rem(idx + 1, |repos|))
  }

  /**
   * `prevProject`'s choice: index 0 wraps to the last repository, any other
   * index steps back by one. An unknown current project gives idx -1, hence
   * index -2 and `undefined`.
   */
  function PrevProjectOf(repos: seq<Repository>, current: Option<Repository>): (r: Option<Repository>)
    ensures r.Some? ==> r.value in repos
    ensures FindIndexById(repos, current) == -1 ==> r.None?
    ensures FindIndexById(repos, current) == 0 ==> r == Some(repos[|repos| - 1])
    ensures FindIndexById(repos, current) > 0 ==> r == Some(repos[FindIndexById(repos, current) - 1])
  {
    var idx := FindIndexById(repos, current);
    ElementAt(repos, if idx == 0 then |repos| - 1 else idx - 1)
  }

  /** Repository ids are pairwise distinct. */
  predicate UniqueIds(repos: seq<Repository>) {
    forall i, j :: 0 <= i < j < |repos| ==> repos[i].id != repos[j].id
  }

  /** With distinct ids, looking a listed repository up by id finds its own position. */
  lemma FindIndexOfListed(repos: seq<Repository>, k: int)
    requires UniqueIds(repos) && 0 <= k < |repos|
    ensures FindIndexById(repos, Some(repos[k])) == k
  {
  }

  /** With distinct ids, previous after next (and next after previous) comes back to the listed project. */
  lemma NextPrevRoundTrip(repos: seq<Repository>, k: int)
    requires UniqueIds(repos) && 0 <= k < |repos|
    ensures PrevProjectOf(repos, NextProjectOf(repos, Some(repos[k]))) == Some(repos[k])
    ensures NextProjectOf(repos, PrevProjectOf(repos, Some(repos[k]))) == Some(repos[k])
  {
    var n := |repos|;
    FindIndexOfListed(repos, k);
    var next := if k == n - 1 then 0 else k + 1;
    var prev := if k == 0 then n - 1 else k - 1;
    FindIndexOfListed(repos, next);
    FindIndexOfListed(repos, prev);
  }

  /**
   * The page timer's updater on the elapsed time: reset to 0 once the time is
   * at least the duration, otherwise one second more. It therefore shows the
   * full duration for one tick before resetting.
   */
  function NextTime(prev: int, totalTime: int): (t: int)
    ensures prev >= totalTime ==> t == 0
    ensures prev < totalTime ==> t == prev + 1
    ensures 0 <= prev <= totalTime ==> 0 <= t <= totalTime
  {
    if prev >= totalTime then 0 else prev + 1
  }

  /** Unlike the player's timer, the page's reaches the duration itself before wrapping. */
  lemma PageShowsTotalOnce(totalTime: int)
    requires totalTime > 0
    ensures NextTime(totalTime - 1, totalTime) == totalTime
    ensures NextTime(NextTime(totalTime - 1, totalTime), totalTime) == 0
  {
  }

  class HomePage {
    const store: AppStore
    var nowPlaying: Option<Repository>
    var isPlaying: bool
    var currentTime: int
    const totalTime: nat
    var searchQuery: string
    var selectedLanguage: Option<string>

    ghost predicate Valid()
      reads this
    {
      0 <= currentTime <= totalTime
    }

    constructor (store: AppStore)
      ensures this.store == store
      ensures nowPlaying == None && !isPlaying && currentTime == 0 && totalTime == DefaultTotalTime
      ensures searchQuery == "" && selectedLanguage == None
      ensures Valid()
    {
      this.store := store;
      nowPlaying := None;
      isPlaying := false;
      currentTime := 0;
      totalTime := DefaultTotalTime;
      searchQuery := "";
      selectedLanguage := None;
    }

    /** The page's own filtered list: the same predicate over its own query and language. */
    function Filtered(): (r: seq<Repository>)
      reads this, store
      ensures forall x :: x in r <==> x in store.repositories && Matches(x, searchQuery, selectedLanguage)
      ensures Sequences.IsSubsequence(r, store.repositories)
    {
      FilterRepos(store.repositories, searchQuery, selectedLanguage)
    }

    /** The language buttons of the page: the distinct truthy languages of all repositories. */
    function Languages(): (r: seq<string>)
      reads store
      ensures Sequences.NoDuplicates(r)
      ensures forall l :: l in r <==> l != "" && SearchFilter.HasLanguage(store.repositories, l)
    {
      SearchFilter.Languages(store.repositories)
    }

    /**
     * The load effect, given what the fetch returned: only an empty store is
     * filled, and then the first repository (if any) becomes now-playing.
     */
    method LoadRepositories(fetched: seq<Repository>)
      modifies store`repositories, this`nowPlaying
      ensures old(store.repositories) != [] ==>
        store.repositories == old(store.repositories) && nowPlaying == old(nowPlaying)
      ensures old(store.repositories) == [] ==> store.repositories == fetched
      ensures old(store.repositories) == [] && fetched != [] ==> nowPlaying == Some(fetched[0])
      ensures old(store.repositories) == [] && fetched == [] ==> nowPlaying == old(nowPlaying)
    {
      if |store.repositories| == 0 {
        store.repositories := fetched;
        if |fetched| > 0 {
          nowPlaying := Some(fetched[0]);
        }
      }
    }

    /** One run of the page's interval callback. */
    method Tick()
      modifies this`currentTime, this`nowPlaying
      ensures currentTime == NextTime(old(currentTime), totalTime)
      ensures old(currentTime) >= totalTime ==> nowPlaying == NextProjectOf(store.repositories, old(nowPlaying))
      ensures old(currentTime) < totalTime ==> nowPlaying == old(nowPlaying)
      ensures old(Valid()) ==> Valid()
    {
      if currentTime >= totalTime {
        nowPlaying := NextProjectOf(store.repositories, nowPlaying);
      }
      currentTime := NextTime(currentTime, totalTime);
    }

    /** `handleProjectClick`: plays the clicked project from time 0. */
    method HandleProjectClick(project: Repository)
      modifies this`nowPlaying, this`currentTime, this`isPlaying
      ensures nowPlaying == Some(project) && currentTime == 0 && isPlaying
      ensures Valid()
    {
      nowPlaying := Some(project);
      currentTime := 0;
      isPlaying := true;
    }

    /** `togglePlay`: negates the play flag only. */
    method TogglePlay()
      modifies this`isPlaying
      ensures isPlaying == !old(isPlaying)
    {
      isPlaying := !isPlaying;
    }

    /** `nextProject`: the next repository of the full list from time 0; the play flag is kept. */
    method NextProject()
      modifies this`nowPlaying, this`currentTime
      ensures nowPlaying == NextProjectOf(store.repositories, old(nowPlaying))
      ensures currentTime == 0 && Valid()
    {
      nowPlaying := NextProjectOf(store.repositories, nowPlaying);
      currentTime := 0;
    }

    /** `prevProject`: the previous repository of the full list from time 0; the play flag is kept. */
    method PrevProject()
      modifies this`nowPlaying, this`currentTime
      ensures nowPlaying == PrevProjectOf(store.repositories, old(nowPlaying))
      ensures currentTime == 0 && Valid()
    {
      nowPlaying := PrevProjectOf(store.repositories, nowPlaying);
      currentTime := 0;
    }

    /** The page's search box. */
    method SetSearchQuery(query: string)
      modifies this`searchQuery
      ensures searchQuery == query
    {
      searchQuery := query;
    }

    /** The page's "All" (None) and language buttons. */
    method SetSelectedLanguage(language: Option<string>)
      modifies this`selectedLanguage
      ensures selectedLanguage == language
    {
      selectedLanguage := language;
    }
  }
}
