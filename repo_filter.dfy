/**
 * The search-and-language filter that the music player, the carousel, the
 * album grid and the home page each compute from the repository list with the
 * same expression.
 */
module RepoFilter {
  import opened Wrappers
  import opened Text
  import opened Sequences
  import opened Store

  /** `selectedLanguage` is truthy: present and not the empty string. */
  predicate LanguageSelected(selected: Option<string>) {
    selected.Some? && selected.value != ""
  }

  /** Name or description contains the query, both lower-cased. */
  predicate MatchesSearch(repo: Repository, query: string) {
    Contains(ToLower(repo.name), ToLower(query)) || Contains(ToLower(repo.description), ToLower(query))
  }

  /** No language selected, or the repository's language equals the selected one exactly. */
  predicate MatchesLanguage(repo: Repository, selected: Option<string>) {
    !LanguageSelected(selected) || repo.language == selected.value
  }

  predicate Matches(repo: Repository, query: string, selected: Option<string>) {
    MatchesSearch(repo, query) && MatchesLanguage(repo, selected)
  }

  /**
   * `repositories.filter(...)`: exactly the matching repositories, each as
   * often as in the input, in their original order.
   */
  function FilterRepos(repos: seq<Repository>, query: string, selected: Option<string>): (r: seq<Repository>)
    ensures forall x :: x in r <==> x in repos && Matches(x, query, selected)
    ensures forall x :: multiset(r)[x] == if Matches(x, query, selected) then multiset(repos)[x] else 0
    ensures IsSubsequence(r, repos)
  {
    FilterCounts(repos, repo => Matches(repo, query, selected));
    Filter(repos, repo => Matches(repo, query, selected))
  }

  /** The filtered list of the shared store, as each component derives it. */
  function Filtered(s: AppStore): (r: seq<Repository>)
    reads s
    ensures forall x :: x in r <==> x in s.repositories && Matches(x, s.searchQuery, s.selectedLanguage)
    ensures IsSubsequence(r, s.repositories)
  {
    FilterRepos(s.repositories, s.searchQuery, s.selectedLanguage)
  }

  /** With an empty query and no language selected the filter keeps every repository. */
  lemma KeepsAllWhenUnfiltered(repos: seq<Repository>)
    ensures FilterRepos(repos, "", None) == repos
  {
    forall x | x in repos ensures Matches(x, "", None) {
      ContainsEmpty(ToLower(x.name));
    }
    FilterKeepsAll(repos, repo => Matches(repo, "", None));
  }

  /** The filter ignores the case of the query. */
  lemma FilterIgnoresQueryCase(repos: seq<Repository>, query: string, selected: Option<string>)
    ensures FilterRepos(repos, query, selected) == FilterRepos(repos, ToLower(query), selected)
  {
    LowerIdempotent(query);
    FilterAgreeing(repos, repo => Matches(repo, query, selected), repo => Matches(repo, ToLower(query), selected));
  }

  /** Selecting a language narrows the list to a subsequence of the unnarrowed result. */
  lemma LanguageNarrows(repos: seq<Repository>, query: string, language: string)
    ensures IsSubsequence(FilterRepos(repos, query, Some(language)), FilterRepos(repos, query, None))
  {
    FilterStronger(repos, repo => Matches(repo, query, Some(language)), repo => Matches(repo, query, None));
  }
}
