/**
 * components/search-filter.tsx: the distinct-language list offered as filter
 * buttons, and the writes its input and buttons make to the shared store.
 */
module SearchFilter {
  import opened Wrappers
  import opened Sequences
  import opened Store

  /** Some repository of `repos` has language `l`. */
  predicate HasLanguage(repos: seq<Repository>, l: string) {
    exists i :: 0 <= i < |repos| && repos[i].language == l
  }

  /**
   * `Array.from(new Set(repositories.map(r => r.language).filter(Boolean)))`:
   * the truthy languages, each once, in order of first occurrence (a Set
   * iterates in insertion order).
   */
  function Languages(repos: seq<Repository>): (r: seq<string>)
    ensures NoDuplicates(r)
    ensures "" !in r
    ensures forall l :: l in r <==> l != "" && HasLanguage(repos, l)
  {
    if repos == [] then []
    else
      var init := repos[..|repos| - 1];
      var prev := Languages(init);
      var l := repos[|repos| - 1].language;
      assert forall m :: HasLanguage(init, m) ==> HasLanguage(repos, m) by {
        forall m | HasLanguage(init, m) ensures HasLanguage(repos, m) {
          var i :| 0 <= i < |init| && init[i].language == m;
          assert repos[i] == init[i];
        }
      }
      assert forall m :: HasLanguage(repos, m) ==> HasLanguage(init, m) || m == l by {
        forall m | HasLanguage(repos, m) ensures HasLanguage(init, m) || m == l {
          var i :| 0 <= i < |repos| && repos[i].language == m;
          if i < |init| { assert init[i] == repos[i]; }
        }
      }
      if l == "" || l in prev then prev else prev + [l]
  }

  /** Appending a repository appends its language, unless it is empty or already listed. */
  lemma LanguagesSnoc(repos: seq<Repository>, repo: Repository)
    ensures Languages(repos + [repo])
         == if repo.language == "" || repo.language in Languages(repos) then Languages(repos)
            else Languages(repos) + [repo.language]
  {
    assert (repos + [repo])[..|repos|] == repos;
  }

  /** Index of the first repository whose language is `l`. */
  function FirstWithLanguage(repos: seq<Repository>, l: string): (i: nat)
    requires HasLanguage(repos, l)
    ensures i < |repos| && repos[i].language == l
    ensures forall j :: 0 <= j < i ==> repos[j].language != l
  {
    if repos[0].language == l then 0
    else
      assert HasLanguage(repos[1..], l) by {
        var k :| 0 <= k < |repos| && repos[k].language == l;
        assert repos[1..][k - 1] == repos[k];
      }
      1 + FirstWithLanguage(repos[1..], l)
  }

  /** The language list is in order of first occurrence in the repository list. */
  lemma {:induction false} LanguagesInFirstOccurrenceOrder(repos: seq<Repository>, i: nat, j: nat)
    requires i < j < |Languages(repos)|
    ensures HasLanguage(repos, Languages(repos)[i]) && HasLanguage(repos, Languages(repos)[j])
    ensures FirstWithLanguage(repos, Languages(repos)[i]) < FirstWithLanguage(repos, Languages(repos)[j])
  {
    var r := Languages(repos);
    assert r[i] in r && r[j] in r;
    var init := repos[..|repos| - 1];
    var prev := Languages(init);
    var last := |repos| - 1;
    FirstInPrefix(repos, init, r[i]);
    FirstInPrefix(repos, init, r[j]);
    if j < |prev| {
      assert r[i] == prev[i] && r[j] == prev[j];
      LanguagesInFirstOccurrenceOrder(init, i, j);
    } else {
      // r[j] is the language of the last repository, seen for the first time
      assert r == prev + [repos[last].language] && r[j] == repos[last].language;
      assert r[j] !in prev;
      assert !HasLanguage(init, r[j]);
      assert r[i] == prev[i] && prev[i] in prev;
      assert HasLanguage(init, r[i]);
    }
  }

  /** Where `init` is `repos` without its last element, first occurrences found in `init` stay. */
  lemma FirstInPrefix(repos: seq<Repository>, init: seq<Repository>, l: string)
    requires repos != [] && init == repos[..|repos| - 1]
    requires HasLanguage(repos, l)
    ensures HasLanguage(init, l) ==> FirstWithLanguage(repos, l) == FirstWithLanguage(init, l)
    ensures !HasLanguage(init, l) ==> FirstWithLanguage(repos, l) == |repos| - 1
  {
    var f := FirstWithLanguage(repos, l);
    if HasLanguage(init, l) {
      var g := FirstWithLanguage(init, l);
      assert repos[g] == init[g];
    }
  }

  /** "All" clears the selected language. */
  method SelectAll(s: AppStore)
    modifies s`selectedLanguage
    ensures s.selectedLanguage == None
  {
    s.selectedLanguage := None;
  }

  /** A language button selects exactly that language. */
  method SelectLanguage(s: AppStore, language: string)
    modifies s`selectedLanguage
    ensures s.selectedLanguage == Some(language)
  {
    s.selectedLanguage := Some(language);
  }

  /** The search box writes its text into the shared query. */
  method SetSearchQuery(s: AppStore, query: string)
    modifies s`searchQuery
    ensures s.searchQuery == query
  {
    s.searchQuery := query;
  }
}
