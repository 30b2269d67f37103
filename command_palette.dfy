/**
 * components/command-palette.tsx: the lists the palette derives from the
 * repositories (recent, popular, grouped by language, search results), the
 * ranking of the language groups, and the palette's own state changes.
 */
module CommandPalette {
  import opened Wrappers
  import opened Text
  import opened Sequences
  import opened Store
  import opened RepoFilter
  import opened SearchFilter

  const RecentLimit: nat := 5
  const PopularLimit: nat := 5
  /** A repository is "popular" with strictly more stars than this. */
  const PopularStars: int := 10
  const LanguageGroupLimit: nat := 6

  function Min(a: nat, b: nat): nat {
    if a < b then a else b
  }

  /** `s.slice(0, n)`: the first `n` elements, or all of them when there are fewer. */
  function Take<T>(s: seq<T>, n: nat): (r: seq<T>)
    ensures r <= s
    ensures |r| == Min(|s|, n)
  {
    if |s| <= n then s else s[..n]
  }

  /** "Recent Projects": the first five repositories of the list. */
  function RecentRepos(repos: seq<Repository>): (r: seq<Repository>)
    ensures r <= repos
    ensures |r| == Min(|repos|, RecentLimit)
  {
    Take(repos, RecentLimit)
  }

  predicate IsPopular(repo: Repository) {
    repo.stargazersCount > PopularStars
  }

  /** The repositories with more than ten stars, in list order. */
  function PopularRepos(repos: seq<Repository>): (r: seq<Repository>)
    ensures forall x :: x in r <==> x in repos && IsPopular(x)
    ensures IsSubsequence(r, repos)
  {
    Filter(repos, IsPopular)
  }

  /**
   * "Popular Projects": the first five repositories with more than ten stars;
   * fewer only when fewer such repositories exist.
   */
  function StarredRepos(repos: seq<Repository>): (r: seq<Repository>)
    ensures |r| <= PopularLimit
    ensures forall x :: x in r ==> x in repos && x.stargazersCount > PopularStars
    ensures IsSubsequence(r, repos)
    ensures r <= PopularRepos(repos)
    ensures |r| == Min(|PopularRepos(repos)|, PopularLimit)
  {
    var popular := PopularRepos(repos);
    SubsequencePrefix(popular, repos, |Take(popular, PopularLimit)|);
    Take(popular, PopularLimit)
  }

  /** The repositories of one language, in list order: the array the reduce builds for that key. */
  function Group(repos: seq<Repository>, l: string): (r: seq<Repository>)
    ensures forall x :: x in r <==> x in repos && x.language == l
    ensures IsSubsequence(r, repos)
  {
    Filter(repos, (repo: Repository) => repo.language == l)
  }

  /** A group gains the next repository exactly when it has that group's language. */
  lemma GroupAppend(repos: seq<Repository>, x: Repository, l: string)
    ensures Group(repos + [x], l) == Group(repos, l) + (if x.language == l then [x] else [])
  {
    FilterAppend(repos, [x], (repo: Repository) => repo.language == l);
    assert [x][1..] == [];
  }

  /** The group of a present language is non-empty and starts with the first repository of that language. */
  lemma {:induction false} GroupHead(repos: seq<Repository>, l: string)
    requires HasLanguage(repos, l)
    ensures Group(repos, l) != []
    ensures Group(repos, l)[0] == repos[FirstWithLanguage(repos, l)]
  {
    assert repos == [repos[0]] + repos[1..];
    FilterCons(repos[0], repos[1..], (repo: Repository) => repo.language == l);
    if repos[0].language != l {
      var k :| 0 <= k < |repos| && repos[k].language == l;
      assert repos[1..][k - 1] == repos[k];
      GroupHead(repos[1..], l);
    }
  }

  /**
   * The `reduce` over the repositories (lines 31-36): walks the list once,
   * skipping repositories without a language, creating a key the first time
   * a language is met and appending the repository to its array. `keys` is
   * the key insertion order, the order `Object.entries` yields them in.
   */
  method LanguageGroups(repos: seq<Repository>) returns (keys: seq<string>, groups: map<string, seq<Repository>>)
    ensures keys == Languages(repos)
    ensures forall l :: l in groups <==> l in keys
    ensures forall l :: l in groups ==> groups[l] == Group(repos, l) && groups[l] != []
  {
    keys, groups := [], map[];
    var i := 0;
    while i < |repos|
      invariant 0 <= i <= |repos|
      invariant GroupsOf(repos[..i], keys, groups)
    {
      var repo := repos[i];
      ghost var keys0, groups0 := keys, groups;
      if repo.language != "" {
        var current := [];
        if repo.language in groups {
          current := groups[repo.language];
        } else {
          keys := keys + [repo.language];
        }
        groups := groups[repo.language := current + [repo]];
      }
      TakeSnoc(repos, i);
      GroupsStep(repos[..i], repo, repos[..i + 1], keys0, groups0, keys, groups);
      i := i + 1;
    }
    assert repos[..i] == repos;
    forall l | l in groups ensures groups[l] != [] {
      GroupHead(repos, l);
    }
  }

  /** `keys` and `groups` are the grouping of `prefix`. */
  ghost predicate GroupsOf(prefix: seq<Repository>, keys: seq<string>, groups: map<string, seq<Repository>>) {
    && keys == Languages(prefix)
    && (forall l :: l in groups <==> l in keys)
    && (forall l :: l in groups ==> groups[l] == Group(prefix, l))
  }

  /** One step of the reduce turns the grouping of `prefix` into that of `prefix + [repo]`. */
  lemma GroupsStep(prefix: seq<Repository>, repo: Repository, next: seq<Repository>,
                   keys: seq<string>, groups: map<string, seq<Repository>>,
                   keys': seq<string>, groups': map<string, seq<Repository>>)
    requires GroupsOf(prefix, keys, groups) && next == prefix + [repo]
    requires repo.language == "" ==> keys' == keys && groups' == groups
    requires repo.language != "" && repo.language !in groups ==>
      keys' == keys + [repo.language] && groups' == groups[repo.language := [] + [repo]]
    requires repo.language != "" && repo.language in groups ==>
      keys' == keys && groups' == groups[repo.language := groups[repo.language] + [repo]]
    ensures GroupsOf(next, keys', groups')
  {
    var lang := repo.language;
    LanguagesSnoc(prefix, repo);
    if lang != "" && lang !in groups {
      assert Group(prefix, lang) == [];
    }
    forall l | l in groups' ensures groups'[l] == Group(next, l) {
      GroupAppend(prefix, repo, l);
    }
  }

  /** A language and its array, as `Object.entries` yields them. */
  type Entry = (string, seq<Repository>)

  function Size(e: Entry): nat {
    |e.1|
  }

  /** The entries of the grouping, in key insertion order. */
  function Entries(repos: seq<Repository>): (r: seq<Entry>)
    ensures |r| == |Languages(repos)|
    ensures forall i :: 0 <= i < |r| ==> r[i].0 == Languages(repos)[i] && r[i].1 == Group(repos, r[i].0)
  {
    var keys := Languages(repos);
    seq(|keys|, i requires 0 <= i < |keys| => (keys[i], Group(repos, keys[i])))
  }

  /** Each entry is at least as large as the next. */
  predicate SortedBySizeDesc(s: seq<Entry>) {
    forall i :: 0 <= i < |s| - 1 ==> Size(s[i]) >= Size(s[i + 1])
  }

  /** In a sorted sequence every entry is at least as large as every later one. */
  lemma {:induction false} SortedPairwise(s: seq<Entry>, i: nat, j: nat)
    requires SortedBySizeDesc(s) && i <= j < |s|
    ensures Size(s[i]) >= Size(s[j])
    decreases j - i
  {
    if i < j {
      SortedPairwise(s, i + 1, j);
    }
  }

  /** Inserts `e` in front of the first entry no larger than it. */
  function InsertBySize(e: Entry, t: seq<Entry>): (r: seq<Entry>)
    ensures multiset(r) == multiset(t) + multiset{e}
    ensures |r| == |t| + 1
    ensures r[0] == e || (t != [] && r[0] == t[0])
  {
    if t == [] || Size(t[0]) <= Size(e) then [e] + t
    else
      assert t == [t[0]] + t[1..];
      [t[0]] + InsertBySize(e, t[1..])
  }

  /** Insertion into a sorted sequence keeps it sorted. */
  lemma {:induction false} InsertSorted(e: Entry, t: seq<Entry>)
    requires SortedBySizeDesc(t)
    ensures SortedBySizeDesc(InsertBySize(e, t))
  {
    if t != [] && Size(t[0]) > Size(e) {
      var rest := InsertBySize(e, t[1..]);
      InsertSorted(e, t[1..]);
      var r := [t[0]] + rest;
      assert Size(r[0]) >= Size(r[1]) by {
        if rest[0] != e {
          assert rest[0] == t[1];
        }
      }
      forall i | 1 <= i < |r| - 1 ensures Size(r[i]) >= Size(r[i + 1]) {
        assert r[i] == rest[i - 1] && r[i + 1] == rest[i];
      }
    }
  }

  /**
   * `.sort(([, a], [, b]) => b.length - a.length)`: the entries by decreasing
   * group size; `Array.prototype.sort` is stable, so equal sizes keep their
   * key order (see `SortKeepsTies`).
   */
  function SortBySize(s: seq<Entry>): (r: seq<Entry>)
    ensures multiset(r) == multiset(s)
    ensures |r| == |s|
    ensures SortedBySizeDesc(r)
  {
    if s == [] then []
    else
      assert s == [s[0]] + s[1..];
      InsertSorted(s[0], SortBySize(s[1..]));
      InsertBySize(s[0], SortBySize(s[1..]))
  }

  /** Insertion moves `e` only past strictly larger entries, so among entries of one size it comes first. */
  lemma {:induction false} InsertKeepsTies(e: Entry, t: seq<Entry>, n: nat)
    ensures Filter(InsertBySize(e, t), x => Size(x) == n)
         == (if Size(e) == n then [e] else []) + Filter(t, x => Size(x) == n)
  {
    var p := (x: Entry) => Size(x) == n;
    if t == [] || Size(t[0]) <= Size(e) {
      FilterCons(e, t, p);
    } else {
      var rest := InsertBySize(e, t[1..]);
      var head := if p(t[0]) then [t[0]] else [];
      assert InsertBySize(e, t) == [t[0]] + rest;
      assert [t[0]] + t[1..] == t;
      InsertKeepsTies(e, t[1..], n);
      FilterCons(t[0], rest, p);
      FilterCons(t[0], t[1..], p);
      if Size(e) == n {
        calc {
          Filter(InsertBySize(e, t), p);
          head + Filter(rest, p);
          { assert head == []; }
          Filter(rest, p);
          [e] + Filter(t[1..], p);
          [e] + (head + Filter(t[1..], p));
        }
      } else {
        calc {
          Filter(InsertBySize(e, t), p);
          head + Filter(rest, p);
          head + Filter(t[1..], p);
          { assert [] + Filter(t, p) == Filter(t, p); }
          [] + Filter(t, p);
        }
      }
    }
  }

  /** Stability: for every size, the entries of that size keep their original relative order. */
  lemma {:induction false} SortKeepsTies(s: seq<Entry>, n: nat)
    ensures Filter(SortBySize(s), x => Size(x) == n) == Filter(s, x => Size(x) == n)
  {
    if s != [] {
      SortKeepsTies(s[1..], n);
      InsertKeepsTies(s[0], SortBySize(s[1..]), n);
    }
  }

  /** "Browse by Language": the six largest language groups, largest first. */
  function RankedGroups(repos: seq<Repository>): (r: seq<Entry>)
    ensures |r| == Min(|Languages(repos)|, LanguageGroupLimit)
    ensures r <= SortBySize(Entries(repos))
  {
    Take(SortBySize(Entries(repos)), LanguageGroupLimit)
  }

  /** No language left out of the ranking has a larger group than one shown. */
  lemma RankedAreLargest(repos: seq<Repository>, shown: Entry, hidden: Entry)
    requires shown in RankedGroups(repos)
    requires hidden in Entries(repos) && hidden !in RankedGroups(repos)
    ensures Size(shown) >= Size(hidden)
  {
    var sorted := SortBySize(Entries(repos));
    var r := RankedGroups(repos);
    assert hidden in multiset(sorted);
    var j :| 0 <= j < |sorted| && sorted[j] == hidden;
    var i :| 0 <= i < |r| && r[i] == shown;
    assert sorted[i] == shown;
    if j >= |r| {
      SortedPairwise(sorted, i, j);
    }
  }

  /** Every ranked entry names a listed language, with its whole non-empty group. */
  lemma RankedGroupsAreGroups(repos: seq<Repository>, e: Entry)
    requires e in RankedGroups(repos)
    ensures e.0 in Languages(repos)
    ensures e.1 == Group(repos, e.0) && e.1 != []
  {
    var sorted := SortBySize(Entries(repos));
    assert e in sorted;
    assert e in multiset(Entries(repos));
    GroupHead(repos, e.0);
  }

  /** The palette's search: name, description or language contains the query, ignoring case. */
  predicate PaletteMatches(repo: Repository, query: string) {
    var q := ToLower(query);
    Contains(ToLower(repo.name), q) || Contains(ToLower(repo.description), q)
    || Contains(ToLower(repo.language), q)
  }

  /** "Search Results": the matching repositories, in list order. */
  function PaletteSearch(repos: seq<Repository>, query: string): (r: seq<Repository>)
    ensures forall x :: x in r <==> x in repos && PaletteMatches(x, query)
    ensures IsSubsequence(r, repos)
  {
    Filter(repos, repo => PaletteMatches(repo, query))
  }

  /** Every repository the page's own search keeps, the palette's search keeps too, in the same order. */
  lemma PaletteFindsAllPageMatches(repos: seq<Repository>, query: string)
    ensures IsSubsequence(FilterRepos(repos, query, None), PaletteSearch(repos, query))
  {
    FilterStronger(repos, repo => Matches(repo, query, None), repo => PaletteMatches(repo, query));
  }

  /** The converse fails: the palette also matches on the language, which the page's search does not. */
  lemma PaletteAlsoMatchesLanguage()
    ensures exists repo: Repository, query: string ::
      repo in PaletteSearch([repo], query) && repo !in FilterRepos([repo], query, None)
  {
    var repo := Repository(1, "a", "b/a", "c", "", 0, 0, "Python", [], None, None);
    var query := "py";
    assert Contains(ToLower(repo.language), ToLower(query)) by {
      assert ToLower(query) <= ToLower(repo.language);
    }
    assert !Contains(ToLower(repo.name), ToLower(query)) by {
      assert ToLower(repo.name) == "a";
      assert ToLower(query) == "py";
      assert ToLower(repo.name)[1..] == [];
    }
    assert !Contains(ToLower(repo.description), ToLower(query)) by {
      assert ToLower(repo.description) == "c";
      assert ToLower(repo.description)[1..] == [];
    }
    assert repo in PaletteSearch([repo], query);
    assert repo !in FilterRepos([repo], query, None);
  }

  /** What the palette lists: the browsing sections with an empty query, the search results otherwise. */
  datatype PaletteView =
    | Browse(recent: seq<Repository>, popular: seq<Repository>, languages: seq<Entry>)
    | SearchResults(results: seq<Repository>)

  function View(repos: seq<Repository>, query: string): (v: PaletteView)
    ensures v.Browse? <==> query == ""
    ensures v.Browse? ==> v.recent == RecentRepos(repos) && v.popular == StarredRepos(repos) && v.languages == RankedGroups(repos)
    ensures v.SearchResults? ==> v.results == PaletteSearch(repos, query)
    ensures v.SearchResults? ==> forall x :: x in v.results <==> x in repos && PaletteMatches(x, query)
  {
    if query == "" then Browse(RecentRepos(repos), StarredRepos(repos), RankedGroups(repos))
    else SearchResults(PaletteSearch(repos, query))
  }

  /**
   * The palette's own state: whether it is open (a property its owner sets
   * through `onOpenChange`), its query, and the projects handed to
   * `onSelectProject`, oldest first.
   */
  class Palette {
    var open: bool
    var searchQuery: string
    var selected: seq<Repository>

    constructor (open: bool)
      ensures this.open == open && searchQuery == "" && selected == []
    {
      this.open := open;
      searchQuery := "";
      selected := [];
    }

    /** The input writes its text into the query. */
    method SetSearchQuery(query: string)
      modifies this`searchQuery
      ensures searchQuery == query
    {
      searchQuery := query;
    }

    /** `handleSelect`: hand the project to the owner and ask for the dialog to close. */
    method HandleSelect(repo: Repository)
      modifies this`selected, this`open
      ensures selected == old(selected) + [repo]
      ensures !open
    {
      selected := selected + [repo];
      open := false;
    }

    /** A language entry selects the first repository of its group. */
    method SelectLanguageEntry(repos: seq<Repository>, e: Entry)
      requires e in RankedGroups(repos)
      modifies this`selected, this`open
      ensures HasLanguage(repos, e.0) && selected == old(selected) + [repos[FirstWithLanguage(repos, e.0)]]
      ensures !open
    {
      RankedGroupsAreGroups(repos, e);
      GroupHead(repos, e.0);
      HandleSelect(e.1[0]);
    }

    /** The effect on `open`: closing the dialog clears the query; opening keeps it. */
    method ResetOnClose()
      modifies this`searchQuery
      ensures !open ==> searchQuery == ""
      ensures open ==> searchQuery == old(searchQuery)
    {
      if !open {
        searchQuery := "";
      }
    }

    /** The owner changes `open`, and the effect runs after the change. */
    method OpenChanged(open: bool)
      modifies this`open, this`searchQuery
      ensures this.open == open
      ensures !open ==> searchQuery == ""
      ensures open ==> searchQuery == old(searchQuery)
    {
      this.open := open;
      ResetOnClose();
    }
  }
}
