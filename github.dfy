/**
 * lib/github.ts: loading the repository list. Without a token, or when the
 * list request fails, the built-in fallback list is used; otherwise every
 * listed repository is shaped into the record the views use, with its
 * README text cleaned and shortened and its topics attached. The HTTP
 * requests themselves are replaced by their outcomes, passed in as values.
 */
module GitHub {
  import opened Wrappers
  import opened Sequences
  import opened Store
  import Home

  // ---------------------------------------------------------------------
  // README cleaning (`fetchReadme`)
  // ---------------------------------------------------------------------

  /** The characters `/[#*`]/g` removes. */
  predicate IsMarkup(c: char) {
    c == '#' || c == '*' || c == '`'
  }

  predicate IsNewline(c: char) {
    c == '\n'
  }

  /** The cleaned text is cut to this many characters before the ellipsis. */
  const ReadmeLimit: nat := 500
  const Ellipsis: string := "..."

  /** `.replace(/[#*`]/g, '')`: every other character, in order. */
  function StripMarkup(s: string): (r: string)
    ensures forall c :: c in r <==> c in s && !IsMarkup(c)
    ensures IsSubsequence(r, s)
  {
    Filter(s, c => !IsMarkup(c))
  }

  /** No two newlines in a row. */
  predicate NoBlankRun(s: string) {
    forall i :: 0 <= i < |s| - 1 ==> !(IsNewline(s[i]) && IsNewline(s[i + 1]))
  }

  /**
   * `.replace(/\n+/g, '\n')`: every maximal run of newlines becomes a single
   * newline, i.e. a newline is dropped exactly when another follows it.
   */
  function CollapseNewlines(s: string): (r: string)
    ensures NoBlankRun(r)
    ensures |r| <= |s|
    ensures s != [] ==> r != [] && r[0] == s[0]
    ensures Filter(r, c => !IsNewline(c)) == Filter(s, c => !IsNewline(c))
    ensures '\n' in r <==> '\n' in s
  {
    if s == [] then []
    else
      var rest := CollapseNewlines(s[1..]);
      FilterCons(s[0], s[1..], c => !IsNewline(c));
      assert s == [s[0]] + s[1..];
      if |s| >= 2 && IsNewline(s[0]) && IsNewline(s[1]) then
        rest
      else
        var r := [s[0]] + rest;
        FilterCons(s[0], rest, c => !IsNewline(c));
        assert forall i :: 1 <= i < |r| ==> r[i] == rest[i - 1];
        r
  }

  /** Text without blank runs is left unchanged. */
  lemma {:induction false} CollapseKeepsCleanText(s: string)
    requires NoBlankRun(s)
    ensures CollapseNewlines(s) == s
  {
    if s != [] {
      assert NoBlankRun(s[1..]) by {
        forall i | 0 <= i < |s[1..]| - 1 ensures !(IsNewline(s[1..][i]) && IsNewline(s[1..][i + 1])) {
          assert s[1..][i] == s[i + 1] && s[1..][i + 1] == s[i + 2];
        }
      }
      CollapseKeepsCleanText(s[1..]);
      assert s == [s[0]] + s[1..];
    }
  }

  /** Collapsing twice is collapsing once. */
  lemma CollapseIdempotent(s: string)
    ensures CollapseNewlines(CollapseNewlines(s)) == CollapseNewlines(s)
  {
    CollapseKeepsCleanText(CollapseNewlines(s));
  }

  /** A character other than a newline passes through and the rest is collapsed on its own. */
  lemma CollapseBeforeText(c: char, s: string)
    requires !IsNewline(c)
    ensures CollapseNewlines([c] + s) == [c] + CollapseNewlines(s)
  {
    assert ([c] + s)[1..] == s;
  }

  /**
   * A maximal run of `n` newlines becomes one newline. With
   * `CollapseBeforeText` and the empty case this fixes the result on every
   * text.
   */
  lemma {:induction false} CollapseRun(n: nat, s: string)
    requires n >= 1 && (s == [] || !IsNewline(s[0]))
    ensures CollapseNewlines(seq(n, _ => '\n') + s) == "\n" + CollapseNewlines(s)
  {
    var t := seq(n, _ => '\n') + s;
    assert t[0] == '\n';
    if n == 1 {
      assert t[1..] == s;
    } else {
      assert t[1] == '\n';
      assert t[1..] == seq(n - 1, _ => '\n') + s;
      CollapseRun(n - 1, s);
    }
  }

  /**
   * Removing markup cannot create new text, and neither can collapsing
   * newlines: apart from newlines, the cleaned text is exactly the content
   * without its markup characters and newlines, in order.
   */
  function CleanedText(content: string): (r: string)
    ensures forall c :: c in r ==> c in content && !IsMarkup(c)
    ensures Filter(r, c => !IsNewline(c)) == Filter(content, c => !IsMarkup(c) && !IsNewline(c))
    ensures NoBlankRun(r)
  {
    var stripped := StripMarkup(content);
    var r := CollapseNewlines(stripped);
    FilterTwice(content, c => !IsMarkup(c), c => !IsNewline(c), c => !IsMarkup(c) && !IsNewline(c));
    forall c | c in r ensures c in stripped {
      if c != '\n' {
        var i :| 0 <= i < |r| && r[i] == c;
        assert c in Filter(r, c => !IsNewline(c));
        assert c in Filter(stripped, c => !IsNewline(c));
      }
    }
    r
  }

  /** A prefix of a text without blank runs has none either. */
  lemma PrefixNoBlankRun(s: string, n: nat)
    requires NoBlankRun(s) && n <= |s|
    ensures NoBlankRun(s[..n])
  {
    forall i | 0 <= i < n - 1 ensures !(IsNewline(s[..n][i]) && IsNewline(s[..n][i + 1])) {
      assert s[..n][i] == s[i] && s[..n][i + 1] == s[i + 1];
    }
  }

  /** What every README cleaned from a fetched response satisfies. */
  predicate IsCleanReadme(r: string) {
    |r| >= |Ellipsis| && r[|r| - |Ellipsis|..] == Ellipsis
    && |r| <= ReadmeLimit + |Ellipsis|
    && (forall c :: c in r ==> !IsMarkup(c))
    && NoBlankRun(r)
  }

  /** A short text without markup or blank runs, followed by the ellipsis, is a clean README. */
  lemma EllipsisKeepsClean(kept: string)
    requires |kept| <= ReadmeLimit && NoBlankRun(kept)
    requires forall c :: c in kept ==> !IsMarkup(c)
    ensures IsCleanReadme(kept + Ellipsis)
  {
    var r := kept + Ellipsis;
    assert r[|r| - |Ellipsis|..] == Ellipsis;
    forall c | c in r ensures !IsMarkup(c) {
      var i :| 0 <= i < |r| && r[i] == c;
      if i >= |kept| {
        assert r[i] == Ellipsis[i - |kept|];
      } else {
        assert r[i] == kept[i];
      }
    }
    forall i | 0 <= i < |r| - 1 ensures !(IsNewline(r[i]) && IsNewline(r[i + 1])) {
      if i + 1 < |kept| {
        assert r[i] == kept[i] && r[i + 1] == kept[i + 1];
      } else {
        assert r[i + 1] == Ellipsis[i + 1 - |kept|];
      }
    }
  }

  /**
   * The README text handed to the views: markup removed, newline runs
   * collapsed, cut to the first 500 characters, and "..." appended whether
   * or not anything was cut.
   */
  function CleanReadme(content: string): (r: string)
    ensures IsCleanReadme(r)
    ensures r[..|r| - |Ellipsis|] <= CleanedText(content)
    ensures |r| - |Ellipsis| == if |CleanedText(content)| < ReadmeLimit then |CleanedText(content)| else ReadmeLimit
  {
    var cleaned := CleanedText(content);
    var n := if |cleaned| < ReadmeLimit then |cleaned| else ReadmeLimit;
    var kept := cleaned[..n];
    PrefixNoBlankRun(cleaned, n);
    assert forall c :: c in kept ==> c in cleaned;
    EllipsisKeepsClean(kept);
    assert (kept + Ellipsis)[..|kept|] == kept;
    kept + Ellipsis
  }

  /** A short README without markup or blank runs comes through unchanged, plus the ellipsis. */
  lemma CleanReadmeOfCleanText(content: string)
    requires |content| <= ReadmeLimit && NoBlankRun(content)
    requires forall c :: c in content ==> !IsMarkup(c)
    ensures CleanReadme(content) == content + Ellipsis
  {
    FilterKeepsAll(content, c => !IsMarkup(c));
    CollapseKeepsCleanText(content);
  }

  // ---------------------------------------------------------------------
  // Shaping one repository
  // ---------------------------------------------------------------------

  /** One entry of the GitHub list response; `null` fields are `None`. */
  datatype ApiRepo = ApiRepo(
    id: int,
    name: string,
    fullName: string,
    description: Option<string>,
    htmlUrl: string,
    stargazersCount: int,
    forksCount: int,
    language: Option<string>,
    socialPreview: Option<string>)

  /** The outcome of the README request, with the base64 body already decoded. */
  datatype ReadmeResponse = ReadmeFailed | ReadmeContent(content: string)

  /** The outcome of the topics request; `names` is `None` when the body has no `names`. */
  datatype TopicsResponse = TopicsFailed | TopicsBody(names: Option<seq<string>>)

  /** `fetchReadme`: no README on a failed or thrown request, the cleaned text otherwise. */
  function FetchReadme(response: ReadmeResponse): (r: Option<string>)
    ensures r.None? <==> response.ReadmeFailed?
    ensures r.Some? ==> IsCleanReadme(r.value) && r.value == CleanReadme(response.content)
  {
    match response
    case ReadmeFailed => None
    case ReadmeContent(content) => Some(CleanReadme(content))
  }

  /** `fetchTopics`: the names in the response, or none at all. */
  function FetchTopics(response: TopicsResponse): (r: seq<string>)
    ensures response.TopicsBody? && response.names.Some? ==> r == response.names.value
    ensures response.TopicsFailed? || response.names.None? ==> r == []
  {
    match response
    case TopicsFailed => []
    case TopicsBody(names) => names.GetOr([])
  }

  /** JavaScript's `value || fallback` on an optional string: `null` and `""` are falsy. */
  function OrDefault(value: Option<string>, fallback: string): (r: string)
    ensures value.Some? && value.value != "" ==> r == value.value
    ensures value.None? || value.value == "" ==> r == fallback
  {
    if value.Some? && value.value != "" then value.value else fallback
  }

  const NoDescription: string := "No description available"
  const UnknownLanguage: string := "Unknown"

  /** The fields taken over from the list entry, whatever the detail requests gave. */
  predicate ShapedFrom(r: Repository, api: ApiRepo) {
    r.id == api.id && r.name == api.name && r.fullName == api.fullName
    && r.htmlUrl == api.htmlUrl && r.stargazersCount == api.stargazersCount
    && r.forksCount == api.forksCount && r.socialPreview == api.socialPreview
    && r.description == OrDefault(api.description, NoDescription)
    && r.language == OrDefault(api.language, UnknownLanguage)
  }

  /** The record built when both detail requests settle (lines 316-328). */
  function ShapeRepository(api: ApiRepo, readme: ReadmeResponse, topics: TopicsResponse): (r: Repository)
    ensures ShapedFrom(r, api)
    ensures r.description != "" && r.language != ""
    ensures r.readme == FetchReadme(readme)
    ensures r.readme.Some? ==> IsCleanReadme(r.readme.value)
    ensures r.readme.None? <==> readme.ReadmeFailed?
    ensures r.topics == FetchTopics(topics)
  {
    Repository(api.id, api.name, api.fullName, OrDefault(api.description, NoDescription),
               api.htmlUrl, api.stargazersCount, api.forksCount,
               OrDefault(api.language, UnknownLanguage), FetchTopics(topics),
               FetchReadme(readme), api.socialPreview)
  }

  /** The record built in the `catch` branch (lines 331-343): no topics and no README. */
  function ShapeWithoutDetails(api: ApiRepo): (r: Repository)
    ensures ShapedFrom(r, api)
    ensures r.topics == [] && r.readme.None?
  {
    Repository(api.id, api.name, api.fullName, OrDefault(api.description, NoDescription),
               api.htmlUrl, api.stargazersCount, api.forksCount,
               OrDefault(api.language, UnknownLanguage), [], None, api.socialPreview)
  }

  /**
   * `fetchReadme` and `fetchTopics` catch their own errors, so the `catch`
   * branch gives exactly the record that two failed detail requests give.
   */
  lemma CatchBranchIsFailedDetails(api: ApiRepo)
    ensures ShapeWithoutDetails(api) == ShapeRepository(api, ReadmeFailed, TopicsFailed)
  {
  }

  // ---------------------------------------------------------------------
  // The list request (`fetchRepositories`)
  // ---------------------------------------------------------------------

  /** One listed repository with the outcomes of its two detail requests. */
  datatype Listed = Listed(api: ApiRepo, readme: ReadmeResponse, topics: TopicsResponse)

  /** The outcome of the list request: it threw (network or JSON), it was not ok, or it listed repositories. */
  datatype ListResponse = ListThrew | ListNotOk(status: int) | ListOk(entries: seq<Listed>)

  /** Every repository has a non-empty description and a non-empty (truthy) language. */
  predicate AllDescribed(repos: seq<Repository>) {
    forall i :: 0 <= i < |repos| ==> repos[i].description != "" && repos[i].language != ""
  }

  /** Shapes every listed repository, keeping the list's order. */
  function ShapeAll(entries: seq<Listed>): (r: seq<Repository>)
    ensures |r| == |entries|
    ensures forall i :: 0 <= i < |r| ==> r[i] == ShapeRepository(entries[i].api, entries[i].readme, entries[i].topics)
    ensures AllDescribed(r)
  {
    if entries == [] then []
    else ShapeAll(entries[..|entries| - 1]) + [ShapeRepository(entries[|entries| - 1].api, entries[|entries| - 1].readme, entries[|entries| - 1].topics)]
  }

  /** The token is present and non-empty. */
  predicate HasToken(token: Option<string>) {
    token.Some? && token.value != ""
  }

  /**
   * `fetchRepositories`: the fallback list without a token or when the list
   * request fails; otherwise every listed repository shaped, in the order
   * listed.
   */
  function FetchRepositories(token: Option<string>, response: ListResponse): (r: seq<Repository>)
    ensures !HasToken(token) || !response.ListOk? ==> r == FallbackRepositories()
    ensures HasToken(token) && response.ListOk? ==>
      |r| == |response.entries| && forall i :: 0 <= i < |r| ==> ShapedFrom(r[i], response.entries[i].api)
    ensures HasToken(token) && response.ListOk? ==> r == ShapeAll(response.entries)
    ensures AllDescribed(r)
  {
    if HasToken(token) && response.ListOk? then ShapeAll(response.entries) else FallbackRepositories()
  }

  // ---------------------------------------------------------------------
  // The built-in list
  // ---------------------------------------------------------------------

  /** A built-in record: owner `ahussainNCL`, no forks, no social preview. */
  function Fallback(id: int, name: string, repo: string, description: string, stars: int,
                    language: string, topics: seq<string>, readme: string): (r: Repository)
    ensures r.id == id && r.description == description && r.language == language
  {
    Repository(id, name, "ahussainNCL/" + repo, description, "https://github.com/ahussainNCL/" + repo,
               stars, 0, language, topics, Some(readme), None)
  }

  function LungClassification(): Repository
  {
    Fallback(1, "AI Lung Classification", "AI-LungClassification",
             "Deep learning system for detecting lung abnormalities", 1, "Python",
             ["ai", "machine-learning", "medical-imaging", "deep-learning", "tensorflow", "keras"],
             "# AI Lung Classification System")
  }

  function EscrowService(): Repository
  {
    Fallback(2, "Solidity Escrow Service", "Solidity-Escrow-Service",
             "Blockchain-based escrow system with smart contracts", 1, "Solidity",
             ["blockchain", "smart-contracts", "escrow", "web3", "defi", "ethereum"],
             "# Solidity Escrow Service")
  }

  function FacialRecognition(): Repository
  {
    Fallback(3, "OpenCV Facial Recognition", "OpenCV-Facial-Recognition",
             "Real-time facial recognition pipeline", 1, "Python",
             ["opencv", "facial-recognition", "computer-vision", "python", "deep-learning", "dlib"],
             "# OpenCV Facial Recognition System")
  }

  function NlpToolkit(): Repository
  {
    Fallback(4, "NLPToolkit", "NLPToolkit", "Modular NLP processing framework", 0,
             "NLTK spaCy Transformers", ["nlp", "text-processing", "machine-learning", "python"],
             "A comprehensive Natural Language Processing toolkit")
  }

  /**
   * The four built-in repositories, in order. Their README texts are
   * shortened: the first three to their heading line, the fourth to its
   * opening words.
   */
  function FallbackRepositories(): (r: seq<Repository>)
    ensures |r| == 4
    ensures forall i :: 0 <= i < |r| ==> r[i].id == i + 1
    ensures AllDescribed(r)
  {
    [LungClassification(), EscrowService(), FacialRecognition(), NlpToolkit()]
  }

  /** The built-in ids are distinct, so the page's previous/next navigation round-trips on them. */
  lemma FallbackNavigationRoundTrips(k: int)
    requires 0 <= k < 4
    ensures Home.UniqueIds(FallbackRepositories())
    ensures Home.PrevProjectOf(FallbackRepositories(), Home.NextProjectOf(FallbackRepositories(), Some(FallbackRepositories()[k])))
         == Some(FallbackRepositories()[k])
  {
    Home.NextPrevRoundTrip(FallbackRepositories(), k);
  }
}
