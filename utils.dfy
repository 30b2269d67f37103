/**
 * lib/utils.ts: time formatting, the 32-bit string hash behind the default
 * picks, and the two ordered keyword rule tables that choose a project's icon
 * and its thumbnail design.
 */
module Utils {
  import opened Js
  import opened Text

  // ---------------------------------------------------------------------
  // formatTime

  predicate IsDigit(c: char) {
    '0' <= c <= '9'
  }

  predicate AllDigits(s: string) {
    forall i :: 0 <= i < |s| ==> IsDigit(s[i])
  }

  function DigitChar(d: nat): (c: char)
    requires d < 10
    ensures IsDigit(c)
  {
    ('0' as int + d) as char
  }

  /** The value of a string of decimal digits. */
  function DigitsValue(s: string): nat
    requires AllDigits(s)
  {
    if s == [] then 0
    else DigitsValue(s[..|s| - 1]) * 10 + (s[|s| - 1] as int - '0' as int)
  }

  /** `n.toString()` for a non-negative integer: decimal digits without leading zeros. */
  function NumberToString(n: nat): (r: string)
    ensures |r| >= 1 && AllDigits(r)
    ensures |r| > 1 ==> r[0] != '0'
    ensures n < 10 <==> |r| == 1
  {
    if n < 10 then [DigitChar(n)] else NumberToString(n / 10) + [DigitChar(n % 10)]
  }

  /** Reading the decimal string back gives the number. */
  lemma {:induction false} NumberToStringValue(n: nat)
    ensures DigitsValue(NumberToString(n)) == n
  {
    if n >= 10 {
      var s := NumberToString(n);
      assert s[..|s| - 1] == NumberToString(n / 10);
      NumberToStringValue(n / 10);
    }
  }

  /** `s.padStart(2, '0')`. */
  function PadStart2(s: string): (r: string)
    ensures |r| == if |s| >= 2 then |s| else 2
    ensures |s| >= 2 ==> r == s
    ensures |s| < 2 ==> r == seq(2 - |s|, _ => '0') + s
    decreases 2 - |s|
  {
    if |s| >= 2 then s else PadStart2(['0'] + s)
  }

  /** `formatTime(seconds)`: whole minutes, a colon, then the seconds padded to two digits. */
  function FormatTime(seconds: nat): (r: string)
    ensures |r| >= 4 && r[|r| - 3] == ':'
    ensures |r| > 4 ==> r[0] != '0'
  {
    var minutes, secs := NumberToString(seconds / 60), NumberToString(seconds % 60);
    assert |secs| <= 2;
    minutes + ":" + PadStart2(secs)
  }

  /**
   * The text before the colon reads back as the minutes, the two digits
   * after it as the seconds below 60, and together they give the input back.
   */
  lemma FormatTimeReadsBack(seconds: nat)
    ensures var r := FormatTime(seconds);
      && AllDigits(r[..|r| - 3]) && AllDigits(r[|r| - 2..])
      && DigitsValue(r[|r| - 2..]) < 60
      && DigitsValue(r[..|r| - 3]) * 60 + DigitsValue(r[|r| - 2..]) == seconds
  {
    var minutes, secs := NumberToString(seconds / 60), NumberToString(seconds % 60);
    var r := FormatTime(seconds);
    NumberToStringValue(seconds / 60);
    NumberToStringValue(seconds % 60);
    var padded := PadStart2(secs);
    assert r == minutes + ":" + padded;
    assert r[..|r| - 3] == minutes;
    assert r[|r| - 2..] == padded;
    if seconds % 60 < 10 {
      assert padded == ['0'] + secs;
      assert padded[..1] == ['0'];
    } else {
      assert padded == secs;
    }
  }

  // ---------------------------------------------------------------------
  // The 32-bit string hash of the name

  /** The UTF-16 code units of one character, as `split('')` and `charCodeAt` see them. */
  function CodeUnits(c: char): (u: seq<int>)
    ensures 1 <= |u| <= 2 && forall i :: 0 <= i < |u| ==> 0 <= u[i] < 0x1_0000
  {
    var v := c as int;
    if v < 0x1_0000 then [v]
    else [0xD800 + (v - 0x1_0000) / 0x400, 0xDC00 + (v - 0x1_0000) % 0x400]
  }

  /**
   * The code units `split('')` yields for a string: one or two per
   * character, one exactly for characters of the Basic Multilingual Plane.
   */
  function Utf16Units(s: string): (u: seq<int>)
    ensures |s| <= |u| <= 2 * |s|
    ensures forall i :: 0 <= i < |u| ==> 0 <= u[i] < 0x1_0000
    ensures (forall i :: 0 <= i < |s| ==> s[i] as int < 0x1_0000) ==> u == seq(|s|, i requires 0 <= i < |s| => s[i] as int)
  {
    if s == [] then []
    else
      var head, rest := CodeUnits(s[0]), Utf16Units(s[1..]);
      assert forall i :: 0 <= i < |rest| ==> (head + rest)[|head| + i] == rest[i];
      head + rest
  }

  /**
   * One step of the fold: `a = (a << 5) - a + code; return a & a`, all in
   * 32-bit signed arithmetic. It is the 32-bit wrap of `31 * a + code`, as
   * the shift arithmetic intends.
   */
  function HashStep(a: int, code: int): (h: int)
    ensures -TwoTo31 <= h < TwoTo31
    ensures (h - (31 * a + code)) % TwoTo32 == 0
  {
    var x := ToInt32(a * 32);
    assert (x - a * 32) % TwoTo32 == 0;
    var y := x - a + code;
    assert y - (31 * a + code) == x - a * 32;
    ToInt32(y)
  }

  /** The left fold of `HashStep` from 0 over the code units. */
  function HashUnits(units: seq<int>): (h: int)
    ensures -TwoTo31 <= h < TwoTo31
  {
    if units == [] then 0 else HashStep(HashUnits(units[..|units| - 1]), units[|units| - 1])
  }

  /** The hash of a name: the fold over its UTF-16 code units, 0 for the empty name. */
  function NameHash(name: string): (h: int)
    ensures -TwoTo31 <= h < TwoTo31
    ensures name == "" ==> h == 0
  {
    HashUnits(Utf16Units(name))
  }

  /** `Math.abs(hash) % n`: always an index into an array of `n` elements. */
  function PickIndex(hash: int, n: int): (i: int)
    requires n > 0
    ensures 0 <= i < n
    ensures hash >= 0 ==> i == hash % n
  {
    Abs(hash) % n
  }

  // ---------------------------------------------------------------------
  // generateGradient

  const GradientColors: seq<string> := [
    "from-purple-500 to-pink-500", "from-blue-500 to-cyan-500", "from-green-500 to-emerald-500",
    "from-orange-500 to-red-500", "from-indigo-500 to-purple-500", "from-teal-500 to-blue-500",
    "from-pink-500 to-rose-500", "from-yellow-500 to-orange-500"]

  /** `generateGradient(name)`: one of the eight colour pairs, chosen by the name's hash. */
  function GenerateGradient(name: string): (g: string)
    ensures g in GradientColors
  {
    GradientColors[PickIndex(NameHash(name), |GradientColors|)]
  }

  // ---------------------------------------------------------------------
  // The keyword rule tables

  /** A rule fires when the lower-cased name contains one of `nameKeys` or the lower-cased description one of `descKeys`. */
  datatype Rule = Rule(nameKeys: seq<string>, descKeys: seq<string>)

  predicate Fires(rule: Rule, lowerName: string, lowerDesc: string) {
    || (exists k :: k in rule.nameKeys && Contains(lowerName, k))
    || (exists k :: k in rule.descKeys && Contains(lowerDesc, k))
  }

  /** A row of a rule table: a rule and what the function returns when it is the first to fire. */
  datatype Row<T> = Row(rule: Rule, result: T)

  /** Position of the first row, top to bottom, whose rule fires; `|table|` when none does. */
  function FirstFiring<T>(table: seq<Row<T>>, lowerName: string, lowerDesc: string): (k: nat)
    ensures k <= |table|
    ensures forall j :: 0 <= j < k ==> !Fires(table[j].rule, lowerName, lowerDesc)
    ensures k < |table| ==> Fires(table[k].rule, lowerName, lowerDesc)
  {
    if table == [] then 0
    else if Fires(table[0].rule, lowerName, lowerDesc) then 0
    else 1 + FirstFiring(table[1..], lowerName, lowerDesc)
  }

  // ---------------------------------------------------------------------
  // getProjectIcon

  datatype ProjectIcon = ProjectIcon(icon: string, category: string)  // `category` is the source's `label`

  const DefaultLabel: string := "Project"

  const IconRules: seq<Row<ProjectIcon>> := [
    Row(Rule(["ai lung classification", "ai", "ml", "neural", "classification", "recognition"],
             ["ai", "machine learning", "neural"]),
        ProjectIcon("\U{1F916}", "AI/ML")),
    Row(Rule(["solidity escrow service", "solidity", "blockchain", "escrow", "smart", "contract"],
             ["blockchain", "ethereum", "smart contract"]),
        ProjectIcon("\U{1F512}", "Blockchain")),
    Row(Rule(["opencv facial recognition", "opencv", "vision", "facial", "detection"],
             ["computer vision", "opencv"]),
        ProjectIcon("\U{1F441}\U{FE0F}", "Computer Vision")),
    Row(Rule(["nlptoolkit", "nlp", "text", "language", "sentiment"],
             ["natural language", "nlp"]),
        ProjectIcon("\U{1F4DA}", "NLP")),
    Row(Rule(["web", "react", "vue", "angular", "frontend", "backend"],
             ["web", "frontend", "backend"]),
        ProjectIcon("\U{1F310}", "Web Dev")),
    Row(Rule(["mobile", "android", "ios", "flutter", "react-native"],
             ["mobile"]),
        ProjectIcon("\U{1F4F1}", "Mobile")),
    Row(Rule(["data", "analytics", "dashboard", "visualization"],
             ["data science", "analytics"]),
        ProjectIcon("\U{1F4CA}", "Data Science")),
    Row(Rule(["game", "unity", "unreal"],
             ["game", "gaming"]),
        ProjectIcon("\U{1F3AE}", "Game Dev")),
    Row(Rule(["security", "crypto", "encryption", "auth"],
             ["security", "cryptography"]),
        ProjectIcon("\U{1F512}", "Security")),
    Row(Rule(["api", "server", "microservice", "rest", "graphql"],
             ["api", "server"]),
        ProjectIcon("\U{2699}\U{FE0F}", "API")),
    Row(Rule(["db", "database", "sql", "nosql", "mongo"],
             ["database"]),
        ProjectIcon("\U{1F5C4}\U{FE0F}", "Database")),
    Row(Rule(["devops", "docker", "kubernetes", "ci", "cd", "tool"],
             ["devops", "automation"]),
        ProjectIcon("\U{1F6E0}\U{FE0F}", "DevOps"))]

  /** The rules' labels, in table order. */
  const RuleLabels: seq<string> := [
    "AI/ML", "Blockchain", "Computer Vision", "NLP", "Web Dev", "Mobile",
    "Data Science", "Game Dev", "Security", "API", "Database", "DevOps"]

  /** Row `k` of the icon table carries label `k`. */
  lemma RuleLabelOfRow(k: nat)
    requires k < |IconRules|
    ensures |RuleLabels| == |IconRules| && IconRules[k].result.category == RuleLabels[k]
  {
  }

  /** The default icons when no rule fires. */
  const MusicIcons: seq<string> := [
    "\U{1F3B5}", "\U{1F3B6}", "\U{1F3B8}", "\U{1F3B9}", "\U{1F3BA}", "\U{1F941}", "\U{1F3BB}", "\U{1F3A4}"]

  /**
   * `getProjectIcon(name, description)`: the result of the first rule, top to
   * bottom, that fires on the lower-cased name and description; otherwise a
   * music icon picked by the hash of the name as given, labelled "Project".
   */
  function GetProjectIcon(name: string, description: string): (r: ProjectIcon)
    ensures r.category == DefaultLabel ==> r.icon in MusicIcons
    ensures r.category != DefaultLabel ==>
      exists k :: 0 <= k < |IconRules| && r == IconRules[k].result
        && Fires(IconRules[k].rule, ToLower(name), ToLower(description))
        && forall j :: 0 <= j < k ==> !Fires(IconRules[j].rule, ToLower(name), ToLower(description))
  {
    var k := FirstFiring(IconRules, ToLower(name), ToLower(description));
    if k < |IconRules| then
      RuleLabelOfRow(k);
      IconRules[k].result
    else
      ProjectIcon(MusicIcons[PickIndex(NameHash(name), |MusicIcons|)], DefaultLabel)
  }

  /** Every label is one of the table's labels or "Project". */
  lemma LabelIsKnown(name: string, description: string)
    ensures GetProjectIcon(name, description).category in RuleLabels + [DefaultLabel]
  {
    var k := FirstFiring(IconRules, ToLower(name), ToLower(description));
    if k < |IconRules| {
      RuleLabelOfRow(k);
      assert RuleLabels[k] == (RuleLabels + [DefaultLabel])[k];
    }
  }

  /** The "Project" label is given exactly when no rule fires. */
  lemma DefaultIffNoRuleFires(name: string, description: string)
    ensures GetProjectIcon(name, description).category == DefaultLabel <==>
      forall j :: 0 <= j < |IconRules| ==> !Fires(IconRules[j].rule, ToLower(name), ToLower(description))
  {
    var k := FirstFiring(IconRules, ToLower(name), ToLower(description));
    if k < |IconRules| {
      RuleLabelOfRow(k);
      assert DefaultLabel !in RuleLabels;
    }
  }

  /** The label depends only on the lower-cased name and description. */
  lemma LabelIgnoresCase(name: string, description: string)
    ensures GetProjectIcon(name, description).category == GetProjectIcon(ToLower(name), ToLower(description)).category
  {
    LowerIdempotent(name);
    LowerIdempotent(description);
  }

  /** Names containing "recognition" or "classification" are always labelled AI/ML. */
  lemma RecognitionIsAiMl(name: string, description: string)
    requires Contains(ToLower(name), "recognition") || Contains(ToLower(name), "classification")
    ensures GetProjectIcon(name, description).category == "AI/ML"
  {
    assert Fires(IconRules[0].rule, ToLower(name), ToLower(description)) by {
      assert "recognition" in IconRules[0].rule.nameKeys;
      assert "classification" in IconRules[0].rule.nameKeys;
    }
  }

  /**
   * The Computer Vision rule's first keyword can never decide the result:
   * a name containing "opencv facial recognition" contains "recognition" and
   * is labelled AI/ML first.
   */
  lemma OpencvFacialRecognitionIsAiMl(name: string, description: string)
    requires Contains(ToLower(name), "opencv facial recognition")
    ensures GetProjectIcon(name, description).category == "AI/ML"
  {
    var whole := "opencv facial recognition";
    assert whole[14..14 + |"recognition"|] == "recognition";
    ContainsAt(whole, "recognition", 14);
    ContainsTransitive(ToLower(name), whole, "recognition");
    RecognitionIsAiMl(name, description);
  }

  /** The Mobile rule's "react-native" keyword is dead too: such a name contains "react" and is labelled no later than Web Dev. */
  lemma ReactNativeNeverMobile(name: string, description: string)
    requires Contains(ToLower(name), "react-native")
    ensures GetProjectIcon(name, description).category in RuleLabels[..5]
  {
    var ln, ld := ToLower(name), ToLower(description);
    assert "react" <= "react-native";
    ContainsTransitive(ln, "react-native", "react");
    assert Fires(IconRules[4].rule, ln, ld) by {
      assert "react" in IconRules[4].rule.nameKeys;
    }
    var k := FirstFiring(IconRules, ln, ld);
    assert k <= 4;
    RuleLabelOfRow(k);
  }

  // ---------------------------------------------------------------------
  // generateThumbnailDesign

  datatype ThumbnailDesign = ThumbnailDesign(gradient: string, pattern: string, accentColor: string, iconStyle: string)

  const ThumbnailRules: seq<Row<ThumbnailDesign>> := [
    Row(Rule(["ai", "ml", "neural", "classification", "recognition"],
             ["ai", "machine learning", "neural"]),
        ThumbnailDesign("from-cyan-500 via-blue-600 to-purple-700", "circuit", "bg-cyan-400", "glow-cyan")),
    Row(Rule(["solidity", "blockchain", "escrow", "smart", "contract"],
             ["blockchain", "ethereum", "smart contract"]),
        ThumbnailDesign("from-gray-800 via-gray-900 to-black", "geometric", "bg-yellow-500", "glow-yellow")),
    Row(Rule(["opencv", "vision", "facial", "detection"],
             ["computer vision", "opencv"]),
        ThumbnailDesign("from-green-400 via-emerald-500 to-teal-600", "dots", "bg-green-400", "glow-green")),
    Row(Rule(["nlp", "text", "language", "sentiment"],
             ["natural language", "nlp"]),
        ThumbnailDesign("from-orange-400 via-red-500 to-pink-600", "lines", "bg-orange-400", "glow-orange")),
    Row(Rule(["web", "react", "vue", "angular", "frontend", "backend"],
             ["web", "frontend", "backend"]),
        ThumbnailDesign("from-blue-500 via-indigo-600 to-purple-700", "grid", "bg-blue-400", "glow-blue")),
    Row(Rule(["mobile", "android", "ios", "flutter", "react-native"],
             ["mobile"]),
        ThumbnailDesign("from-purple-500 via-pink-500 to-rose-600", "app-grid", "bg-purple-400", "glow-purple")),
    Row(Rule(["data", "analytics", "dashboard", "visualization"],
             ["data science", "analytics"]),
        ThumbnailDesign("from-teal-500 via-cyan-600 to-blue-700", "bars", "bg-teal-400", "glow-teal"))]

  const DefaultGradients: seq<string> := [
    "from-purple-500 via-pink-500 to-rose-600",
    "from-blue-500 via-cyan-500 to-teal-600",
    "from-green-500 via-emerald-500 to-teal-600",
    "from-orange-500 via-red-500 to-pink-600",
    "from-indigo-500 via-purple-500 to-pink-600",
    "from-yellow-500 via-orange-500 to-red-600"]

  const DefaultPatterns: seq<string> := ["waves", "notes", "rhythm", "melody"]

  /**
   * `generateThumbnailDesign(name, description)`: the design of the first
   * firing rule; otherwise a hash-picked gradient and pattern with the green
   * accent and glow.
   */
  function GenerateThumbnailDesign(name: string, description: string): (r: ThumbnailDesign)
    ensures (forall j :: 0 <= j < |ThumbnailRules| ==> !Fires(ThumbnailRules[j].rule, ToLower(name), ToLower(description)))
      ==> r.accentColor == "bg-spotify-green" && r.iconStyle == "glow-green"
          && r.gradient in DefaultGradients && r.pattern in DefaultPatterns
    ensures (exists k :: 0 <= k < |ThumbnailRules| && Fires(ThumbnailRules[k].rule, ToLower(name), ToLower(description)))
      ==> (exists k :: 0 <= k < |ThumbnailRules| && r == ThumbnailRules[k].result
             && Fires(ThumbnailRules[k].rule, ToLower(name), ToLower(description))
             && forall j :: 0 <= j < k ==> !Fires(ThumbnailRules[j].rule, ToLower(name), ToLower(description)))
    ensures Fires(ThumbnailRules[0].rule, ToLower(name), ToLower(description)) ==> r.pattern == "circuit"
  {
    var k := FirstFiring(ThumbnailRules, ToLower(name), ToLower(description));
    if k < |ThumbnailRules| then ThumbnailRules[k].result
    else
      var hash := NameHash(name);
      ThumbnailDesign(DefaultGradients[PickIndex(hash, |DefaultGradients|)],
                      DefaultPatterns[PickIndex(hash, |DefaultPatterns|)],
                      "bg-spotify-green", "glow-green")
  }

  /**
   * The first seven icon rules and the seven thumbnail rules fire on exactly
   * the same inputs: the icon table's extra keywords ("ai lung
   * classification", "solidity escrow service", "opencv facial recognition",
   * "nlptoolkit") each contain a keyword both tables share.
   */
  lemma IconAndThumbnailRulesAgree(lowerName: string, lowerDesc: string, k: nat)
    requires k < |ThumbnailRules|
    ensures Fires(IconRules[k].rule, lowerName, lowerDesc) <==> Fires(ThumbnailRules[k].rule, lowerName, lowerDesc)
  {
    var extra, shared :=
      ["ai lung classification", "solidity escrow service", "opencv facial recognition", "nlptoolkit"],
      ["ai", "solidity", "opencv", "nlp"];
    if k < 4 {
      assert IconRules[k].rule.nameKeys == [extra[k]] + ThumbnailRules[k].rule.nameKeys;
      assert IconRules[k].rule.descKeys == ThumbnailRules[k].rule.descKeys;
      assert shared[k] <= extra[k];
      assert shared[k] in ThumbnailRules[k].rule.nameKeys;
      if Contains(lowerName, extra[k]) {
        ContainsTransitive(lowerName, extra[k], shared[k]);
      }
    } else {
      assert IconRules[k].rule == ThumbnailRules[k].rule;
    }
  }

  /** The icon is labelled AI/ML exactly when the first rule fires. */
  lemma AiMlIffFirstRule(name: string, description: string)
    ensures GetProjectIcon(name, description).category == "AI/ML"
        <==> Fires(IconRules[0].rule, ToLower(name), ToLower(description))
  {
    var k := FirstFiring(IconRules, ToLower(name), ToLower(description));
    if k < |IconRules| {
      RuleLabelOfRow(k);
      assert RuleLabels[k] == "AI/ML" ==> k == 0;
    }
  }

  /** The thumbnail has the circuit pattern exactly when its first rule fires. */
  lemma CircuitIffFirstRule(name: string, description: string)
    ensures GenerateThumbnailDesign(name, description).pattern == "circuit"
        <==> Fires(ThumbnailRules[0].rule, ToLower(name), ToLower(description))
  {
    var k := FirstFiring(ThumbnailRules, ToLower(name), ToLower(description));
    if k < |ThumbnailRules| {
      assert ThumbnailRules[k].result.pattern == "circuit" ==> k == 0;
    } else {
      assert "circuit" !in DefaultPatterns;
    }
  }

  /** A project gets the circuit pattern exactly when its icon is labelled AI/ML. */
  lemma CircuitPatternIffAiMl(name: string, description: string)
    ensures GenerateThumbnailDesign(name, description).pattern == "circuit"
        <==> GetProjectIcon(name, description).category == "AI/ML"
  {
    IconAndThumbnailRulesAgree(ToLower(name), ToLower(description), 0);
    AiMlIffFirstRule(name, description);
    CircuitIffFirstRule(name, description);
  }
}
