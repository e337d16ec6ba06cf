/**
 * The profile scraper: user names from LeetCode and HackerRank profile
 * URLs, the LeetCode "All" solved count, the HackerRank per-skill stars and
 * the assembled scrape result. The path component that Python's URL parser
 * yields and every HTTP response are inputs.
 */
module Scraper {
  import opened Text

  // ---------------------------------------------------------------------
  // User names from profile URLs
  // ---------------------------------------------------------------------

  /**
   * `[p for p in parts if p]`: the non-empty parts in their order, each as
   * often as it occurs, and no empty one.
   */
  function NonEmpty(parts: seq<string>): (r: seq<string>)
    ensures IsSubsequence(r, parts)
    ensures forall p {:trigger multiset(r)[p]} :: multiset(r)[p] == if p != "" then multiset(parts)[p] else 0
    ensures forall k :: 0 <= k < |r| ==> r[k] != "" && r[k] in parts
    ensures |r| <= |parts|
  {
    if parts == [] then []
    else
      var rest := NonEmpty(parts[1..]);
      assert parts == [parts[0]] + parts[1..];
      if parts[0] == "" then rest
      else
        assert ([parts[0]] + rest)[1..] == rest;
        [parts[0]] + rest
  }

  lemma NonEmptyAppend(a: seq<string>, b: seq<string>)
    ensures NonEmpty(a + b) == NonEmpty(a) + NonEmpty(b)
  {
    if a == [] {
      assert a + b == b;
    } else {
      assert (a + b)[0] == a[0];
      assert (a + b)[1..] == a[1..] + b;
      NonEmptyAppend(a[1..], b);
      AppendAssoc([a[0]], NonEmpty(a[1..]), NonEmpty(b));
    }
  }

  /** The non-empty `/`-separated segments of a URL path. */
  function Segments(path: string): (parts: seq<string>)
    ensures forall k :: 0 <= k < |parts| ==> parts[k] != "" && '/' !in parts[k]
  {
    NonEmpty(Split(path, '/'))
  }

  /** A trailing slash adds no segment. */
  lemma SegmentsTrailingSlash(path: string)
    ensures Segments(path + "/") == Segments(path)
  {
    SplitTrailingSeparator(path, '/');
    NonEmptyAppend(Split(path, '/'), [""]);
  }

  /** Doubling a slash adds no segment. */
  lemma SegmentsDoubleSlash(a: string, b: string)
    ensures Segments(a + "//" + b) == Segments(a + "/" + b)
  {
    assert a + "//" + b == a + ['/'] + ([] + ['/'] + b);
    assert a + "/" + b == a + ['/'] + b;
    SplitAround(a, [] + ['/'] + b, '/');
    SplitAround([], b, '/');
    SplitAround(a, b, '/');
    assert Split([], '/') == [""];
    AppendAssoc(Split(a, '/'), [""], Split(b, '/'));
    NonEmptyAppend(Split(a, '/') + [""], Split(b, '/'));
    NonEmptyAppend(Split(a, '/'), [""]);
    NonEmptyAppend(Split(a, '/'), Split(b, '/'));
  }

  /** A path that is a slash and one segment name. */
  lemma SegmentsOne(n: string)
    requires n != "" && '/' !in n
    ensures Segments("/" + n) == [n]
  {
    assert "/" + n == [] + ['/'] + n;
    SplitAround([], n, '/');
    SplitNoSeparator(n, '/');
    assert Split([], '/') == [""];
    assert NonEmpty([n]) == [n];
    NonEmptyAppend([""], [n]);
  }

  /** A slash-led segment name followed by a path that is empty or starts with a slash. */
  lemma SegmentsCons(n: string, rest: string)
    requires n != "" && '/' !in n
    requires rest == [] || rest[0] == '/'
    ensures Segments("/" + n + rest) == [n] + Segments(rest)
  {
    SegmentsOne(n);
    if rest == [] {
      assert "/" + n + rest == "/" + n;
      assert Split(rest, '/') == [""];
      assert NonEmpty([""]) == [];
    } else {
      assert "/" + n + rest == ("/" + n) + ['/'] + rest[1..];
      assert rest == [] + ['/'] + rest[1..];
      SplitAround("/" + n, rest[1..], '/');
      SplitAround([], rest[1..], '/');
      assert Split([], '/') == [""];
      NonEmptyAppend(Split("/" + n, '/'), Split(rest[1..], '/'));
      NonEmptyAppend([""], Split(rest[1..], '/'));
      assert NonEmpty([""]) == [];
    }
  }

  /** A path that is two slash-led segment names. */
  lemma SegmentsTwo(m: string, n: string)
    requires m != "" && '/' !in m && n != "" && '/' !in n
    ensures Segments("/" + m + "/" + n) == [m, n]
  {
    assert "/" + m + "/" + n == ("/" + m) + ['/'] + n;
    SplitAround("/" + m, n, '/');
    SplitNoSeparator(n, '/');
    NonEmptyAppend(Split("/" + m, '/'), [n]);
    SegmentsOne(m);
    assert NonEmpty([n]) == [n];
  }

  /**
   * The rule shared by both sites: no URL, or no segment, gives no name;
   * `/{prefix}/{name}` gives `name`; otherwise the first segment is the
   * name unless it is a reserved site path. `path` is the path component of
   * the stripped URL without its trailing slashes.
   */
  function ExtractUsername(url: Option<string>, path: string, prefix: string, reserved: set<string>): (r: Option<string>)
    ensures r.Some? ==> r.value != "" && '/' !in r.value && r.value in Segments(path)
    ensures url.None? || url.value == "" || Segments(path) == [] ==> r.None?
  {
    if url.None? || url.value == "" then None
    else
      var parts := Segments(path);
      if parts == [] then None
      else if |parts| >= 2 && parts[0] == prefix then Some(parts[1])
      else if parts[0] !in reserved then Some(parts[0])
      else None
  }

  const LeetcodeReserved: set<string> := {"problems", "contest", "discuss", "explore", "playground", "submissions"}
  const HackerrankReserved: set<string> := {"dashboard", "domains", "contests", "leaderboard", "jobs", "calendar", "administration"}

  /** `extract_leetcode_username` */
  function ExtractLeetcodeUsername(url: Option<string>, path: string): Option<string>
  {
    ExtractUsername(url, path, "u", LeetcodeReserved)
  }

  /** `extract_hackerrank_username` */
  function ExtractHackerrankUsername(url: Option<string>, path: string): Option<string>
  {
    ExtractUsername(url, path, "profile", HackerrankReserved)
  }

  /** The name is read from the segments alone: slashes at the end or doubled inside change nothing. */
  lemma ExtractIgnoresSlashes(url: Option<string>, a: string, b: string, prefix: string, reserved: set<string>)
    ensures ExtractUsername(url, a + "/", prefix, reserved) == ExtractUsername(url, a, prefix, reserved)
    ensures ExtractUsername(url, a + "//" + b, prefix, reserved) == ExtractUsername(url, a + "/" + b, prefix, reserved)
  {
    SegmentsTrailingSlash(a);
    SegmentsDoubleSlash(a, b);
  }

  /** `/{prefix}/{name}` yields `name`, whatever segments follow. */
  lemma ExtractPrefixForm(url: string, prefix: string, n: string, rest: string, reserved: set<string>)
    requires url != ""
    requires prefix != "" && '/' !in prefix && n != "" && '/' !in n
    requires rest == [] || rest[0] == '/'
    ensures ExtractUsername(Some(url), "/" + prefix + "/" + n + rest, prefix, reserved) == Some(n)
  {
    var p := "/" + prefix + "/" + n;
    SegmentsTwo(prefix, n);
    if rest == [] {
      assert p + rest == p;
    } else {
      assert p + rest == p + ['/'] + rest[1..];
      SplitAround(p, rest[1..], '/');
      NonEmptyAppend(Split(p, '/'), Split(rest[1..], '/'));
    }
  }

  /**
   * Outside the prefix form the first segment is the name when it is not a
   * reserved site path, whatever segments follow (`/alice/badges` gives
   * `alice`), and there is no name when it is.
   */
  lemma ExtractFirstSegment(url: string, n: string, rest: string, prefix: string, reserved: set<string>)
    requires url != "" && n != "" && '/' !in n
    requires rest == [] || rest[0] == '/'
    requires n != prefix || Segments(rest) == []
    ensures ExtractUsername(Some(url), "/" + n + rest, prefix, reserved) == if n in reserved then None else Some(n)
  {
    SegmentsCons(n, rest);
  }

  /** A reserved first segment with no prefix form yields no name. */
  lemma ExtractReserved(url: Option<string>, path: string, prefix: string, reserved: set<string>)
    requires Segments(path) != [] && Segments(path)[0] in reserved
    requires |Segments(path)| < 2 || Segments(path)[0] != prefix
    ensures ExtractUsername(url, path, prefix, reserved) == None
  {
  }

  // ---------------------------------------------------------------------
  // LeetCode solved count
  // ---------------------------------------------------------------------

  /** One entry of `acSubmissionNum`. */
  datatype SubmissionStat = SubmissionStat(difficulty: string, count: int)

  /** The parsed body of a 200 response: `matchedUser`'s statistics, or no matched user. */
  datatype GraphqlBody = MatchedUser(acSubmissionNum: seq<SubmissionStat>) | NoMatchedUser

  /** What the GraphQL `POST` yields. */
  datatype LeetcodeResponse = LeetcodeStatus(code: int, body: GraphqlBody) | LeetcodeThrows

  /** The count of the first entry whose difficulty is `"All"`. */
  function FirstAllCount(stats: seq<SubmissionStat>): Option<int>
  {
    if stats == [] then None
    else if stats[0].difficulty == "All" then Some(stats[0].count)
    else FirstAllCount(stats[1..])
  }

  /** `FirstAllCount` finds a count exactly when an `"All"` entry exists, and then the first one's. */
  lemma {:induction false} FirstAllCountSpec(stats: seq<SubmissionStat>)
    ensures FirstAllCount(stats).None? <==> forall i :: 0 <= i < |stats| ==> stats[i].difficulty != "All"
    ensures FirstAllCount(stats).Some? ==>
      exists i :: 0 <= i < |stats| && stats[i].difficulty == "All" && stats[i].count == FirstAllCount(stats).value
        && forall j :: 0 <= j < i ==> stats[j].difficulty != "All"
  {
    if stats != [] && stats[0].difficulty != "All" {
      FirstAllCountSpec(stats[1..]);
      assert forall i :: 1 <= i < |stats| ==> stats[i] == stats[1..][i - 1];
      if FirstAllCount(stats).Some? {
        var i :| 0 <= i < |stats[1..]| && stats[1..][i].difficulty == "All"
          && stats[1..][i].count == FirstAllCount(stats).value
          && forall j :: 0 <= j < i ==> stats[1..][j].difficulty != "All";
        assert stats[i + 1] == stats[1..][i];
        assert forall j :: 1 <= j < i + 1 ==> stats[j] == stats[1..][j - 1];
      }
    } else if stats != [] {
      assert stats[0].difficulty == "All";
    }
  }

  /** The `for stat in ac_stats` search loop. */
  method FindAllCount(stats: seq<SubmissionStat>) returns (r: Option<int>)
    ensures r == FirstAllCount(stats)
  {
    var i := 0;
    while i < |stats|
      invariant 0 <= i <= |stats|
      invariant FirstAllCount(stats) == FirstAllCount(stats[i..])
    {
      assert stats[i..][1..] == stats[i + 1..];
      if stats[i].difficulty == "All" {
        return Some(stats[i].count);
      }
      i := i + 1;
    }
    return None;
  }

  /**
   * `fetch_leetcode_solved`: no user name gives 0 without a request; a 200
   * answer with a matched user gives the `"All"` count; everything else
   * gives `None`.
   */
  method FetchLeetcodeSolved(url: Option<string>, path: string, response: LeetcodeResponse) returns (r: Option<int>)
    ensures ExtractLeetcodeUsername(url, path).None? ==> r == Some(0)
    ensures ExtractLeetcodeUsername(url, path).Some? ==>
      r == match response
        case LeetcodeStatus(200, MatchedUser(stats)) => FirstAllCount(stats)
        case _ => None
  {
    var username := ExtractLeetcodeUsername(url, path);
    if username.None? {
      return Some(0);
    }
    match response {
      case LeetcodeThrows =>
        r := None;
      case LeetcodeStatus(code, body) =>
        if code == 200 && body.MatchedUser? {
          r := FindAllCount(body.acSubmissionNum);
        } else {
          r := None;
        }
    }
  }

  // ---------------------------------------------------------------------
  // HackerRank badges
  // ---------------------------------------------------------------------

  datatype Skill = Java | Python | C | Sql

  /** A member of a JSON object: absent, `null`, or a value. */
  datatype JsonField<T> = Absent | Null | Present(value: T)

  /** One entry of `models` in the badges response. */
  datatype Badge = Badge(badgeName: JsonField<string>, stars: JsonField<int>)

  /** The four per-skill star counts. */
  datatype Stars = Stars(java: int, python: int, c: int, sql: int)

  const NoBadges := Stars(0, 0, 0, 0)

  function StarsOf(s: Stars, skill: Skill): int
  {
    match skill
    case Java => s.java
    case Python => s.python
    case C => s.c
    case Sql => s.sql
  }

  /** First match on the lower-cased badge name: java (not javascript), python, c, sql. */
  function Classify(badgeName: string): (skill: Option<Skill>)
    ensures skill == Some(Java) <==> Contains(Lower(badgeName), "java") && !Contains(Lower(badgeName), "javascript")
  {
    var name := Lower(badgeName);
    if Contains(name, "java") && !Contains(name, "javascript") then Some(Java)
    else if Contains(name, "python") then Some(Python)
    else if name == "c" || StartsWith(name, "c ") || Contains(name, "(c)") then Some(C)
    else if Contains(name, "sql") then Some(Sql)
    else None
  }

  /** Classification ignores letter case. */
  lemma ClassifyIgnoresCase(badgeName: string)
    ensures Classify(Lower(badgeName)) == Classify(badgeName)
  {
    LowerIdempotent(badgeName);
  }

  /** A "javascript" name with "java" ahead of any python, c or sql rule goes to python, c, sql or nowhere. */
  lemma JavascriptIsNotJava(badgeName: string)
    requires Contains(Lower(badgeName), "javascript")
    ensures Classify(badgeName) != Some(Java)
  {
  }

  /** `badge.get("badge_name", "")` for a name that is not `null`. */
  function BadgeName(b: Badge): string
  {
    if b.badgeName.Present? then b.badgeName.value else ""
  }

  /** `badge.get("stars", 0)`: `None` for a `null` value. */
  function StarsValue(b: Badge): Option<int>
  {
    match b.stars
    case Absent => Some(0)
    case Null => None
    case Present(n) => Some(n)
  }

  /** The stars a badge that does not raise contributes. */
  function BadgeStars(b: Badge): int
  {
    if b.stars.Present? then b.stars.value else 0
  }

  /**
   * The badge makes the loop raise: `.lower()` on a `null` name, or `max`
   * of a count and `null` stars for a badge of one of the four skills.
   */
  predicate Raises(b: Badge)
  {
    b.badgeName.Null? || (Classify(BadgeName(b)).Some? && StarsValue(b).None?)
  }

  /** No badge of the list makes the loop raise. */
  predicate AllSafe(badges: seq<Badge>)
  {
    forall i :: 0 <= i < |badges| ==> !Raises(badges[i])
  }

  function Max(a: int, b: int): int
  {
    if a >= b then a else b
  }

  /** `result[skill] = max(result[skill], stars)` for the badge's skill, if any. */
  function AddBadge(s: Stars, b: Badge): Stars
  {
    var stars := BadgeStars(b);
    match Classify(BadgeName(b))
    case None => s
    case Some(Java) => s.(java := Max(s.java, stars))
    case Some(Python) => s.(python := Max(s.python, stars))
    case Some(C) => s.(c := Max(s.c, stars))
    case Some(Sql) => s.(sql := Max(s.sql, stars))
  }

  /** The stars once the badges have been folded in, left to right, from all zeros. */
  function Tally(badges: seq<Badge>): Stars
  {
    if badges == [] then NoBadges else AddBadge(Tally(badges[..|badges| - 1]), badges[|badges| - 1])
  }

  /** A badge raises only its own skill, and to the max of the old value and its stars. */
  lemma AddBadgeSkill(s: Stars, b: Badge, skill: Skill)
    ensures StarsOf(AddBadge(s, b), skill) ==
      if Classify(BadgeName(b)) == Some(skill) then Max(StarsOf(s, skill), BadgeStars(b)) else StarsOf(s, skill)
  {
  }

  /**
   * Each skill's stars are the maximum of 0 and the stars of the badges
   * classified under it: at least 0 and every such badge's stars, and equal
   * to 0 or to one of them.
   */
  lemma {:induction false} TallyIsMax(badges: seq<Badge>, skill: Skill)
    ensures var v := StarsOf(Tally(badges), skill);
      && v >= 0
      && (forall i :: 0 <= i < |badges| && Classify(BadgeName(badges[i])) == Some(skill) ==> v >= BadgeStars(badges[i]))
      && (v == 0 || exists i :: 0 <= i < |badges| && Classify(BadgeName(badges[i])) == Some(skill) && v == BadgeStars(badges[i]))
  {
    if badges != [] {
      var init := badges[..|badges| - 1];
      var last := badges[|badges| - 1];
      TallyIsMax(init, skill);
      AddBadgeSkill(Tally(init), last, skill);
      assert forall i :: 0 <= i < |init| ==> badges[i] == init[i];
      var v0 := StarsOf(Tally(init), skill);
      var v := StarsOf(Tally(badges), skill);
      if v != 0 && v != v0 {
        assert v == BadgeStars(last) && Classify(BadgeName(last)) == Some(skill);
        assert badges[|badges| - 1] == last;
      } else if v != 0 {
        var i :| 0 <= i < |init| && Classify(BadgeName(init[i])) == Some(skill) && v0 == BadgeStars(init[i]);
        assert badges[i] == init[i];
      }
    }
  }

  /** The tally of one more badge folds that badge in. */
  lemma TallyStep(badges: seq<Badge>, i: nat)
    requires i < |badges|
    ensures Tally(badges[..i + 1]) == AddBadge(Tally(badges[..i]), badges[i])
  {
    var next := badges[..i + 1];
    assert next[..|next| - 1] == badges[..i];
    assert next[|next| - 1] == badges[i];
  }

  lemma AddBadgeMonotone(s: Stars, b: Badge, skill: Skill)
    ensures StarsOf(s, skill) <= StarsOf(AddBadge(s, b), skill)
  {
    AddBadgeSkill(s, b, skill);
  }

  /** Stars never decrease as badges are folded in. */
  lemma TallyMonotone(badges: seq<Badge>, k: nat, skill: Skill)
    requires k <= |badges|
    ensures StarsOf(Tally(badges[..k]), skill) <= StarsOf(Tally(badges), skill)
    decreases |badges| - k
  {
    if k < |badges| {
      TallyMonotone(badges, k + 1, skill);
      TallyStep(badges, k);
      AddBadgeMonotone(Tally(badges[..k]), badges[k], skill);
    } else {
      assert badges[..k] == badges;
    }
  }

  /**
   * The body of the `for badge in models` loop: `None` when the badge
   * raises, else the stars with the badge's skill raised to its stars.
   */
  method FoldBadge(stars: Stars, badge: Badge) returns (r: Option<Stars>)
    ensures Raises(badge) ==> r == None
    ensures !Raises(badge) ==> r == Some(AddBadge(stars, badge))
  {
    if badge.badgeName.Null? {
      return None;
    }
    var badgeName := Lower(BadgeName(badge));
    var value := StarsValue(badge);
    if Contains(badgeName, "java") && !Contains(badgeName, "javascript") {
      if value.None? { return None; }
      return Some(stars.(java := Max(stars.java, value.value)));
    } else if Contains(badgeName, "python") {
      if value.None? { return None; }
      return Some(stars.(python := Max(stars.python, value.value)));
    } else if badgeName == "c" || StartsWith(badgeName, "c ") || Contains(badgeName, "(c)") {
      if value.None? { return None; }
      return Some(stars.(c := Max(stars.c, value.value)));
    } else if Contains(badgeName, "sql") {
      if value.None? { return None; }
      return Some(stars.(sql := Max(stars.sql, value.value)));
    }
    return Some(stars);
  }

  /**
   * The `for badge in models` loop: the per-skill tally, or `None` when a
   * badge raises and the `except` clause answers instead.
   */
  method AggregateBadges(badges: seq<Badge>) returns (result: Option<Stars>)
    ensures AllSafe(badges) ==> result == Some(Tally(badges))
    ensures !AllSafe(badges) ==> result == None
  {
    var stars := NoBadges;
    var i := 0;
    while i < |badges|
      invariant 0 <= i <= |badges|
      invariant AllSafe(badges[..i])
      invariant stars == Tally(badges[..i])
    {
      var next := FoldBadge(stars, badges[i]);
      if next.None? {
        assert Raises(badges[i]);
        return None;
      }
      TallyStep(badges, i);
      assert forall j :: 0 <= j < i ==> badges[..i + 1][j] == badges[..i][j];
      stars := next.value;
      i := i + 1;
    }
    assert badges[..|badges|] == badges;
    return Some(stars);
  }

  /** `data.get("models", [])`: absent is the empty list; `null` makes the `for` raise. */
  function ModelsOf(models: JsonField<seq<Badge>>): Option<seq<Badge>>
  {
    match models
    case Absent => Some([])
    case Null => None
    case Present(badges) => Some(badges)
  }

  /** What the badges `GET` yields: the status and the body's `models` member, or a throw. */
  datatype BadgesResponse = BadgesStatus(code: int, models: JsonField<seq<Badge>>) | BadgesThrows

  /**
   * `fetch_hackerrank_badges`: no user name gives all zeros without a
   * request; a 200 answer gives the tally of its badges; a 200 whose
   * `models` is `null` or holds a badge that raises, any other status and
   * a throw give `None`.
   */
  method FetchHackerrankBadges(url: Option<string>, path: string, response: BadgesResponse) returns (r: Option<Stars>)
    ensures ExtractHackerrankUsername(url, path).None? ==> r == Some(NoBadges)
    ensures ExtractHackerrankUsername(url, path).Some? && !(response.BadgesStatus? && response.code == 200) ==> r == None
    ensures ExtractHackerrankUsername(url, path).Some? && response.BadgesStatus? && response.code == 200 ==>
      r == match ModelsOf(response.models)
           case None => None
           case Some(badges) => if AllSafe(badges) then Some(Tally(badges)) else None
  {
    var username := ExtractHackerrankUsername(url, path);
    if username.None? {
      return Some(NoBadges);
    }
    if response.BadgesStatus? && response.code == 200 {
      var models := ModelsOf(response.models);
      if models.None? {
        return None;
      }
      r := AggregateBadges(models.value);
      return;
    }
    return None;
  }

  // ---------------------------------------------------------------------
  // The assembled scrape
  // ---------------------------------------------------------------------

  datatype ScrapeResult = ScrapeResult(
    leetcodeSolved: Option<int>,
    hrJavaStars: Option<int>,
    hrPythonStars: Option<int>,
    hrCStars: Option<int>,
    hrSqlStars: Option<int>)

  /** The four star fields from a badge result: all `None` when it is `None`. */
  function Assemble(leetcodeSolved: Option<int>, badges: Option<Stars>): (r: ScrapeResult)
    ensures r.leetcodeSolved == leetcodeSolved
    ensures badges.None? <==> r.hrJavaStars.None? && r.hrPythonStars.None? && r.hrCStars.None? && r.hrSqlStars.None?
    ensures badges.Some? ==>
      && r.hrJavaStars == Some(badges.value.java) && r.hrPythonStars == Some(badges.value.python)
      && r.hrCStars == Some(badges.value.c) && r.hrSqlStars == Some(badges.value.sql)
  {
    match badges
    case None => ScrapeResult(leetcodeSolved, None, None, None, None)
    case Some(s) => ScrapeResult(leetcodeSolved, Some(s.java), Some(s.python), Some(s.c), Some(s.sql))
  }

  /** A scrape result whose four star fields are all `None`. */
  predicate NoStars(r: ScrapeResult)
  {
    r.hrJavaStars.None? && r.hrPythonStars.None? && r.hrCStars.None? && r.hrSqlStars.None?
  }

  /** A scrape result whose four star fields are those of `s`. */
  predicate HasStars(r: ScrapeResult, s: Stars)
  {
    r.hrJavaStars == Some(s.java) && r.hrPythonStars == Some(s.python) && r.hrCStars == Some(s.c) && r.hrSqlStars == Some(s.sql)
  }

  /**
   * `scrape_student_data`: the LeetCode count, then the badges, assembled.
   * Each half answers as its fetch does: 0 or zeros without a user name,
   * the count or the tally on a usable 200 answer, `None` otherwise.
   */
  method ScrapeStudentData(leetcodeUrl: Option<string>, leetcodePath: string, leetcodeResponse: LeetcodeResponse,
                           hackerrankUrl: Option<string>, hackerrankPath: string, badgesResponse: BadgesResponse)
    returns (r: ScrapeResult)
    ensures ExtractLeetcodeUsername(leetcodeUrl, leetcodePath).None? ==> r.leetcodeSolved == Some(0)
    ensures ExtractLeetcodeUsername(leetcodeUrl, leetcodePath).Some? ==>
      r.leetcodeSolved == match leetcodeResponse
        case LeetcodeStatus(200, MatchedUser(stats)) => FirstAllCount(stats)
        case _ => None
    ensures ExtractHackerrankUsername(hackerrankUrl, hackerrankPath).None? ==> HasStars(r, NoBadges)
    ensures (ExtractHackerrankUsername(hackerrankUrl, hackerrankPath).Some?
             && !(badgesResponse.BadgesStatus? && badgesResponse.code == 200)) ==> NoStars(r)
    ensures (ExtractHackerrankUsername(hackerrankUrl, hackerrankPath).Some?
             && badgesResponse.BadgesStatus? && badgesResponse.code == 200) ==>
      match ModelsOf(badgesResponse.models)
      case None => NoStars(r)
      case Some(badges) => if AllSafe(badges) then HasStars(r, Tally(badges)) else NoStars(r)
  {
    var solved := FetchLeetcodeSolved(leetcodeUrl, leetcodePath, leetcodeResponse);
    var badges := FetchHackerrankBadges(hackerrankUrl, hackerrankPath, badgesResponse);
    r := Assemble(solved, badges);
  }
}
