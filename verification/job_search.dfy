/** Job search: four job boards are asked in a fixed order and their
    postings concatenated; when all four come back empty, two demonstration
    postings stand in; at most twenty postings are returned. Each board's
    HTTP request is an oracle that returns the board's listings, or `None`
    when the request fails or the status is not 200. A listing's fields are
    the values after the source's `.get(key, default)` lookups. */
module JobSearch {
  import opened Wrappers
  import opened Seqs
  import opened Text
  import opened Numerals

  /** A posting as every board's adapter returns it. */
  datatype Posting = Posting(title: string, company: string, location: string, salary: string,
                             description: string, url: string, source: string)

  /** An Adzuna result; the salary bounds are `None` when absent. */
  datatype AdzunaListing = AdzunaListing(title: string, company: string, location: string,
                                         salaryMin: Option<nat>, salaryMax: Option<nat>,
                                         description: string, url: string)

  /** A JSearch result. */
  datatype JSearchListing = JSearchListing(title: string, employer: string, city: string, state: string,
                                           salary: string, description: string, applyLink: string)

  /** A Remotive or Arbeitnow result. */
  datatype BoardListing = BoardListing(title: string, company: string, location: string, salary: string,
                                       description: string, url: string)

  /** The boards' HTTP endpoints. Adzuna takes the title and the location,
      JSearch one query string, Remotive the title; Arbeitnow takes no
      parameters and returns its whole board. */
  datatype Boards = Boards(
    adzuna: (string, string) -> Option<seq<AdzunaListing>>,
    jsearch: string -> Option<seq<JSearchListing>>,
    remotive: string -> Option<seq<BoardListing>>,
    arbeitnow: Option<seq<BoardListing>>)

  const NotSpecified := "Not specified"
  const MaxResults: nat := 20

  const AdzunaSource := "Adzuna"
  const JSearchSource := "JSearch"
  const RemotiveSource := "Remotive"
  const ArbeitnowSource := "Arbeitnow"
  const DemoSource := "Demo"

  // Salaries

  /** A salary bound tested for truth: absent and zero are false. */
  predicate Given(v: Option<nat>)
  {
    v.Some? && v.value > 0
  }

  /** `${x:,.0f}` for a whole number of dollars. */
  function Dollars(n: nat): (r: string)
    ensures |r| > 1 && r[0] == '$'
    ensures forall k :: 1 <= k < |r| ==> IsAsciiDigit(r[k]) || r[k] == ','
  {
    "$" + Grouped(n)
  }

  /** `_format_salary`: a range when both bounds are given, "$min+" or
      "Up to $max" when only one is, "Not specified" otherwise. */
  function FormatSalary(min: Option<nat>, max: Option<nat>): (r: string)
    ensures Given(min) && Given(max) ==> r == Dollars(min.value) + " - " + Dollars(max.value)
    ensures Given(min) && !Given(max) ==> r == Dollars(min.value) + "+"
    ensures !Given(min) && Given(max) ==> r == "Up to " + Dollars(max.value)
    ensures r == NotSpecified <==> !Given(min) && !Given(max)
  {
    if Given(min) && Given(max) then
      var r := Dollars(min.value) + " - " + Dollars(max.value);
      assert r[0] == '$' != NotSpecified[0];
      r
    else if Given(min) then
      var r := Dollars(min.value) + "+";
      assert r[0] == '$' != NotSpecified[0];
      r
    else if Given(max) then
      var r := "Up to " + Dollars(max.value);
      assert r[0] == 'U' != NotSpecified[0];
      r
    else NotSpecified
  }

  /** The dollar figure can be read back: its digits, commas dropped, denote
      the amount. */
  lemma DollarsRoundTrip(n: nat)
    ensures AllDigits(DropCommas(Dollars(n)[1..]))
    ensures ValueOf(DropCommas(Dollars(n)[1..])) == n
  {
    assert Dollars(n)[1..] == Grouped(n);
    GroupedRoundTrip(n);
  }

  /** Two strings cut at the first occurrence of a character they do not
      contain before it agree on both sides of the cut. */
  lemma CutAtFirst(x: string, y: string, x2: string, y2: string, c: char)
    requires c !in x && c !in x2
    requires x + [c] + y == x2 + [c] + y2
    ensures x == x2 && y == y2
  {
    var s := x + [c] + y;
    FirstAt(x, y, c);
    FirstAt(x2, y2, c);
    assert |x| == |x2|;
    assert x == s[..|x|] == x2;
    assert y == s[|x| + 1..] == y2;
  }

  /** In `x + [c] + y` with no `c` in `x`, the first `c` is at `|x|`. */
  lemma FirstAt(x: string, y: string, c: char)
    requires c !in x
    ensures (x + [c] + y)[|x|] == c
    ensures forall i :: 0 <= i < |x| ==> (x + [c] + y)[i] != c
  {
    var s := x + [c] + y;
    forall i | 0 <= i < |x|
      ensures s[i] != c
    {
      assert s[i] == x[i];
    }
  }

  /** Two ranges "x - y" whose left parts hold no space agree part by part. */
  lemma RangeParts(x: string, y: string, x2: string, y2: string)
    requires ' ' !in x && ' ' !in x2
    requires x + " - " + y == x2 + " - " + y2
    ensures x == x2 && y == y2
  {
    assert x + " - " + y == x + [' '] + ("- " + y);
    assert x2 + " - " + y2 == x2 + [' '] + ("- " + y2);
    CutAtFirst(x, "- " + y, x2, "- " + y2, ' ');
    assert y == ("- " + y)[2..];
    assert y2 == ("- " + y2)[2..];
  }

  /** Different amounts are written differently. */
  lemma DollarsInjective(a: nat, b: nat)
    requires Dollars(a) == Dollars(b)
    ensures a == b
  {
    DollarsRoundTrip(a);
    DollarsRoundTrip(b);
  }

  /** A salary range determines both bounds. */
  lemma SalaryRangeDeterminesBounds(a: nat, b: nat, a2: nat, b2: nat)
    requires Dollars(a) + " - " + Dollars(b) == Dollars(a2) + " - " + Dollars(b2)
    ensures a == a2 && b == b2
  {
    assert ' ' !in Dollars(a) && ' ' !in Dollars(a2);
    RangeParts(Dollars(a), Dollars(b), Dollars(a2), Dollars(b2));
    DollarsInjective(a, a2);
    DollarsInjective(b, b2);
  }

  // Boards

  function FromAdzuna(l: AdzunaListing): (p: Posting)
    ensures p.source == AdzunaSource && p.title == l.title && p.company == l.company && p.url == l.url
    ensures p.salary == FormatSalary(l.salaryMin, l.salaryMax)
  {
    Posting(l.title, l.company, l.location, FormatSalary(l.salaryMin, l.salaryMax), l.description, l.url, AdzunaSource)
  }

  /** `_search_adzuna`: every result, in order, or nothing when the request fails. */
  function SearchAdzuna(jobTitle: string, location: string, b: Boards): (r: seq<Posting>)
    ensures b.adzuna(jobTitle, location).None? ==> r == []
    ensures b.adzuna(jobTitle, location).Some? ==>
              && |r| == |b.adzuna(jobTitle, location).value|
              && forall k :: 0 <= k < |r| ==> r[k] == FromAdzuna(b.adzuna(jobTitle, location).value[k])
    ensures forall k :: 0 <= k < |r| ==> r[k].source == AdzunaSource
  {
    match b.adzuna(jobTitle, location)
    case None => []
    case Some(ls) => seq(|ls|, k requires 0 <= k < |ls| => FromAdzuna(ls[k]))
  }

  function FromJSearch(l: JSearchListing): (p: Posting)
    ensures p.source == JSearchSource && p.title == l.title && p.company == l.employer && p.url == l.applyLink
    ensures p.location == l.city + ", " + l.state
  {
    Posting(l.title, l.employer, l.city + ", " + l.state, l.salary, l.description, l.applyLink, JSearchSource)
  }

  /** `_search_jsearch`: nothing without an API key, and then no request is
      made; otherwise every result of the query "title location". */
  function SearchJSearch(jobTitle: string, location: string, apiKey: string, b: Boards): (r: seq<Posting>)
    ensures apiKey == "" ==> r == []
    ensures apiKey != "" && b.jsearch(jobTitle + " " + location).Some? ==>
              && |r| == |b.jsearch(jobTitle + " " + location).value|
              && forall k :: 0 <= k < |r| ==> r[k] == FromJSearch(b.jsearch(jobTitle + " " + location).value[k])
    ensures b.jsearch(jobTitle + " " + location).None? ==> r == []
    ensures forall k :: 0 <= k < |r| ==> r[k].source == JSearchSource
  {
    if apiKey == "" then []
    else
      match b.jsearch(jobTitle + " " + location)
      case None => []
      case Some(ls) => seq(|ls|, k requires 0 <= k < |ls| => FromJSearch(ls[k]))
  }

  function FromRemotive(l: BoardListing): (p: Posting)
    ensures p.source == RemotiveSource && p.title == l.title && p.salary == l.salary && p.url == l.url
  {
    Posting(l.title, l.company, l.location, l.salary, l.description, l.url, RemotiveSource)
  }

  /** `_search_remotive`: every result for the title, or nothing when the
      request fails. */
  function SearchRemotive(jobTitle: string, b: Boards): (r: seq<Posting>)
    ensures b.remotive(jobTitle).None? ==> r == []
    ensures b.remotive(jobTitle).Some? ==>
              && |r| == |b.remotive(jobTitle).value|
              && forall k :: 0 <= k < |r| ==> r[k] == FromRemotive(b.remotive(jobTitle).value[k])
    ensures forall k :: 0 <= k < |r| ==> r[k].source == RemotiveSource
  {
    match b.remotive(jobTitle)
    case None => []
    case Some(ls) => seq(|ls|, k requires 0 <= k < |ls| => FromRemotive(ls[k]))
  }

  /** Arbeitnow listings are kept when the searched title, lower-cased, occurs
      in the listing's lower-cased title. */
  predicate TitleMatches(l: BoardListing, jobTitle: string)
  {
    Contains(Lower(l.title), Lower(jobTitle))
  }

  function FromArbeitnow(l: BoardListing): (p: Posting)
    ensures p.source == ArbeitnowSource && p.title == l.title && p.salary == NotSpecified && p.url == l.url
  {
    Posting(l.title, l.company, l.location, NotSpecified, l.description, l.url, ArbeitnowSource)
  }

  /** Which listings of the board match the searched title. */
  function Matching(ls: seq<BoardListing>, jobTitle: string): (m: seq<bool>)
    ensures |m| == |ls| && forall k :: 0 <= k < |ls| ==> m[k] == TitleMatches(ls[k], jobTitle)
  {
    seq(|ls|, k requires 0 <= k < |ls| => TitleMatches(ls[k], jobTitle))
  }

  /** Every listing of the board as a posting, in board order. */
  function Converted(ls: seq<BoardListing>): (ps: seq<Posting>)
    ensures |ps| == |ls| && forall k :: 0 <= k < |ls| ==> ps[k] == FromArbeitnow(ls[k])
  {
    seq(|ls|, k requires 0 <= k < |ls| => FromArbeitnow(ls[k]))
  }

  /** The filtering loop of `_search_arbeitnow`: the matching listings as
      postings, in board order, one per matching listing (a listing that
      appears twice on the board is kept twice). */
  function FilterBoard(ls: seq<BoardListing>, jobTitle: string): (r: seq<Posting>)
    ensures r == Select(Matching(ls, jobTitle), Converted(ls))
    ensures IsSubsequence(r, Converted(ls))
    ensures |r| == CountTrue(Matching(ls, jobTitle))
    ensures forall p :: p in r <==> exists l :: l in ls && TitleMatches(l, jobTitle) && p == FromArbeitnow(l)
    ensures forall k :: 0 <= k < |r| ==> r[k].source == ArbeitnowSource && r[k].salary == NotSpecified
    decreases |ls|
  {
    if |ls| == 0 then []
    else
      var rest := FilterBoard(ls[1..], jobTitle);
      SelectFirst(ls, jobTitle);
      SelectIsSubsequence(Matching(ls, jobTitle), Converted(ls));
      SelectLength(Matching(ls, jobTitle), Converted(ls));
      assert forall l :: l in ls[1..] ==> l in ls;
      assert forall l :: l in ls ==> l == ls[0] || l in ls[1..];
      if TitleMatches(ls[0], jobTitle) then [FromArbeitnow(ls[0])] + rest else rest
  }

  /** The selection over a board: the first listing's posting if it matches,
      then the selection over the rest. */
  lemma SelectFirst(ls: seq<BoardListing>, jobTitle: string)
    requires |ls| > 0
    ensures Select(Matching(ls, jobTitle), Converted(ls))
         == (if TitleMatches(ls[0], jobTitle) then [FromArbeitnow(ls[0])] else [])
            + Select(Matching(ls[1..], jobTitle), Converted(ls[1..]))
  {
    assert Matching(ls, jobTitle)[1..] == Matching(ls[1..], jobTitle);
    assert Converted(ls)[1..] == Converted(ls[1..]);
  }

  /** `_search_arbeitnow`: the board's listings whose title matches, in board
      order, or nothing when the request fails. The location is not used. */
  function SearchArbeitnow(jobTitle: string, location: string, b: Boards): (r: seq<Posting>)
    ensures b.arbeitnow.None? ==> r == []
    ensures b.arbeitnow.Some? ==> forall p :: p in r <==>
              exists l :: l in b.arbeitnow.value && TitleMatches(l, jobTitle) && p == FromArbeitnow(l)
    ensures b.arbeitnow.Some? ==>
              && IsSubsequence(r, Converted(b.arbeitnow.value))
              && |r| == CountTrue(Matching(b.arbeitnow.value, jobTitle))
    ensures forall k :: 0 <= k < |r| ==> r[k].source == ArbeitnowSource
  {
    match b.arbeitnow
    case None => []
    case Some(ls) => FilterBoard(ls, jobTitle)
  }

  // Demonstration postings

  /** Python's `a or b` on strings. */
  function OrDefault(s: string, default: string): (r: string)
    ensures s != "" ==> r == s
    ensures s == "" ==> r == default
  {
    if s != "" then s else default
  }

  /** `_get_mock_jobs`: a senior and a junior posting for the title, at the
      given location or at a default one. */
  function MockJobs(jobTitle: string, location: string): (r: seq<Posting>)
    ensures |r| == 2
    ensures r[0].title == "Senior " + jobTitle && r[1].title == "Junior " + jobTitle
    ensures r[0].location == OrDefault(location, "Remote") && r[1].location == OrDefault(location, "New York, NY")
    ensures r[0].salary == "$80,000 - $120,000" && r[1].salary == "$60,000 - $80,000"
    ensures forall k :: 0 <= k < |r| ==> r[k].source == DemoSource
  {
    [ Posting("Senior " + jobTitle, "TechCorp Inc.", OrDefault(location, "Remote"), "$80,000 - $120,000",
              "We are looking for an experienced " + jobTitle + " to join our dynamic team.",
              "https://example.com/job1", DemoSource),
      Posting("Junior " + jobTitle, "StartupXYZ", OrDefault(location, "New York, NY"), "$60,000 - $80,000",
              "Entry-level " + jobTitle + " position perfect for fresh graduates.",
              "https://example.com/job2", DemoSource) ]
  }

  /** The demonstration salaries are the ranges the salary formatter would
      write for them. */
  lemma MockSalariesAreFormatted()
    ensures FormatSalary(Some(80000), Some(120000)) == "$80,000 - $120,000"
    ensures FormatSalary(Some(60000), Some(80000)) == "$60,000 - $80,000"
  {
    SeniorSalaryFormatted();
    JuniorSalaryFormatted();
  }

  lemma SeniorSalaryFormatted()
    ensures FormatSalary(Some(80000), Some(120000)) == "$80,000 - $120,000"
  {
    Dollars80000();
    Dollars120000();
  }

  lemma JuniorSalaryFormatted()
    ensures FormatSalary(Some(60000), Some(80000)) == "$60,000 - $80,000"
  {
    Dollars60000();
    Dollars80000();
  }

  lemma Dollars60000()
    ensures Dollars(60000) == "$60,000"
  {
    assert Decimal(6) == "6";
    DollarsOfThousands(60, "60");
  }

  lemma Dollars80000()
    ensures Dollars(80000) == "$80,000"
  {
    assert Decimal(8) == "8";
    DollarsOfThousands(80, "80");
  }

  lemma Dollars120000()
    ensures Dollars(120000) == "$120,000"
  {
    assert Decimal(12) == "12";
    DollarsOfThousands(120, "120");
  }

  lemma DollarsOfThousands(q: nat, digits: string)
    requires 0 < q < 1000 && Decimal(q) == digits
    ensures Dollars(1000 * q) == "$" + digits + ",000"
  {
    GroupedThousands(q, digits);
  }

  /** A whole number of thousands below a million is written with ",000". */
  lemma GroupedThousands(q: nat, digits: string)
    requires 0 < q < 1000 && Decimal(q) == digits
    ensures Grouped(1000 * q) == digits + ",000"
  {
    assert (1000 * q) / 1000 == q && (1000 * q) % 1000 == 0;
    assert Pad3(0) == "000";
  }

  // Aggregation

  /** Every board's postings, in the order the boards are asked. */
  function AllPostings(jobTitle: string, location: string, apiKey: string, b: Boards): (r: seq<Posting>)
    ensures forall k :: 0 <= k < |r| ==> r[k].source in {AdzunaSource, JSearchSource, RemotiveSource, ArbeitnowSource}
  {
    SearchAdzuna(jobTitle, location, b) + SearchJSearch(jobTitle, location, apiKey, b)
      + SearchRemotive(jobTitle, b) + SearchArbeitnow(jobTitle, location, b)
  }

  /** `search_jobs`: the first twenty postings of the four boards, or the
      demonstration postings when no board returned any. The experience
      level is accepted and not used. */
  function SearchJobs(jobTitle: string, location: string, experienceLevel: string, apiKey: string, b: Boards): (r: seq<Posting>)
    ensures 0 < |r| <= MaxResults
    ensures AllPostings(jobTitle, location, apiKey, b) == [] ==> r == MockJobs(jobTitle, location)
    ensures AllPostings(jobTitle, location, apiKey, b) != [] ==>
              && |r| == Min(MaxResults, |AllPostings(jobTitle, location, apiKey, b)|)
              && r == AllPostings(jobTitle, location, apiKey, b)[..|r|]
    ensures r[0].source == DemoSource <==> AllPostings(jobTitle, location, apiKey, b) == []
  {
    var jobs := AllPostings(jobTitle, location, apiKey, b);
    var jobs := if jobs == [] then MockJobs(jobTitle, location) else jobs;
    Take(jobs, MaxResults)
  }

  /** With every board down, the result depends only on the title and the
      location. */
  lemma BoardsDownGivesDemo(jobTitle: string, location: string, level: string, apiKey: string, b: Boards)
    requires b.adzuna(jobTitle, location).None? && b.jsearch(jobTitle + " " + location).None?
    requires b.remotive(jobTitle).None? && b.arbeitnow.None?
    ensures SearchJobs(jobTitle, location, level, apiKey, b) == MockJobs(jobTitle, location)
  {
  }
}
