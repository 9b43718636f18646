/** Parsing of the text-generation service's reply into three bullet lists,
    and the canned lists used when a list comes back empty or the service is
    unavailable. The parser is a small state machine over the reply's lines:
    a header line selects the section, a `-` line adds an item to it. */
module AnalysisParser {
  import opened Text

  datatype Section = NoSection | Strengths | Improvements | Suggestions

  /** What one stripped reply line means to the parser. */
  datatype LineKind = Header(section: Section) | Bullet(item: string) | Other

  /** The characters `strip('- ')` removes from a bullet line. */
  const BulletTrim: set<char> := {'-', ' '}

  predicate NamesHeader(line: string)
  {
    var up := Upper(line);
    Contains(up, "STRENGTHS:") || Contains(up, "IMPROVEMENTS:") || Contains(up, "SUGGESTIONS:")
  }

  /** Header tokens are looked for first, in the order strengths, improvements,
      suggestions; only a line naming none of them can be a bullet. */
  function Classify(line: string): (k: LineKind)
    ensures k.Header? <==> NamesHeader(line)
    ensures k.Header? ==> k.section != NoSection
    ensures k == Header(Strengths) <==> Contains(Upper(line), "STRENGTHS:")
    ensures k == Header(Improvements) <==>
              !Contains(Upper(line), "STRENGTHS:") && Contains(Upper(line), "IMPROVEMENTS:")
    ensures k == Header(Suggestions) <==>
              !Contains(Upper(line), "STRENGTHS:") && !Contains(Upper(line), "IMPROVEMENTS:")
              && Contains(Upper(line), "SUGGESTIONS:")
    ensures k.Bullet? <==> !NamesHeader(line) && StartsWith(line, "-")
    ensures k.Bullet? ==> k.item == StripChars(line, BulletTrim)
  {
    var up := Upper(line);
    if Contains(up, "STRENGTHS:") then Header(Strengths)
    else if Contains(up, "IMPROVEMENTS:") then Header(Improvements)
    else if Contains(up, "SUGGESTIONS:") then Header(Suggestions)
    else if StartsWith(line, "-") then Bullet(StripChars(line, BulletTrim))
    else Other
  }

  datatype Sections = Sections(strengths: seq<string>, improvements: seq<string>, suggestions: seq<string>)

  function Add(s: Sections, sec: Section, item: string): Sections
  {
    match sec
    case Strengths => s.(strengths := s.strengths + [item])
    case Improvements => s.(improvements := s.improvements + [item])
    case Suggestions => s.(suggestions := s.suggestions + [item])
    case NoSection => s
  }

  /** The state machine: the current section and the items collected so far. */
  datatype ScanState = ScanState(current: Section, found: Sections)

  const Start := ScanState(NoSection, Sections([], [], []))

  /** One line: a header switches the section and adds nothing; a bullet is
      added to the current section, if there is one. */
  function Step(st: ScanState, k: LineKind): ScanState
  {
    match k
    case Header(sec) => st.(current := sec)
    case Bullet(item) => if st.current == NoSection then st else st.(found := Add(st.found, st.current, item))
    case Other => st
  }

  /** The parsing loop, one classified line at a time from the first. */
  function Scan(kinds: seq<LineKind>, st: ScanState): ScanState
    decreases |kinds|
  {
    if |kinds| == 0 then st else Scan(kinds[1..], Step(st, kinds[0]))
  }

  // Reference reading of a reply

  /** The section named by the last header among `kinds`, or none. */
  function ActiveSection(kinds: seq<LineKind>): Section
    decreases |kinds|
  {
    if |kinds| == 0 then NoSection
    else match kinds[|kinds| - 1]
      case Header(sec) => sec
      case _ => ActiveSection(kinds[..|kinds| - 1])
  }

  /** The items of the bullets that the nearest header above them assigns to
      `sec`, in line order. */
  function Items(kinds: seq<LineKind>, sec: Section): seq<string>
    decreases |kinds|
  {
    if |kinds| == 0 then []
    else
      var before := kinds[..|kinds| - 1];
      var k := kinds[|kinds| - 1];
      Items(before, sec) + (if k.Bullet? && sec != NoSection && ActiveSection(before) == sec then [k.item] else [])
  }

  function Reference(kinds: seq<LineKind>): ScanState
  {
    ScanState(ActiveSection(kinds),
              Sections(Items(kinds, Strengths), Items(kinds, Improvements), Items(kinds, Suggestions)))
  }

  lemma StepExtends(kinds: seq<LineKind>, k: LineKind)
    ensures Step(Reference(kinds), k) == Reference(kinds + [k])
  {
    var all := kinds + [k];
    assert all[..|all| - 1] == kinds;
    assert all[|all| - 1] == k;
  }

  lemma {:induction false} ScanFromReference(done: seq<LineKind>, rest: seq<LineKind>)
    ensures Scan(rest, Reference(done)) == Reference(done + rest)
    decreases |rest|
  {
    if |rest| == 0 {
      assert done + rest == done;
    } else {
      var next := done + [rest[0]];
      calc {
        Scan(rest, Reference(done));
        Scan(rest[1..], Step(Reference(done), rest[0]));
        { StepExtends(done, rest[0]); }
        Scan(rest[1..], Reference(next));
        { ScanFromReference(next, rest[1..]); }
        Reference(next + rest[1..]);
        { assert next + rest[1..] == done + rest; }
        Reference(done + rest);
      }
    }
  }

  /** Running the state machine over all lines reaches the reference reading. */
  lemma ScanIsReference(kinds: seq<LineKind>)
    ensures Scan(kinds, Start) == Reference(kinds)
  {
    assert Reference([]) == Start;
    ScanFromReference([], kinds);
    assert [] + kinds == kinds;
  }

  /** Line `k` is a bullet with text `x` and the nearest header above it is
      `sec`. */
  ghost predicate ContributesAt(kinds: seq<LineKind>, k: int, sec: Section, x: string)
  {
    0 <= k < |kinds| && sec != NoSection && kinds[k] == Bullet(x) && ActiveSection(kinds[..k]) == sec
  }

  lemma {:induction false} ItemsSound(kinds: seq<LineKind>, sec: Section, x: string)
    requires x in Items(kinds, sec)
    ensures exists k :: ContributesAt(kinds, k, sec, x)
    decreases |kinds|
  {
    var n := |kinds| - 1;
    var before := kinds[..n];
    if x in Items(before, sec) {
      ItemsSound(before, sec, x);
      var k :| ContributesAt(before, k, sec, x);
      assert kinds[k] == before[k] && kinds[..k] == before[..k];
      assert ContributesAt(kinds, k, sec, x);
    } else {
      assert ContributesAt(kinds, n, sec, x);
    }
  }

  lemma {:induction false} ItemsComplete(kinds: seq<LineKind>, sec: Section, x: string, k: int)
    requires ContributesAt(kinds, k, sec, x)
    ensures x in Items(kinds, sec)
    decreases |kinds|
  {
    var n := |kinds| - 1;
    var before := kinds[..n];
    if k < n {
      assert ContributesAt(before, k, sec, x) by {
        assert before[k] == kinds[k] && before[..k] == kinds[..k];
      }
      ItemsComplete(before, sec, x, k);
    } else {
      assert kinds[..k] == before;
    }
  }

  /** Where items come from: a string is an item of `sec` exactly when some
      bullet line under a `sec` header yields it. Header lines and lines before
      the first header never contribute. */
  lemma ItemsOrigin(kinds: seq<LineKind>, sec: Section, x: string)
    ensures x in Items(kinds, sec) <==> exists k :: ContributesAt(kinds, k, sec, x)
  {
    if x in Items(kinds, sec) {
      ItemsSound(kinds, sec, x);
    }
    if exists k :: ContributesAt(kinds, k, sec, x) {
      var k :| ContributesAt(kinds, k, sec, x);
      ItemsComplete(kinds, sec, x, k);
    }
  }

  // Canned content

  const CannedStrengths: seq<string> :=
    ["Resume contains relevant work experience",
     "Professional formatting and structure"]
  const CannedImprovements: seq<string> :=
    ["Add more quantified achievements with specific numbers",
     "Include more industry-specific keywords",
     "Strengthen technical skills section"]
  const CannedSuggestions: seq<string> :=
    ["Tailor experience descriptions to match job requirements",
     "Add relevant certifications or training",
     "Use action verbs that appear in the job description",
     "Include measurable results and impact statements"]

  /** `_get_fallback_content`: the canned list of each section; an unknown
      section gets the empty list. */
  function FallbackContent(sec: Section): (r: seq<string>)
    ensures sec == Strengths ==> |r| == 2
    ensures sec == Improvements ==> |r| == 3
    ensures sec == Suggestions ==> |r| == 4
    ensures r == [] <==> sec == NoSection
  {
    match sec
    case Strengths => CannedStrengths
    case Improvements => CannedImprovements
    case Suggestions => CannedSuggestions
    case NoSection => []
  }

  function OrFallback(items: seq<string>, sec: Section): seq<string>
  {
    if items == [] then FallbackContent(sec) else items
  }

  /** The reply's lines, each stripped of surrounding whitespace. */
  function Lines(text: string): (r: seq<string>)
    ensures |r| == |Split(text, '\n')|
    ensures forall k :: 0 <= k < |r| ==> r[k] == Strip(Split(text, '\n')[k])
  {
    var parts := Split(text, '\n');
    seq(|parts|, k requires 0 <= k < |parts| => Strip(parts[k]))
  }

  /** The classification of every stripped line of a reply. */
  function Kinds(text: string): (r: seq<LineKind>)
    ensures |r| == |Lines(text)|
    ensures forall k :: 0 <= k < |r| ==> r[k] == Classify(Lines(text)[k])
  {
    var lines := Lines(text);
    seq(|lines|, k requires 0 <= k < |lines| => Classify(lines[k]))
  }

  /** `_parse_analysis`: each section gets the items the reference reading
      assigns it, or its canned list when there are none, so no section is
      empty. */
  function ParseAnalysis(text: string): (r: Sections)
    ensures r.strengths != [] && r.improvements != [] && r.suggestions != []
    ensures r.strengths == OrFallback(Items(Kinds(text), Strengths), Strengths)
    ensures r.improvements == OrFallback(Items(Kinds(text), Improvements), Improvements)
    ensures r.suggestions == OrFallback(Items(Kinds(text), Suggestions), Suggestions)
  {
    var found := Scan(Kinds(text), Start).found;
    ScanIsReference(Kinds(text));
    Sections(OrFallback(found.strengths, Strengths),
             OrFallback(found.improvements, Improvements),
             OrFallback(found.suggestions, Suggestions))
  }

  // Canned analysis when the service is unavailable

  const CommonImprovements: seq<string> :=
    ["Add more quantified achievements (numbers, percentages, dollar amounts)",
     "Include industry-specific keywords from the job description",
     "Strengthen your technical skills section"]

  /** `_get_fallback_analysis`: two strengths, four suggestions, and three
      improvements, extended by two more when the match score is below 60. */
  function FallbackAnalysis(matchScore: int): (r: Sections)
    ensures |r.strengths| == 2 && |r.suggestions| == 4
    ensures |r.improvements| == (if matchScore < 60 then 5 else 3)
  {
    var improvements :=
      if matchScore < 60 then
        CommonImprovements + ["Rewrite experience bullets to match job requirements",
                              "Add relevant certifications or training"]
      else CommonImprovements;
    Sections(["Resume has professional structure",
              "Contains relevant work experience"],
             improvements,
             ["Use exact keywords from the job posting",
              "Quantify your achievements with specific metrics",
              "Tailor your summary to match the role",
              "Add relevant technical skills mentioned in the job description"])
  }

  /** The canned strengths and suggestions do not depend on the score, and the
      improvements for any two scores agree on their first three entries; a low
      score only appends. */
  lemma FallbackAnalysisShared(a: int, b: int)
    ensures FallbackAnalysis(a).strengths == FallbackAnalysis(b).strengths
    ensures FallbackAnalysis(a).suggestions == FallbackAnalysis(b).suggestions
    ensures FallbackAnalysis(a).improvements[..3] == FallbackAnalysis(b).improvements[..3]
    ensures a < 60 <= b ==> FallbackAnalysis(a).improvements[..3] == FallbackAnalysis(b).improvements
  {
  }
}
