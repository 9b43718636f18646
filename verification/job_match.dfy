/** Job-description matching and the other service-backed résumé features of
    the analyzer. The text-generation service is an oracle `complete` that
    returns a reply or `None` on any failure; the TF-IDF cosine similarity is
    an oracle `similarity` that returns the truncated percentage or `None`
    when vectorising raises. */
module JobMatch {
  import opened Wrappers
  import opened Seqs
  import opened Text
  import opened Keywords
  import opened AnalysisParser

  type Percent = x: int | 0 <= x <= 100

  /** What is sent to the text-generation service. Only the values each prompt
      embeds are modelled, not its fixed wording. */
  datatype Prompt =
    | AnalysisPrompt(jobExcerpt: string, resumeExcerpt: string, matchScore: int)
    | EnhancePrompt(resumeExcerpt: string, targetScore: int)
    | LinePrompt(lineNumber: nat, line: string)

  /** Shortest stripped job description that is analysed. */
  const MinDescriptionLength: nat := 50
  /** Characters of the résumé and of the job description put in the analysis prompt. */
  const AnalysisExcerpt: nat := 1500
  /** Characters of the résumé put in the enhancement prompt. */
  const EnhanceExcerpt: nat := 2000

  const ShortDescriptionSuggestion := "Add a comprehensive job description to get accurate analysis"
  const UnreadableDescriptionSuggestion := "Ensure job description contains readable text"

  datatype MatchError = DescriptionTooShort | AnalysisFailed

  /** The dictionary `match_job_description` returns: the error variant has
      no strengths and improvements. */
  datatype MatchReport =
    | Rejected(error: MatchError, matchScore: int, missingKeywords: seq<string>, suggestions: seq<string>)
    | Analysed(matchScore: int, missingKeywords: seq<string>, suggestions: seq<string>,
               improvements: seq<string>, strengths: seq<string>)

  /** The analysis prompt embeds the first 1500 characters of the job
      description and of the résumé, and the match score. */
  function AnalysisPromptFor(resume: string, job: string, matchScore: int): (p: Prompt)
    ensures p.AnalysisPrompt? && p.matchScore == matchScore
    ensures |p.jobExcerpt| == Min(AnalysisExcerpt, |job|) && StartsWith(job, p.jobExcerpt)
    ensures |p.resumeExcerpt| == Min(AnalysisExcerpt, |resume|) && StartsWith(resume, p.resumeExcerpt)
  {
    AnalysisPrompt(Take(job, AnalysisExcerpt), Take(resume, AnalysisExcerpt), matchScore)
  }

  /** `_get_comprehensive_analysis`: the parsed service reply, or the canned
      analysis for this score when the service fails; either way no list is
      empty. */
  function ComprehensiveAnalysis(resume: string, job: string, matchScore: int,
                                 complete: Prompt -> Option<string>): (r: Sections)
    ensures r.strengths != [] && r.improvements != [] && r.suggestions != []
    ensures complete(AnalysisPromptFor(resume, job, matchScore)).Some? ==>
              r == ParseAnalysis(complete(AnalysisPromptFor(resume, job, matchScore)).value)
    ensures complete(AnalysisPromptFor(resume, job, matchScore)).None? ==> r == FallbackAnalysis(matchScore)
  {
    match complete(AnalysisPromptFor(resume, job, matchScore))
    case Some(reply) => ParseAnalysis(reply)
    case None => FallbackAnalysis(matchScore)
  }

  /** `match_job_description`. A description that is empty or shorter than 50
      characters once stripped is rejected before anything else runs; a failing
      similarity computation is rejected next; otherwise the report carries the
      similarity score, the first fifteen job keywords (in the order the
      keyword set is listed) that the résumé lacks, and a non-empty analysis. */
  function MatchJobDescription(resume: string, job: string,
                               similarity: (string, string) -> Option<Percent>,
                               complete: Prompt -> Option<string>,
                               order: set<string> -> seq<string>): (r: MatchReport)
    requires Enumerates(order)
    ensures 0 <= r.matchScore <= 100
    ensures |Strip(job)| < MinDescriptionLength ==>
              r == Rejected(DescriptionTooShort, 0, [], [ShortDescriptionSuggestion])
    ensures |Strip(job)| >= MinDescriptionLength && similarity(resume, job).None? ==>
              r == Rejected(AnalysisFailed, 0, [], [UnreadableDescriptionSuggestion])
    ensures r.Analysed? <==> |Strip(job)| >= MinDescriptionLength && similarity(resume, job).Some?
    ensures r.Analysed? ==> Some(r.matchScore) == similarity(resume, job)
    ensures r.Analysed? ==> |r.missingKeywords| <= ComparedKeywords && NoDups(r.missingKeywords)
    ensures r.Analysed? ==> IsSubsequence(r.missingKeywords, Take(order(KeywordSet(job)), ComparedKeywords))
    ensures r.Analysed? ==> forall w :: w in r.missingKeywords <==>
              w in Take(order(KeywordSet(job)), ComparedKeywords) && w !in KeywordSet(resume)
    ensures r.Analysed? ==> r.strengths != [] && r.improvements != [] && r.suggestions != []
    ensures r.Analysed? ==>
              Sections(r.strengths, r.improvements, r.suggestions) == ComprehensiveAnalysis(resume, job, r.matchScore, complete)
  {
    if job == "" || |Strip(job)| < MinDescriptionLength then
      Rejected(DescriptionTooShort, 0, [], [ShortDescriptionSuggestion])
    else
      match similarity(resume, job)
      case None => Rejected(AnalysisFailed, 0, [], [UnreadableDescriptionSuggestion])
      case Some(score) =>
        var jobKeywords := ExtractKeywords(job, order);
        var resumeKeywords := ExtractKeywords(Lower(resume), order);
        LowerIdempotent(resume);
        var missing := MissingKeywords(jobKeywords, set w | w in resumeKeywords);
        var analysis := ComprehensiveAnalysis(resume, job, score, complete);
        Analysed(score, missing, analysis.suggestions, analysis.improvements, analysis.strengths)
  }

  // Enhanced résumé

  const EnhancementHeading := "\n\n--- ENHANCEMENT SUGGESTIONS ---\n"

  const EnhancementTips :=
    "• Replace weak verbs with strong action verbs (managed → spearheaded, helped → facilitated)\n"
    + "• Add specific numbers and percentages to achievements\n"
    + "• Include relevant technical skills and certifications\n"
    + "• Use industry-specific keywords throughout\n"
    + "• Ensure consistent formatting and bullet points\n"

  /** `_get_fallback_enhanced_resume`: the résumé unchanged, preceded by a line
      break and followed by a fixed list of suggestions. */
  function FallbackEnhancedResume(resume: string): (r: string)
    ensures StartsWith(r, "\n" + resume + EnhancementHeading)
    ensures EndsWith(r, EnhancementTips)
    ensures Contains(r, resume)
  {
    var r := "\n" + resume + EnhancementHeading + EnhancementTips;
    PrefixOfAppend("\n" + resume + EnhancementHeading, EnhancementTips);
    ContainsInfix("\n", resume, EnhancementHeading + EnhancementTips);
    assert "\n" + resume + (EnhancementHeading + EnhancementTips) == r;
    assert r[|r| - |EnhancementTips|..] == EnhancementTips;
    r
  }

  /** The résumé can be read back from the fallback text: it is the text
      after the first character, up to the fixed heading and tips. */
  lemma FallbackEnhancedRecoverable(resume: string)
    ensures var r := FallbackEnhancedResume(resume);
            |r| == |resume| + 1 + |EnhancementHeading| + |EnhancementTips|
            && r[1..|r| - |EnhancementHeading| - |EnhancementTips|] == resume
  {
    var r := FallbackEnhancedResume(resume);
    assert r == "\n" + resume + EnhancementHeading + EnhancementTips;
    assert r[1..1 + |resume|] == resume;
  }

  /** Different résumés never share a fallback text. */
  lemma FallbackEnhancedInjective(a: string, b: string)
    requires FallbackEnhancedResume(a) == FallbackEnhancedResume(b)
    ensures a == b
  {
    FallbackEnhancedRecoverable(a);
    FallbackEnhancedRecoverable(b);
  }

  /** The enhancement prompt embeds the first 2000 characters of the résumé
      and the target score. */
  function EnhancePromptFor(resume: string, targetScore: int): (p: Prompt)
    ensures p.EnhancePrompt? && p.targetScore == targetScore
    ensures |p.resumeExcerpt| == Min(EnhanceExcerpt, |resume|) && StartsWith(resume, p.resumeExcerpt)
  {
    EnhancePrompt(Take(resume, EnhanceExcerpt), targetScore)
  }

  /** `generate_enhanced_resume`: the service's rewrite of the first 2000
      characters, or the original résumé with the canned suggestions. */
  function GenerateEnhancedResume(resume: string, targetScore: int, complete: Prompt -> Option<string>): (r: string)
    ensures complete(EnhancePromptFor(resume, targetScore)).Some? ==>
              r == complete(EnhancePromptFor(resume, targetScore)).value
    ensures complete(EnhancePromptFor(resume, targetScore)).None? ==>
              r == FallbackEnhancedResume(resume) && Contains(r, resume)
  {
    complete(EnhancePromptFor(resume, targetScore)).GetOr(FallbackEnhancedResume(resume))
  }

  // Line-by-line improvements

  datatype LineImprovement = LineImprovement(lineNumber: nat, original: string, suggestion: string)

  /** Lines the service is asked about. */
  const LineLimit: nat := 20
  /** Lines the canned suggestions cover. */
  const FallbackLineLimit: nat := 10

  /** Only lines longer than ten characters once stripped get a suggestion. */
  predicate Substantial(line: string)
  {
    |Strip(line)| > 10
  }

  /** Which lines get a suggestion. */
  function Keep(lines: seq<string>): (r: seq<bool>)
    ensures |r| == |lines|
    ensures forall j :: 0 <= j < |lines| ==> r[j] == Substantial(lines[j])
  {
    seq(|lines|, j requires 0 <= j < |lines| => Substantial(lines[j]))
  }

  /** The lines as quoted in a suggestion. */
  function Stripped(lines: seq<string>): (r: seq<string>)
    ensures |r| == |lines|
    ensures forall j :: 0 <= j < |lines| ==> r[j] == Strip(lines[j])
  {
    seq(|lines|, j requires 0 <= j < |lines| => Strip(lines[j]))
  }

  /** Every entry of `xs` names a kept line after `from` and quotes it. */
  ghost predicate EntriesKept(xs: seq<LineImprovement>, keep: seq<bool>, text: seq<string>, from: nat)
    requires |keep| == |text|
  {
    forall k :: 0 <= k < |xs| ==>
      && from < xs[k].lineNumber <= |keep|
      && keep[xs[k].lineNumber - 1]
      && xs[k].original == text[xs[k].lineNumber - 1]
  }

  /** The entries are in strictly increasing line order. */
  ghost predicate InLineOrder(xs: seq<LineImprovement>)
  {
    forall k, l :: 0 <= k < l < |xs| ==> xs[k].lineNumber < xs[l].lineNumber
  }

  /** Line `j` (from 0) has an entry. */
  ghost predicate HasEntry(xs: seq<LineImprovement>, j: nat)
  {
    exists k :: 0 <= k < |xs| && xs[k].lineNumber == j + 1
  }

  /** `xs` has one entry per kept line from index `from` on, in line order,
      each numbered from 1 and quoting that line's text. */
  ghost predicate Covers(xs: seq<LineImprovement>, keep: seq<bool>, text: seq<string>, from: nat)
    requires |keep| == |text|
  {
    && EntriesKept(xs, keep, text, from)
    && InLineOrder(xs)
    && (forall j :: from <= j < |keep| && keep[j] ==> HasEntry(xs, j))
  }

  /** `xs` has one entry per substantial line of `lines[from..]`, in line
      order, each numbered from 1 and carrying its stripped line. */
  ghost predicate CoversLines(xs: seq<LineImprovement>, lines: seq<string>, from: nat)
  {
    Covers(xs, Keep(lines), Stripped(lines), from)
  }

  lemma CoversSkip(xs: seq<LineImprovement>, keep: seq<bool>, text: seq<string>, i: nat)
    requires |keep| == |text| && i < |keep| && !keep[i]
    requires Covers(xs, keep, text, i + 1)
    ensures Covers(xs, keep, text, i)
  {
  }

  lemma EntriesCons(x: LineImprovement, rest: seq<LineImprovement>, keep: seq<bool>, text: seq<string>, i: nat)
    requires |keep| == |text| && i < |keep| && keep[i]
    requires x.lineNumber == i + 1 && x.original == text[i]
    requires EntriesKept(rest, keep, text, i + 1)
    ensures EntriesKept([x] + rest, keep, text, i)
    ensures InLineOrder(rest) ==> InLineOrder([x] + rest)
  {
    var xs := [x] + rest;
    assert forall k :: 0 < k < |xs| ==> xs[k] == rest[k - 1];
  }

  lemma HasEntryCons(x: LineImprovement, rest: seq<LineImprovement>, keep: seq<bool>, i: nat)
    requires i < |keep| && x.lineNumber == i + 1
    requires forall j :: i + 1 <= j < |keep| && keep[j] ==> HasEntry(rest, j)
    ensures forall j :: i <= j < |keep| && keep[j] ==> HasEntry([x] + rest, j)
  {
    var xs := [x] + rest;
    forall j | i <= j < |keep| && keep[j]
      ensures HasEntry(xs, j)
    {
      if j == i {
        assert xs[0].lineNumber == j + 1;
      } else {
        assert HasEntry(rest, j);
        var k :| 0 <= k < |rest| && rest[k].lineNumber == j + 1;
        assert xs[k + 1].lineNumber == j + 1;
      }
    }
  }

  lemma CoversCons(x: LineImprovement, rest: seq<LineImprovement>, keep: seq<bool>, text: seq<string>, i: nat)
    requires |keep| == |text| && i < |keep| && keep[i]
    requires x.lineNumber == i + 1 && x.original == text[i]
    requires Covers(rest, keep, text, i + 1)
    ensures Covers([x] + rest, keep, text, i)
  {
    EntriesCons(x, rest, keep, text, i);
    HasEntryCons(x, rest, keep, i);
  }

  /** Every entry carries the suggestion `suggest` gives for its line. */
  ghost predicate Answered(xs: seq<LineImprovement>, suggest: (nat, string) -> Option<string>)
  {
    forall k :: 0 <= k < |xs| ==> suggest(xs[k].lineNumber, xs[k].original) == Some(xs[k].suggestion)
  }

  lemma AnsweredCons(x: LineImprovement, rest: seq<LineImprovement>, suggest: (nat, string) -> Option<string>)
    requires suggest(x.lineNumber, x.original) == Some(x.suggestion)
    requires Answered(rest, suggest)
    ensures Answered([x] + rest, suggest)
  {
    var xs := [x] + rest;
    assert forall k :: 0 < k < |xs| ==> xs[k] == rest[k - 1];
  }

  /** Some kept line from index `i` on gets no answer. */
  ghost predicate RequestFails(keep: seq<bool>, text: seq<string>, i: nat, suggest: (nat, string) -> Option<string>)
    requires |keep| == |text|
  {
    exists j :: i <= j < |keep| && keep[j] && suggest(j + 1, text[j]).None?
  }

  /** A covering list whose every entry was answered leaves no request unanswered. */
  lemma CoveredMeansAnswered(xs: seq<LineImprovement>, keep: seq<bool>, text: seq<string>, i: nat,
                             suggest: (nat, string) -> Option<string>)
    requires |keep| == |text|
    requires Covers(xs, keep, text, i) && Answered(xs, suggest)
    ensures !RequestFails(keep, text, i, suggest)
  {
    forall j | i <= j < |keep| && keep[j]
      ensures suggest(j + 1, text[j]).Some?
    {
      EntryAnswered(xs, keep, text, i, suggest, j);
    }
  }

  lemma EntryAnswered(xs: seq<LineImprovement>, keep: seq<bool>, text: seq<string>, i: nat,
                      suggest: (nat, string) -> Option<string>, j: nat)
    requires |keep| == |text| && i <= j < |keep| && keep[j]
    requires EntriesKept(xs, keep, text, i) && Answered(xs, suggest) && HasEntry(xs, j)
    ensures suggest(j + 1, text[j]).Some?
  {
    var k :| 0 <= k < |xs| && xs[k].lineNumber == j + 1;
    assert xs[k].original == text[j];
    assert suggest(xs[k].lineNumber, xs[k].original) == Some(xs[k].suggestion);
  }

  /** What the loop promises from line `i` on: a covering, fully answered
      list when every request is answered, and no list exactly when some
      request fails. */
  ghost predicate Annotated(r: Option<seq<LineImprovement>>, keep: seq<bool>, text: seq<string>, i: nat,
                            suggest: (nat, string) -> Option<string>)
    requires |keep| == |text| && i <= |keep|
  {
    && (r.Some? ==> Covers(r.value, keep, text, i) && |r.value| <= |keep| - i && Answered(r.value, suggest))
    && (r.None? <==> RequestFails(keep, text, i, suggest))
  }

  lemma AnnotatedSkip(r: Option<seq<LineImprovement>>, keep: seq<bool>, text: seq<string>, i: nat,
                      suggest: (nat, string) -> Option<string>)
    requires |keep| == |text| && i < |keep| && !keep[i]
    requires Annotated(r, keep, text, i + 1, suggest)
    ensures Annotated(r, keep, text, i, suggest)
  {
    if r.Some? {
      CoversSkip(r.value, keep, text, i);
      CoveredMeansAnswered(r.value, keep, text, i, suggest);
    }
  }

  lemma AnnotatedFails(r: Option<seq<LineImprovement>>, keep: seq<bool>, text: seq<string>, i: nat,
                       suggest: (nat, string) -> Option<string>)
    requires |keep| == |text| && i < |keep| && keep[i]
    requires suggest(i + 1, text[i]).None? || Annotated(None, keep, text, i + 1, suggest)
    ensures Annotated(None, keep, text, i, suggest)
  {
    if suggest(i + 1, text[i]).None? {
      assert keep[i] && suggest(i + 1, text[i]).None?;
    } else {
      var j :| i + 1 <= j < |keep| && keep[j] && suggest(j + 1, text[j]).None?;
      assert i <= j;
    }
  }

  lemma AnnotatedCons(x: LineImprovement, rest: seq<LineImprovement>, keep: seq<bool>, text: seq<string>, i: nat,
                      suggest: (nat, string) -> Option<string>)
    requires |keep| == |text| && i < |keep| && keep[i]
    requires x.lineNumber == i + 1 && x.original == text[i] && suggest(i + 1, text[i]) == Some(x.suggestion)
    requires Annotated(Some(rest), keep, text, i + 1, suggest)
    ensures Annotated(Some([x] + rest), keep, text, i, suggest)
  {
    CoversCons(x, rest, keep, text, i);
    AnsweredCons(x, rest, suggest);
    CoveredMeansAnswered([x] + rest, keep, text, i, suggest);
  }

  /** The loop of `get_line_improvements` from line `i` on, over the lines'
      keep flags and stripped texts: one request per kept line; a single
      failed request fails the whole loop. */
  function Annotate(keep: seq<bool>, text: seq<string>, i: nat, suggest: (nat, string) -> Option<string>)
    : (r: Option<seq<LineImprovement>>)
    requires |keep| == |text| && i <= |keep|
    ensures r.Some? ==> Covers(r.value, keep, text, i) && |r.value| <= |keep| - i
    ensures r.Some? ==> Answered(r.value, suggest)
    ensures r.None? <==> RequestFails(keep, text, i, suggest)
    decreases |keep| - i
  {
    var r :=
      if i == |keep| then Some([])
      else if !keep[i] then
        var r := Annotate(keep, text, i + 1, suggest);
        AnnotatedSkip(r, keep, text, i, suggest);
        r
      else
        (match suggest(i + 1, text[i])
         case None =>
           AnnotatedFails(None, keep, text, i, suggest);
           None
         case Some(s) =>
           (match Annotate(keep, text, i + 1, suggest)
            case None =>
              AnnotatedFails(None, keep, text, i, suggest);
              None
            case Some(rest) =>
              var x := LineImprovement(i + 1, text[i], s);
              AnnotatedCons(x, rest, keep, text, i, suggest);
              Some([x] + rest)));
    assert Annotated(r, keep, text, i, suggest);
    r
  }

  const FallbackLineSuggestion := "Add quantified results and stronger action verbs"

  /** The first ten lines: the canned suggestions cover. */
  function FallbackLines(resume: string): (r: seq<string>)
    ensures |r| == Min(FallbackLineLimit, |Split(resume, '\n')|) && r == Split(resume, '\n')[..|r|]
  {
    Take(Split(resume, '\n'), FallbackLineLimit)
  }

  /** The first twenty lines: the ones the service is asked about. */
  function ServiceLines(resume: string): (r: seq<string>)
    ensures |r| == Min(LineLimit, |Split(resume, '\n')|) && r == Split(resume, '\n')[..|r|]
  {
    Take(Split(resume, '\n'), LineLimit)
  }

  /** `_get_fallback_line_improvements`: the canned suggestion for every
      substantial line among the first ten. */
  function FallbackLineImprovements(resume: string): (r: seq<LineImprovement>)
    ensures CoversLines(r, FallbackLines(resume), 0)
    ensures forall k :: 0 <= k < |r| ==> r[k].suggestion == FallbackLineSuggestion
  {
    var suggest := (n: nat, line: string) => Some(FallbackLineSuggestion);
    var lines := FallbackLines(resume);
    assert !RequestFails(Keep(lines), Stripped(lines), 0, suggest);
    Annotate(Keep(lines), Stripped(lines), 0, suggest).value
  }

  /** The reply to the request about a line, as the line's suggestion. */
  function LineSuggester(complete: Prompt -> Option<string>): (nat, string) -> Option<string>
  {
    (n: nat, line: string) =>
      match complete(LinePrompt(n, line))
      case Some(reply) => Some(RemoveAll(reply, "Suggestion: "))
      case None => None
  }

  /** Some substantial line among the first twenty gets no reply. */
  ghost predicate LineRequestFails(resume: string, complete: Prompt -> Option<string>)
  {
    var lines := ServiceLines(resume);
    exists j :: 0 <= j < |lines| && Substantial(lines[j]) && complete(LinePrompt(j + 1, Strip(lines[j]))).None?
  }

  /** The failure of a line request, seen through the suggester. */
  lemma LineRequestFailsIff(resume: string, complete: Prompt -> Option<string>)
    ensures LineRequestFails(resume, complete)
        <==> RequestFails(Keep(ServiceLines(resume)), Stripped(ServiceLines(resume)), 0, LineSuggester(complete))
  {
  }

  /** An entry answered through the suggester carries its reply with every
      "Suggestion: " removed. */
  lemma AnsweredByService(xs: seq<LineImprovement>, complete: Prompt -> Option<string>)
    requires Answered(xs, LineSuggester(complete))
    ensures forall k :: 0 <= k < |xs| ==>
              && complete(LinePrompt(xs[k].lineNumber, xs[k].original)).Some?
              && xs[k].suggestion == RemoveAll(complete(LinePrompt(xs[k].lineNumber, xs[k].original)).value, "Suggestion: ")
  {
  }

  /** `get_line_improvements`: when every request is answered, one entry per
      substantial line among the first twenty carrying the reply with every
      "Suggestion: " removed; if any request fails, the canned suggestions for
      the first ten lines. */
  function GetLineImprovements(resume: string, complete: Prompt -> Option<string>): (r: seq<LineImprovement>)
    ensures !LineRequestFails(resume, complete) ==>
              && CoversLines(r, ServiceLines(resume), 0)
              && forall k :: 0 <= k < |r| ==>
                   && complete(LinePrompt(r[k].lineNumber, r[k].original)).Some?
                   && r[k].suggestion == RemoveAll(complete(LinePrompt(r[k].lineNumber, r[k].original)).value, "Suggestion: ")
    ensures LineRequestFails(resume, complete) ==> r == FallbackLineImprovements(resume)
    ensures |r| <= LineLimit
  {
    LineRequestFailsIff(resume, complete);
    var lines := ServiceLines(resume);
    match Annotate(Keep(lines), Stripped(lines), 0, LineSuggester(complete))
    case Some(xs) =>
      AnsweredByService(xs, complete);
      xs
    case None => FallbackLineImprovements(resume)
  }
}
