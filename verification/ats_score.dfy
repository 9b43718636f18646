/** The heuristic ATS scorer: three ten-point structure checks, a keyword
    score out of 40 and a formatting score out of 30, with an ordered list of
    feedback messages for the checks that fall short. */
module AtsScore {
  import opened Seqs
  import opened Text

  /** The fifteen words whose presence in the lower-cased résumé earns keyword
      points. */
  const Vocabulary: seq<string> :=
    ["experience", "skills", "education", "projects", "achievements",
     "responsibilities", "managed", "developed", "implemented", "created",
     "improved", "increased", "reduced", "led", "collaborated"]

  /** Section names; the résumé needs two of them. */
  const SectionWords: seq<string> := ["experience", "education", "skills", "work", "employment"]

  /** The two regular-expression checks, left abstract: whether the text shows
      both an email address and a phone number, and whether it holds at least
      three quantified achievements (`50%`, `10+`, `$5`, `3k`, `2 years`, ...). */
  datatype Detectors = Detectors(hasContactInfo: string -> bool, hasQuantifiedAchievements: string -> bool)

  const ContactFeedback := "Add clear contact information (email, phone)"
  const SectionsFeedback := "Include standard sections: Experience, Education, Skills"
  const QuantifiedFeedback := "Add quantified achievements (numbers, percentages)"
  const KeywordFeedback := "Include more action verbs and industry keywords"
  const FormattingFeedback := "Improve formatting: use bullet points, consistent spacing"
  const Praise := "Great job! Your resume is ATS-friendly"

  /** The five corrective messages, in the order the checks run. */
  const Messages: seq<string> :=
    [ContactFeedback, SectionsFeedback, QuantifiedFeedback, KeywordFeedback, FormattingFeedback]

  datatype ScoreReport = ScoreReport(score: int, feedback: seq<string>)

  // Keyword and section counting

  /** How many of `words` occur in `text`, counted one by one. */
  function CountPresent(words: seq<string>, text: string): (n: nat)
    ensures n <= |words|
    decreases |words|
  {
    if |words| == 0 then 0
    else (if Contains(text, words[0]) then 1 else 0) + CountPresent(words[1..], text)
  }

  /** The words of `words` that occur in `text`. */
  ghost function PresentWords(words: seq<string>, text: string): set<string>
  {
    set w | w in words && Contains(text, w)
  }

  /** Over a duplicate-free word list, the running count is the number of
      distinct words found. */
  lemma {:induction false} CountPresentIsCardinality(words: seq<string>, text: string)
    requires NoDups(words)
    ensures CountPresent(words, text) == |PresentWords(words, text)|
    decreases |words|
  {
    if |words| > 0 {
      var rest := words[1..];
      NoDupsTail(words);
      CountPresentIsCardinality(rest, text);
      PresentWordsCons(words, text);
    }
  }

  lemma PresentWordsCons(words: seq<string>, text: string)
    requires |words| > 0
    ensures PresentWords(words, text)
         == (if Contains(text, words[0]) then {words[0]} else {}) + PresentWords(words[1..], text)
  {
    assert words == [words[0]] + words[1..];
  }

  // The three structure checks

  /** At least two section names occur in the lower-cased text. */
  function HasSections(text: string): (b: bool)
    ensures b <==> |PresentWords(SectionWords, Lower(text))| >= 2
  {
    CountPresentIsCardinality(SectionWords, Lower(text));
    CountPresent(SectionWords, Lower(text)) >= 2
  }

  function Points(passed: bool): int
  {
    if passed then 10 else 0
  }

  // Keyword score

  /** How many vocabulary words occur in the lower-cased text. */
  function KeywordsFound(text: string): (n: nat)
    ensures n == |PresentWords(Vocabulary, Lower(text))|
    ensures n <= |Vocabulary|
  {
    VocabularyDistinct();
    CountPresentIsCardinality(Vocabulary, Lower(text));
    CountPresent(Vocabulary, Lower(text))
  }

  lemma VocabularyDistinct()
    ensures NoDups(Vocabulary)
  {
  }

  /** The keyword score: forty points scaled by the share of the vocabulary
      found, rounded down. */
  function KeywordScore(text: string): (r: int)
    ensures 15 * r <= 40 * |PresentWords(Vocabulary, Lower(text))| < 15 * r + 15
    ensures 0 <= r <= 40
  {
    var found := KeywordsFound(text);
    DivisionBounds(40 * found, |Vocabulary|);
    Min(40 * found / |Vocabulary|, 40)
  }

  /** Euclidean division by a positive divisor rounds down. */
  lemma DivisionBounds(a: nat, b: nat)
    requires b > 0
    ensures b * (a / b) <= a < b * (a / b) + b
  {
  }

  /** The keyword message fires below three quarters of the maximum, that is
      exactly when fewer than twelve vocabulary words are present. */
  lemma KeywordFeedbackThreshold(text: string)
    ensures KeywordScore(text) < 30 <==> KeywordsFound(text) < 12
  {
    var found := KeywordsFound(text);
    if found >= 12 {
      assert 40 * found >= 480;
    } else {
      assert 40 * found <= 440;
    }
  }

  // Formatting score

  predicate HasBullet(text: string)
  {
    '•' in text || '-' in text || '*' in text
  }

  /** How many formatting checks fail, out of: at least 200 characters, at
      least five line breaks, some bullet character. */
  function FailedFormatChecks(text: string): (n: nat)
    ensures n <= 3
    ensures n == 0 <==> |text| >= 200 && CountChar(text, '\n') >= 5 && HasBullet(text)
  {
    (if |text| < 200 then 1 else 0)
    + (if CountChar(text, '\n') < 5 then 1 else 0)
    + (if HasBullet(text) then 0 else 1)
  }

  /** Thirty points less ten per failed check; the floor at zero never
      applies. */
  function FormatScore(text: string): (r: int)
    ensures r == 30 - 10 * FailedFormatChecks(text)
    ensures r == 0 || r == 10 || r == 20 || r == 30
  {
    var score := 30 - 10 * FailedFormatChecks(text);
    if score < 0 then 0 else score
  }

  /** The formatting message fires exactly when two or more checks fail. */
  lemma FormattingFeedbackThreshold(text: string)
    ensures FormatScore(text) < 20 <==> FailedFormatChecks(text) >= 2
  {
  }

  // The whole report

  /** Which of the five checks fall short, in the order they run: contact,
      sections, quantified achievements, keywords, formatting. */
  function Shortfalls(text: string, d: Detectors): (flags: seq<bool>)
    ensures |flags| == |Messages|
  {
    [!d.hasContactInfo(text), !HasSections(text), !d.hasQuantifiedAchievements(text),
     KeywordScore(text) < 30, FormatScore(text) < 20]
  }

  /** The five messages differ from each other and from the praise line. */
  lemma MessagesDistinct()
    ensures NoDups(Messages)
    ensures Praise !in Messages
  {
  }

  /** The feedback for a set of shortfalls: the message of every check that
      falls short, in check order, or the single praise line when none does. */
  function FeedbackFor(flags: seq<bool>): (fb: seq<string>)
    requires |flags| == |Messages|
    ensures |fb| > 0
    ensures forall i :: 0 <= i < |Messages| ==> (Messages[i] in fb <==> flags[i])
    ensures fb == [Praise] <==> forall i :: 0 <= i < |flags| ==> !flags[i]
    ensures fb != [Praise] ==> IsSubsequence(fb, Messages)
  {
    var selected := Select(flags, Messages);
    SelectIsSubsequence(flags, Messages);
    MessagesDistinct();
    SelectMembers(flags, Messages);
    SelectEmpty(flags, Messages);
    if selected == [] then [Praise] else selected
  }

  /** The per-index facts about five flags, spelled out. */
  lemma FiveFlags(flags: seq<bool>, fb: seq<string>, ms: seq<string>)
    requires |flags| == 5 && |ms| == 5
    requires forall i :: 0 <= i < 5 ==> (ms[i] in fb <==> flags[i])
    ensures ms[0] in fb <==> flags[0]
    ensures ms[1] in fb <==> flags[1]
    ensures ms[2] in fb <==> flags[2]
    ensures ms[3] in fb <==> flags[3]
    ensures ms[4] in fb <==> flags[4]
    ensures (forall i :: 0 <= i < |flags| ==> !flags[i]) <==> !flags[0] && !flags[1] && !flags[2] && !flags[3] && !flags[4]
  {
  }

  /** `analyze_resume`: the score stays within 0..100, and a report that
      earns the praise line scores at least 82; the feedback holds the message
      of every check that falls short, in check order, or the single praise
      line when none does. */
  function AnalyzeResume(text: string, d: Detectors): (r: ScoreReport)
    ensures 0 <= r.score <= 100
    ensures r.feedback == [Praise] ==> r.score >= 82
    ensures |r.feedback| > 0
    ensures ContactFeedback in r.feedback <==> !d.hasContactInfo(text)
    ensures SectionsFeedback in r.feedback <==> !HasSections(text)
    ensures QuantifiedFeedback in r.feedback <==> !d.hasQuantifiedAchievements(text)
    ensures KeywordFeedback in r.feedback <==> KeywordsFound(text) < 12
    ensures FormattingFeedback in r.feedback <==> FailedFormatChecks(text) >= 2
    ensures r.feedback == [Praise] <==>
              d.hasContactInfo(text) && HasSections(text) && d.hasQuantifiedAchievements(text)
              && KeywordsFound(text) >= 12 && FailedFormatChecks(text) <= 1
    ensures r.feedback != [Praise] ==> IsSubsequence(r.feedback, Messages)
  {
    var score := TotalScore(text, d);
    var flags := Shortfalls(text, d);
    var feedback := FeedbackFor(flags);
    FiveFlags(flags, feedback, Messages);
    KeywordFeedbackThreshold(text);
    FormattingFeedbackThreshold(text);
    ScoreReport(Min(score, 100), feedback)
  }

  /** The five parts added up: at most 100, so the cap at 100 never bites. */
  function TotalScore(text: string, d: Detectors): (s: int)
    ensures 0 <= s <= 100
  {
    Points(d.hasContactInfo(text)) + Points(HasSections(text))
    + Points(d.hasQuantifiedAchievements(text)) + KeywordScore(text) + FormatScore(text)
  }

  /** The reported score is the plain sum of the five parts. */
  lemma ScoreIsSumOfParts(text: string, d: Detectors)
    ensures AnalyzeResume(text, d).score
            == Points(d.hasContactInfo(text)) + Points(HasSections(text))
               + Points(d.hasQuantifiedAchievements(text)) + KeywordScore(text) + FormatScore(text)
  {
  }
}
