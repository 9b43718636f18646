/** Cover letters: a service-written letter, or a fixed template filled with
    the company and the position when the service fails. The
    text-generation service is an oracle `complete`, and the date, already
    formatted as "Month DD, YYYY", is a parameter. */
module CoverLetter {
  import opened Wrappers
  import opened Seqs
  import opened Text

  /** Characters of the résumé and of the job description put in the prompt. */
  const LetterExcerpt: nat := 1000

  /** What is sent to the text-generation service; only the values the
      prompts embed are modelled, not their fixed wording. */
  datatype Prompt =
    | LetterPrompt(resumeExcerpt: string, jobExcerpt: string, company: string, position: string,
                   tone: string, date: string)
    | IndustryPrompt(baseLetter: string, industry: string)

  /** The fixed text of the fallback letter between the filled-in values. */
  const Opening := "\n\nDear Hiring Manager,\n\nI am writing to express my strong interest in the "
  const PositionAt := " position at "
  const Background :=
    ". With my background in technology and proven track record of delivering results, I am confident that I would be a valuable addition to your team.\n\n"
    + "In my previous roles, I have developed strong technical skills and gained experience in problem-solving, project management, and team collaboration. I am particularly drawn to "
  const Reputation := " because of your reputation for innovation and commitment to excellence. The "
  const Aligns :=
    " role aligns perfectly with my career goals and expertise.\n\n"
    + "I am excited about the opportunity to contribute to your team's success and would welcome the chance to discuss how my skills and experience can benefit "
  const Closing :=
    ". I have attached my resume for your review and look forward to hearing from you soon.\n\n"
    + "Thank you for your time and consideration.\n\nSincerely,\n[Your Name]\n\n---\n"
    + "Note: This is a template cover letter. For a more personalized version, please ensure your Groq API key is properly configured.\n"

  /** `_get_fallback_cover_letter`: the template letter, dated, naming the
      position and the company. The tone is accepted and not used. */
  function FallbackCoverLetter(company: string, position: string, tone: string, date: string): (r: string)
    ensures StartsWith(r, date + Opening + position + PositionAt + company)
    ensures EndsWith(r, Closing)
    ensures Contains(r, company) && Contains(r, position)
  {
    TemplateShape(date, Opening, position, PositionAt, company, Background, Reputation, Aligns, Closing);
    date + Opening + position + PositionAt + company + Background + company + Reputation
      + position + Aligns + company + Closing
  }

  /** The shape of the template, whatever its fixed parts say. */
  lemma TemplateShape(date: string, opening: string, position: string, positionAt: string, company: string,
                      background: string, reputation: string, aligns: string, closing: string)
    ensures var r := date + opening + position + positionAt + company + background + company + reputation
                       + position + aligns + company + closing;
            && StartsWith(r, date + opening + position + positionAt + company)
            && EndsWith(r, closing)
            && Contains(r, company) && Contains(r, position)
  {
    var head := date + opening + position + positionAt;
    var tail := background + company + reputation + position + aligns + company + closing;
    var r := date + opening + position + positionAt + company + background + company + reputation
             + position + aligns + company + closing;
    assert r == head + company + tail;
    PrefixOfAppend(head + company, tail);
    ContainsInfix(head, company, tail);
    assert r == date + opening + position + (positionAt + company + tail);
    ContainsInfix(date + opening, position, positionAt + company + tail);
    SuffixOfAppend(head + company + background + company + reputation + position + aligns + company, closing);
  }

  /** A string appended to a text ends it. */
  lemma SuffixOfAppend(a: string, b: string)
    ensures EndsWith(a + b, b)
  {
    assert (a + b)[|a|..] == b;
  }

  /** The prompt of `generate_cover_letter`: the first 1000 characters of the
      résumé and of the job description, and the details as given. */
  function LetterPromptFor(resume: string, job: string, company: string, position: string,
                           tone: string, date: string): (p: Prompt)
    ensures p.LetterPrompt? && p.company == company && p.position == position && p.tone == tone && p.date == date
    ensures |p.resumeExcerpt| == Min(LetterExcerpt, |resume|) && StartsWith(resume, p.resumeExcerpt)
    ensures |p.jobExcerpt| == Min(LetterExcerpt, |job|) && StartsWith(job, p.jobExcerpt)
  {
    LetterPrompt(Take(resume, LetterExcerpt), Take(job, LetterExcerpt), company, position, tone, date)
  }

  /** `generate_cover_letter`: the service's letter, or the template when the
      service fails. */
  function GenerateCoverLetter(resume: string, job: string, company: string, position: string,
                               tone: string, date: string, complete: Prompt -> Option<string>): (r: string)
    ensures complete(LetterPromptFor(resume, job, company, position, tone, date)).Some? ==>
              r == complete(LetterPromptFor(resume, job, company, position, tone, date)).value
    ensures complete(LetterPromptFor(resume, job, company, position, tone, date)).None? ==>
              && StartsWith(r, date + Opening + position + PositionAt + company)
              && Contains(r, company) && Contains(r, position)
              && r == FallbackCoverLetter(company, position, tone, date)
  {
    match complete(LetterPromptFor(resume, job, company, position, tone, date))
    case Some(letter) => letter
    case None => FallbackCoverLetter(company, position, tone, date)
  }

  /** The tones `generate_multiple_versions` writes a letter in. */
  const Tones: seq<string> := ["professional", "enthusiastic", "creative"]

  /** `generate_multiple_versions`: one letter per tone, keyed by the tone. */
  method GenerateMultipleVersions(resume: string, job: string, company: string, position: string,
                                  date: string, complete: Prompt -> Option<string>)
    returns (versions: map<string, string>)
    ensures versions.Keys == set t | t in Tones
    ensures forall t :: t in versions ==>
              versions[t] == GenerateCoverLetter(resume, job, company, position, t, date, complete)
    ensures (forall p :: complete(p).None?) ==>
              forall t, u :: t in versions && u in versions ==> versions[t] == versions[u]
  {
    versions := map[];
    var i := 0;
    while i < |Tones|
      invariant 0 <= i <= |Tones|
      invariant versions.Keys == set t | t in Tones[..i]
      invariant forall t :: t in versions ==>
                  versions[t] == GenerateCoverLetter(resume, job, company, position, t, date, complete)
    {
      var tone := Tones[i];
      versions := versions[tone := GenerateCoverLetter(resume, job, company, position, tone, date, complete)];
      i := i + 1;
    }
    assert Tones[..i] == Tones;
    FallbackIgnoresTone(company, position, date);
  }

  /** The template letter reads the same whatever the tone. */
  lemma FallbackIgnoresTone(company: string, position: string, date: string)
    ensures forall t, u :: FallbackCoverLetter(company, position, t, date) == FallbackCoverLetter(company, position, u, date)
  {
  }

  /** `customize_for_industry`: the service's rewrite of the letter for the
      industry, or the letter unchanged when the service fails. */
  function CustomizeForIndustry(baseLetter: string, industry: string, complete: Prompt -> Option<string>): (r: string)
    ensures complete(IndustryPrompt(baseLetter, industry)).None? ==> r == baseLetter
    ensures complete(IndustryPrompt(baseLetter, industry)).Some? ==> r == complete(IndustryPrompt(baseLetter, industry)).value
  {
    complete(IndustryPrompt(baseLetter, industry)).GetOr(baseLetter)
  }
}
