# Résumé analyzer core, modelled in Dafny

This project models the core of a résumé-analysis web application:

- **ATS scoring** (`AtsScore`). Three ten-point structure checks, a keyword score out of 40 and a formatting score out of 30. Feedback lists the message of every check that falls short, or a single praise line.
- **Job-description matching** (`Keywords`, `AnalysisParser`, `JobMatch`):
  - a description shorter than fifty characters is rejected;
  - the résumé and description are compared through a similarity oracle;
  - keywords are extracted with `\b[a-zA-Z]{3,}\b`, stop words and short words dropped;
  - job keywords the résumé lacks are listed;
  - the analysis comes from the text-generation service, or from canned lists when it fails.
- **Service-backed résumé features** (`JobMatch`): the enhanced résumé and the line-by-line suggestions, each with its fallback.
- **Text extraction from uploads** (`ResumeParser`). The file type is chosen from the content type or the file name. PDF pages are joined with nothing between them and DOCX paragraphs with newlines. Reader failures are wrapped; UTF-8 decoding failures are not.
- **Cover letters** (`CoverLetter`): the service's letter or a dated template, one letter per tone, and industry customisation that keeps the base letter when the service fails.
- **Job search** (`JobSearch`):
  - four boards are asked in order: Adzuna, JSearch, Remotive, Arbeitnow;
  - JSearch is skipped without an API key;
  - Arbeitnow is filtered by title;
  - Adzuna salaries are formatted;
  - demonstration postings stand in when every board is empty;
  - at most twenty postings are returned.

Everything outside the program is a parameter:

- the HTTP boards;
- the text-generation service;
- the TF-IDF similarity;
- the two regular-expression detectors;
- the PDF, DOCX and UTF-8 decoders;
- the set iteration order;
- the date.

Supporting modules: `Wrappers` (`Option`, `Result`), `Seqs` (subsequences, `Take`, `Select`), `Text` (Python `lower`, `upper`, `strip`, `split`, `join`, `in`, `replace`), `Numerals` (`str(n)` and the `,` thousands format).

## Model

| member | source | states |
|---|---|---|
| AtsScore.AnalyzeResume | ats_analyzer.py:34-70 | The score stays within 0..100, and a report with the praise line scores at least 82. Each corrective message is present iff its check fails: no contact details, fewer than two sections, no quantified achievements, fewer than twelve vocabulary words, two or more failed formatting checks. The feedback is exactly the praise line iff every check passes; otherwise it is a subsequence of the five messages in check order. |
| AtsScore.TotalScore | ats_analyzer.py:36-70 | The five parts add up to at most 100 and never go below 0, so `min(score, 100)` never changes the score. |
| AtsScore.ScoreIsSumOfParts | ats_analyzer.py:39-70 | The reported score is the plain sum of the three ten-point checks, the keyword score and the formatting score. |
| AtsScore.FeedbackFor | ats_analyzer.py:37-68 | Feedback is never empty. Message i is present iff check i falls short. Praise alone appears iff nothing falls short. Otherwise the messages keep check order. |
| AtsScore.CountPresentIsCardinality | ats_analyzer.py:129 | Over a duplicate-free word list, the running count equals the number of distinct words found in the text. |
| AtsScore.HasSections | ats_analyzer.py:117-119 | True iff at least two of the five section names occur in the lower-cased text. |
| AtsScore.KeywordsFound | ats_analyzer.py:125-129 | The running count equals the number of distinct vocabulary words in the lower-cased text, at most fifteen. |
| AtsScore.KeywordScore | ats_analyzer.py:125-130 | The score is 40 × (vocabulary words found) / 15, rounded down (15·r ≤ 40·found < 15·r + 15), and lies in 0..40. |
| AtsScore.KeywordFeedbackThreshold | ats_analyzer.py:58-59 | The keyword message (score below 30) fires exactly when fewer than twelve of the fifteen words are present. |
| AtsScore.FailedFormatChecks | ats_analyzer.py:132-139 | At most three checks fail. None fails iff the text has at least 200 characters, five line breaks and a bullet character. |
| AtsScore.FormatScore | ats_analyzer.py:132-140 | The formatting score is 30 minus 10 per failed check, one of 0, 10, 20 or 30. The floor at zero never applies. |
| AtsScore.FormattingFeedbackThreshold | ats_analyzer.py:64-65 | The formatting message (score below 20) fires exactly when two or more checks fail. |
| Keywords.TokensAreMatches | ats_analyzer.py:144 | A string is found by the tokenizer iff the pattern matches it somewhere: a maximal run of word characters made of at least three ASCII letters. |
| Keywords.StopWordFilterRedundant | ats_analyzer.py:146-147 | Every stop word has three letters, so the length filter alone yields the same keyword set. |
| Keywords.KeywordShape | ats_analyzer.py:144-147 | Every keyword has at least four lower-case ASCII letters and is a pattern match in the lower-cased text. |
| Keywords.ExtractKeywords | ats_analyzer.py:142-147 | The listed keywords have no duplicates, and a word is listed iff it is in the keyword set. |
| Keywords.Absent | ats_analyzer.py:99 | The filtered list keeps exactly the entries not present, in order, as a subsequence. |
| Keywords.MissingKeywords | ats_analyzer.py:99 | At most fifteen entries, no duplicates. The list is a subsequence of the first fifteen job keywords. A word is listed iff it is among those fifteen and the résumé lacks it. |
| AnalysisParser.Classify | ats_analyzer.py:199-208 | A stripped line is a header iff it names one of the three sections, case-insensitively. The header selects Strengths iff the line names STRENGTHS:, Improvements iff it names IMPROVEMENTS: but not STRENGTHS:, and Suggestions iff it names only SUGGESTIONS: of the three. It is a bullet iff it is not a header and starts with '-'; the item is the line with '-' and ' ' stripped from both ends. |
| AnalysisParser.ScanIsReference | ats_analyzer.py:196-208 | The line-by-line state machine collects, for each section, exactly the items of the reference reading: bullets under that section's most recent header. |
| AnalysisParser.ItemsOrigin | ats_analyzer.py:199-208 | A string is an item of a section iff some bullet line under a header of that section yields it. Lines before the first header never contribute. |
| AnalysisParser.ParseAnalysis | ats_analyzer.py:194-215 | No section of the result is empty. Each equals the items found for it, or its canned list when none were found. |
| AnalysisParser.FallbackContent | ats_analyzer.py:217-236 | The canned lists have 2, 3 and 4 entries. An unknown section gets the empty list. |
| AnalysisParser.FallbackAnalysis | ats_analyzer.py:238-264 | Two strengths and four suggestions. Five improvements when the score is below 60, otherwise three. |
| AnalysisParser.FallbackAnalysisShared | ats_analyzer.py:240-250 | Strengths and suggestions do not depend on the score. A low score only appends improvements to the shared first three. |
| JobMatch.AnalysisPromptFor | ats_analyzer.py:152-161 | The analysis prompt carries the first 1500 characters of the description and of the résumé (prefixes of length min(1500, length)) and the score. |
| JobMatch.ComprehensiveAnalysis | ats_analyzer.py:149-192 | No list is empty. When the service answers, the result is the parsed reply (whose lists `ScanIsReference` and `ItemsOrigin` characterise). When the service fails, it is the canned analysis for the score. |
| JobMatch.MatchJobDescription | ats_analyzer.py:72-110 | A description shorter than 50 characters once stripped is rejected first; a failing similarity is rejected next. A report is analysed iff neither happens. It then carries the similarity score, the missing keywords (≤ 15, no duplicates, an iff against the first fifteen job keywords), and the strengths, improvements and suggestions of the comprehensive analysis for that score. |
| JobMatch.FallbackEnhancedResume | ats_analyzer.py:341-352 | The canned enhancement starts with a line break, the résumé unchanged and the suggestions heading, and ends with the fixed tips, so it contains the résumé. |
| JobMatch.FallbackEnhancedRecoverable | ats_analyzer.py:341-352 | The résumé is the canned text minus its first character and the fixed heading and tips, so it can be read back. |
| JobMatch.FallbackEnhancedInjective | ats_analyzer.py:341-352 | Different résumés never yield the same canned enhancement. |
| JobMatch.EnhancePromptFor | ats_analyzer.py:268-283 | The prompt carries the first 2000 characters of the résumé and the target score. |
| JobMatch.GenerateEnhancedResume | ats_analyzer.py:266-299 | When the service answers, the result is its reply. When it fails, the result is exactly the canned enhancement, which contains the original résumé. |
| JobMatch.Annotate | ats_analyzer.py:305-334 | Given each line's keep flag (substantial or not) and stripped text, when every request is answered there is one entry per kept line, in line order, numbered from 1. Each entry quotes the stripped line and carries that line's answer, and there are no more entries than lines. The result is absent iff some kept line's request fails. |
| JobMatch.FallbackLineImprovements | ats_analyzer.py:354-367 | One entry per substantial line among the first ten, each with the canned suggestion. |
| JobMatch.GetLineImprovements | ats_analyzer.py:301-339 | If every request is answered, one entry per substantial line among the first twenty, each carrying its reply with "Suggestion: " removed. If any request fails, the canned suggestions for the first ten lines. Never more than twenty entries. |
| ResumeParser.FileType | resume_parser.py:12 | The content type when it is a non-empty string, otherwise the `type` attribute. The result is truthy iff either is. |
| ResumeParser.ExtractText | resume_parser.py:9-31 | The literal dispatch, with its early return for `.txt` names, agrees with the reference rule: PDF if the type or the name says PDF, else DOCX if either says DOCX, else text if either says text. Otherwise the result is the unsupported-type error naming the type. |
| ResumeParser.NameOverridesType | resume_parser.py:24-27 | A `.pdf` name selects the PDF reader whatever the declared type. A `.docx` name selects the DOCX reader unless the name or the type says PDF. An unsupported upload has none of the three extensions. |
| ResumeParser.ExtractFromPdf | resume_parser.py:33-40 | A reader failure becomes a PDF read error with its cause. Otherwise the text is the pages joined in order with nothing between them: its length is the pages' total, it is empty for no pages, and every page occurs in it. |
| Text.ConcatLayout | resume_parser.py:38 | The joined text is the pieces end to end: its length is their total, and piece k sits at the offset where pieces 0..k-1 end. |
| ResumeParser.ConcatContainsEach | resume_parser.py:38 | Each joined page occurs in the joined text. |
| ResumeParser.ExtractFromDocx | resume_parser.py:42-48 | A reader failure becomes a DOCX read error with its cause. Otherwise the text is the paragraphs joined with line breaks, empty for no paragraphs, and splitting it on line breaks gives back the paragraphs when none holds a line break. |
| ResumeParser.ParagraphsRecoverable | resume_parser.py:46 | Joining paragraphs with newlines and splitting again is the identity when no paragraph holds a newline. |
| ResumeParser.DecodeText | resume_parser.py:29 | Decoding succeeds iff the UTF-8 decoder does, with its text. A decoding failure is passed on unwrapped. |
| CoverLetter.LetterPromptFor | cover_letter_generator.py:19-32 | The prompt carries the first 1000 characters of the résumé and of the job description, and the company, position, tone and date unchanged. |
| CoverLetter.GenerateCoverLetter | cover_letter_generator.py:15-65 | The service's letter when it answers. Otherwise the template, which starts with the date and greeting and names the position and the company. |
| CoverLetter.FallbackCoverLetter | cover_letter_generator.py:67-88 | The template starts with the date, the greeting and "… the {position} position at {company}", ends with the signature and note, and contains the company and the position. |
| CoverLetter.FallbackIgnoresTone | cover_letter_generator.py:67-88 | The template letter is the same whatever tone it is asked for: the tone parameter is never read. |
| CoverLetter.TemplateShape | cover_letter_generator.py:71-88 | Whatever its fixed parts say, the filled template starts with its head, ends with its closing, and contains both filled-in values. |
| CoverLetter.GenerateMultipleVersions | cover_letter_generator.py:90-106 | The keys are exactly professional, enthusiastic and creative, each with the letter generated in that tone. When the service always fails, the three letters are identical. |
| CoverLetter.CustomizeForIndustry | cover_letter_generator.py:108-141 | The service's rewrite when it answers, otherwise the base letter unchanged. |
| Numerals.GroupedRoundTrip | job_api.py:184 | Dropping the commas of the `,`-grouped numeral gives digits that denote the number. |
| Numerals.GroupedCommaPositions | job_api.py:184-188 | In the `{:,}` numeral, a character is a comma exactly when it is not the first and its distance from the right end is a multiple of four. Every group after the first therefore has three digits. |
| JobSearch.FormatSalary | job_api.py:181-190 | A range when both bounds are truthy (present and non-zero), "$min+" or "Up to $max" with one, and "Not specified" exactly when neither. |
| JobSearch.DollarsRoundTrip | job_api.py:184 | The dollar figure read back without its sign and commas is the amount. |
| JobSearch.SalaryRangeDeterminesBounds | job_api.py:184 | Two equal salary ranges have equal minimums and equal maximums. |
| JobSearch.MockSalariesAreFormatted | job_api.py:164-173 | The demonstration salary strings are what the formatter writes for 80,000–120,000 and 60,000–80,000. |
| JobSearch.SearchAdzuna | job_api.py:40-69 | Nothing on failure. Otherwise one posting per result, in order, with the formatted salary, source Adzuna. |
| JobSearch.SearchJSearch | job_api.py:71-104 | Nothing without an API key. Otherwise one posting per result of the query "title location", located "city, state", source JSearch. |
| JobSearch.SearchRemotive | job_api.py:106-128 | Nothing on failure. Otherwise one posting per result, in order, source Remotive. |
| JobSearch.FilterBoard | job_api.py:138-149 | The result is the reference selection: the postings of the matching listings, in board order, one per matching listing, so a subsequence of the converted board whose length is the number of matching listings. A posting is kept iff its listing's lower-cased title contains the lower-cased search title. Kept postings have salary "Not specified" and source Arbeitnow. |
| JobSearch.SearchArbeitnow | job_api.py:130-153 | Nothing on failure. Otherwise exactly the postings of the matching listings, in board order, one per matching listing. |
| JobSearch.MockJobs | job_api.py:157-179 | Two demonstration postings, "Senior " and "Junior " plus the title. The location falls back to "Remote" and "New York, NY"; the source is Demo. |
| JobSearch.AllPostings | job_api.py:18-30 | Every posting comes from one of the four boards. |
| JobSearch.SearchJobs | job_api.py:16-36 | One to twenty postings. The demonstration postings exactly when no board returned any (signalled by the first posting's source). Otherwise the first twenty of the boards' postings in board order. |
| JobSearch.BoardsDownGivesDemo | job_api.py:32-34 | With every board down, the result is the demonstration postings. |
| Text.JoinSplit | ats_analyzer.py:199 | Joining the pieces of `split('\n')` gives back the text. |
| Text.StripCharsIdempotent | ats_analyzer.py:208 | A property of `StripChars` alone, which models `str.strip(chars)` as that line uses it with `'- '`: stripping a text twice with the same character set gives what stripping once gives. |

## Left out

- Regular expressions for contact details and quantified achievements are parameters (`Detectors`), not modelled pattern by pattern.
- The TF-IDF vectoriser and cosine similarity are a parameter that returns the truncated percentage, or nothing when vectorising raises.
- The wording of every prompt is not modelled. Prompts are datatypes holding the values they embed, truncations included.
- The text of exception messages is not modelled; errors are datatype variants carrying the cause.
- Python's Unicode handling is not modelled:
  - `lower`, `upper` and the `\b` word boundary use ASCII letters, digits and '_' only;
  - non-ASCII letters count as separators;
  - special lowerings, such as the Kelvin sign or dotted capital I, are not reproduced;
  - `strip()` uses the exact Python whitespace set.
- Python set iteration order is a parameter: any duplicate-free enumeration of the set.
- `ResumeParser.FileType`: a `filename` attribute holding `None` is modelled as the empty string, which Python also treats as false.
- `JobSearch.FormatSalary`: salaries are whole numbers. Fractional amounts and the `.0f` rounding of floats are not modelled.
- Board listings are modelled after the `.get(key, default)` lookups. A key present with a `null` value, which Python would pass through, is not distinguished.
- The HTTP requests are parameters: query parameters, headers, credentials, timeouts and status checks. Any failure or non-200 status is `None`.
- `get_job_trends` returns constant demonstration data and is not modelled.
- `CoverLetter.GenerateMultipleVersions`: the `except` branch is unreachable, because `generate_cover_letter` catches every failure itself; it is not modelled.
- `CoverLetter.GenerateCoverLetter`: the date is one parameter. The source reads the clock separately for the prompt and for the template.
- Logging with `print` on failures is not modelled.
- Initialisation is not modelled: NLTK downloads, environment variables and client construction.
- Service replies of `None` content are not modelled; a reply is always a string.
- Python's default arguments are not modelled: `target_score=90` of `generate_enhanced_resume`, and `location=""` and `experience_level=""` of `search_jobs`. Every parameter is passed explicitly. `experience_level` is never read by `search_jobs`; `JobSearch.SearchJobs` keeps it as a parameter it does not read.
