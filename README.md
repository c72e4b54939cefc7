# Job application assistant — verified model

A browser extension helps with job applications. Its content script scrapes
the open job page: title, description, skill tags, company website and the
application form's questions. The side panel then does three things:

- It prioritises the scraped description and the stored résumé, keeping about
  1000 characters of their most relevant blank-line-separated sections.
- It keeps the ten most specific skill requirements.
- It sends these, with the user's stored résumé and instructions, to a
  chat-completion service. The service drafts answers to the application
  questions or a message to a person.

A settings page edits the five résumé fields, loads them from browser storage
and saves them back.

This project is a Dafny model of that logic. The modules:

- **`Text`**: the JavaScript string primitives the code relies on, over
  strings as sequences of Dafny characters (Unicode scalar values; see
  "Left out" for how this differs from JavaScript's UTF-16 code units):
  - `trim()`, `trimEnd()` and the `!s.trim()` test (`Blank`);
  - ASCII `toLowerCase()`, `includes`, `startsWith`;
  - `split(" ")` and `join`.
- **`BlankLines`**: `split(/\n\s*\n/)` with ECMAScript's exact semantics (the
  leftmost match, a greedy `\s*` that backtracks), proved to cut the text
  into pieces that concatenate back to it.
- **`Ranking`**: the descending stable sort on scores. `Array.prototype.sort`
  is stable as of ECMAScript 2019. The sort is specified as a functional
  insertion sort, and an in-place array insertion sort is proved equal to it.
- **`JobApplier`** (`src/pages/jobApplier.tsx`): description and requirement
  prioritisation, the processing of fetched job details, and the start-up
  load of résumé and instructions.
- **`ChatGpt`** (`src/services/chatgpt.ts`): the fixed cuts at 1000 and 300
  characters, the first ten requirements, the answer-length sentence, the
  website line, and the message a failed request is reported with.
- **`JobDescriptionView`** (`src/components/JobDescription.tsx`): the
  100-word display cut and its Show More toggle.
- **`MessagePerson`** (`src/components/MessagePerson.tsx`): size and platform
  instructions, the request guards, and the panel state as a class.
- **`ApplicationQuestions`** (`src/components/ApplicationQuestions.tsx`): the
  question list and the per-question maps, as a class.
- **`Settings`** (`src/pages/Settings.tsx`): field updates, the load merge,
  the formatted résumé and the save/load round trip.
- **`ContentScript`** (`public/content.js`): scrape post-processing over the
  texts of the page's elements.

Scores are exact integers scaled from the source's floating-point formula:

- A section scores 400 per keyword + max(0, 1000 − length). This is 200 times
  2 per keyword + max(0, 5 − length/200).
- A requirement scores 100 per keyword + max(0, 150 − length). This is 50
  times 2 per keyword + max(0, 3 − length/50).

Lemmas prove both equalities in exact real arithmetic, and that the scaling
preserves order.

One behaviour the model brings out: the answer generator reads the error body
as JSON before it looks at the status. A 429 response whose body is not JSON
is therefore reported with the parser's message, not as a rate limit.

## Model

| member | source | states |
|---|---|---|
| `Text.Lower` | src/components/MessagePerson.tsx:35 | `toLowerCase` keeps the length. Each ASCII capital is lowered and every other character is kept. `MessagePerson.LowerIdempotent` states that lowering twice is lowering once |
| `Text.StartsWith` | public/content.js:42 | `startsWith`: the prefix is no longer than the text and equals the text's first characters (a predicate without a contract of its own) |
| `Text.Contains` | src/components/MessagePerson.tsx:37-45 | `includes`, defined as a prefix match at the start or further on. `Text.ContainsIffOccurs` relates it to an occurrence at some position |
| `Text.ContainsIffOccurs` | src/pages/jobApplier.tsx:43 | `includes` holds exactly when the substring occurs at some position of the text |
| `Text.Trim` | public/content.js:15 | `trim()` is `TrimEnd` of `TrimStart`. `Text.TrimStartShape` and `Text.TrimEndShape` state what each half removes, and `Text.TrimIdempotent` and `Text.BlankIffTrimsToEmpty` state what trimming leaves |
| `Text.TrimStartShape` | public/content.js:15 | the leading trim drops a whitespace-only prefix and stops at the first other character |
| `Text.TrimEndShape` | public/content.js:15 | the trailing trim drops a whitespace-only suffix and stops at the last other character |
| `Text.Join` | src/services/chatgpt.ts:82 | `join(sep)` puts the separator between consecutive pieces. `Text.JoinSplit` and `Text.SplitJoin` prove it the inverse of `SplitOn` |
| `Text.TrimIdempotent` | public/content.js:15 | trimming a trimmed text changes nothing |
| `Text.Blank` | src/components/MessagePerson.tsx:168 | the `!s.trim()` test, as a recursive check that every character is whitespace. `Text.BlankIsAllWhitespace` and `Text.BlankIffTrimsToEmpty` relate it to the whitespace set and to `trim()` |
| `Text.BlankIsAllWhitespace` | src/components/ApplicationQuestions.tsx:41 | a blank text is exactly one made only of ECMAScript whitespace |
| `Text.BlankIffTrimsToEmpty` | src/components/MessagePerson.tsx:168 | the recursive `Blank` test holds exactly when `trim()` yields the empty string |
| `Text.SplitOn` | src/components/JobDescription.tsx:11 | `split` on one character yields at least one piece, and no piece contains the separator |
| `Text.JoinSplit` | src/components/JobDescription.tsx:11-13 | joining the pieces of a split with the same separator gives the text back |
| `Text.SplitJoin` | src/components/JobDescription.tsx:13 | splitting a join of separator-free pieces gives the pieces back |
| `Text.JoinedPrefixOfSplit` | src/components/JobDescription.tsx:13 | the first `k` pieces joined back are a proper prefix of the text that ends just before its `k`-th separator |
| `Text.SplitOfJoinedPrefix` | src/components/JobDescription.tsx:13 | splitting the first `k` pieces joined back gives exactly those pieces |
| `Text.SplitCount` | src/components/JobDescription.tsx:11 | the number of pieces is the number of separator occurrences plus one |
| `BlankLines.MatchAt` | src/pages/jobApplier.tsx:25 | no match of `/\n\s*\n/` starts at a position exactly when the result is None; otherwise the result is the end of the longest match there (greedy `\s*`) |
| `BlankLines.PiecesFrom` | src/pages/jobApplier.tsx:25 | the ECMAScript split loop: scanning from `q`, the piece begun at `p` ends at the first position where `MatchAt` finds a separator. Its properties are stated by `BlankLines.SplitIsFaithful` |
| `BlankLines.Pieces` | src/pages/jobApplier.tsx:25 | the split loop started at the beginning of the text. `BlankLines.SplitIsFaithful` states that its pieces reassemble the text and that each separator is the leftmost and greedy match |
| `BlankLines.Sections` | src/pages/jobApplier.tsx:25 | the sections are the texts of the pieces the split produces, in order |
| `BlankLines.SplitIsFaithful` | src/pages/jobApplier.tsx:25 | the pieces with their separators concatenate back to the text. Every separator is a match of `/\n\s*\n/`. No section together with the start of the following separator contains a match. Every match is the leftmost and greedy one |
| `Ranking.InsertByScore` | src/pages/jobApplier.tsx:53 | one insertion step of the stable descending order; the result is one element longer. Where the element lands is stated by `Ranking.InsertLandsAt`, and what the result holds by `Ranking.InsertIsPermutation` |
| `Ranking.RankByScore` | src/pages/jobApplier.tsx:53 | `sort((a, b) => b.score - a.score)` as a value, keeping the length. `Ranking.RankIsNonIncreasing`, `Ranking.RankIsPermutation` and `Ranking.RankIsStable` state that it is the stable descending sort |
| `Ranking.InsertIsPermutation` | src/pages/jobApplier.tsx:53 | inserting into a ranking adds exactly that element (multiset) |
| `Ranking.RankIsNonIncreasing` | src/pages/jobApplier.tsx:53 | the ranking is in non-increasing score order |
| `Ranking.RankIsPermutation` | src/pages/jobApplier.tsx:53 | the ranking is a permutation of its input |
| `Ranking.RankIsStable` | src/pages/jobApplier.tsx:53 | for every score, the elements with that score keep their input order |
| `Ranking.RankKeepsTexts` | src/pages/jobApplier.tsx:97-99 | the ranked texts are a permutation of the input texts |
| `Ranking.InsertLandsAt` | src/pages/jobApplier.tsx:53 | an insertion places the element after all those scoring at least as much and before the rest |
| `Ranking.ShiftLower` | src/pages/jobApplier.tsx:53 | the inner insertion-sort loop shifts every lower-scoring element one place up and stops at the first element scoring at least as much |
| `Ranking.InsertLast` | src/pages/jobApplier.tsx:53 | one insertion step turns the sorted prefix plus the next element into their functional insertion and leaves the rest of the array alone |
| `Ranking.SortByScore` | src/pages/jobApplier.tsx:53 | sorting the array in place leaves exactly the functional stable ranking of its old contents |
| `JobApplier.KeywordHits` | src/pages/jobApplier.tsx:42-44 | the number of keywords the lower-cased text includes. The contract only bounds it by the number of keywords; its value is the count that the `JobApplier.ScoreText` loop is proved to accumulate |
| `JobApplier.KeywordScore` | src/pages/jobApplier.tsx:38-50 | the score callback shared by sections and requirements, scaled to an integer. `JobApplier.ScoreText` proves the `forEach` loop computes it |
| `JobApplier.SectionScore` | src/pages/jobApplier.tsx:38-50 | a section's score, 200 times the source's. `JobApplier.SectionScoreIsScaled` states the factor and that the order of scores is kept |
| `JobApplier.RequirementScore` | src/pages/jobApplier.tsx:71-94 | a requirement's score, 50 times the source's. `JobApplier.RequirementScoreIsScaled` states the factor and that the order of scores is kept |
| `JobApplier.SectionScoreIsScaled` | src/pages/jobApplier.tsx:38-50 | the integer section score is 200 times the source's score, and the two order sections alike |
| `JobApplier.RequirementScoreIsScaled` | src/pages/jobApplier.tsx:71-94 | the integer requirement score is 50 times the source's score, and the two order requirements alike |
| `JobApplier.ScoreText` | src/pages/jobApplier.tsx:39-47 | the per-keyword loop computes the keyword score of the lower-cased text plus the length bonus |
| `JobApplier.ScoreAll` | src/pages/jobApplier.tsx:38-50 | a fresh array holding each text with its score, in order |
| `JobApplier.ScoredSections` | src/pages/jobApplier.tsx:38-50 | each section is paired with its section score, in order |
| `JobApplier.ScoredRequirements` | src/pages/jobApplier.tsx:71-94 | each requirement is paired with its requirement score, in order |
| `JobApplier.Joined` | src/pages/jobApplier.tsx:58 | the `result += section + "\n\n"` accumulation. Its contract only bounds the length below: each section adds at least its two-newline tail. Its value is given by `JobApplier.JoinedConcat` |
| `JobApplier.JoinedConcat` | src/pages/jobApplier.tsx:56-58 | joining consecutive groups of sections joins each group in turn, so each taken section appends exactly its text and a blank line |
| `JobApplier.Fits` | src/pages/jobApplier.tsx:57 | the length test looks at the text so far plus the section, without the blank line after it (a predicate without a contract of its own) |
| `JobApplier.FitFrom` | src/pages/jobApplier.tsx:55-62 | the number of sections the greedy loop takes from a point on, at most the number left. `JobApplier.FitFromTakesFittingPrefix` states which ones |
| `JobApplier.FitFromTakesFittingPrefix` | src/pages/jobApplier.tsx:55-62 | from section `j` on, the loop takes exactly the sections that fit, up to the first that does not |
| `JobApplier.FitCount` | src/pages/jobApplier.tsx:55-62 | the greedy loop started on an empty result. `JobApplier.FitCountIsFirstMisfit` states that it stops at the first misfit |
| `JobApplier.FitCountIsFirstMisfit` | src/pages/jobApplier.tsx:55-62 | the sections taken are the longest prefix of the ranking whose members each fit; the first section left out does not fit |
| `JobApplier.TakenFitsBudget` | src/pages/jobApplier.tsx:57-58 | the fit test omits the trailing blank line, so the text taken is at most 1002 characters |
| `JobApplier.AppendFitting` | src/pages/jobApplier.tsx:55-62 | the `for … break` loop builds exactly the joined prefix of sections that fit |
| `JobApplier.PrioritizedDescription` | src/pages/jobApplier.tsx:21-65 | a description of at most 1000 characters is returned unchanged; a longer one gives between 2 and 1003 characters |
| `JobApplier.TruncateJobDescription` | src/pages/jobApplier.tsx:21-65 | split, score, in-place sort and greedy append compute `PrioritizedDescription` |
| `JobApplier.PrioritizedDescriptionShape` | src/pages/jobApplier.tsx:55-64 | a cut description is either the best sections that fit, each followed by a blank line (at most 1002 characters), or the fallback of the first 1000 characters plus "..." (exactly 1003). The fallback is used exactly when no section was taken |
| `JobApplier.RankedSections` | src/pages/jobApplier.tsx:25-53 | the split sections, scored and sorted. `JobApplier.RankedSectionsOrder` states the order, the permutation and the tie order |
| `JobApplier.RankedSectionsOrder` | src/pages/jobApplier.tsx:38-53 | the ranked sections are non-increasing in score and a permutation of the scored sections. Ties stay in document order, and every entry is a section of the split carrying its own score |
| `JobApplier.PrioritizedRequirements` | src/pages/jobApplier.tsx:67-100 | at most 10 requirements are returned unchanged; more give exactly 10 |
| `JobApplier.TruncateRequirements` | src/pages/jobApplier.tsx:67-100 | the score loop, in-place sort and slice compute `PrioritizedRequirements` |
| `JobApplier.FilterCommutesWithTexts` | src/pages/jobApplier.tsx:99 | taking the texts and filtering by score commute when every entry carries its own score |
| `JobApplier.RankedRequirementsScored` | src/pages/jobApplier.tsx:93-97 | every ranked requirement carries its own requirement score |
| `JobApplier.KeptRequirementsComeFromInput` | src/pages/jobApplier.tsx:99 | the requirements kept are a sub-multiset of the input |
| `JobApplier.KeptRequirementsBestFirst` | src/pages/jobApplier.tsx:97-99 | the requirements kept come in non-increasing score order |
| `JobApplier.DroppedRequirements` | src/pages/jobApplier.tsx:99 | the requirements dropped are exactly the tail of the ranking |
| `JobApplier.KeptRequirementsOutscoreDropped` | src/pages/jobApplier.tsx:97-99 | no dropped requirement scores above a kept one |
| `JobApplier.KeptRequirementsKeepTieOrder` | src/pages/jobApplier.tsx:97-99 | for every score, the requirements kept with it are the first ones with it, in input order |
| `JobApplier.ApplyJobDetails` | src/pages/jobApplier.tsx:146-153 | a reply replaces the details with title, URLs and questions passed through, and description and requirements prioritised; no reply changes nothing |
| `JobApplier.InitializeData` | src/pages/jobApplier.tsx:113-122 | data is set exactly when the stored résumé or instructions are non-empty (a missing entry reads as ""). Both are then prioritised like a description |
| `ChatGpt.LengthInstructions` | src/services/chatgpt.ts:16-27 | small gives the 2-3 sentence text and large the 7-10 sentence text. Any other length gives the 4-6 sentence text |
| `ChatGpt.Truncated` | src/services/chatgpt.ts:30-39 | a text within the limit is kept; a longer one becomes its first `limit` characters followed by "...", exactly `limit` + 3 long |
| `ChatGpt.TruncateResumeContent` | src/services/chatgpt.ts:30-33 | the résumé sent is at most 1003 characters |
| `ChatGpt.TruncateInstructions` | src/services/chatgpt.ts:36-39 | the instructions sent are at most 303 characters |
| `ChatGpt.TruncatedIdempotent` | src/services/chatgpt.ts:31-32 | cutting an already cut text changes nothing |
| `ChatGpt.TruncatedFixedPoints` | src/services/chatgpt.ts:37-38 | the texts a cut leaves unchanged are exactly those within the limit and those of length `limit` + 3 ending in "..." |
| `ChatGpt.LimitedRequirements` | src/services/chatgpt.ts:57 | the requirements sent are a prefix of the list, of length min(n, 10) |
| `ChatGpt.WebsiteLine` | src/services/chatgpt.ts:84 | the "Company Website: " line is present exactly when a non-empty website is given |
| `ChatGpt.PrepareAnswer` | src/services/chatgpt.ts:53-57 | the required skills are the first ten joined with ", ". Résumé and instructions are cut to 1003 and 303 characters and are sent unchanged when within 1000 and 300 |
| `ChatGpt.FailureMessage` | src/services/chatgpt.ts:100-118 | a thrown Error keeps its message. A thrown non-Error becomes the fallback message. An error body that is not JSON reports the parse error, whatever the status. A JSON `null` body with any status but 429 reports the error raised by reading its `error` field |
| `ChatGpt.AnswerFailureMessage` | src/services/chatgpt.ts:114-118 | the message `generateAnswer` rejects with: `FailureMessage` with the "Failed to generate answer" fallback for thrown non-Errors |
| `ChatGpt.RateLimitWhenBodyReadable` | src/services/chatgpt.ts:100-106 | status 429 with a JSON body gives the rate-limit message |
| `ChatGpt.UnreadableBodyHidesRateLimit` | src/services/chatgpt.ts:101-102 | status 429 with a non-JSON body does not give the rate-limit message |
| `ChatGpt.ApiFailureNamesCause` | src/services/chatgpt.ts:107-109 | any other status gives "API request failed: " followed by the server's non-empty message, or else the status text |
| `JobDescriptionView.ShowsToggle` | src/components/JobDescription.tsx:24 | the toggle test `split(" ").length > 100`. `JobDescriptionView.ToggleCountsSpaces` states it as at least 100 spaces |
| `JobDescriptionView.TruncatedDescription` | src/components/JobDescription.tsx:10-14 | at most 100 pieces leave the text unchanged; more give a text ending in "..." |
| `JobDescriptionView.ToggleCountsSpaces` | src/components/JobDescription.tsx:11 | the toggle is offered exactly when the text has at least 100 spaces. Consecutive spaces make empty words, and newlines split nothing |
| `JobDescriptionView.TruncationKeepsLeadingWords` | src/components/JobDescription.tsx:13 | a cut description is a proper prefix of the text, ending just before a space and holding exactly the first 100 words, followed by "..." |
| `JobDescriptionView.ToggleIffTruncationChanges` | src/components/JobDescription.tsx:24 | the Show More/Less toggle is offered exactly when the cut would change the text |
| `JobDescriptionView.Display` | src/components/JobDescription.tsx:16-18 | the text is shown in full exactly when expanded or not long; collapsed, it is the cut text |
| `MessagePerson.SizeInstructions` | src/components/MessagePerson.tsx:21-32 | small gives the 2-3 sentence text and large the 7-10 sentence text. Any other size gives the 4-6 sentence text |
| `MessagePerson.PlatformInstructions` | src/components/MessagePerson.tsx:34-51 | each style is chosen exactly when its keyword is the first, in priority order, that the lower-cased platform contains: linkedin, then email, then twitter or x, then whatsapp or message; the business tone exactly when none of these keywords occurs |
| `MessagePerson.LowerIdempotent` | src/components/MessagePerson.tsx:35 | lower-casing twice is lower-casing once |
| `MessagePerson.PlatformIgnoresCase` | src/components/MessagePerson.tsx:35 | the style does not depend on ASCII letter case |
| `MessagePerson.ContainsChar` | src/components/MessagePerson.tsx:41 | `includes` of a one-character string is membership |
| `MessagePerson.AnyXMeansTwitter` | src/components/MessagePerson.tsx:41-47 | a platform with an "x" and neither "linkedin" nor "email" gets the Twitter style, even when it names a messaging app |
| `MessagePerson.GenerateRejection` | src/components/MessagePerson.tsx:70-79 | an empty recipient, platform or intent is reported first, then a missing résumé. The request goes ahead exactly when all three are non-empty (whitespace counts) and a résumé is loaded |
| `MessagePerson.RegenerateRejection` | src/components/MessagePerson.tsx:162-171 | a missing résumé is reported first, then a prompt that is blank after trimming. The request goes ahead exactly when neither applies |
| `MessagePerson.RequestFor` | src/components/MessagePerson.tsx:98-125 | the request carries the size and platform sentences and all requirements joined with ", " |
| `MessagePerson.MessageComposer.constructor` | src/components/MessagePerson.tsx:60-68 | empty fields, size "mid", no error, not loading |
| `MessagePerson.MessageComposer.Settle` | src/components/MessagePerson.tsx:148-156 | a reply is shown and the error cleared; a failure sets the error to its message and keeps the previous reply |
| `MessagePerson.MessageComposer.Generate` | src/components/MessagePerson.tsx:70-160 | a refused request only sets the error. A sent one ends with loading off and the reply or failure message in place. The inputs are unchanged |
| `MessagePerson.MessageComposer.RegenerateWithPrompt` | src/components/MessagePerson.tsx:162-254 | same as `Generate`, with its own guards and busy flag; the prompt goes into the request |
| `ApplicationQuestions.AddedQuestion` | src/components/ApplicationQuestions.tsx:41-42 | nothing is added exactly when the new question is blank. Otherwise the trimmed new question is added, which is non-empty and has nothing left to trim |
| `ApplicationQuestions.RegenerationInstructions` | src/components/ApplicationQuestions.tsx:109 | the stored instructions come first and the prompt last, with exactly the "\n\nRegeneration prompt: " label between them |
| `ApplicationQuestions.AnswerRequestFor` | src/components/ApplicationQuestions.tsx:64-73 | every generation asks about the question with the page's website and the medium length |
| `ApplicationQuestions.LongInstructionsDropPrompt` | src/components/ApplicationQuestions.tsx:109 | with 300 or more characters of stored instructions, the 300-character cut leaves none of the regeneration prompt in what is sent |
| `ApplicationQuestions.ShortInstructionsKeepPrompt` | src/components/ApplicationQuestions.tsx:109 | when the whole text fits in 300 characters, the prompt is sent in full |
| `ApplicationQuestions.QuestionBoard.constructor` | src/components/ApplicationQuestions.tsx:28-38 | the scraped questions, nothing typed, all maps empty |
| `ApplicationQuestions.QuestionBoard.EditNewQuestion` | src/components/ApplicationQuestions.tsx:150 | only the typed question changes |
| `ApplicationQuestions.QuestionBoard.AddQuestion` | src/components/ApplicationQuestions.tsx:40-45 | a non-blank new question is appended trimmed and the input cleared; a blank one changes nothing |
| `ApplicationQuestions.QuestionBoard.KeyPress` | src/components/ApplicationQuestions.tsx:47-52 | Enter without Shift is intercepted and adds the question; any other key changes nothing |
| `ApplicationQuestions.QuestionBoard.EditAnswer` | src/components/ApplicationQuestions.tsx:202-204 | only that question's answer changes |
| `ApplicationQuestions.QuestionBoard.EditRegeneratePrompt` | src/components/ApplicationQuestions.tsx:213-219 | only that question's prompt changes |
| `ApplicationQuestions.QuestionBoard.Settle` | src/components/ApplicationQuestions.tsx:75-81 | a reply replaces that question's answer; a failure sets that question's error to the rejection message |
| `ApplicationQuestions.QuestionBoard.GenerateAnswer` | src/components/ApplicationQuestions.tsx:54-85 | with no résumé, the whole error map becomes one entry for the question. Otherwise the request is sent and the question's error cleared; its answer or error is then set and its loading flag turned off. Other questions' entries are unchanged |
| `ApplicationQuestions.QuestionBoard.RegenerateWithPrompt` | src/components/ApplicationQuestions.tsx:87-123 | as `GenerateAnswer`, but an absent or blank prompt also replaces the error map. The prompt is appended to the instructions |
| `Settings.WithField` | src/pages/Settings.tsx:43-48 | the chosen field gets the value; the other four are unchanged |
| `Settings.Merged` | src/pages/Settings.tsx:28-33 | each field present in the saved record replaces the current one; absent fields keep theirs |
| `Settings.Loaded` | src/pages/Settings.tsx:24-41 | non-empty saved instructions override the additional instructions. Otherwise the additional instructions come from the saved record when it has them, else stay. The other fields come from the saved record when there is one, else stay. With nothing saved, nothing changes |
| `Settings.Preview` | src/pages/Settings.tsx:162-172 | the preview starts with the "About Me:" heading |
| `Settings.FormattedResume` | src/pages/Settings.tsx:55-67 | `formattedResume`: the template between a leading newline and a trailing newline with indentation, trimmed. `Settings.FormattedIsTrimmedPreview`, `Settings.FormattedStartsWithAboutMe` and `Settings.FormattedIgnoresInstructions` state what it is |
| `Settings.FormattedIsTrimmedPreview` | src/pages/Settings.tsx:55-67 | the saved résumé is the preview with trailing whitespace removed |
| `Settings.FormattedStartsWithAboutMe` | src/pages/Settings.tsx:55-67 | the saved résumé always starts with "About Me:" |
| `Settings.FormattedIgnoresInstructions` | src/pages/Settings.tsx:70-75 | the additional instructions do not affect the saved résumé |
| `Settings.Saved` | src/pages/Settings.tsx:70-75 | a save stores the formatted résumé, every field, and the additional instructions as the apply instructions |
| `Settings.LoadAfterSave` | src/pages/Settings.tsx:24-41 | loading what a save stored gives the saved record back, whatever the page held before |
| `Settings.SettingsPage.constructor` | src/pages/Settings.tsx:14-21 | all fields empty, not saving |
| `Settings.SettingsPage.Load` | src/pages/Settings.tsx:24-41 | the two load updates leave the record equal to `Loaded` of the old one |
| `Settings.SettingsPage.HandleInputChange` | src/pages/Settings.tsx:43-48 | the record becomes `WithField` of the old one |
| `Settings.SettingsPage.Save` | src/pages/Settings.tsx:50-83 | returns what `Saved` of the record says is stored. The record is kept and the saving flag ends off |
| `ContentScript.NormalizeWebsite` | public/content.js:38-45 | the result starts with "http". It is the trimmed text when that starts with "http", otherwise "https://" plus the trimmed text |
| `ContentScript.NormalizeWebsiteIdempotent` | public/content.js:42-44 | normalising twice equals normalising once |
| `ContentScript.HttpNamedHostKeptAsIs` | public/content.js:42 | "httpbin.org" gets no scheme |
| `ContentScript.TrimAll` | public/content.js:31-34 | every span's text trimmed, empty ones included, in order |
| `ContentScript.LabelQuestion` | public/content.js:52-57 | a label gives at most one question, and none exactly when it has no question element or that element's text is blank |
| `ContentScript.LabelQuestionIsTrimmed` | public/content.js:53-56 | the question a label gives is non-empty and already trimmed |
| `ContentScript.QuestionTexts` | public/content.js:50-58 | the questions loop as a value. Its contract only bounds the count: at most one question per label. Which questions are found, and in what order, is stated by `ContentScript.QuestionTextsAreNonBlankLabels` and `ContentScript.QuestionTextsAppend` |
| `ContentScript.QuestionTextsAreTrimmed` | public/content.js:50-58 | every question found is non-empty and already trimmed |
| `ContentScript.QuestionTextsAppend` | public/content.js:51-58 | the questions of consecutive label groups are found group after group, in document order |
| `ContentScript.QuestionTextsAreNonBlankLabels` | public/content.js:52-57 | a text is a found question exactly when some label asks it: the label's text trims to it and it is non-empty |
| `ContentScript.ExtractJobDetails` | public/content.js:2-62 | every field is the trimmed text or list of its element, or keeps its default when the element is absent. The website is normalised |
| `ContentScript.TrimmedSpans` | public/content.js:31-34 | the push loop builds `TrimAll` of the spans |
| `ContentScript.CollectQuestions` | public/content.js:50-58 | the push loop builds `QuestionTexts` of the labels |

## Left out

- **Network and browser I/O** are not modelled:
  - the OpenAI `fetch` calls, headers, JSON bodies and the reply's `choices[0].message.content`;
  - `chrome.tabs` and `chrome.runtime` messaging;
  - `localStorage`, `navigator.clipboard`, `alert`, `console`.

  A request is modelled by what it would carry, and its outcome by a `Reply` parameter: an answer, or a `Failure`. Storage values are given as options.
- **Prompt templates.** Only the parts derived from the inputs are modelled; the fixed wording of the system and user prompts is not.
- **DOM queries** in `public/content.js` are not modelled. Extraction works on a snapshot of the matched elements' texts.
- **Asynchrony.** React rendering, `useEffect` timing and the intermediate loading/regenerating states during a request are not modelled. Each handler is modelled from its start to its settled end state. For one handler run, the stale-closure spreads of `loading`/`error` give the same end state as the sequential model.
- **Error fallbacks.**
  - The "Failed to fetch job details" message in `fetchJobDetails` is not modelled.
  - The fallbacks "Failed to generate answer" and "Failed to regenerate answer" in the questions panel are unreachable, because `generateAnswer` only ever rejects with an `Error`. The model reports the rejection's message instead.
- **Input setters.** The recipient, platform, intent, size and message-prompt setters in `MessagePerson.tsx` are plain assignments to the class's fields and are not separate methods.
- **Floating point.** Scores are exact scaled integers. Ties between differently composed scores that IEEE doubles could round apart are not modelled.
- **Unicode.**
  - `toLowerCase` is modelled for ASCII letters only.
  - A string is a sequence of Unicode scalar values, whereas JavaScript strings are sequences of UTF-16 code units. For text in the Basic Multilingual Plane the two agree. A character outside it (an astral character such as an emoji) counts 1 in the model but 2 in the source. So for text containing such characters, the model's lengths differ from the source's. This affects the 1000-character description budget and the `substring(0, 1000)` cut (`jobApplier.tsx`), the 1000- and 300-character cuts in `chatgpt.ts`, and the cut positions; the model also never cuts such a character in half, as the source can.
  - The whitespace set is ECMAScript's WhiteSpace and LineTerminator code points.
- **JSON.**
  - `JSON.parse` of the saved résumé is modelled as a record with five optional string fields. Parse failures, non-string values and extra keys are not modelled.
  - In `response.json()` of an error body, only three cases are modelled: not JSON, `null`, or an object with an optional `error.message`.
- **Presentation-only and build files** are not part of this model: `src/pages/Message.tsx`, `src/components/Sidebar.tsx`, `Header.tsx`, `JobTitle.tsx`, `JobLinks.tsx`, `JobRequirements.tsx`, `EmptyState.tsx`, `ErrorState.tsx`, `src/App.tsx` and `copy-manifest.js`.
- **Object keys.** The questions panel keeps its per-question answers, loading flags, errors, regeneration prompts and regenerating flags in plain JavaScript objects keyed by the question text. The model uses Dafny maps, so question texts are assumed not to clash with keys inherited from `Object.prototype` (such as "constructor" or "toString"). For such a text the source's `regeneratePrompts[question]?.trim()` finds an inherited function, throws a `TypeError` outside the `try`, and leaves no error set. The model instead reports `EnterPrompt` (`ApplicationQuestions.QuestionBoard.RegenerateWithPrompt`), and reads no inherited value in the other handlers.
- ChatGpt.RateLimitWhenBodyReadable: status 429 gives the rate-limit message only when the error body is JSON, because the code calls `response.json()` before testing the status.
