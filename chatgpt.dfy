/**
 * The answer generator's prompt preparation and its failure reporting:
 * fixed-length cuts of the résumé and the instructions, the first ten
 * requirements, the answer-length sentence, the optional website line, and
 * the message a failed request is reported with.
 */
module ChatGpt {
  import opened Wrappers
  import opened Text

  const ResumeLimit: nat := 1000
  const InstructionsLimit: nat := 300
  const RequirementsSent: nat := 10
  const Ellipsis: string := "..."

  const ConciseAnswer: string := "Please provide a concise answer in 2-3 sentences."
  const DetailedAnswer: string := "Please provide a detailed answer in 4-6 sentences."
  const ComprehensiveAnswer: string := "Please provide a comprehensive answer in 7-10 sentences."

  const WebsiteLabel: string := "Company Website: "

  const RateLimitMessage: string := "Rate limit exceeded. Please try again in a few minutes."
  const ApiFailurePrefix: string := "API request failed: "
  const AnswerFallback: string := "Failed to generate answer. Please try again."

  /** The sentence-count request for an answer length; anything other than
      "small" or "large" asks for the medium length. */
  function LengthInstructions(length: string): (r: string)
    ensures r == ConciseAnswer <==> length == "small"
    ensures r == ComprehensiveAnswer <==> length == "large"
    ensures r == DetailedAnswer <==> length != "small" && length != "large"
  {
    match length
    case "small" => ConciseAnswer
    case "medium" => DetailedAnswer
    case "large" => ComprehensiveAnswer
    case _ => DetailedAnswer
  }

  /** A text longer than `limit` is cut to its first `limit` characters
      followed by "..."; a shorter one is kept whole. */
  function Truncated(s: string, limit: nat): (r: string)
    ensures |s| <= limit ==> r == s
    ensures |s| > limit ==> |r| == limit + |Ellipsis| && r[..limit] == s[..limit] && r[limit..] == Ellipsis
  {
    if |s| <= limit then s else s[..limit] + Ellipsis
  }

  function TruncateResumeContent(resume: string): (r: string)
    ensures |r| <= ResumeLimit + |Ellipsis|
  {
    Truncated(resume, ResumeLimit)
  }

  function TruncateInstructions(instructions: string): (r: string)
    ensures |r| <= InstructionsLimit + |Ellipsis|
  {
    Truncated(instructions, InstructionsLimit)
  }

  /** Cutting twice is cutting once. */
  lemma TruncatedIdempotent(s: string, limit: nat)
    ensures Truncated(Truncated(s, limit), limit) == Truncated(s, limit)
  {
    if |s| > limit {
      var r := Truncated(s, limit);
      assert r[..limit] + Ellipsis == r;
    }
  }

  /** The texts a cut leaves alone: the short ones, and those that already
      look like the result of a cut. */
  lemma TruncatedFixedPoints(s: string, limit: nat)
    ensures Truncated(s, limit) == s <==>
              |s| <= limit || (|s| == limit + |Ellipsis| && s[limit..] == Ellipsis)
  {
    if |s| == limit + |Ellipsis| && s[limit..] == Ellipsis {
      assert s[..limit] + s[limit..] == s;
    }
  }

  /** The requirements sent: the first ten, in their original order. */
  function LimitedRequirements(requirements: seq<string>): (r: seq<string>)
    ensures r <= requirements
    ensures |r| == if |requirements| <= RequirementsSent then |requirements| else RequirementsSent
  {
    if |requirements| <= RequirementsSent then requirements else requirements[..RequirementsSent]
  }

  /** The "Company Website:" line, present exactly when a non-empty website
      was given. */
  function WebsiteLine(companyWebsite: Option<string>): (r: string)
    ensures r != "" <==> companyWebsite.Some? && companyWebsite.value != ""
    ensures r != "" ==> r == WebsiteLabel + companyWebsite.value
  {
    match companyWebsite
    case Some(w) => if w != "" then WebsiteLabel + w else ""
    case None => ""
  }

  /** The arguments of `generateAnswer`. */
  datatype AnswerRequest = AnswerRequest(
    jobTitle: string,
    jobDescription: string,
    requirements: seq<string>,
    companyWebsite: Option<string>,
    question: string,
    resumeContent: string,
    instructions: string,
    answerLength: string)

  /** The parts of the prompt that `generateAnswer` derives from its
      arguments; the other arguments are copied into the prompt verbatim. */
  datatype AnswerPrompt = AnswerPrompt(
    lengthInstruction: string,
    requiredSkills: string,
    websiteLine: string,
    resume: string,
    instructions: string)

  function PrepareAnswer(request: AnswerRequest): (p: AnswerPrompt)
    ensures p.requiredSkills == Join(LimitedRequirements(request.requirements), ", ")
    ensures |p.resume| <= ResumeLimit + |Ellipsis| && |p.instructions| <= InstructionsLimit + |Ellipsis|
    ensures |request.resumeContent| <= ResumeLimit ==> p.resume == request.resumeContent
    ensures |request.instructions| <= InstructionsLimit ==> p.instructions == request.instructions
  {
    AnswerPrompt(
      LengthInstructions(request.answerLength),
      Join(LimitedRequirements(request.requirements), ", "),
      WebsiteLine(request.companyWebsite),
      TruncateResumeContent(request.resumeContent),
      TruncateInstructions(request.instructions))
  }

  /** What `response.json()` makes of a failed response's body. */
  datatype ErrorBody =
    | Unreadable(parseError: string)    // not JSON: `json()` rejects with this message
    | NullBody(accessError: string)     // the JSON `null`: reading `.error` of it throws this
    | Readable(message: Option<string>) // an object; `error.message` when it has one

  /** How a request can fail. */
  datatype Failure =
    | HttpError(status: int, body: ErrorBody, statusText: string)
    | Thrown(message: string)   // an `Error` raised by `fetch` or by reading the reply
    | ThrownNonError            // a thrown value that is not an `Error`

  /** How a chat-completion request ends: with the reply's text, or failed. */
  datatype Reply = Answered(content: string) | Failed(failure: Failure)

  /** The message of the error a failed request is reported with. The body
      is read before the status is looked at, so an unreadable body wins
      even over status 429. */
  function FailureMessage(failure: Failure, fallback: string): (m: string)
    ensures failure.Thrown? ==> m == failure.message
    ensures failure.ThrownNonError? ==> m == fallback
    ensures failure.HttpError? && failure.body.Unreadable? ==> m == failure.body.parseError
    ensures failure.HttpError? && failure.body.NullBody? && failure.status != 429 ==> m == failure.body.accessError
  {
    match failure
    case HttpError(status, body, statusText) =>
      (match body
       case Unreadable(e) => e
       case NullBody(e) => if status == 429 then RateLimitMessage else e
       case Readable(message) =>
         if status == 429 then RateLimitMessage
         else ApiFailurePrefix + (if message.Some? && message.value != "" then message.value else statusText))
    case Thrown(message) => message
    case ThrownNonError => fallback
  }

  /** The message `generateAnswer` rejects with. */
  function AnswerFailureMessage(failure: Failure): string {
    FailureMessage(failure, AnswerFallback)
  }

  /** Status 429 is reported as the rate limit whenever its body is JSON. */
  lemma RateLimitWhenBodyReadable(body: ErrorBody, statusText: string, fallback: string)
    requires !body.Unreadable?
    ensures FailureMessage(HttpError(429, body, statusText), fallback) == RateLimitMessage
  {
  }

  /** A 429 response whose body is not JSON is reported with the parse error,
      not as the rate limit. */
  lemma UnreadableBodyHidesRateLimit(parseError: string, statusText: string, fallback: string)
    requires parseError != RateLimitMessage
    ensures FailureMessage(HttpError(429, Unreadable(parseError), statusText), fallback) != RateLimitMessage
  {
  }

  /** Any other status with a JSON object body is reported as a failed API
      request naming the server's message, or the status text when the
      server gave none. */
  lemma ApiFailureNamesCause(status: int, message: Option<string>, statusText: string, fallback: string)
    requires status != 429
    ensures var m := FailureMessage(HttpError(status, Readable(message), statusText), fallback);
            && StartsWith(m, ApiFailurePrefix)
            && m[|ApiFailurePrefix|..] == (if message.Some? && message.value != "" then message.value else statusText)
  {
  }
}
