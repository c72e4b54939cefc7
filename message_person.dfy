/**
 * The "message a person" panel: the recipient, platform, intent and size the
 * user entered become a chat-completion request, after guards that report
 * what is missing; a reply, or the reason it failed, lands in the panel.
 */
module MessagePerson {
  import opened Wrappers
  import opened Text
  import opened ChatGpt
  import opened JobApplier

  const ConciseMessage: string := "Please provide a concise message in 2-3 sentences."
  const DetailedMessage: string := "Please provide a detailed message in 4-6 sentences."
  const ComprehensiveMessage: string := "Please provide a comprehensive message in 7-10 sentences."

  const LinkedInStyle: string :=
    "Write in a professional LinkedIn style, highlighting your professional background and interest in the position."
  const EmailStyle: string :=
    "Write in a formal email style with a clear subject line suggestion and proper email formatting."
  const TwitterStyle: string := "Write in a concise Twitter style, keeping it brief and engaging."
  const MessagingStyle: string :=
    "Write in a conversational but professional style suitable for messaging apps."
  const BusinessStyle: string := "Write in a professional tone appropriate for business communication."

  const FillAllFields: string := "Please fill in all fields"
  const UploadResume: string := "Please upload your resume first"
  const EnterPrompt: string := "Please enter a prompt for regeneration"
  const GenerateFallback: string := "Failed to generate message. Please try again."
  const RegenerateFallback: string := "Failed to regenerate message. Please try again."

  /** The sentence-count request for a message size; anything other than
      "small" or "large" asks for the middle size. */
  function SizeInstructions(size: string): (r: string)
    ensures r == ConciseMessage <==> size == "small"
    ensures r == ComprehensiveMessage <==> size == "large"
    ensures r == DetailedMessage <==> size != "small" && size != "large"
  {
    match size
    case "small" => ConciseMessage
    case "mid" => DetailedMessage
    case "large" => ComprehensiveMessage
    case _ => DetailedMessage
  }

  /** The writing style for a platform name: the first of LinkedIn, email,
      Twitter/X and messaging whose keyword the lower-cased name contains,
      else the business tone. */
  function PlatformInstructions(platform: string): (r: string)
    ensures var p := Lower(platform);
            && (r == LinkedInStyle <==> Contains(p, "linkedin"))
            && (r == EmailStyle <==> !Contains(p, "linkedin") && Contains(p, "email"))
            && (r == TwitterStyle <==>
                  !Contains(p, "linkedin") && !Contains(p, "email")
                  && (Contains(p, "twitter") || Contains(p, "x")))
            && (r == MessagingStyle <==>
                  !Contains(p, "linkedin") && !Contains(p, "email")
                  && !Contains(p, "twitter") && !Contains(p, "x")
                  && (Contains(p, "whatsapp") || Contains(p, "message")))
            && (r == BusinessStyle <==>
                  !Contains(p, "linkedin") && !Contains(p, "email")
                  && !Contains(p, "twitter") && !Contains(p, "x")
                  && !Contains(p, "whatsapp") && !Contains(p, "message"))
  {
    var p := Lower(platform);
    if Contains(p, "linkedin") then LinkedInStyle
    else if Contains(p, "email") then EmailStyle
    else if Contains(p, "twitter") || Contains(p, "x") then TwitterStyle
    else if Contains(p, "whatsapp") || Contains(p, "message") then MessagingStyle
    else BusinessStyle
  }

  lemma LowerIdempotent(s: string)
    ensures Lower(Lower(s)) == Lower(s)
  {
    assert forall i :: 0 <= i < |s| ==> LowerChar(LowerChar(s[i])) == LowerChar(s[i]);
  }

  /** The platform name is matched without regard to ASCII case. */
  lemma PlatformIgnoresCase(platform: string)
    ensures PlatformInstructions(Lower(platform)) == PlatformInstructions(platform)
  {
    LowerIdempotent(platform);
  }

  /** `includes` of a one-character string is membership. */
  lemma {:induction false} ContainsChar(s: string, c: char)
    ensures Contains(s, [c]) <==> c in s
    decreases |s|
  {
    if s != [] {
      ContainsChar(s[1..], c);
      assert s == [s[0]] + s[1..];
    }
  }

  /** Because "x" is tested before the messaging keywords, any platform
      with an "x" in it and no "linkedin" or "email" gets the Twitter style,
      "message" or "whatsapp" in it notwithstanding. */
  lemma AnyXMeansTwitter(platform: string)
    requires 'x' in Lower(platform)
    requires !Contains(Lower(platform), "linkedin") && !Contains(Lower(platform), "email")
    ensures PlatformInstructions(platform) == TwitterStyle
  {
    ContainsChar(Lower(platform), 'x');
  }

  /** Why `handleGenerate` refuses to send, if it does: an empty field is
      reported before a missing résumé. Whitespace counts as filled in. */
  function GenerateRejection(recipient: string, platform: string, message: string, hasResume: bool)
    : (r: Option<string>)
    ensures r == Some(FillAllFields) <==> recipient == "" || platform == "" || message == ""
    ensures r == Some(UploadResume) <==> recipient != "" && platform != "" && message != "" && !hasResume
    ensures r == None <==> recipient != "" && platform != "" && message != "" && hasResume
  {
    if recipient == "" || platform == "" || message == "" then Some(FillAllFields)
    else if !hasResume then Some(UploadResume)
    else None
  }

  /** Why `handleRegenerateWithPrompt` refuses to send, if it does: a
      missing résumé is reported before a prompt that is blank once trimmed
      (see `Text.BlankIffTrimsToEmpty`). */
  function RegenerateRejection(hasResume: bool, prompt: string): (r: Option<string>)
    ensures r == Some(UploadResume) <==> !hasResume
    ensures r == Some(EnterPrompt) <==> hasResume && Blank(prompt)
    ensures r == None <==> hasResume && !Blank(prompt)
  {
    if !hasResume then Some(UploadResume)
    else if Blank(prompt) then Some(EnterPrompt)
    else None
  }

  /** What a message request carries: the system prompt's size and style
      sentences and optional regeneration prompt, and the user prompt's
      fields. Résumé and instructions are sent as loaded, uncut. */
  datatype MessageRequest = MessageRequest(
    sizeInstruction: string,
    platformInstruction: string,
    regenerationPrompt: Option<string>,
    recipient: string,
    platform: string,
    intent: string,
    jobTitle: string,
    jobDescription: string,
    requiredSkills: string,
    websiteUrl: string,
    resumeContent: string,
    instructions: string)

  function RequestFor(recipient: string, platform: string, intent: string, size: string,
                      job: JobDetails, data: InitializedData, regeneration: Option<string>)
    : (r: MessageRequest)
    ensures r.requiredSkills == Join(job.requirements, ", ")
    ensures r.sizeInstruction == SizeInstructions(size) && r.platformInstruction == PlatformInstructions(platform)
  {
    MessageRequest(
      SizeInstructions(size), PlatformInstructions(platform), regeneration,
      recipient, platform, intent,
      job.title, job.description, Join(job.requirements, ", "), job.websiteUrl,
      data.resumeContent, data.instructions)
  }

  /** The panel's state. */
  class MessageComposer {
    var recipient: string
    var platform: string
    var message: string
    var size: string
    var generatedMessage: string
    var isLoading: bool
    var error: Option<string>
    var regeneratePrompt: string
    var isRegenerating: bool

    constructor()
      ensures recipient == "" && platform == "" && message == "" && size == "mid"
      ensures generatedMessage == "" && !isLoading && error == None
      ensures regeneratePrompt == "" && !isRegenerating
    {
      recipient, platform, message, size := "", "", "", "mid";
      generatedMessage, isLoading, error := "", false, None;
      regeneratePrompt, isRegenerating := "", false;
    }

    /** The end of a sent request: the reply is shown and the error cleared,
        or the failure's message becomes the error. */
    method Settle(reply: Reply, fallback: string)
      modifies this
      ensures recipient == old(recipient) && platform == old(platform) && message == old(message)
      ensures size == old(size) && regeneratePrompt == old(regeneratePrompt)
      ensures isLoading == old(isLoading) && isRegenerating == old(isRegenerating)
      ensures reply.Answered? ==> generatedMessage == reply.content && error == None
      ensures reply.Failed? ==>
                generatedMessage == old(generatedMessage) && error == Some(FailureMessage(reply.failure, fallback))
    {
      match reply {
        case Answered(content) =>
          generatedMessage := content;
          error := None;
        case Failed(failure) =>
          error := Some(FailureMessage(failure, fallback));
      }
    }

    /** `handleGenerate`: a rejected request only sets the error; a sent one
        ends with loading off and either the reply shown and no error, or
        the failure's message as the error and the old reply kept. */
    method Generate(job: JobDetails, initialized: Option<InitializedData>, reply: Reply)
      returns (request: Option<MessageRequest>)
      modifies this
      ensures recipient == old(recipient) && platform == old(platform) && message == old(message)
      ensures size == old(size) && regeneratePrompt == old(regeneratePrompt)
      ensures isRegenerating == old(isRegenerating)
      ensures var rejection := GenerateRejection(recipient, platform, message, initialized.Some?);
              rejection.Some? ==>
                && request == None && error == rejection
                && generatedMessage == old(generatedMessage) && isLoading == old(isLoading)
      ensures GenerateRejection(recipient, platform, message, initialized.Some?) == None ==>
                && request == Some(RequestFor(recipient, platform, message, size, job, initialized.value, None))
                && !isLoading
                && (reply.Answered? ==> generatedMessage == reply.content && error == None)
                && (reply.Failed? ==>
                      generatedMessage == old(generatedMessage)
                      && error == Some(FailureMessage(reply.failure, GenerateFallback)))
    {
      var rejection := GenerateRejection(recipient, platform, message, initialized.Some?);
      if rejection.Some? {
        error := rejection;
        return None;
      }
      isLoading := true;
      error := None;
      request := Some(RequestFor(recipient, platform, message, size, job, initialized.value, None));
      Settle(reply, GenerateFallback);
      isLoading := false;
    }

    /** `handleRegenerateWithPrompt`: like `Generate`, with its own guards,
        the prompt added to the request and its own busy flag. */
    method RegenerateWithPrompt(job: JobDetails, initialized: Option<InitializedData>, reply: Reply)
      returns (request: Option<MessageRequest>)
      modifies this
      ensures recipient == old(recipient) && platform == old(platform) && message == old(message)
      ensures size == old(size) && regeneratePrompt == old(regeneratePrompt)
      ensures isLoading == old(isLoading)
      ensures var rejection := RegenerateRejection(initialized.Some?, regeneratePrompt);
              rejection.Some? ==>
                && request == None && error == rejection
                && generatedMessage == old(generatedMessage) && isRegenerating == old(isRegenerating)
      ensures RegenerateRejection(initialized.Some?, regeneratePrompt) == None ==>
                && request == Some(RequestFor(recipient, platform, message, size, job, initialized.value,
                                              Some(regeneratePrompt)))
                && !isRegenerating
                && (reply.Answered? ==> generatedMessage == reply.content && error == None)
                && (reply.Failed? ==>
                      generatedMessage == old(generatedMessage)
                      && error == Some(FailureMessage(reply.failure, RegenerateFallback)))
    {
      var rejection := RegenerateRejection(initialized.Some?, regeneratePrompt);
      if rejection.Some? {
        error := rejection;
        return None;
      }
      isRegenerating := true;
      error := None;
      request := Some(RequestFor(recipient, platform, message, size, job, initialized.value,
                                 Some(regeneratePrompt)));
      Settle(reply, RegenerateFallback);
      isRegenerating := false;
    }
  }
}
