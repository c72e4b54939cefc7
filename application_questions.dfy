/**
 * The application-questions panel: a list of questions the user can extend,
 * and per question an answer, a loading flag, an error, a regeneration
 * prompt and a regenerating flag, all kept in maps keyed by the question's
 * text.
 */
module ApplicationQuestions {
  import opened Wrappers
  import opened Text
  import opened ChatGpt
  import opened JobApplier

  const UploadResume: string := "Please upload your resume first"
  const EnterPrompt: string := "Please enter a prompt for regeneration"
  const RegenerationLabel: string := "\n\nRegeneration prompt: "
  const AnswerLength: string := "medium"

  /** The question `handleAddQuestion` appends, if any: the new question's
      text trimmed, unless that is empty. What it appends is never blank and
      has nothing left to trim. */
  function AddedQuestion(newQuestion: string): (r: Option<string>)
    ensures r.None? <==> Blank(newQuestion)
    ensures r.Some? ==> r.value == Trim(newQuestion)
    ensures r.Some? ==> r.value != "" && Trim(r.value) == r.value
  {
    BlankIffTrimsToEmpty(newQuestion);
    TrimIdempotent(newQuestion);
    var t := Trim(newQuestion);
    if t != "" then Some(t) else None
  }

  /** The instructions a regeneration sends: the stored ones, a blank line,
      and the labelled prompt. */
  function RegenerationInstructions(instructions: string, prompt: string): (r: string)
    ensures |r| == |instructions| + |RegenerationLabel| + |prompt|
    ensures r[..|instructions|] == instructions && r[|r| - |prompt|..] == prompt
    ensures r[|instructions|..|r| - |prompt|] == RegenerationLabel
  {
    instructions + RegenerationLabel + prompt
  }

  /** The arguments every generation passes to `generateAnswer`. */
  function AnswerRequestFor(job: JobDetails, data: InitializedData, question: string, instructions: string)
    : (r: AnswerRequest)
    ensures r.question == question && r.instructions == instructions
    ensures r.companyWebsite == Some(job.websiteUrl) && r.answerLength == AnswerLength
  {
    AnswerRequest(job.title, job.description, job.requirements, Some(job.websiteUrl),
                  question, data.resumeContent, instructions, AnswerLength)
  }

  /** The instructions are cut to 300 characters after the prompt is
      appended, so with 300 or more characters of stored instructions the
      regeneration prompt never reaches the model. */
  lemma LongInstructionsDropPrompt(job: JobDetails, data: InitializedData, question: string, prompt: string)
    requires |data.instructions| >= InstructionsLimit
    ensures PrepareAnswer(AnswerRequestFor(job, data, question, RegenerationInstructions(data.instructions, prompt))).instructions
         == data.instructions[..InstructionsLimit] + Ellipsis
  {
    var full := RegenerationInstructions(data.instructions, prompt);
    assert full[..InstructionsLimit] == data.instructions[..InstructionsLimit];
  }

  /** With room for it, the prompt is sent in full. */
  lemma ShortInstructionsKeepPrompt(job: JobDetails, data: InitializedData, question: string, prompt: string)
    requires |data.instructions| + |RegenerationLabel| + |prompt| <= InstructionsLimit
    ensures var sent := PrepareAnswer(AnswerRequestFor(job, data, question,
                                                       RegenerationInstructions(data.instructions, prompt))).instructions;
            sent[|sent| - |prompt|..] == prompt
  {
  }

  /** The panel's state. */
  class QuestionBoard {
    var questions: seq<string>
    var newQuestion: string
    var answers: map<string, string>
    var loading: map<string, bool>
    var error: map<string, string>
    var regeneratePrompts: map<string, string>
    var isRegenerating: map<string, bool>

    /** Starts from the scraped questions, with nothing typed and no answers. */
    constructor(initialQuestions: seq<string>)
      ensures questions == initialQuestions && newQuestion == ""
      ensures answers == map[] && loading == map[] && error == map[]
      ensures regeneratePrompts == map[] && isRegenerating == map[]
    {
      questions, newQuestion := initialQuestions, "";
      answers, loading, error := map[], map[], map[];
      regeneratePrompts, isRegenerating := map[], map[];
    }

    /** The new-question input's `onChange`. */
    method EditNewQuestion(value: string)
      modifies this
      ensures newQuestion == value
      ensures questions == old(questions) && answers == old(answers) && loading == old(loading)
      ensures error == old(error) && regeneratePrompts == old(regeneratePrompts)
      ensures isRegenerating == old(isRegenerating)
    {
      newQuestion := value;
    }

    /** `handleAddQuestion`: a non-blank new question is appended, trimmed,
        and the input cleared; a blank one changes nothing. */
    method AddQuestion()
      modifies this
      ensures AddedQuestion(old(newQuestion)).Some? ==>
                questions == old(questions) + [AddedQuestion(old(newQuestion)).value] && newQuestion == ""
      ensures AddedQuestion(old(newQuestion)).None? ==>
                questions == old(questions) && newQuestion == old(newQuestion)
      ensures answers == old(answers) && loading == old(loading) && error == old(error)
      ensures regeneratePrompts == old(regeneratePrompts) && isRegenerating == old(isRegenerating)
    {
      var added := AddedQuestion(newQuestion);
      if added.Some? {
        questions := questions + [added.value];
        newQuestion := "";
      }
    }

    /** `handleKeyPress`: Enter without Shift is taken over to add the
        question; any other key is left to the input. */
    method KeyPress(key: string, shiftKey: bool) returns (prevented: bool)
      modifies this
      ensures prevented <==> key == "Enter" && !shiftKey
      ensures prevented && AddedQuestion(old(newQuestion)).Some? ==>
                questions == old(questions) + [AddedQuestion(old(newQuestion)).value] && newQuestion == ""
      ensures !prevented || AddedQuestion(old(newQuestion)).None? ==>
                questions == old(questions) && newQuestion == old(newQuestion)
      ensures answers == old(answers) && loading == old(loading) && error == old(error)
      ensures regeneratePrompts == old(regeneratePrompts) && isRegenerating == old(isRegenerating)
    {
      prevented := key == "Enter" && !shiftKey;
      if prevented {
        AddQuestion();
      }
    }

    /** The answer box's `onChange`. */
    method EditAnswer(question: string, value: string)
      modifies this
      ensures answers == old(answers)[question := value]
      ensures questions == old(questions) && newQuestion == old(newQuestion)
      ensures loading == old(loading) && error == old(error)
      ensures regeneratePrompts == old(regeneratePrompts) && isRegenerating == old(isRegenerating)
    {
      answers := answers[question := value];
    }

    /** The regeneration prompt box's `onChange`. */
    method EditRegeneratePrompt(question: string, value: string)
      modifies this
      ensures regeneratePrompts == old(regeneratePrompts)[question := value]
      ensures questions == old(questions) && newQuestion == old(newQuestion)
      ensures answers == old(answers) && loading == old(loading) && error == old(error)
      ensures isRegenerating == old(isRegenerating)
    {
      regeneratePrompts := regeneratePrompts[question := value];
    }

    /** The end of a sent request for `question`: its answer replaced, or
        its error set to the failure's message. */
    method Settle(question: string, reply: Reply)
      modifies this
      ensures reply.Answered? ==> answers == old(answers)[question := reply.content] && error == old(error)
      ensures reply.Failed? ==>
                answers == old(answers) && error == old(error)[question := AnswerFailureMessage(reply.failure)]
      ensures questions == old(questions) && newQuestion == old(newQuestion) && loading == old(loading)
      ensures regeneratePrompts == old(regeneratePrompts) && isRegenerating == old(isRegenerating)
    {
      match reply {
        case Answered(content) => answers := answers[question := content];
        case Failed(failure) => error := error[question := AnswerFailureMessage(failure)];
      }
    }

    /** `handleGenerateAnswer`: without a résumé the whole error map is
        replaced by one entry for this question; otherwise the request is
        sent, the question's error cleared, and when the reply is in its
        answer or error is set and its loading flag is off. Other questions'
        entries are untouched. */
    method GenerateAnswer(question: string, job: JobDetails, initialized: Option<InitializedData>, reply: Reply)
      returns (request: Option<AnswerRequest>)
      modifies this
      ensures questions == old(questions) && newQuestion == old(newQuestion)
      ensures regeneratePrompts == old(regeneratePrompts) && isRegenerating == old(isRegenerating)
      ensures initialized.None? ==>
                && request == None && error == map[question := UploadResume]
                && answers == old(answers) && loading == old(loading)
      ensures initialized.Some? ==>
                && request == Some(AnswerRequestFor(job, initialized.value, question, initialized.value.instructions))
                && loading == old(loading)[question := false]
                && (reply.Answered? ==>
                      answers == old(answers)[question := reply.content] && error == old(error)[question := ""])
                && (reply.Failed? ==>
                      answers == old(answers)
                      && error == old(error)[question := AnswerFailureMessage(reply.failure)])
    {
      if initialized.None? {
        error := map[question := UploadResume];
        return None;
      }
      var data := initialized.value;
      loading := loading[question := true];
      error := error[question := ""];
      request := Some(AnswerRequestFor(job, data, question, data.instructions));
      Settle(question, reply);
      loading := loading[question := false];
    }

    /** `handleRegenerateWithPrompt`: as `GenerateAnswer`, but a missing or
        blank prompt for the question is refused first (again replacing the
        whole error map), and the prompt is appended to the instructions. */
    method RegenerateWithPrompt(question: string, job: JobDetails, initialized: Option<InitializedData>, reply: Reply)
      returns (request: Option<AnswerRequest>)
      modifies this
      ensures questions == old(questions) && newQuestion == old(newQuestion)
      ensures regeneratePrompts == old(regeneratePrompts) && loading == old(loading)
      ensures initialized.None? ==>
                && request == None && error == map[question := UploadResume]
                && answers == old(answers) && isRegenerating == old(isRegenerating)
      ensures initialized.Some? && (question !in regeneratePrompts || Blank(regeneratePrompts[question])) ==>
                && request == None && error == map[question := EnterPrompt]
                && answers == old(answers) && isRegenerating == old(isRegenerating)
      ensures initialized.Some? && question in regeneratePrompts && !Blank(regeneratePrompts[question]) ==>
                && request == Some(AnswerRequestFor(job, initialized.value, question,
                                     RegenerationInstructions(initialized.value.instructions,
                                                              regeneratePrompts[question])))
                && isRegenerating == old(isRegenerating)[question := false]
                && (reply.Answered? ==>
                      answers == old(answers)[question := reply.content] && error == old(error)[question := ""])
                && (reply.Failed? ==>
                      answers == old(answers)
                      && error == old(error)[question := AnswerFailureMessage(reply.failure)])
    {
      if initialized.None? {
        error := map[question := UploadResume];
        return None;
      }
      if question !in regeneratePrompts || Blank(regeneratePrompts[question]) {
        error := map[question := EnterPrompt];
        return None;
      }
      var data := initialized.value;
      var prompt := regeneratePrompts[question];
      isRegenerating := isRegenerating[question := true];
      error := error[question := ""];
      request := Some(AnswerRequestFor(job, data, question, RegenerationInstructions(data.instructions, prompt)));
      Settle(question, reply);
      isRegenerating := isRegenerating[question := false];
    }
  }
}
