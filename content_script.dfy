/**
 * The content script's scrape of a job page, over the texts of the page's
 * elements: title, description, the skill tags, the company website and
 * the application questions, each trimmed, with defaults for what the page
 * lacks.
 */
module ContentScript {
  import opened Wrappers
  import opened Text
  import opened JobApplier

  const HttpPrefix: string := "http"
  const SecureScheme: string := "https://"

  /** The website text trimmed, with "https://" put in front unless it
      already starts with "http". */
  function NormalizeWebsite(text: string): (r: string)
    ensures StartsWith(r, HttpPrefix)
    ensures StartsWith(Trim(text), HttpPrefix) ==> r == Trim(text)
    ensures !StartsWith(Trim(text), HttpPrefix) ==> r == SecureScheme + Trim(text)
  {
    var t := Trim(text);
    if StartsWith(t, HttpPrefix) then t else SecureScheme + t
  }

  /** A normalised address is normalised already. */
  lemma NormalizeWebsiteIdempotent(text: string)
    ensures NormalizeWebsite(NormalizeWebsite(text)) == NormalizeWebsite(text)
  {
    var t := Trim(text);
    var r := NormalizeWebsite(text);
    TrimIdempotent(text);
    TrimEndShape(TrimStart(text));
    if r != t {
      assert r == SecureScheme + t;
      assert t == [] || !IsWhitespace(t[|t| - 1]);
      assert r[|r| - 1] == if t == [] then '/' else t[|t| - 1];
      TrimOfTrimmed(r);
    }
  }

  /** Only the four letters are looked at: a host name that happens to start
      with "http" gets no scheme. */
  lemma HttpNamedHostKeptAsIs()
    ensures NormalizeWebsite("httpbin.org") == "httpbin.org"
  {
    TrimOfTrimmed("httpbin.org");
  }

  /** The texts of a page's elements; `None` where the element is absent. */
  datatype PageSnapshot = PageSnapshot(
    url: string,
    title: Option<string>,
    description: Option<string>,
    skillSpans: Option<seq<string>>,                // the spans in the skills container
    website: Option<string>,
    questionLabels: Option<seq<Option<string>>>)    // per label in the modal, its question element's text

  /** Every text trimmed, empty ones included, in order. */
  function TrimAll(texts: seq<string>): (r: seq<string>)
    ensures |r| == |texts|
    ensures forall i :: 0 <= i < |texts| ==> r[i] == Trim(texts[i])
  {
    seq(|texts|, i requires 0 <= i < |texts| => Trim(texts[i]))
  }

  /** What one label contributes: its question text trimmed, if it has one
      and that is not empty. */
  function LabelQuestion(entry: Option<string>): (r: seq<string>)
    ensures |r| <= 1
    ensures r == [] <==> entry.None? || Blank(entry.value)
  {
    match entry
    case None => []
    case Some(text) =>
      BlankIffTrimsToEmpty(text);
      if Trim(text) != "" then [Trim(text)] else []
  }

  /** A label's question is non-empty and already trimmed. */
  lemma LabelQuestionIsTrimmed(entry: Option<string>)
    ensures forall q :: q in LabelQuestion(entry) ==> q != "" && Trim(q) == q
  {
    if entry.Some? {
      TrimIdempotent(entry.value);
    }
  }

  /** The questions found in the labels, in document order. */
  function QuestionTexts(labels: seq<Option<string>>): (r: seq<string>)
    ensures |r| <= |labels|
    decreases |labels|
  {
    if labels == [] then []
    else QuestionTexts(labels[..|labels| - 1]) + LabelQuestion(labels[|labels| - 1])
  }

  /** Every question found is non-empty and already trimmed. */
  lemma {:induction false} QuestionTextsAreTrimmed(labels: seq<Option<string>>)
    ensures forall i :: 0 <= i < |QuestionTexts(labels)| ==>
              QuestionTexts(labels)[i] != "" && Trim(QuestionTexts(labels)[i]) == QuestionTexts(labels)[i]
    decreases |labels|
  {
    if labels != [] {
      var rest := QuestionTexts(labels[..|labels| - 1]);
      var last := LabelQuestion(labels[|labels| - 1]);
      QuestionTextsAreTrimmed(labels[..|labels| - 1]);
      LabelQuestionIsTrimmed(labels[|labels| - 1]);
      assert QuestionTexts(labels) == rest + last;
      forall i | |rest| <= i < |rest + last| ensures (rest + last)[i] in last {
      }
    }
  }

  /** The questions of consecutive groups of labels are the groups'
      questions, one group after the other. */
  lemma {:induction false} QuestionTextsAppend(a: seq<Option<string>>, b: seq<Option<string>>)
    ensures QuestionTexts(a + b) == QuestionTexts(a) + QuestionTexts(b)
    decreases |b|
  {
    if b == [] {
      assert a + b == a;
    } else {
      var shorter, last := b[..|b| - 1], b[|b| - 1];
      calc {
        QuestionTexts(a + b);
        { assert (a + b)[..|a + b| - 1] == a + shorter && (a + b)[|a + b| - 1] == last; }
        QuestionTexts(a + shorter) + LabelQuestion(last);
        { QuestionTextsAppend(a, shorter); }
        QuestionTexts(a) + QuestionTexts(shorter) + LabelQuestion(last);
        QuestionTexts(a) + (QuestionTexts(shorter) + LabelQuestion(last));
        QuestionTexts(a) + QuestionTexts(b);
      }
    }
  }

  /** The label `entry` asks the question `q`. */
  ghost predicate Asks(entry: Option<string>, q: string) {
    entry.Some? && Trim(entry.value) == q && q != ""
  }

  /** A text is a found question exactly when some label asks it. */
  lemma {:induction false} QuestionTextsAreNonBlankLabels(labels: seq<Option<string>>)
    ensures forall q :: q in QuestionTexts(labels) <==> exists i :: 0 <= i < |labels| && Asks(labels[i], q)
    decreases |labels|
  {
    if labels != [] {
      var init, last := labels[..|labels| - 1], labels[|labels| - 1];
      QuestionTextsAreNonBlankLabels(init);
      assert QuestionTexts(labels) == QuestionTexts(init) + LabelQuestion(last);
      forall q
        ensures q in QuestionTexts(labels) <==> exists i :: 0 <= i < |labels| && Asks(labels[i], q)
      {
        assert q in LabelQuestion(last) <==> Asks(last, q);
        if exists i :: 0 <= i < |init| && Asks(init[i], q) {
          var i :| 0 <= i < |init| && Asks(init[i], q);
          assert labels[i] == init[i];
        }
        if exists i :: 0 <= i < |labels| && Asks(labels[i], q) {
          var i :| 0 <= i < |labels| && Asks(labels[i], q);
          if i < |init| {
            assert init[i] == labels[i];
          }
        }
      }
    }
  }

  /** `extractJobDetails`: texts trimmed, skills pushed one by one, the
      website normalised, non-empty questions pushed one by one; absent
      elements leave the defaults. */
  method ExtractJobDetails(page: PageSnapshot) returns (details: JobDetails)
    ensures details.url == page.url
    ensures details.title == if page.title.Some? then Trim(page.title.value) else ""
    ensures details.description == if page.description.Some? then Trim(page.description.value) else ""
    ensures details.requirements == if page.skillSpans.Some? then TrimAll(page.skillSpans.value) else []
    ensures details.websiteUrl == if page.website.Some? then NormalizeWebsite(page.website.value) else ""
    ensures details.applicationQuestions ==
              if page.questionLabels.Some? then QuestionTexts(page.questionLabels.value) else []
  {
    details := JobDetails("", "", [], page.url, "", []);
    if page.title.Some? {
      details := details.(title := Trim(page.title.value));
    }
    if page.description.Some? {
      details := details.(description := Trim(page.description.value));
    }
    if page.skillSpans.Some? {
      var requirements := TrimmedSpans(page.skillSpans.value);
      details := details.(requirements := requirements);
    }
    if page.website.Some? {
      details := details.(websiteUrl := NormalizeWebsite(page.website.value));
    }
    if page.questionLabels.Some? {
      var questions := CollectQuestions(page.questionLabels.value);
      details := details.(applicationQuestions := questions);
    }
  }

  /** The skills loop: each span's text trimmed and pushed. */
  method TrimmedSpans(spans: seq<string>) returns (requirements: seq<string>)
    ensures requirements == TrimAll(spans)
  {
    requirements := [];
    for i := 0 to |spans|
      invariant |requirements| == i
      invariant forall k :: 0 <= k < i ==> requirements[k] == Trim(spans[k])
    {
      requirements := requirements + [Trim(spans[i])];
    }
  }

  /** The questions loop: each label's trimmed text pushed when non-empty. */
  method CollectQuestions(labels: seq<Option<string>>) returns (questions: seq<string>)
    ensures questions == QuestionTexts(labels)
  {
    questions := [];
    for i := 0 to |labels|
      invariant questions == QuestionTexts(labels[..i])
    {
      assert labels[..i + 1][..i] == labels[..i];
      if labels[i].Some? {
        var text := Trim(labels[i].value);
        if text != "" {
          questions := questions + [text];
        }
      }
    }
    assert labels[..|labels|] == labels;
  }
}
