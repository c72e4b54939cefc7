/**
 * The job page's content prioritiser: before a scraped job description or
 * a stored résumé goes into a prompt it is cut to about 1000 characters by
 * keeping its most relevant blank-line-separated sections, and a long skill
 * list is cut to its 10 most specific entries.
 */
module JobApplier {
  import opened Wrappers
  import opened Text
  import BlankLines
  import opened Ranking

  /** What the content script reports about the open job page. */
  datatype JobDetails = JobDetails(
    title: string,
    description: string,
    requirements: seq<string>,
    url: string,
    websiteUrl: string,
    applicationQuestions: seq<string>)

  /** Résumé and instructions as loaded (and prioritised) from storage. */
  datatype InitializedData = InitializedData(resumeContent: string, instructions: string)

  const DescriptionBudget: nat := 1000
  const RequirementLimit: nat := 10

  const SectionKeywords: seq<string> := [
    "responsibilities", "requirements", "qualifications",
    "what you will do", "what you will need", "about the role"]

  const RequirementKeywords: seq<string> := [
    "must", "should", "always", "never", "specific", "example", "required", "essential"]

  function Max(a: int, b: int): int {
    if a < b then b else a
  }

  function RealMax(a: real, b: real): real {
    if a < b then b else a
  }

  /** How many of the keywords occur in `lowered`, each counted once. */
  function KeywordHits(lowered: string, keywords: seq<string>): (n: nat)
    ensures n <= |keywords|
    decreases |keywords|
  {
    if keywords == [] then 0
    else
      KeywordHits(lowered, keywords[..|keywords| - 1])
      + (if Contains(lowered, keywords[|keywords| - 1]) then 1 else 0)
  }

  /** A score scaled to an integer: `perHit` per keyword found in the
      lower-cased text, plus a bonus for texts shorter than `lengthCap`. */
  function KeywordScore(text: string, keywords: seq<string>, perHit: nat, lengthCap: nat): int {
    perHit * KeywordHits(Lower(text), keywords) + Max(0, lengthCap - |text|)
  }

  /** 200 times a section's score. */
  function SectionScore(section: string): int {
    KeywordScore(section, SectionKeywords, 400, 1000)
  }

  /** 50 times a requirement's score. */
  function RequirementScore(requirement: string): int {
    KeywordScore(requirement, RequirementKeywords, 100, 150)
  }

  /** The section score as the source computes it, in exact arithmetic. */
  function SourceSectionScore(section: string): real {
    2.0 * (KeywordHits(Lower(section), SectionKeywords) as real)
    + RealMax(0.0, 5.0 - (|section| as real) / 200.0)
  }

  /** The requirement score as the source computes it, in exact arithmetic. */
  function SourceRequirementScore(requirement: string): real {
    2.0 * (KeywordHits(Lower(requirement), RequirementKeywords) as real)
    + RealMax(0.0, 3.0 - (|requirement| as real) / 50.0)
  }

  /** The integer section score is the source's score times 200, so both
      order sections alike. */
  lemma SectionScoreIsScaled(a: string, b: string)
    ensures SectionScore(a) as real == 200.0 * SourceSectionScore(a)
    ensures SourceSectionScore(a) >= SourceSectionScore(b) <==> SectionScore(a) >= SectionScore(b)
  {
    assert SectionScore(b) as real == 200.0 * SourceSectionScore(b);
  }

  /** The integer requirement score is the source's score times 50. */
  lemma RequirementScoreIsScaled(a: string, b: string)
    ensures RequirementScore(a) as real == 50.0 * SourceRequirementScore(a)
    ensures SourceRequirementScore(a) >= SourceRequirementScore(b) <==> RequirementScore(a) >= RequirementScore(b)
  {
    assert RequirementScore(b) as real == 50.0 * SourceRequirementScore(b);
  }

  /** The score loop: one `includes` test per keyword, then the length bonus. */
  method ScoreText(text: string, keywords: seq<string>, perHit: nat, lengthCap: nat) returns (score: int)
    ensures score == KeywordScore(text, keywords, perHit, lengthCap)
  {
    var lowered := Lower(text);
    score := 0;
    for k := 0 to |keywords|
      invariant score == perHit * KeywordHits(lowered, keywords[..k])
    {
      assert keywords[..k + 1][..k] == keywords[..k];
      if Contains(lowered, keywords[k]) {
        score := score + perHit;
      }
    }
    assert keywords[..|keywords|] == keywords;
    score := score + Max(0, lengthCap - |text|);
  }

  function ScoredSections(sections: seq<string>): (r: seq<Ranked>)
    ensures |r| == |sections|
    ensures forall i :: 0 <= i < |r| ==> r[i] == Ranked(sections[i], SectionScore(sections[i]))
  {
    seq(|sections|, i requires 0 <= i < |sections| => Ranked(sections[i], SectionScore(sections[i])))
  }

  function ScoredRequirements(requirements: seq<string>): (r: seq<Ranked>)
    ensures |r| == |requirements|
    ensures forall i :: 0 <= i < |r| ==> r[i] == Ranked(requirements[i], RequirementScore(requirements[i]))
  {
    seq(|requirements|, i requires 0 <= i < |requirements| =>
      Ranked(requirements[i], RequirementScore(requirements[i])))
  }

  /** The description's sections, best first. */
  function RankedSections(description: string): seq<Ranked> {
    RankByScore(ScoredSections(BlankLines.Sections(description)))
  }

  /** The sections concatenated, each followed by a blank line. */
  function Joined(xs: seq<Ranked>): (r: string)
    ensures |r| >= 2 * |xs|
    decreases |xs|
  {
    if xs == [] then "" else Joined(xs[..|xs| - 1]) + xs[|xs| - 1].text + "\n\n"
  }

  /** Joining consecutive groups of sections joins each group in turn. */
  lemma {:induction false} JoinedConcat(xs: seq<Ranked>, ys: seq<Ranked>)
    ensures Joined(xs + ys) == Joined(xs) + Joined(ys)
    decreases |ys|
  {
    if ys == [] {
      assert xs + ys == xs;
    } else {
      var init, last := ys[..|ys| - 1], ys[|ys| - 1];
      calc {
        Joined(xs + ys);
        { assert (xs + ys)[..|xs + ys| - 1] == xs + init && (xs + ys)[|xs + ys| - 1] == last; }
        Joined(xs + init) + last.text + "\n\n";
        { JoinedConcat(xs, init); }
        Joined(xs) + Joined(init) + last.text + "\n\n";
        Joined(xs) + (Joined(init) + last.text + "\n\n");
        Joined(xs) + Joined(ys);
      }
    }
  }

  /** Whether the `i`-th section still fits: the length test looks at the
      text so far plus the section, without the blank line after it. */
  predicate Fits(xs: seq<Ranked>, i: nat)
    requires i < |xs|
  {
    |Joined(xs[..i])| + |xs[i].text| <= DescriptionBudget
  }

  /** How many leading sections the greedy loop takes, `used` characters in. */
  function FitFrom(xs: seq<Ranked>, used: int): (n: nat)
    ensures n <= |xs|
    decreases |xs|
  {
    if xs == [] || used + |xs[0].text| > DescriptionBudget then 0
    else 1 + FitFrom(xs[1..], used + |xs[0].text| + 2)
  }

  function FitCount(xs: seq<Ranked>): nat {
    FitFrom(xs, 0)
  }

  lemma {:induction false} FitFromTakesFittingPrefix(xs: seq<Ranked>, j: nat)
    requires j <= |xs|
    ensures j + FitFrom(xs[j..], |Joined(xs[..j])|) <= |xs|
    ensures forall i :: j <= i < j + FitFrom(xs[j..], |Joined(xs[..j])|) ==> Fits(xs, i)
    ensures j + FitFrom(xs[j..], |Joined(xs[..j])|) < |xs|
      ==> !Fits(xs, j + FitFrom(xs[j..], |Joined(xs[..j])|))
    decreases |xs| - j
  {
    var used := |Joined(xs[..j])|;
    if j < |xs| && Fits(xs, j) {
      FitFromTakesFittingPrefix(xs, j + 1);
      assert xs[..j + 1][..j] == xs[..j];
      assert |Joined(xs[..j + 1])| == used + |xs[j].text| + 2;
      assert xs[j..][1..] == xs[j + 1..];
      assert FitFrom(xs[j..], used) == 1 + FitFrom(xs[j + 1..], |Joined(xs[..j + 1])|);
    } else if j < |xs| {
      assert FitFrom(xs[j..], used) == 0;
    }
  }

  /** The greedy loop takes the longest run of leading sections that each
      fit, and stops at the first one that does not. */
  lemma FitCountIsFirstMisfit(xs: seq<Ranked>)
    ensures FitCount(xs) <= |xs|
    ensures forall i :: 0 <= i < FitCount(xs) ==> Fits(xs, i)
    ensures FitCount(xs) < |xs| ==> !Fits(xs, FitCount(xs))
  {
    FitFromTakesFittingPrefix(xs, 0);
    assert xs[0..] == xs;
  }

  /** `truncateJobDescription`, as a value. */
  function PrioritizedDescription(description: string): (r: string)
    ensures |description| <= DescriptionBudget ==> r == description
    ensures |description| > DescriptionBudget ==> 2 <= |r| <= DescriptionBudget + 3
  {
    if |description| <= DescriptionBudget then description
    else
      var ranked := RankedSections(description);
      var taken := FitCount(ranked);
      if taken == 0 then description[..DescriptionBudget] + "..."
      else
        TakenFitsBudget(ranked);
        Joined(ranked[..taken])
  }

  /** The fit test leaves out the blank line after the last section, so the
      sections taken may run two characters over the budget, never more. */
  lemma TakenFitsBudget(xs: seq<Ranked>)
    requires FitCount(xs) > 0
    ensures |Joined(xs[..FitCount(xs)])| <= DescriptionBudget + 2
  {
    var k := FitCount(xs);
    FitCountIsFirstMisfit(xs);
    assert Fits(xs, k - 1);
    assert xs[..k][..k - 1] == xs[..k - 1];
  }

  /** `texts.map(...)` with the score loop: a fresh array of scored texts. */
  method ScoreAll(texts: seq<string>, keywords: seq<string>, perHit: nat, lengthCap: nat)
    returns (scored: array<Ranked>)
    ensures fresh(scored)
    ensures scored.Length == |texts|
    ensures forall i :: 0 <= i < |texts| ==>
              scored[i] == Ranked(texts[i], KeywordScore(texts[i], keywords, perHit, lengthCap))
  {
    scored := new Ranked[|texts|];
    for i := 0 to |texts|
      invariant forall k :: 0 <= k < i ==>
                  scored[k] == Ranked(texts[k], KeywordScore(texts[k], keywords, perHit, lengthCap))
    {
      var score := ScoreText(texts[i], keywords, perHit, lengthCap);
      scored[i] := Ranked(texts[i], score);
    }
  }

  /** The `for ... break` loop: appends sections, each followed by a blank
      line, until the first one that no longer fits. */
  method AppendFitting(ranked: array<Ranked>) returns (result: string)
    ensures result == Joined(ranked[..FitCount(ranked[..])])
  {
    ghost var xs := ranked[..];
    result := "";
    var i := 0;
    while i < ranked.Length
      invariant 0 <= i <= ranked.Length
      invariant result == Joined(xs[..i])
      invariant i + FitFrom(xs[i..], |result|) == FitCount(xs)
    {
      var section := ranked[i].text;
      if |result + section| <= DescriptionBudget {
        result := result + section + "\n\n";
      } else {
        break;
      }
      assert xs[i..][1..] == xs[i + 1..];
      assert xs[..i + 1][..i] == xs[..i];
      i := i + 1;
    }
  }

  /** `truncateJobDescription(description)` */
  method TruncateJobDescription(description: string) returns (r: string)
    ensures r == PrioritizedDescription(description)
  {
    if |description| <= DescriptionBudget {
      return description;
    }
    var sections := BlankLines.Sections(description);
    var scored := ScoreAll(sections, SectionKeywords, 400, 1000);
    assert scored[..] == ScoredSections(sections);
    SortByScore(scored);
    var result := AppendFitting(scored);
    if result == "" {
      r := description[..DescriptionBudget] + "...";
    } else {
      r := result;
    }
  }

  /** What a truncated description is: the best-ranked sections, each
      followed by a blank line, while they fit (at most 1002 characters), or
      else, exactly when not even the best section fits, the first 1000
      characters and an ellipsis (1003 characters). */
  lemma PrioritizedDescriptionShape(description: string)
    requires |description| > DescriptionBudget
    ensures var r := PrioritizedDescription(description);
            var ranked := RankedSections(description);
            var taken := FitCount(ranked);
            && (taken == 0 <==> r == description[..DescriptionBudget] + "...")
            && (taken == 0 ==> |r| == DescriptionBudget + 3)
            && (taken > 0 ==> r == Joined(ranked[..taken]) && |r| <= DescriptionBudget + 2)
  {
    var ranked := RankedSections(description);
    var taken := FitCount(ranked);
    if taken > 0 {
      TakenFitsBudget(ranked);
      var r := Joined(ranked[..taken]);
      assert ranked[..taken][..taken - 1] == ranked[..taken - 1];
      assert r[|r| - 1] == '\n';
    }
  }

  /** The sections are ranked best first, ties in document order, and the
      ranking holds exactly the sections the split produced. */
  lemma RankedSectionsOrder(description: string, v: int)
    ensures NonIncreasing(RankedSections(description))
    ensures multiset(RankedSections(description)) == multiset(ScoredSections(BlankLines.Sections(description)))
    ensures WithScore(RankedSections(description), v) == WithScore(ScoredSections(BlankLines.Sections(description)), v)
    ensures forall x :: x in RankedSections(description) ==>
              x.text in BlankLines.Sections(description) && x.score == SectionScore(x.text)
  {
    var scored := ScoredSections(BlankLines.Sections(description));
    RankIsNonIncreasing(scored);
    RankIsPermutation(scored);
    RankIsStable(scored, v);
    forall x | x in RankedSections(description)
      ensures x.text in BlankLines.Sections(description) && x.score == SectionScore(x.text)
    {
      assert x in multiset(scored);
      var k :| 0 <= k < |scored| && scored[k] == x;
    }
  }

  /** `truncateRequirements`, as a value. */
  function PrioritizedRequirements(requirements: seq<string>): (r: seq<string>)
    ensures |requirements| <= RequirementLimit ==> r == requirements
    ensures |requirements| > RequirementLimit ==> |r| == RequirementLimit
  {
    if |requirements| <= RequirementLimit then requirements
    else Texts(RankByScore(ScoredRequirements(requirements))[..RequirementLimit])
  }

  /** `truncateRequirements(requirements)` */
  method TruncateRequirements(requirements: seq<string>) returns (r: seq<string>)
    ensures r == PrioritizedRequirements(requirements)
  {
    if |requirements| <= RequirementLimit {
      return requirements;
    }
    var scored := ScoreAll(requirements, RequirementKeywords, 100, 150);
    assert scored[..] == ScoredRequirements(requirements);
    SortByScore(scored);
    r := Texts(scored[..RequirementLimit]);
  }

  /** The requirements of score `v` (scaled), in order. */
  function RequirementsWithScore(xs: seq<string>, v: int): seq<string>
    decreases |xs|
  {
    if xs == [] then []
    else
      RequirementsWithScore(xs[..|xs| - 1], v)
      + (if RequirementScore(xs[|xs| - 1]) == v then [xs[|xs| - 1]] else [])
  }

  ghost predicate ScoredAsRequirements(s: seq<Ranked>) {
    forall k :: 0 <= k < |s| ==> s[k].score == RequirementScore(s[k].text)
  }

  lemma {:induction false} FilterCommutesWithTexts(s: seq<Ranked>, v: int)
    requires ScoredAsRequirements(s)
    ensures Texts(WithScore(s, v)) == RequirementsWithScore(Texts(s), v)
    decreases |s|
  {
    if s != [] {
      var init, x := s[..|s| - 1], s[|s| - 1];
      FilterCommutesWithTexts(init, v);
      TextsAppend(WithScore(init, v), if x.score == v then [x] else []);
      assert Texts(s)[..|s| - 1] == Texts(init);
    }
  }

  /** Every ranked requirement carries its own requirement score. */
  lemma RankedRequirementsScored(requirements: seq<string>)
    ensures ScoredAsRequirements(RankByScore(ScoredRequirements(requirements)))
  {
    var scored := ScoredRequirements(requirements);
    var ranked := RankByScore(scored);
    RankIsPermutation(scored);
    forall k | 0 <= k < |ranked| ensures ranked[k].score == RequirementScore(ranked[k].text) {
      assert ranked[k] in multiset(scored);
      var m :| 0 <= m < |scored| && scored[m] == ranked[k];
    }
  }

  /** The requirements kept are drawn from the input (as a multiset). */
  lemma KeptRequirementsComeFromInput(requirements: seq<string>)
    ensures multiset(PrioritizedRequirements(requirements)) <= multiset(requirements)
  {
    if |requirements| > RequirementLimit {
      var scored := ScoredRequirements(requirements);
      var ranked := RankByScore(scored);
      assert ranked == ranked[..RequirementLimit] + ranked[RequirementLimit..];
      assert Texts(scored) == requirements;
      RankKeepsTexts(scored);
      TextsAppend(ranked[..RequirementLimit], ranked[RequirementLimit..]);
    }
  }

  /** The requirements kept come best first. */
  lemma KeptRequirementsBestFirst(requirements: seq<string>)
    ensures var r := PrioritizedRequirements(requirements);
            |requirements| > RequirementLimit ==>
              forall i, j :: 0 <= i < j < |r| ==> RequirementScore(r[i]) >= RequirementScore(r[j])
  {
    if |requirements| > RequirementLimit {
      var ranked := RankByScore(ScoredRequirements(requirements));
      RankIsNonIncreasing(ScoredRequirements(requirements));
      RankedRequirementsScored(requirements);
      assert forall i :: 0 <= i < RequirementLimit ==> PrioritizedRequirements(requirements)[i] == ranked[i].text;
    }
  }

  /** What the slice leaves out is the tail of the ranking. */
  lemma DroppedRequirements(requirements: seq<string>)
    requires |requirements| > RequirementLimit
    ensures multiset(requirements) - multiset(PrioritizedRequirements(requirements))
         == multiset(Texts(RankByScore(ScoredRequirements(requirements))[RequirementLimit..]))
  {
    var scored := ScoredRequirements(requirements);
    var ranked := RankByScore(scored);
    var kept, dropped := ranked[..RequirementLimit], ranked[RequirementLimit..];
    assert ranked == kept + dropped;
    assert Texts(scored) == requirements;
    RankKeepsTexts(scored);
    TextsAppend(kept, dropped);
  }

  /** No dropped requirement outscores a kept one: the ten kept are a top ten. */
  lemma KeptRequirementsOutscoreDropped(requirements: seq<string>)
    ensures var r := PrioritizedRequirements(requirements);
            forall i, x :: 0 <= i < |r| && x in multiset(requirements) - multiset(r) ==>
              RequirementScore(r[i]) >= RequirementScore(x)
  {
    if |requirements| > RequirementLimit {
      var ranked := RankByScore(ScoredRequirements(requirements));
      var dropped := ranked[RequirementLimit..];
      var r := PrioritizedRequirements(requirements);
      RankIsNonIncreasing(ScoredRequirements(requirements));
      RankedRequirementsScored(requirements);
      DroppedRequirements(requirements);
      forall i, x | 0 <= i < |r| && x in multiset(requirements) - multiset(r)
        ensures RequirementScore(r[i]) >= RequirementScore(x)
      {
        assert x in multiset(Texts(dropped));
        var m :| 0 <= m < |dropped| && Texts(dropped)[m] == x;
        assert dropped[m] == ranked[RequirementLimit + m];
        assert r[i] == ranked[i].text;
      }
    }
  }

  /** Within one score, the requirements kept are the first ones of that
      score, in input order (the sort is stable). */
  lemma KeptRequirementsKeepTieOrder(requirements: seq<string>, v: int)
    ensures RequirementsWithScore(PrioritizedRequirements(requirements), v)
            <= RequirementsWithScore(requirements, v)
  {
    if |requirements| > RequirementLimit {
      var scored := ScoredRequirements(requirements);
      var ranked := RankByScore(scored);
      var kept, dropped := ranked[..RequirementLimit], ranked[RequirementLimit..];
      assert ranked == kept + dropped;
      assert Texts(scored) == requirements;
      RankedRequirementsScored(requirements);
      RankIsStable(scored, v);
      WithScoreAppend(kept, dropped, v);
      TextsAppend(WithScore(kept, v), WithScore(dropped, v));
      assert ScoredAsRequirements(kept) && ScoredAsRequirements(scored);
      FilterCommutesWithTexts(kept, v);
      FilterCommutesWithTexts(scored, v);
    }
  }

  /** `fetchJobDetails`: a reply from the content script replaces the shown
      details, with only the description and the requirements prioritised;
      no reply leaves the current details. */
  method ApplyJobDetails(current: Option<JobDetails>, response: Option<JobDetails>)
    returns (next: Option<JobDetails>)
    ensures response.None? ==> next == current
    ensures response.Some? ==> next.Some?
    ensures response.Some? ==>
              var d, n := response.value, next.value;
              && n.title == d.title && n.url == d.url && n.websiteUrl == d.websiteUrl
              && n.applicationQuestions == d.applicationQuestions
              && n.description == PrioritizedDescription(d.description)
              && n.requirements == PrioritizedRequirements(d.requirements)
  {
    if response.None? {
      return current;
    }
    var details := response.value;
    var description := TruncateJobDescription(details.description);
    var requirements := TruncateRequirements(details.requirements);
    next := Some(details.(description := description, requirements := requirements));
  }

  /** `initializeData`: stored résumé and instructions (missing ones read as
      "") are prioritised like a description, unless both are empty. */
  method InitializeData(storedResume: Option<string>, storedInstructions: Option<string>)
    returns (initialized: Option<InitializedData>)
    ensures initialized.Some? <==> storedResume.GetOr("") != "" || storedInstructions.GetOr("") != ""
    ensures initialized.Some? ==>
              && initialized.value.resumeContent == PrioritizedDescription(storedResume.GetOr(""))
              && initialized.value.instructions == PrioritizedDescription(storedInstructions.GetOr(""))
  {
    var resumeContent := storedResume.GetOr("");
    var instructions := storedInstructions.GetOr("");
    if resumeContent != "" || instructions != "" {
      var resume := TruncateJobDescription(resumeContent);
      var instr := TruncateJobDescription(instructions);
      initialized := Some(InitializedData(resume, instr));
    } else {
      initialized := None;
    }
  }
}
