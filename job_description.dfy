/**
 * The job description card: a description of more than 100 space-separated
 * words is shown cut to its first 100 words followed by "...", with a
 * Show More / Show Less toggle.
 */
module JobDescriptionView {
  import opened Text

  const WordLimit: nat := 100
  const Ellipsis: string := "..."

  /** The toggle is offered when `split(" ")` yields more than 100 pieces. */
  predicate ShowsToggle(description: string) {
    |SplitOn(description, ' ')| > WordLimit
  }

  /** `getTruncatedDescription` */
  function TruncatedDescription(text: string): (r: string)
    ensures !ShowsToggle(text) ==> r == text
    ensures ShowsToggle(text) ==> |r| >= |Ellipsis| && r[|r| - |Ellipsis|..] == Ellipsis
  {
    var words := SplitOn(text, ' ');
    if |words| <= WordLimit then text else Join(words[..WordLimit], " ") + Ellipsis
  }

  /** Pieces are cut at single spaces only: consecutive spaces make empty
      words, and other whitespace such as newlines separates nothing. */
  lemma ToggleCountsSpaces(description: string)
    ensures ShowsToggle(description) <==> multiset(description)[' '] >= WordLimit
  {
    SplitCount(description, ' ');
  }

  /** A cut description is a proper prefix of the text ending just before a
      space, holding exactly the first 100 words, followed by "...". */
  lemma TruncationKeepsLeadingWords(text: string)
    requires ShowsToggle(text)
    ensures var r := TruncatedDescription(text);
            var kept := r[..|r| - |Ellipsis|];
            && r == kept + Ellipsis
            && |kept| < |text| && text[..|kept|] == kept && text[|kept|] == ' '
            && SplitOn(kept, ' ') == SplitOn(text, ' ')[..WordLimit]
  {
    var words := SplitOn(text, ' ');
    var kept := Join(words[..WordLimit], " ");
    var r := TruncatedDescription(text);
    assert r == kept + Ellipsis;
    assert r[..|r| - |Ellipsis|] == kept;
    JoinedPrefixOfSplit(text, ' ', WordLimit);
    SplitOfJoinedPrefix(text, ' ', WordLimit);
  }

  /** The toggle is offered exactly when cutting would change the text. */
  lemma ToggleIffTruncationChanges(text: string)
    ensures ShowsToggle(text) <==> TruncatedDescription(text) != text
  {
    if ShowsToggle(text) {
      TruncationKeepsLeadingWords(text);
      var r := TruncatedDescription(text);
      var kept := r[..|r| - |Ellipsis|];
      assert r[|kept|] == '.' != text[|kept|];
    }
  }

  /** The text shown: the whole description when expanded, the cut one
      otherwise; so it is shown in full exactly when expanded or short. */
  function Display(description: string, expanded: bool): (r: string)
    ensures r == description <==> expanded || !ShowsToggle(description)
    ensures !expanded ==> r == TruncatedDescription(description)
  {
    ToggleIffTruncationChanges(description);
    if expanded then description else TruncatedDescription(description)
  }
}
