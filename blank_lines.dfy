/**
 * `text.split(/\n\s*\n/)`: ECMAScript's split scans left to right, tries the
 * pattern at each position and cuts at the leftmost match; `\s*` is greedy
 * and backtracks, so a match starting at a newline runs to the LAST newline
 * of the whitespace run that follows it. Whitespace before the first newline
 * and after the last one stays with the neighbouring sections.
 */
module BlankLines {
  import opened Text
  import opened Wrappers

  /** `s[i..j]` is a match of `/\n\s*\n/`. */
  predicate IsSeparator(s: string, i: nat, j: nat) {
    && i + 2 <= j <= |s|
    && s[i] == '\n' && s[j - 1] == '\n'
    && forall k :: i < k < j - 1 ==> IsWhitespace(s[k])
  }

  /** A whole string that is one match of the pattern. */
  predicate IsSeparatorText(t: string) {
    IsSeparator(t, 0, |t|)
  }

  /** No match of the pattern anywhere in `t`. */
  ghost predicate NoBlankLine(t: string) {
    forall i: nat, j: nat :: !IsSeparator(t, i, j)
  }

  /** `t` starts with whitespace that runs into a newline: a separator
      just before `t` could have been extended into it. */
  ghost predicate OpensWithNewline(t: string) {
    exists m :: 0 <= m < |t| && t[m] == '\n' && AllWhitespace(t[..m])
  }

  /** Index just past the whitespace run that starts at `i`. */
  function RunEnd(s: string, i: nat): (j: nat)
    requires i <= |s|
    ensures i <= j <= |s|
    ensures forall k :: i <= k < j ==> IsWhitespace(s[k])
    ensures j == |s| || !IsWhitespace(s[j])
    decreases |s| - i
  {
    if i == |s| || !IsWhitespace(s[i]) then i else RunEnd(s, i + 1)
  }

  /** One past the last newline of `s[lo..hi]`, found by backing up from `hi`. */
  function LastNewlineEnd(s: string, lo: nat, hi: nat): (r: Option<nat>)
    requires lo <= hi <= |s|
    ensures r.Some? ==> lo < r.value <= hi && s[r.value - 1] == '\n'
    ensures r.Some? ==> forall k :: r.value <= k < hi ==> s[k] != '\n'
    ensures r.None? ==> forall k :: lo <= k < hi ==> s[k] != '\n'
    decreases hi
  {
    if hi == lo then None
    else if s[hi - 1] == '\n' then Some(hi)
    else LastNewlineEnd(s, lo, hi - 1)
  }

  /** The pattern tried at position `q`: the end of the match the regex
      engine finds there. It exists exactly when some match starts at `q`,
      and it is the longest one (greedy `\s*`). */
  function MatchAt(s: string, q: nat): (r: Option<nat>)
    requires q < |s|
    ensures r.None? ==> forall j: nat :: !IsSeparator(s, q, j)
    ensures r.Some? ==> IsSeparator(s, q, r.value)
    ensures r.Some? ==> forall j: nat :: IsSeparator(s, q, j) ==> j <= r.value
  {
    if s[q] != '\n' then None
    else
      var run := RunEnd(s, q + 1);
      LastNewlineEnd(s, q + 1, run)
  }

  /** A section and the separator that follows it ("" after the last one). */
  datatype Piece = Piece(text: string, sep: string)

  /** The split loop: sections begin at `p`, the pattern is tried from `q` on. */
  function PiecesFrom(s: string, p: nat, q: nat): seq<Piece>
    requires p <= q <= |s|
    decreases |s| - p, |s| - q
  {
    if q == |s| then [Piece(s[p..], "")]
    else match MatchAt(s, q)
      case Some(e) => [Piece(s[p..q], s[q..e])] + PiecesFrom(s, e, e)
      case None => PiecesFrom(s, p, q + 1)
  }

  function Pieces(s: string): seq<Piece> {
    PiecesFrom(s, 0, 0)
  }

  /** `s.split(/\n\s*\n/)` */
  function Sections(s: string): (r: seq<string>)
    ensures |r| == |Pieces(s)|
    ensures forall i :: 0 <= i < |r| ==> r[i] == Pieces(s)[i].text
  {
    var ps := Pieces(s);
    seq(|ps|, i requires 0 <= i < |ps| => ps[i].text)
  }

  /** The text the pieces were cut from. */
  function Flatten(ps: seq<Piece>): string
    decreases |ps|
  {
    if ps == [] then "" else ps[0].text + ps[0].sep + Flatten(ps[1..])
  }

  function Lead(t: string): string {
    if t == [] then [] else [t[0]]
  }

  /** What makes a cut the regex split's cut: the separators are matches,
      none starts inside a section (leftmost; a section followed by a
      separator may not end in a newline and whitespace either), and none
      could have run further (greedy). */
  ghost predicate WellSplit(ps: seq<Piece>) {
    && |ps| >= 1
    && ps[|ps| - 1].sep == ""
    && (forall i :: 0 <= i < |ps| - 1 ==> IsSeparatorText(ps[i].sep))
    && (forall i :: 0 <= i < |ps| ==> NoBlankLine(ps[i].text + Lead(ps[i].sep)))
    && (forall i :: 0 < i < |ps| ==> !OpensWithNewline(Flatten(ps[i..])))
  }

  lemma SeparatorInSlice(s: string, a: nat, b: nat, i: nat, j: nat)
    requires a <= b <= |s|
    requires IsSeparator(s[a..b], i, j)
    ensures IsSeparator(s, a + i, a + j)
  {
    forall k | a + i < k < a + j - 1 ensures IsWhitespace(s[k]) {
      assert s[k] == s[a..b][k - a];
    }
  }

  /** A longest match leaves nothing after it that could have extended it. */
  lemma LongestMatchIsGreedy(s: string, q: nat, e: nat)
    requires IsSeparator(s, q, e)
    requires forall j: nat :: IsSeparator(s, q, j) ==> j <= e
    ensures !OpensWithNewline(s[e..])
  {
    if OpensWithNewline(s[e..]) {
      var m :| 0 <= m < |s[e..]| && s[e..][m] == '\n' && AllWhitespace(s[e..][..m]);
      forall k | q < k < e + m ensures IsWhitespace(s[k]) {
        if e <= k {
          assert s[k] == s[e..][..m][k - e];
        }
      }
      assert IsSeparator(s, q, e + m + 1);
      assert false;
    }
  }

  lemma {:induction false} PiecesFromFlatten(s: string, p: nat, q: nat)
    requires p <= q <= |s|
    ensures Flatten(PiecesFrom(s, p, q)) == s[p..]
    decreases |s| - p, |s| - q
  {
    if q == |s| {
      assert Flatten(PiecesFrom(s, p, q)) == s[p..] + "" + Flatten([]);
    } else {
      match MatchAt(s, q)
      case None =>
        PiecesFromFlatten(s, p, q + 1);
      case Some(e) =>
        var ps := PiecesFrom(s, p, q);
        PiecesFromFlatten(s, e, e);
        assert ps[1..] == PiecesFrom(s, e, e);
        assert s[p..] == s[p..q] + s[q..e] + s[e..];
    }
  }

  lemma {:induction false} PiecesFromSeparators(s: string, p: nat, q: nat)
    requires p <= q <= |s|
    ensures |PiecesFrom(s, p, q)| >= 1
    ensures PiecesFrom(s, p, q)[|PiecesFrom(s, p, q)| - 1].sep == ""
    ensures forall i :: 0 <= i < |PiecesFrom(s, p, q)| - 1 ==> IsSeparatorText(PiecesFrom(s, p, q)[i].sep)
    decreases |s| - p, |s| - q
  {
    if q < |s| {
      match MatchAt(s, q)
      case None =>
        PiecesFromSeparators(s, p, q + 1);
      case Some(e) =>
        var ps := PiecesFrom(s, p, q);
        var rest := PiecesFrom(s, e, e);
        PiecesFromSeparators(s, e, e);
        assert ps == [Piece(s[p..q], s[q..e])] + rest;
        var sep := s[q..e];
        assert forall k :: 0 < k < |sep| - 1 ==> sep[k] == s[q + k];
        assert IsSeparatorText(sep);
        assert forall i :: 0 < i < |ps| ==> ps[i] == rest[i - 1];
    }
  }

  /** Given that no match starts in `[p, q)`, none starts in any section. */
  lemma {:induction false} PiecesFromNoBlankLine(s: string, p: nat, q: nat)
    requires p <= q <= |s|
    requires forall i: nat, j: nat :: p <= i < q ==> !IsSeparator(s, i, j)
    ensures forall i :: 0 <= i < |PiecesFrom(s, p, q)| ==>
      NoBlankLine(PiecesFrom(s, p, q)[i].text + Lead(PiecesFrom(s, p, q)[i].sep))
    decreases |s| - p, |s| - q
  {
    var ps := PiecesFrom(s, p, q);
    if q == |s| {
      assert ps[0].text + Lead(ps[0].sep) == s[p..|s|];
      SliceHasNoBlankLine(s, p, |s|);
    } else {
      match MatchAt(s, q)
      case None =>
        PiecesFromNoBlankLine(s, p, q + 1);
      case Some(e) =>
        var rest := PiecesFrom(s, e, e);
        PiecesFromNoBlankLine(s, e, e);
        assert ps == [Piece(s[p..q], s[q..e])] + rest;
        assert ps[0].text + Lead(ps[0].sep) == s[p..q + 1];
        SliceHasNoBlankLine(s, p, q + 1);
        assert forall i :: 0 < i < |ps| ==> ps[i] == rest[i - 1];
    }
  }

  /** A slice in which no match of the whole text starts, except possibly
      at its last character, contains no match. */
  lemma SliceHasNoBlankLine(s: string, a: nat, b: nat)
    requires a <= b <= |s|
    requires forall i: nat, j: nat :: a <= i < b - 1 ==> !IsSeparator(s, i, j)
    ensures NoBlankLine(s[a..b])
  {
    forall i: nat, j: nat ensures !IsSeparator(s[a..b], i, j) {
      if IsSeparator(s[a..b], i, j) {
        SeparatorInSlice(s, a, b, i, j);
      }
    }
  }

  lemma {:induction false} PiecesFromGreedy(s: string, p: nat, q: nat)
    requires p <= q <= |s|
    ensures forall i :: 0 < i < |PiecesFrom(s, p, q)| ==> !OpensWithNewline(Flatten(PiecesFrom(s, p, q)[i..]))
    decreases |s| - p, |s| - q
  {
    if q < |s| {
      match MatchAt(s, q)
      case None =>
        PiecesFromGreedy(s, p, q + 1);
      case Some(e) =>
        var ps := PiecesFrom(s, p, q);
        var rest := PiecesFrom(s, e, e);
        PiecesFromGreedy(s, e, e);
        PiecesFromFlatten(s, e, e);
        LongestMatchIsGreedy(s, q, e);
        assert ps == [Piece(s[p..q], s[q..e])] + rest;
        assert forall i :: 0 < i < |ps| ==> ps[i..] == rest[i - 1..];
    }
  }

  /** The sections with their separators put back give the text again, and
      the cut is the one the regex split makes. */
  lemma SplitIsFaithful(s: string)
    ensures Flatten(Pieces(s)) == s
    ensures WellSplit(Pieces(s))
  {
    PiecesFromFlatten(s, 0, 0);
    PiecesFromSeparators(s, 0, 0);
    PiecesFromNoBlankLine(s, 0, 0);
    PiecesFromGreedy(s, 0, 0);
  }
}
