/**
 * The JavaScript string primitives the extension relies on, over strings as
 * sequences of characters (`string` = `seq<char>`, one `char` per Unicode
 * scalar value; JavaScript counts UTF-16 code units instead).
 */
module Text {

  /** ECMAScript WhiteSpace and LineTerminator: the set matched by `\s` and removed by `trim()`. */
  predicate IsWhitespace(c: char) {
    || c == '\t' || c == '\n' || c == '\U{000B}' || c == '\U{000C}' || c == '\r'
    || c == ' ' || c == '\U{00A0}' || c == '\U{1680}'
    || ('\U{2000}' <= c <= '\U{200A}')
    || c == '\U{2028}' || c == '\U{2029}' || c == '\U{202F}' || c == '\U{205F}'
    || c == '\U{3000}' || c == '\U{FEFF}'
  }

  predicate AllWhitespace(s: string) {
    forall k :: 0 <= k < |s| ==> IsWhitespace(s[k])
  }

  /** `toLowerCase` restricted to ASCII letters. */
  function LowerChar(c: char): char {
    if 'A' <= c <= 'Z' then (c as int + 32) as char else c
  }

  function Lower(s: string): (r: string)
    ensures |r| == |s|
  {
    seq(|s|, i requires 0 <= i < |s| => LowerChar(s[i]))
  }

  /** `s.startsWith(prefix)` */
  predicate StartsWith(s: string, prefix: string) {
    |prefix| <= |s| && s[..|prefix|] == prefix
  }

  /** `s.includes(sub)` */
  predicate Contains(s: string, sub: string)
    decreases |s|
  {
    StartsWith(s, sub) || (s != [] && Contains(s[1..], sub))
  }

  /** `sub` occurs in `s` starting at position `i`. */
  predicate OccursAt(s: string, sub: string, i: nat) {
    i + |sub| <= |s| && s[i..i + |sub|] == sub
  }

  /** `includes` finds `sub` exactly when it occurs at some position. */
  lemma {:induction false} ContainsIffOccurs(s: string, sub: string)
    ensures Contains(s, sub) <==> exists i: nat :: OccursAt(s, sub, i)
    decreases |s|
  {
    if StartsWith(s, sub) {
      assert OccursAt(s, sub, 0);
    } else if s != [] {
      ContainsIffOccurs(s[1..], sub);
      if exists i: nat :: OccursAt(s[1..], sub, i) {
        var i: nat :| OccursAt(s[1..], sub, i);
        assert s[1..][i..i + |sub|] == s[i + 1..i + 1 + |sub|];
        assert OccursAt(s, sub, i + 1);
      }
      if exists i: nat :: OccursAt(s, sub, i) {
        var i: nat :| OccursAt(s, sub, i);
        assert i != 0;
        assert s[1..][i - 1..i - 1 + |sub|] == s[i..i + |sub|];
        assert OccursAt(s[1..], sub, i - 1);
      }
    }
  }

  /** Leading whitespace removed (first half of `trim()`). */
  function TrimStart(s: string): (r: string)
    ensures |r| <= |s|
    decreases |s|
  {
    if s != [] && IsWhitespace(s[0]) then TrimStart(s[1..]) else s
  }

  /** `TrimStart` drops a whitespace-only prefix and stops at the first
      other character. */
  lemma {:induction false} TrimStartShape(s: string)
    ensures var r := TrimStart(s);
            && r == s[|s| - |r|..]
            && AllWhitespace(s[..|s| - |r|])
            && (r == [] || !IsWhitespace(r[0]))
    decreases |s|
  {
    if s != [] && IsWhitespace(s[0]) {
      TrimStartShape(s[1..]);
      var r := TrimStart(s);
      assert s[1..][|s| - 1 - |r|..] == s[|s| - |r|..];
      forall k | 0 <= k < |s| - |r|
        ensures IsWhitespace(s[k])
      {
        if k > 0 {
          assert s[k] == s[1..][..|s| - 1 - |r|][k - 1];
        }
      }
    } else {
      assert s[|s| - |s|..] == s;
    }
  }

  /** Trailing whitespace removed (`trimEnd()`). */
  function TrimEnd(s: string): (r: string)
    ensures |r| <= |s|
    decreases |s|
  {
    if s != [] && IsWhitespace(s[|s| - 1]) then TrimEnd(s[..|s| - 1]) else s
  }

  /** `TrimEnd` drops a whitespace-only suffix and stops at the last other
      character. */
  lemma {:induction false} TrimEndShape(s: string)
    ensures var r := TrimEnd(s);
            && r == s[..|r|]
            && AllWhitespace(s[|r|..])
            && (r == [] || !IsWhitespace(r[|r| - 1]))
    decreases |s|
  {
    if s != [] && IsWhitespace(s[|s| - 1]) {
      var init := s[..|s| - 1];
      TrimEndShape(init);
      var r := TrimEnd(s);
      assert init[..|r|] == s[..|r|];
      forall k | |r| <= k < |s|
        ensures IsWhitespace(s[k])
      {
        if k < |s| - 1 {
          assert s[k] == init[|r|..][k - |r|];
        }
      }
    } else {
      assert s[..|s|] == s;
    }
  }

  /** `s.trim()` */
  function Trim(s: string): string {
    TrimEnd(TrimStart(s))
  }

  /** A string that has no whitespace at either end is its own trim. */
  lemma TrimOfTrimmed(s: string)
    requires s == [] || (!IsWhitespace(s[0]) && !IsWhitespace(s[|s| - 1]))
    ensures Trim(s) == s
  {
  }

  /** Trimming leaves nothing to trim. */
  lemma TrimIdempotent(s: string)
    ensures Trim(Trim(s)) == Trim(s)
  {
    var u := TrimStart(s);
    var t := Trim(s);
    TrimStartShape(s);
    TrimEndShape(u);
    if t != [] {
      assert t[0] == u[0];
    }
    TrimOfTrimmed(t);
  }

  /** Whitespace appended to a text is removed again by `trimEnd()`. */
  lemma {:induction false} TrimEndDropsWhitespace(s: string, w: string)
    requires AllWhitespace(w)
    ensures TrimEnd(s + w) == TrimEnd(s)
    decreases |w|
  {
    if w == [] {
      assert s + w == s;
    } else {
      var shorter := w[..|w| - 1];
      assert (s + w)[..|s + w| - 1] == s + shorter;
      TrimEndDropsWhitespace(s, shorter);
    }
  }

  /** `trimEnd()` keeps everything up to the last non-whitespace character. */
  lemma TrimEndKeepsUpTo(s: string, k: nat)
    requires k < |s| && !IsWhitespace(s[k])
    ensures |TrimEnd(s)| > k && TrimEnd(s)[..k + 1] == s[..k + 1]
  {
    TrimEndShape(s);
  }

  /** `!s.trim()`: the text is empty or whitespace only. */
  predicate Blank(s: string)
    decreases |s|
  {
    s == [] || (IsWhitespace(s[0]) && Blank(s[1..]))
  }

  lemma {:induction false} BlankIsAllWhitespace(s: string)
    ensures Blank(s) <==> AllWhitespace(s)
    decreases |s|
  {
    if s != [] {
      BlankIsAllWhitespace(s[1..]);
      assert forall k :: 1 <= k < |s| ==> s[k] == s[1..][k - 1];
    }
  }

  /** Blank is exactly what trims to the empty string. */
  lemma BlankIffTrimsToEmpty(s: string)
    ensures Blank(s) <==> Trim(s) == ""
  {
    BlankIsAllWhitespace(s);
    var t := TrimStart(s);
    TrimStartShape(s);
    TrimEndShape(t);
    if t != [] {
      assert !IsWhitespace(t[0]);
      assert t[0] in t[|TrimEnd(t)|..] || TrimEnd(t) != [];
      assert !IsWhitespace(s[|s| - |t|]);
    } else {
      assert s[..|s|] == s;
    }
  }

  /** `parts.join(sep)` */
  function Join(parts: seq<string>, sep: string): string
    decreases |parts|
  {
    if |parts| == 0 then ""
    else if |parts| == 1 then parts[0]
    else parts[0] + sep + Join(parts[1..], sep)
  }

  /** `s.split(c)` for a one-character separator string: the pieces between
      consecutive separators, so `n` separators give `n + 1` pieces. */
  function SplitOn(s: string, c: char): (r: seq<string>)
    ensures |r| >= 1
    ensures forall i :: 0 <= i < |r| ==> c !in r[i]
    decreases |s|
  {
    if s == [] then [""]
    else
      var rest := SplitOn(s[1..], c);
      if s[0] == c then [""] + rest else [[s[0]] + rest[0]] + rest[1..]
  }

  /** Splitting and re-joining with the same separator gives the text back. */
  lemma {:induction false} JoinSplit(s: string, c: char)
    ensures Join(SplitOn(s, c), [c]) == s
    decreases |s|
  {
    if s != [] {
      var rest := SplitOn(s[1..], c);
      JoinSplit(s[1..], c);
      if s[0] == c {
        assert SplitOn(s, c) == [""] + rest;
        assert ([""] + rest)[1..] == rest;
      } else {
        var r := [[s[0]] + rest[0]] + rest[1..];
        assert SplitOn(s, c) == r;
        if |rest| > 1 {
          assert r[1..] == rest[1..];
          assert Join(rest, [c]) == rest[0] + [c] + Join(rest[1..], [c]);
        }
      }
    }
  }

  /** Splitting a text that starts with a separator-free piece. */
  lemma {:induction false} SplitAfterPlainPrefix(a: string, b: string, c: char)
    requires c !in a
    ensures SplitOn(a + b, c) == [a + SplitOn(b, c)[0]] + SplitOn(b, c)[1..]
    decreases |a|
  {
    if a != [] {
      assert (a + b)[1..] == a[1..] + b;
      SplitAfterPlainPrefix(a[1..], b, c);
      assert [a[0]] + (a[1..] + SplitOn(b, c)[0]) == a + SplitOn(b, c)[0];
    } else {
      var r := SplitOn(b, c);
      assert a + b == b && a + r[0] == r[0];
      assert [r[0]] + r[1..] == r;
    }
  }

  /** Joining separator-free pieces and splitting again gives the pieces back. */
  lemma {:induction false} SplitJoin(parts: seq<string>, c: char)
    requires |parts| >= 1
    requires forall i :: 0 <= i < |parts| ==> c !in parts[i]
    ensures SplitOn(Join(parts, [c]), c) == parts
    decreases |parts|
  {
    if |parts| == 1 {
      SplitAfterPlainPrefix(parts[0], "", c);
      assert parts[0] + "" == parts[0];
    } else {
      var tail := Join(parts[1..], [c]);
      SplitJoin(parts[1..], c);
      assert Join(parts, [c]) == parts[0] + ([c] + tail);
      SplitAfterPlainPrefix(parts[0], [c] + tail, c);
      assert ([c] + tail)[1..] == tail;
      assert SplitOn([c] + tail, c) == [""] + parts[1..];
      assert parts[0] + "" == parts[0];
    }
  }

  /** Joining the first `k` pieces gives a prefix of joining them all, followed
      by the separator and the rest. */
  lemma {:induction false} JoinSplitsAt(parts: seq<string>, sep: string, k: nat)
    requires 1 <= k < |parts|
    ensures Join(parts, sep) == Join(parts[..k], sep) + sep + Join(parts[k..], sep)
    decreases k
  {
    if k == 1 {
      assert parts[..1] == [parts[0]];
    } else {
      JoinSplitsAt(parts[1..], sep, k - 1);
      assert parts[1..][..k - 1] == parts[..k][1..];
      assert parts[1..][k - 1..] == parts[k..];
    }
  }

  /** The first `k` pieces, joined back, are the text up to its `k`-th
      separator. */
  lemma JoinedPrefixOfSplit(s: string, c: char, k: nat)
    requires 1 <= k < |SplitOn(s, c)|
    ensures var kept := Join(SplitOn(s, c)[..k], [c]);
            |kept| < |s| && s[..|kept|] == kept && s[|kept|] == c
  {
    var words := SplitOn(s, c);
    var kept := Join(words[..k], [c]);
    var rest := Join(words[k..], [c]);
    JoinSplit(s, c);
    JoinSplitsAt(words, [c], k);
    assert s == kept + ([c] + rest);
    assert s[..|kept|] == kept;
    assert s[|kept|] == ([c] + rest)[0];
  }

  /** Splitting the first `k` pieces joined back gives those pieces. */
  lemma SplitOfJoinedPrefix(s: string, c: char, k: nat)
    requires 1 <= k <= |SplitOn(s, c)|
    ensures SplitOn(Join(SplitOn(s, c)[..k], [c]), c) == SplitOn(s, c)[..k]
  {
    var words := SplitOn(s, c);
    assert forall i :: 0 <= i < k ==> words[..k][i] == words[i];
    SplitJoin(words[..k], c);
  }

  /** Every occurrence of the separator adds one piece; no other character does. */
  lemma {:induction false} SplitCount(s: string, c: char)
    ensures |SplitOn(s, c)| == multiset(s)[c] + 1
    decreases |s|
  {
    if s != [] {
      SplitCount(s[1..], c);
      assert s == [s[0]] + s[1..];
      assert multiset(s) == multiset{s[0]} + multiset(s[1..]);
    }
  }
}
