/**
 * `items.sort((a, b) => b.score - a.score)`: ECMAScript (since the 2019
 * edition) requires `Array.prototype.sort` to be stable, so this orders by
 * descending score and keeps items of equal score in their original order.
 */
module Ranking {

  /** A text with its relevance score (the `{ section, score }` objects). */
  datatype Ranked = Ranked(text: string, score: int)

  /** Inserts `x` after every element whose score is at least its own. */
  function InsertByScore(sorted: seq<Ranked>, x: Ranked): (r: seq<Ranked>)
    ensures |r| == |sorted| + 1
    decreases |sorted|
  {
    if sorted == [] || sorted[|sorted| - 1].score >= x.score then sorted + [x]
    else
      assert sorted == sorted[..|sorted| - 1] + [sorted[|sorted| - 1]];
      InsertByScore(sorted[..|sorted| - 1], x) + [sorted[|sorted| - 1]]
  }

  /** The stable descending order, as an insertion sort over prefixes. */
  function RankByScore(s: seq<Ranked>): (r: seq<Ranked>)
    ensures |r| == |s|
    decreases |s|
  {
    if s == [] then [] else InsertByScore(RankByScore(s[..|s| - 1]), s[|s| - 1])
  }

  ghost predicate NonIncreasing(s: seq<Ranked>) {
    forall i, j :: 0 <= i < j < |s| ==> s[i].score >= s[j].score
  }

  /** The elements of score `v`, in order. */
  function WithScore(s: seq<Ranked>, v: int): seq<Ranked>
    decreases |s|
  {
    if s == [] then []
    else WithScore(s[..|s| - 1], v) + (if s[|s| - 1].score == v then [s[|s| - 1]] else [])
  }

  /** `.map(item => item.text)` */
  function Texts(s: seq<Ranked>): (r: seq<string>)
    ensures |r| == |s|
    ensures forall i :: 0 <= i < |s| ==> r[i] == s[i].text
  {
    seq(|s|, i requires 0 <= i < |s| => s[i].text)
  }

  /** Inserting keeps a lower bound that every element, `x` included, meets. */
  lemma {:induction false} InsertKeepsLowerBound(sorted: seq<Ranked>, x: Ranked, bound: int)
    requires forall k :: 0 <= k < |sorted| ==> sorted[k].score >= bound
    requires x.score >= bound
    ensures forall k :: 0 <= k < |sorted| + 1 ==> InsertByScore(sorted, x)[k].score >= bound
    decreases |sorted|
  {
    if sorted != [] && sorted[|sorted| - 1].score < x.score {
      var init, last := sorted[..|sorted| - 1], sorted[|sorted| - 1];
      InsertKeepsLowerBound(init, x, bound);
      var r := InsertByScore(init, x);
      assert InsertByScore(sorted, x) == r + [last];
    }
  }

  lemma {:induction false} InsertKeepsOrder(sorted: seq<Ranked>, x: Ranked)
    requires NonIncreasing(sorted)
    ensures NonIncreasing(InsertByScore(sorted, x))
    decreases |sorted|
  {
    if sorted != [] && sorted[|sorted| - 1].score < x.score {
      var init, last := sorted[..|sorted| - 1], sorted[|sorted| - 1];
      InsertKeepsOrder(init, x);
      InsertKeepsLowerBound(init, x, last.score);
      var r := InsertByScore(init, x);
      assert InsertByScore(sorted, x) == r + [last];
      forall i, j | 0 <= i < j < |r| + 1 ensures (r + [last])[i].score >= (r + [last])[j].score {
        if j == |r| {
          assert (r + [last])[i] == r[i];
        }
      }
    }
  }

  /** The ranking is in descending score order. */
  lemma {:induction false} RankIsNonIncreasing(s: seq<Ranked>)
    ensures NonIncreasing(RankByScore(s))
    decreases |s|
  {
    if s != [] {
      RankIsNonIncreasing(s[..|s| - 1]);
      InsertKeepsOrder(RankByScore(s[..|s| - 1]), s[|s| - 1]);
    }
  }

  lemma {:induction false} InsertIsPermutation(sorted: seq<Ranked>, x: Ranked)
    ensures multiset(InsertByScore(sorted, x)) == multiset(sorted) + multiset{x}
    decreases |sorted|
  {
    if sorted != [] && sorted[|sorted| - 1].score < x.score {
      var init, last := sorted[..|sorted| - 1], sorted[|sorted| - 1];
      InsertIsPermutation(init, x);
      assert sorted == init + [last];
    }
  }

  /** The ranking is a permutation of the input. */
  lemma {:induction false} RankIsPermutation(s: seq<Ranked>)
    ensures multiset(RankByScore(s)) == multiset(s)
    decreases |s|
  {
    if s != [] {
      var init, x := s[..|s| - 1], s[|s| - 1];
      RankIsPermutation(init);
      InsertIsPermutation(RankByScore(init), x);
      assert s == init + [x];
    }
  }

  lemma {:induction false} WithScoreAppend(s: seq<Ranked>, t: seq<Ranked>, v: int)
    ensures WithScore(s + t, v) == WithScore(s, v) + WithScore(t, v)
    decreases |t|
  {
    if t == [] {
      assert s + t == s;
    } else {
      var init := t[..|t| - 1];
      WithScoreAppend(s, init, v);
      assert (s + t)[..|s + t| - 1] == s + init;
    }
  }

  /** `WithScore` of a single element. */
  lemma WithScoreOne(x: Ranked, v: int)
    ensures WithScore([x], v) == if x.score == v then [x] else []
  {
    assert [x][..0] == [];
  }

  lemma {:induction false} InsertIsStable(sorted: seq<Ranked>, x: Ranked, v: int)
    ensures WithScore(InsertByScore(sorted, x), v)
         == WithScore(sorted, v) + (if x.score == v then [x] else [])
    decreases |sorted|
  {
    if sorted == [] || sorted[|sorted| - 1].score >= x.score {
      calc {
        WithScore(InsertByScore(sorted, x), v);
        WithScore(sorted + [x], v);
        { WithScoreAppend(sorted, [x], v); }
        WithScore(sorted, v) + WithScore([x], v);
        { WithScoreOne(x, v); }
        WithScore(sorted, v) + (if x.score == v then [x] else []);
      }
    } else {
      var init, last := sorted[..|sorted| - 1], sorted[|sorted| - 1];
      var mine := if x.score == v then [x] else [];
      calc {
        WithScore(InsertByScore(sorted, x), v);
        WithScore(InsertByScore(init, x) + [last], v);
        { WithScoreAppend(InsertByScore(init, x), [last], v); }
        WithScore(InsertByScore(init, x), v) + WithScore([last], v);
        { InsertIsStable(init, x, v); WithScoreOne(last, v); }
        WithScore(init, v) + mine + (if last.score == v then [last] else []);
        { assert sorted == init + [last]; WithScoreAppend(init, [last], v); WithScoreOne(last, v); }
        WithScore(sorted, v) + mine;
      }
    }
  }

  /** Stability: for every score, the items with that score keep their
      original relative order. */
  lemma {:induction false} RankIsStable(s: seq<Ranked>, v: int)
    ensures WithScore(RankByScore(s), v) == WithScore(s, v)
    decreases |s|
  {
    if s != [] {
      RankIsStable(s[..|s| - 1], v);
      InsertIsStable(RankByScore(s[..|s| - 1]), s[|s| - 1], v);
    }
  }

  lemma TextsAppend(s: seq<Ranked>, t: seq<Ranked>)
    ensures Texts(s + t) == Texts(s) + Texts(t)
  {
  }

  /** Ranking moves texts around but neither adds nor drops any. */
  lemma {:induction false} RankKeepsTexts(s: seq<Ranked>)
    ensures multiset(Texts(RankByScore(s))) == multiset(Texts(s))
    decreases |s|
  {
    if s != [] {
      var init, x := s[..|s| - 1], s[|s| - 1];
      var ranked := RankByScore(init);
      calc {
        multiset(Texts(RankByScore(s)));
        multiset(Texts(InsertByScore(ranked, x)));
        { InsertKeepsTexts(ranked, x); }
        multiset(Texts(ranked)) + multiset{x.text};
        { RankKeepsTexts(init); }
        multiset(Texts(init)) + multiset{x.text};
        { TextsAppend(init, [x]); assert Texts([x]) == [x.text]; }
        multiset(Texts(init + [x]));
        { assert s == init + [x]; }
        multiset(Texts(s));
      }
    }
  }

  lemma {:induction false} InsertKeepsTexts(sorted: seq<Ranked>, x: Ranked)
    ensures multiset(Texts(InsertByScore(sorted, x))) == multiset(Texts(sorted)) + multiset{x.text}
    decreases |sorted|
  {
    if sorted == [] || sorted[|sorted| - 1].score >= x.score {
      calc {
        multiset(Texts(InsertByScore(sorted, x)));
        multiset(Texts(sorted + [x]));
        { TextsAppend(sorted, [x]); assert Texts([x]) == [x.text]; }
        multiset(Texts(sorted)) + multiset{x.text};
      }
    } else {
      var init, last := sorted[..|sorted| - 1], sorted[|sorted| - 1];
      var inserted := InsertByScore(init, x);
      calc {
        multiset(Texts(InsertByScore(sorted, x)));
        multiset(Texts(inserted + [last]));
        { TextsAppend(inserted, [last]); assert Texts([last]) == [last.text]; }
        multiset(Texts(inserted)) + multiset{last.text};
        { InsertKeepsTexts(init, x); }
        multiset(Texts(init)) + multiset{last.text} + multiset{x.text};
        { TextsAppend(init, [last]); assert Texts([last]) == [last.text]; }
        multiset(Texts(init + [last])) + multiset{x.text};
        { assert sorted == init + [last]; }
        multiset(Texts(sorted)) + multiset{x.text};
      }
    }
  }

  /** Where the insertion lands: after the last element scoring at least `x`. */
  lemma {:induction false} InsertLandsAt(sorted: seq<Ranked>, x: Ranked, j: nat)
    requires j <= |sorted|
    requires j == 0 || sorted[j - 1].score >= x.score
    requires forall k :: j <= k < |sorted| ==> sorted[k].score < x.score
    ensures InsertByScore(sorted, x) == sorted[..j] + [x] + sorted[j..]
    decreases |sorted|
  {
    if j == |sorted| {
      assert sorted[..j] == sorted && sorted[j..] == [];
    } else {
      var init, last := sorted[..|sorted| - 1], sorted[|sorted| - 1];
      calc {
        InsertByScore(sorted, x);
        { assert last.score < x.score; }
        InsertByScore(init, x) + [last];
        { assert forall k :: j <= k < |init| ==> init[k] == sorted[k];
          InsertLandsAt(init, x, j); }
        init[..j] + [x] + init[j..] + [last];
        { AppendAssoc(init[..j] + [x], init[j..], [last]); }
        init[..j] + [x] + (init[j..] + [last]);
        { assert init[..j] == sorted[..j]; assert init[j..] + [last] == sorted[j..]; }
        sorted[..j] + [x] + sorted[j..];
      }
    }
  }

  lemma AppendAssoc(a: seq<Ranked>, b: seq<Ranked>, c: seq<Ranked>)
    ensures a + b + c == a + (b + c)
  {
  }

  /** Moves every element of `a[..i]` that scores below `x`, counted from
      the right, one place up; `j` is the hole left for `x`. */
  method ShiftLower(a: array<Ranked>, i: nat, x: Ranked) returns (j: nat)
    requires i < a.Length
    modifies a
    ensures j <= i
    ensures j == 0 || old(a[j - 1]).score >= x.score
    ensures forall k :: j <= k < i ==> old(a[k]).score < x.score
    ensures forall k :: 0 <= k < j ==> a[k] == old(a[k])
    ensures forall k :: j < k <= i ==> a[k] == old(a[k - 1])
    ensures forall k :: i < k < a.Length ==> a[k] == old(a[k])
  {
    j := i;
    while j > 0 && a[j - 1].score < x.score
      invariant 0 <= j <= i
      invariant forall k :: 0 <= k < j ==> a[k] == old(a[k])
      invariant forall k :: j < k <= i ==> a[k] == old(a[k - 1])
      invariant forall k :: j <= k < i ==> old(a[k]).score < x.score
      invariant forall k :: i < k < a.Length ==> a[k] == old(a[k])
    {
      a[j] := a[j - 1];
      j := j - 1;
    }
  }

  /** One insertion step: `a[i]` moves left past the elements of lower
      score, into the sorted prefix `a[..i]`. */
  method InsertLast(a: array<Ranked>, i: nat)
    requires i < a.Length
    modifies a
    ensures a[..i + 1] == InsertByScore(old(a[..i]), old(a[i]))
    ensures a[i + 1..] == old(a[i + 1..])
  {
    ghost var sorted := a[..i];
    var x := a[i];
    var j := ShiftLower(a, i, x);
    a[j] := x;
    assert forall k :: i < k < a.Length ==> a[k] == old(a[k]);
    assert a[i + 1..] == old(a[i + 1..]);
    ghost var target := sorted[..j] + [x] + sorted[j..];
    forall k | 0 <= k <= i ensures a[k] == target[k] {
      if k > j {
        assert target[k] == sorted[j..][k - j - 1];
      }
    }
    assert a[..i + 1] == target;
    InsertLandsAt(sorted, x, j);
  }

  /** Sorts `a` in place by descending score, stably (insertion sort). */
  method SortByScore(a: array<Ranked>)
    modifies a
    ensures a[..] == RankByScore(old(a[..]))
  {
    ghost var input := a[..];
    var i := 0;
    while i < a.Length
      invariant 0 <= i <= a.Length
      invariant a[..i] == RankByScore(input[..i])
      invariant a[i..] == input[i..]
    {
      ghost var prefix := input[..i + 1];
      assert a[i] == a[i..][0] == input[i];
      assert a[i + 1..] == a[i..][1..] == input[i + 1..];
      InsertLast(a, i);
      assert prefix[..i] == input[..i] && prefix[i] == input[i];
      assert RankByScore(prefix) == InsertByScore(RankByScore(input[..i]), input[i]);
      i := i + 1;
    }
    assert input[..a.Length] == input;
  }
}
