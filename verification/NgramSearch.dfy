/**
 The search for words made of a frame's n-grams: `candidate_words` of compare_context_candidates.py.

 The search starts at every widest n-gram that begins a word and appends one character at a time, using no
 n-gram more often than the frame's values allow. What it finds is stated exactly, for any n-grams.
 */
module NgramSearch {
  import opened NgramFeatures
  import opened NgramAllowance
  import opened SetSums
  import opened StringOrder

  /** The steps from the first `m` characters of the padded word `p` to its end, one n-gram a step. */
  ghost predicate Walk(allowed: map<string, int>, longest: int, p: string, m: nat, used: multiset<string>)
    requires WIDEST <= m < |p|
    decreases |p| - m
  {
    var t := p[m - 3..m + 1];
    && t in allowed && t[0] != '^' && used[t] < allowed[t]
    && if t[3] == '$' then m + 1 == |p|
       else m - 1 < longest && m + 1 < |p| && Walk(allowed, longest, p, m + 1, used + multiset{t})
  }

  /** Whether the search from `padded` finds `w`. */
  ghost predicate Continues(allowed: map<string, int>, longest: int, padded: string, used: multiset<string>, w: string)
    requires |padded| >= WIDEST
  {
    padded < Pad(w) && Walk(allowed, longest, Pad(w), |padded|, used)
  }

  /** Whether a word is found at all: as one n-gram, or by a walk from its first widest n-gram. */
  ghost predicate IsCandidate(allowed: map<string, int>, longest: int, w: string) {
    || (w != "" && Pad(w) in allowed)
    || (|w| >= 3 && Pad(w)[..WIDEST] in allowed && Pad(w)[3] != '$'
        && Walk(allowed, longest, Pad(w), WIDEST, multiset{Pad(w)[..WIDEST]}))
  }

  /** The widest n-grams by the characters they continue. */
  ghost predicate IsFollowing(following: map<string, seq<string>>, allowed: map<string, int>) {
    && (forall k, t :: k in following && t in following[k] ==>
          t in allowed && |t| == WIDEST && t[0] != '^' && t[..3] == k)
    && (forall t :: t in allowed && |t| == WIDEST && t[0] != '^' ==> t[..3] in following && t in following[t[..3]])
  }

  /** A word continues, next with one of some n-grams. */
  ghost predicate Takes(allowed: map<string, int>, longest: int, padded: string, used: multiset<string>, options: seq<string>, w: string)
    requires |padded| >= WIDEST
  {
    Continues(allowed, longest, padded, used, w) && Pad(w)[|padded| - 3..|padded| + 1] in options
  }

  lemma TakesMore(allowed: map<string, int>, longest: int, padded: string, used: multiset<string>, options: seq<string>, k: nat)
    requires |padded| >= WIDEST && k < |options|
    ensures forall w ::
      Takes(allowed, longest, padded, used, options[..k + 1], w)
      <==> Takes(allowed, longest, padded, used, options[..k], w) || Takes(allowed, longest, padded, used, [options[k]], w)
  {
    assert options[..k + 1] == options[..k] + [options[k]];
    hide Continues;
  }

  /** The n-gram a word continues with is among those that follow. */
  lemma TakesOne(following: map<string, seq<string>>, allowed: map<string, int>, longest: int, padded: string, used: multiset<string>,
                 options: seq<string>)
    requires IsFollowing(following, allowed) && |padded| >= WIDEST && padded[0] == '^'
    requires var tail := padded[|padded| - 3..]; options == if tail in following then following[tail] else []
    ensures forall w :: Continues(allowed, longest, padded, used, w) <==> Takes(allowed, longest, padded, used, options, w)
  {
    var m := |padded|;
    forall w | Continues(allowed, longest, padded, used, w) ensures Takes(allowed, longest, padded, used, options, w) {
      var t := Pad(w)[m - 3..m + 1];
      assert Pad(w)[..m] == padded;
      assert t[..3] == padded[m - 3..];
    }
  }

  class Search {
    const following: map<string, seq<string>>
    const allowed: map<string, int>
    const longest: int
    var used: multiset<string>
    var found: seq<string>

    constructor (following: map<string, seq<string>>, allowed: map<string, int>, longest: int, found: seq<string>)
      ensures this.following == following && this.allowed == allowed && this.longest == longest
      ensures used == multiset{} && this.found == found
    {
      this.following, this.allowed, this.longest := following, allowed, longest;
      this.used, this.found := multiset{}, found;
    }

    /** The recursive closure: it adds the words that continue `padded` and restores `used`. */
    method Extend(padded: string)
      requires IsFollowing(following, allowed)
      requires |padded| >= WIDEST && padded[0] == '^'
      modifies this
      ensures used == old(used)
      ensures forall w :: w in found <==> w in old(found) || Continues(allowed, longest, padded, old(used), w)
      decreases if longest + 2 > |padded| then longest + 2 - |padded| else 0, 1
    {
      hide Takes, Continues;
      var tail := padded[|padded| - 3..];
      var options := if tail in following then following[tail] else [];
      NoneTaken(allowed, longest, padded, used);
      for k := 0 to |options|
        invariant used == old(used)
        invariant forall w :: w in found <==> w in old(found) || Takes(allowed, longest, padded, used, options[..k], w)
      {
        TakesMore(allowed, longest, padded, used, options, k);
        Try(padded, options[k]);
      }
      assert options[..|options|] == options;
      TakesOne(following, allowed, longest, padded, used, options);
    }

    /** One n-gram that may come next, if it may occur once more. */
    method Try(padded: string, text: string)
      requires IsFollowing(following, allowed)
      requires |padded| >= WIDEST && padded[0] == '^'
      requires padded[|padded| - 3..] in following && text in following[padded[|padded| - 3..]]
      modifies this
      ensures used == old(used)
      ensures forall w :: w in found <==> w in old(found) || Takes(allowed, longest, padded, old(used), [text], w)
      decreases if longest + 2 > |padded| then longest + 2 - |padded| else 0, 0
    {
      hide Takes, Continues;
      if used[text] < allowed[text] {
        used := used + multiset{text};
        if text[3] == '$' {
          found := found + [padded[1..]];
          LastStep(allowed, longest, padded, text, old(used));
        } else {
          if |padded| - 1 < longest {
            Extend(padded + [text[3]]);
          }
          MiddleStep(allowed, longest, padded, text, old(used));
        }
        used := used - multiset{text};
        assert used == old(used);
      } else {
        BlockedStep(allowed, longest, padded, text, old(used));
      }
    }
  }

  lemma NoneTaken(allowed: map<string, int>, longest: int, padded: string, used: multiset<string>)
    requires |padded| >= WIDEST
    ensures forall w :: !Takes(allowed, longest, padded, used, [], w)
  {}

  /** An n-gram that ends the word finds exactly that word. */
  lemma LastStep(allowed: map<string, int>, longest: int, padded: string, text: string, used: multiset<string>)
    requires |padded| >= WIDEST && padded[0] == '^' && text in allowed && |text| == WIDEST && text[0] != '^'
    requires text[..3] == padded[|padded| - 3..] && text[3] == '$' && used[text] < allowed[text]
    ensures forall w :: Takes(allowed, longest, padded, used, [text], w) <==> w == padded[1..]
  {
    var m := |padded|;
    var word := padded[1..];
    assert Pad(word) == padded + "$";
    assert Pad(word)[m - 3..m + 1] == text;
    forall w | Continues(allowed, longest, padded, used, w) && Pad(w)[m - 3..m + 1] == text
      ensures w == word
    {
      assert |Pad(w)| == m + 1;
      assert Pad(w)[..m] == padded;
      assert w == Pad(w)[..m][1..];
    }
  }

  /** Any other n-gram leads to the words of the longer beginning, unless that is too long. */
  lemma MiddleStep(allowed: map<string, int>, longest: int, padded: string, text: string, used: multiset<string>)
    requires |padded| >= WIDEST && padded[0] == '^' && text in allowed && |text| == WIDEST && text[0] != '^'
    requires text[..3] == padded[|padded| - 3..] && text[3] != '$' && used[text] < allowed[text]
    ensures forall w :: Takes(allowed, longest, padded, used, [text], w)
                   <==> |padded| - 1 < longest
                        && Continues(allowed, longest, padded + [text[3]], used + multiset{text}, w)
  {
    var m := |padded|;
    var longer := padded + [text[3]];
    forall w
      ensures Continues(allowed, longest, padded, used, w) && Pad(w)[m - 3..m + 1] == text
         <==> m - 1 < longest && Continues(allowed, longest, longer, used + multiset{text}, w)
    {
      var p := Pad(w);
      if longer < p {
        assert p[..m + 1] == longer;
        assert p[..m] == p[..m + 1][..m] == padded;
        assert p[m - 3..m + 1] == longer[m - 3..] == text;
      }
      if padded < p && p[m - 3..m + 1] == text {
        assert p[..m + 1] == longer by {
          assert p[..m] == padded && p[m] == text[3];
        }
        assert m + 1 < |p| ==> longer < p;
      }
    }
  }

  lemma BlockedStep(allowed: map<string, int>, longest: int, padded: string, text: string, used: multiset<string>)
    requires |padded| >= WIDEST && text in allowed && used[text] >= allowed[text]
    ensures forall w :: !Takes(allowed, longest, padded, used, [text], w)
  {}

  // ---- the whole search

  /** How often the values of the n-grams allow each of them. */
  ghost function AllowedMap(grams: Grams): map<string, int> { map t | t in grams :: Allowed(grams, t) }

  /** The sums of the orders, added up over the n-grams. */
  method OrderSums(grams: Grams) returns (sums: map<nat, real>)
    ensures forall t :: t in grams ==> |t| in sums && sums[|t|] == OrderSum(grams, |t|)
  {
    sums := map[];
    var rest := grams.Keys;
    while rest != {}
      invariant rest <= grams.Keys
      invariant forall t :: t in grams && t !in rest ==> |t| in sums
      invariant forall n :: n in sums ==>
        sums[n] == SumOver(OfOrder(grams, n) - rest, t => Value(grams, t))
      invariant forall n :: n !in sums ==> OfOrder(grams, n) - rest == {}
      decreases rest
    {
      var text :| text in rest;
      var n := |text|;
      ghost var before, f := rest, (t: string) => Value(grams, t);
      var sum := if n in sums then sums[n] else 0.0;
      sums := sums[n := sum + grams[text]];
      rest := rest - {text};
      assert OfOrder(grams, n) - rest == OfOrder(grams, n) - before + {text};
      SumSplit(OfOrder(grams, n) - rest, f, text);
      assert OfOrder(grams, n) - rest - {text} == OfOrder(grams, n) - before;
      forall k | k != n
        ensures OfOrder(grams, k) - rest == OfOrder(grams, k) - before
      {
        assert text !in OfOrder(grams, k);
      }
    }
    forall n
      ensures OfOrder(grams, n) - {} == OfOrder(grams, n)
    {
    }
  }

  method AllowedCounts(grams: Grams) returns (allowed: map<string, int>)
    ensures allowed == AllowedMap(grams)
  {
    var sums := OrderSums(grams);
    allowed := map t | t in grams :: AllowedBy(grams[t], sums[|t|]);
    forall t | t in grams
      ensures AllowedBy(grams[t], sums[|t|]) == Allowed(grams, t)
    {
      assert sums[|t|] == OrderSum(grams, |t|);
    }
  }

  /** `candidate_words`: the ascending list of exactly the words the search finds. */
  method CandidateWords(grams: Grams, longest: int) returns (words: seq<string>)
    ensures Ascending(words)
    ensures forall w :: w in words <==> IsCandidate(AllowedMap(grams), longest, w)
  {
    var allowed := AllowedCounts(grams);
    var order := SortedStrings(grams.Keys);
    assert forall t :: t in order <==> t in allowed;
    var following := Following(order, allowed);
    var found := WholeWords(order);
    var search := new Search(following, allowed, longest, found);
    FromStarts(search, order);
    words := SortedStrings(set w | w in search.found);
  }

  /** What the list is: an ascending list of exactly the words found is the only one, whatever order they were found in. */
  lemma CandidateListIsUnique(grams: Grams, longest: int, a: seq<string>, b: seq<string>)
    requires Ascending(a) && forall w :: w in a <==> IsCandidate(AllowedMap(grams), longest, w)
    requires Ascending(b) && forall w :: w in b <==> IsCandidate(AllowedMap(grams), longest, w)
    ensures a == b
  {
    AscendingIsUnique(a, b);
  }

  /** The words short enough to be one n-gram. */
  method WholeWords(order: seq<string>) returns (found: seq<string>)
    ensures forall w :: w in found <==> w != "" && Pad(w) in order
  {
    found := [];
    for k := 0 to |order|
      invariant forall w :: w in found <==> w != "" && Pad(w) in order[..k]
    {
      var text := order[k];
      assert order[..k + 1] == order[..k] + [text];
      OneGramWord(text);
      if |text| > 2 && text[0] == '^' && text[|text| - 1] == '$' {
        found := found + [text[1..|text| - 1]];
      }
    }
    assert order[..|order|] == order;
  }

  /** An n-gram is a padded word exactly if it begins and ends like one. */
  lemma OneGramWord(text: string)
    ensures if |text| > 2 && text[0] == '^' && text[|text| - 1] == '$'
            then Pad(text[1..|text| - 1]) == text && forall w :: Pad(w) == text ==> w == text[1..|text| - 1]
            else forall w :: w != "" ==> Pad(w) != text
  {
    if |text| > 2 && text[0] == '^' && text[|text| - 1] == '$' {
      assert Pad(text[1..|text| - 1]) == text;
      forall w | Pad(w) == text ensures w == text[1..|text| - 1] {
        PadReadsBack(w);
      }
    } else {
      forall w | w != "" ensures Pad(w) != text {
        PadReadsBack(w);
      }
    }
  }

  lemma PadReadsBack(w: string)
    ensures |Pad(w)| == |w| + 2 && Pad(w)[0] == '^' && Pad(w)[|w| + 1] == '$' && Pad(w)[1..|w| + 1] == w
  {}

  /** Whether the walk of `w` starts at one of these n-grams. */
  ghost predicate StartsAmong(allowed: map<string, int>, longest: int, starts: seq<string>, w: string) {
    |w| >= 3 && Pad(w)[..WIDEST] in starts && Pad(w)[3] != '$'
    && Walk(allowed, longest, Pad(w), WIDEST, multiset{Pad(w)[..WIDEST]})
  }

  /** The last loop: every widest n-gram that begins a word and does not end it. */
  method FromStarts(search: Search, order: seq<string>)
    requires IsFollowing(search.following, search.allowed) && search.used == multiset{}
    modifies search
    ensures search.used == multiset{}
    ensures forall w :: w in search.found <==>
      w in old(search.found) || StartsAmong(search.allowed, search.longest, order, w)
  {
    for k := 0 to |order|
      invariant search.used == multiset{}
      invariant forall w :: w in search.found <==>
        w in old(search.found) || StartsAmong(search.allowed, search.longest, order[..k], w)
    {
      var text := order[k];
      assert order[..k + 1] == order[..k] + [text];
      if |text| == WIDEST && text[0] == '^' && text[3] != '$' {
        search.used := search.used + multiset{text};
        assert search.used == multiset{text};
        search.Extend(text);
        search.used := search.used - multiset{text};
        StartStep(search.allowed, search.longest, text);
      }
      forall w
        ensures StartsAmong(search.allowed, search.longest, order[..k + 1], w) <==>
          (StartsAmong(search.allowed, search.longest, order[..k], w)
           || StartsAmong(search.allowed, search.longest, [text], w))
        ensures StartsAmong(search.allowed, search.longest, [text], w)
            ==> |text| == WIDEST && text[0] == '^' && text[3] != '$'
      {
        if |w| >= 3 {
          assert Pad(w)[..WIDEST][0] == '^' && Pad(w)[..WIDEST][3] == Pad(w)[3];
        }
      }
    }
    assert order[..|order|] == order;
  }

  lemma StartStep(allowed: map<string, int>, longest: int, text: string)
    requires |text| == WIDEST && text[0] == '^' && text[3] != '$'
    ensures forall w :: Continues(allowed, longest, text, multiset{text}, w)
                   <==> StartsAmong(allowed, longest, [text], w)
  {
    forall w
      ensures Continues(allowed, longest, text, multiset{text}, w) <==> StartsAmong(allowed, longest, [text], w)
    {
      if text < Pad(w) {
        assert Pad(w)[..WIDEST] == text;
      }
    }
  }

  method Following(order: seq<string>, allowed: map<string, int>) returns (following: map<string, seq<string>>)
    requires forall t :: t in order <==> t in allowed
    ensures IsFollowing(following, allowed)
  {
    following := map[];
    for i := 0 to |order|
      invariant forall k, t :: k in following && t in following[k] ==>
        t in allowed && |t| == WIDEST && t[0] != '^' && t[..3] == k
      invariant forall t :: t in order[..i] && |t| == WIDEST && t[0] != '^' ==> t[..3] in following && t in following[t[..3]]
    {
      var text := order[i];
      assert order[..i + 1] == order[..i] + [text];
      assert text in order;
      if |text| == WIDEST && text[0] != '^' {
        var key := text[..3];
        var already := if key in following then following[key] else [];
        following := following[key := already + [text]];
      }
    }
    assert order[..|order|] == order;
  }

  // ---- what a walk means for a plain word

  /** The rest of the word from position `i`, as n-grams: all present, and none over its allowance. */
  ghost predicate Affordable(allowed: map<string, int>, s: string, used: multiset<string>) {
    && (forall i: nat :: i + WIDEST <= |s| ==> Gram(s, i, WIDEST) in allowed)
    && (forall t :: |t| == WIDEST && Count(s, t) > 0 && t in allowed ==> used[t] + Count(s, t) <= allowed[t])
  }

  lemma {:induction false} WalkIsAffordable(allowed: map<string, int>, longest: int, w: string, m: nat, used: multiset<string>)
    requires Plain(w) && WIDEST <= m < |Pad(w)|
    ensures Walk(allowed, longest, Pad(w), m, used)
       <==> Affordable(allowed, Pad(w)[m - 3..], used) && (m + 1 == |Pad(w)| || |w| <= longest)
    decreases |w| + 2 - m
  {
    var p := Pad(w);
    var s := p[m - 3..];
    var t := p[m - 3..m + 1];
    assert s[..WIDEST] == t == Gram(s, 0, WIDEST) && s[1..] == p[m - 2..];
    assert t[0] == w[m - 4];
    assert Count(s, t) >= 1;
    forall u | |u| == WIDEST
      ensures Count(s, u) == (if u == t then 1 else 0) + Count(s[1..], u)
      ensures (used + multiset{t})[u] == used[u] + if u == t then 1 else 0
    {
    }
    if m + 1 == |p| {
      assert |s| == WIDEST;
      forall i: nat | i + WIDEST <= |s| ensures Gram(s, i, WIDEST) == t {}
    } else {
      assert t[3] == w[m - 1];
      WalkIsAffordable(allowed, longest, w, m + 1, used + multiset{t});
      assert Affordable(allowed, s, used) <==>
        t in allowed && used[t] < allowed[t] && Affordable(allowed, s[1..], used + multiset{t}) by {
        AffordableStep(allowed, s, used);
      }
    }
  }

  lemma AffordableStep(allowed: map<string, int>, s: string, used: multiset<string>)
    requires |s| > WIDEST
    ensures var t := s[..WIDEST];
      Affordable(allowed, s, used) <==>
        t in allowed && used[t] < allowed[t] && Affordable(allowed, s[1..], used + multiset{t})
  {
    var t, rest := s[..WIDEST], s[1..];
    assert Gram(s, 0, WIDEST) == t;
    forall i: nat | i + WIDEST <= |rest|
      ensures Gram(rest, i, WIDEST) == Gram(s, i + 1, WIDEST)
    {
    }
    forall i: nat | 0 < i && i + WIDEST <= |s|
      ensures Gram(s, i, WIDEST) == Gram(rest, i - 1, WIDEST)
    {
    }
    forall u | |u| == WIDEST
      ensures Count(s, u) == (if u == t then 1 else 0) + Count(rest, u)
      ensures (used + multiset{t})[u] == used[u] + if u == t then 1 else 0
    {
    }
  }

  /**
   The search finds a plain word exactly when it is one n-gram of the frame, or it is short enough, all its
   widest n-grams are the frame's and none but its first is needed more often than allowed.
   */
  lemma CandidateExactly(allowed: map<string, int>, longest: int, w: string)
    requires Plain(w)
    ensures IsCandidate(allowed, longest, w) <==>
      || Pad(w) in allowed
      || (3 <= |w| && (|w| == 3 || |w| <= longest)
          && (forall i: nat :: i + WIDEST <= |w| + 2 ==> Gram(Pad(w), i, WIDEST) in allowed)
          && (forall t :: |t| == WIDEST && t[0] != '^' && Count(Pad(w), t) > 0 && t in allowed
                ==> Count(Pad(w), t) <= allowed[t]))
  {
    if |w| >= 3 {
      var p, first := Pad(w), Pad(w)[..WIDEST];
      assert p[3] == w[2];
      WalkIsAffordable(allowed, longest, w, WIDEST, multiset{first});
      assert Gram(p, 0, WIDEST) == first && first[0] == '^';
      var s := p[1..];
      assert s == w + "$" && p == "^" + s;
      forall i: nat | i + WIDEST <= |s| ensures Gram(s, i, WIDEST) == Gram(p, i + 1, WIDEST) {}
      forall i: nat | 0 < i && i + WIDEST <= |p| ensures Gram(p, i, WIDEST) == Gram(s, i - 1, WIDEST) {}
      forall t | |t| == WIDEST
        ensures t[0] != '^' ==> Count(p, t) == Count(s, t)
        ensures t[0] == '^' ==> Count(s, t) == 0
        ensures multiset{first}[t] == if t == first then 1 else 0
      {
        if t[0] != '^' {
          FirstGramDiffers(s, t);
        } else {
          NeverStarts(s, t);
        }
      }
    }
  }

  lemma {:induction false} NeverStarts(s: string, t: string)
    requires t != "" && t[0] !in s
    ensures Count(s, t) == 0
    decreases |s|
  {
    if |s| >= |t| {
      NeverStarts(s[1..], t);
      assert s[..|t|][0] in s;
    }
  }
}
