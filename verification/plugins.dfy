/**
 * Two page helpers of the button-pad site: an in-place Fisher-Yates shuffle, whose
 * random choices come from an oracle, and `gup`, which reads one query parameter
 * out of the page's address (passed in as `href`).
 */
module Plugins {
  import opened Options

  // ---------------------------------------------------------------- shuffle

  /**
   * Random choices a run of shuffle can make on an array of length n: the choice of
   * round k (0-based) is Math.floor(Math.random() * counter), with counter == n - k.
   */
  predicate ValidPicks(picks: seq<nat>, n: nat) {
    |picks| == n && forall k :: 0 <= k < n ==> picks[k] < n - k
  }

  /** One round's exchange: the last cell takes cell `index`, cell `index` the old last cell. */
  function Swap<T>(s: seq<T>, index: nat, last: nat): (r: seq<T>)
    requires index < |s| && last < |s|
    ensures |r| == |s|
  {
    s[last := s[index]][index := s[last]]
  }

  /** The rounds of shuffle still to run while `counter` cells are left unfixed. */
  function ShuffleRounds<T>(s: seq<T>, picks: seq<nat>, counter: nat): seq<T>
    requires ValidPicks(picks, |s|) && counter <= |s|
    decreases counter
  {
    if counter == 0 then s
    else ShuffleRounds(Swap(s, picks[|s| - counter], counter - 1), picks, counter - 1)
  }

  /** What shuffle leaves in an array holding s, given its random choices. */
  function Shuffled<T>(s: seq<T>, picks: seq<nat>): seq<T>
    requires ValidPicks(picks, |s|)
  {
    ShuffleRounds(s, picks, |s|)
  }

  lemma SwapPermutes<T>(s: seq<T>, index: nat, last: nat)
    requires index < |s| && last < |s|
    ensures multiset(Swap(s, index, last)) == multiset(s)
  {
  }

  /** The remaining rounds rearrange the cells: same length, same elements. */
  lemma {:induction false} ShuffleRoundsPermutes<T>(s: seq<T>, picks: seq<nat>, counter: nat)
    requires ValidPicks(picks, |s|) && counter <= |s|
    ensures |ShuffleRounds(s, picks, counter)| == |s|
    ensures multiset(ShuffleRounds(s, picks, counter)) == multiset(s)
    decreases counter
  {
    if counter > 0 {
      var index := picks[|s| - counter];
      SwapPermutes(s, index, counter - 1);
      ShuffleRoundsPermutes(Swap(s, index, counter - 1), picks, counter - 1);
    }
  }

  /** Cells at or past `counter` are already final: the remaining rounds leave them alone. */
  lemma {:induction false} ShuffleRoundsKeepsFixed<T>(s: seq<T>, picks: seq<nat>, counter: nat, k: nat)
    requires ValidPicks(picks, |s|) && counter <= k < |s|
    ensures |ShuffleRounds(s, picks, counter)| == |s|
    ensures ShuffleRounds(s, picks, counter)[k] == s[k]
    decreases counter
  {
    ShuffleRoundsPermutes(s, picks, counter);
    if counter > 0 {
      var index := picks[|s| - counter];
      ShuffleRoundsKeepsFixed(Swap(s, index, counter - 1), picks, counter - 1, k);
    }
  }

  /** A shuffle is a permutation of its input. */
  lemma ShuffledPermutes<T>(s: seq<T>, picks: seq<nat>)
    requires ValidPicks(picks, |s|)
    ensures |Shuffled(s, picks)| == |s|
    ensures multiset(Shuffled(s, picks)) == multiset(s)
  {
    ShuffleRoundsPermutes(s, picks, |s|);
  }

  /** The first round fixes the last cell: it ends up holding the element first picked. */
  lemma ShuffledLast<T>(s: seq<T>, picks: seq<nat>)
    requires ValidPicks(picks, |s|) && |s| > 0
    ensures |Shuffled(s, picks)| == |s|
    ensures Shuffled(s, picks)[|s| - 1] == s[picks[0]]
  {
    var n := |s|;
    if n > 1 {
      ShuffleRoundsKeepsFixed(Swap(s, picks[0], n - 1), picks, n - 1, n - 1);
    } else {
      ShuffleRoundsPermutes(s, picks, n);
    }
  }

  /**
   * shuffle(array): counts `counter` down from the length; each round picks an index
   * below counter, decrements counter and exchanges cells index and counter. The array
   * is rearranged in place and returned; the loop runs once per cell.
   */
  method Shuffle<T>(a: array<T>, picks: seq<nat>) returns (r: array<T>, ghost rounds: nat)
    requires ValidPicks(picks, a.Length)
    modifies a
    ensures r == a
    ensures a[..] == Shuffled(old(a[..]), picks)
    ensures rounds == a.Length
  {
    var counter := a.Length;
    rounds := 0;
    while counter > 0
      invariant 0 <= counter <= a.Length
      invariant rounds == a.Length - counter
      invariant ShuffleRounds(a[..], picks, counter) == Shuffled(old(a[..]), picks)
    {
      var index := picks[a.Length - counter];
      ghost var before := a[..];
      counter := counter - 1;
      var temp := a[counter];
      a[counter] := a[index];
      a[index] := temp;
      assert a[..] == Swap(before, index, counter);
      rounds := rounds + 1;
    }
    r := a;
  }

  // ---------------------------------------------------------------- gup

  /** Characters with a meaning in a regular expression, brackets aside. */
  predicate IsRegexOperator(c: char) {
    c in "\\^$.|?*+(){}"
  }

  /**
   * Names whose pattern "[\?&]" + name + "=([^&#]*)" matches the name literally:
   * gup escapes the first '[' and the first ']', so at most one of each is allowed,
   * and no other operator character.
   */
  predicate IsPlainName(name: string) {
    && (forall i :: 0 <= i < |name| ==> !IsRegexOperator(name[i]))
    && multiset(name)['['] <= 1
    && multiset(name)[']'] <= 1
  }

  predicate EndsValue(c: char) {
    c == '&' || c == '#'
  }

  /** "?name=" or "&name=" starts at position i of href. */
  predicate MatchesAt(href: string, name: string, i: nat) {
    && i + |name| + 2 <= |href|
    && (href[i] == '?' || href[i] == '&')
    && href[i + 1..i + 1 + |name|] == name
    && href[i + 1 + |name|] == '='
  }

  /** The leftmost match at or after position i, as RegExp.exec finds it. */
  function FirstMatchFrom(href: string, name: string, i: nat): (r: Option<nat>)
    requires i <= |href|
    ensures r.Some? ==> i <= r.value && MatchesAt(href, name, r.value)
    ensures r.Some? ==> forall p :: i <= p < r.value ==> !MatchesAt(href, name, p)
    ensures r.None? ==> forall p :: i <= p ==> !MatchesAt(href, name, p)
    decreases |href| - i
  {
    if i == |href| then None
    else if MatchesAt(href, name, i) then Some(i)
    else FirstMatchFrom(href, name, i + 1)
  }

  /** The end of the greedy run "[^&#]*" that starts at j: the next '&', '#' or the end. */
  function ValueEnd(href: string, j: nat): (k: nat)
    requires j <= |href|
    ensures j <= k <= |href|
    ensures k == |href| || EndsValue(href[k])
    ensures forall m :: j <= m < k ==> !EndsValue(href[m])
    decreases |href| - j
  {
    if j == |href| || EndsValue(href[j]) then j else ValueEnd(href, j + 1)
  }

  /**
   * gup(name): "" when href holds no "?name=" or "&name="; otherwise, after the first
   * of them, the characters up to and excluding the next '&' or '#', or to the end.
   */
  function Gup(href: string, name: string): (r: string)
    requires IsPlainName(name)
    ensures forall m :: 0 <= m < |r| ==> !EndsValue(r[m])
    ensures (forall p: nat :: !MatchesAt(href, name, p)) ==> r == ""
    ensures forall i: nat | MatchesAt(href, name, i) && (forall p :: 0 <= p < i ==> !MatchesAt(href, name, p)) ::
      var j := i + |name| + 2;
      && j + |r| <= |href|
      && href[j..j + |r|] == r
      && (j + |r| == |href| || EndsValue(href[j + |r|]))
  {
    match FirstMatchFrom(href, name, 0)
    case None => ""
    case Some(i) =>
      var j := i + |name| + 2;
      href[j..ValueEnd(href, j)]
  }

  /**
   * Reading back a parameter written into an address: for a base without '?' or '&',
   * a value without '&' or '#', and a tail that is empty or starts a new parameter or
   * the fragment, gup gives back the value.
   */
  lemma GupOfQuery(base: string, name: string, value: string, tail: string)
    requires IsPlainName(name)
    requires forall m :: 0 <= m < |base| ==> base[m] != '?' && base[m] != '&'
    requires forall m :: 0 <= m < |value| ==> !EndsValue(value[m])
    requires tail == [] || EndsValue(tail[0])
    ensures Gup(base + "?" + name + "=" + value + tail, name) == value
  {
    var href := base + "?" + name + "=" + value + tail;
    var i, j := |base|, |base| + |name| + 2;
    assert href[i] == '?';
    assert href[i + 1..i + 1 + |name|] == name;
    assert href[i + 1 + |name|] == '=';
    assert MatchesAt(href, name, i);
    forall p | 0 <= p < i
      ensures !MatchesAt(href, name, p)
    {
      assert href[p] == base[p];
    }
    assert href[j..j + |value|] == value;
  }
}
