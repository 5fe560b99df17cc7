/** `ShuffleRange` of the vendored gtest: the Fisher-Yates shuffle. */
module Shuffling {

  function Swap<T>(s: seq<T>, i: nat, j: nat): (t: seq<T>)
    requires i < |s| && j < |s|
    ensures |t| == |s|
  {
    s[i := s[j]][j := s[i]]
  }

  function Rounds(n: nat): nat {
    if n < 2 then 0 else n - 1
  }

  /** The answers of `Random::Generate` for ranges of n, n - 1, ..., 2 elements. */
  predicate InBounds(choices: seq<nat>, n: nat) {
    |choices| == Rounds(n) && forall j | 0 <= j < |choices| :: choices[j] < n - j
  }

  /** The shuffle: the chosen element goes last, and the ones before it are shuffled. */
  function Shuffled<T>(s: seq<T>, choices: seq<nat>): (t: seq<T>)
    requires InBounds(choices, |s|)
    ensures |t| == |s|
    decreases |s|
  {
    if |s| < 2 then s
    else
      var n := |s| - 1;
      var t := Swap(s, choices[0], n);
      assert forall j | 0 <= j < |choices[1..]| :: choices[1..][j] == choices[j + 1];
      Shuffled(t[..n], choices[1..]) + [t[n]]
  }

  lemma RestInBounds(choices: seq<nat>, n: nat)
    requires InBounds(choices, n) && n >= 2
    ensures choices[0] < n && InBounds(choices[1..], n - 1)
  {
  }

  lemma OneRound<T>(s: seq<T>, choices: seq<nat>)
    requires InBounds(choices, |s|) && |s| >= 2
    ensures choices[0] < |s| && InBounds(choices[1..], |s| - 1)
    ensures var t := Swap(s, choices[0], |s| - 1);
            Shuffled(s, choices) == Shuffled(t[..|s| - 1], choices[1..]) + [t[|s| - 1]]
  {
    RestInBounds(choices, |s|);
  }

  /** A swap inside [begin, begin + width) of a longer sequence. */
  lemma SwapInside<T>(a: seq<T>, begin: nat, width: nat, choice: nat)
    requires begin + width <= |a| && choice < width
    ensures var b := Swap(a, begin + choice, begin + width - 1); var t := Swap(a[begin..begin + width], choice, width - 1);
            && b[..begin] == a[..begin] && b[begin + width..] == a[begin + width..]
            && b[begin..begin + width - 1] == t[..width - 1] && b[begin + width - 1] == t[width - 1]
  {
  }

  /** The state of the loop: what is left of the range will be shuffled by what is left of the
      choices, and what is behind it is done. */
  ghost predicate Shuffling<T>(a: seq<T>, was: seq<T>, begin: nat, end: nat, width: nat, choices: seq<nat>, goal: seq<T>) {
    && |a| == |was| && begin <= begin + width <= end <= |a| && InBounds(choices, width)
    && a[..begin] == was[..begin] && a[end..] == was[end..]
    && Shuffled(a[begin..begin + width], choices) + a[begin + width..end] == goal
  }

  lemma ShufflingRound<T>(a: seq<T>, was: seq<T>, begin: nat, end: nat, width: nat, choices: seq<nat>, goal: seq<T>)
    requires Shuffling(a, was, begin, end, width, choices, goal) && width >= 2
    ensures choices != [] && choices[0] < width && begin + width <= |a|
    ensures Shuffling(Swap(a, begin + choices[0], begin + width - 1), was, begin, end, width - 1, choices[1..], goal)
  {
    hide Shuffled;
    OneRound(a[begin..begin + width], choices);
    SwapInside(a, begin, width, choices[0]);
    var b := Swap(a, begin + choices[0], begin + width - 1);
    var t := Swap(a[begin..begin + width], choices[0], width - 1);
    hide Swap;
    assert b[begin + width..end] == b[begin + width..][..end - begin - width] == a[begin + width..][..end - begin - width] == a[begin + width..end];
    assert b[begin + width - 1..end] == [t[width - 1]] + b[begin + width..end];
    assert b[end..] == b[begin + width..][end - begin - width..] == a[begin + width..][end - begin - width..] == a[end..];
  }

  lemma ShufflingStart<T>(a: seq<T>, begin: nat, end: nat, choices: seq<nat>)
    requires begin <= end <= |a| && InBounds(choices, end - begin)
    ensures Shuffling(a, a, begin, end, end - begin, choices, Shuffled(a[begin..end], choices))
  {
    assert a[end..end] == [];
  }

  lemma ShufflingDone<T>(a: seq<T>, was: seq<T>, begin: nat, end: nat, width: nat, choices: seq<nat>, goal: seq<T>)
    requires Shuffling(a, was, begin, end, width, choices, goal) && width < 2
    ensures a == was[..begin] + goal + was[end..]
  {
    assert a == a[..begin] + (a[begin..begin + width] + a[begin + width..end]) + a[end..];
  }

  /** `std::swap`. */
  method SwapAt<T>(v: array<T>, i: nat, j: nat)
    requires i < v.Length && j < v.Length
    modifies v
    ensures v[..] == Swap(old(v[..]), i, j)
  {
    ghost var before := v[..];
    v[i], v[j] := v[j], v[i];
    Swapped(before, v[..], i, j);
  }

  lemma MoreChoices<T>(a: seq<T>, was: seq<T>, begin: nat, end: nat, width: nat, choices: seq<nat>, calls: nat, goal: seq<T>)
    requires calls <= |choices| && Shuffling(a, was, begin, end, width, choices[calls..], goal) && width >= 2
    ensures calls < |choices| && choices[calls..][0] == choices[calls]
  {
  }

  /** The body of the loop. */
  method RoundOfShuffle<T>(choice: nat, begin: nat, end: nat, rangeWidth: nat, v: array<T>,
                           ghost was: seq<T>, ghost choices: seq<nat>, ghost goal: seq<T>)
    requires rangeWidth >= 2 && choices != [] && choice == choices[0]
    requires Shuffling(v[..], was, begin, end, rangeWidth, choices, goal)
    modifies v
    ensures Shuffling(v[..], was, begin, end, rangeWidth - 1, choices[1..], goal)
  {
    hide InBounds, Shuffled, Shuffling, Swap;
    ghost var before := v[..];
    ShufflingRound(before, was, begin, end, rangeWidth, choices, goal);
    var lastInRange := begin + rangeWidth - 1;
    var selected := begin + choice;
    SwapAt(v, selected, lastInRange);
  }

  /** The checks abort the program; here they make the result false.  `choices` are the answers
      of the random generator, in the order of the calls. */
  method ShuffleRange<T>(choices: seq<nat>, begin: int, end: int, v: array<T>) returns (inRange: bool)
    requires 0 <= begin <= end <= v.Length ==> InBounds(choices, end - begin)
    modifies v
    ensures inRange <==> 0 <= begin <= end <= v.Length
    ensures !inRange ==> v[..] == old(v[..])
    ensures inRange ==> v[..] == old(v[..])[..begin] + Shuffled(old(v[..])[begin..end], choices) + old(v[..])[end..]
  {
    var size := v.Length;
    if !(0 <= begin <= size) || !(begin <= end <= size) {
      return false;
    }
    hide InBounds, Shuffled, Shuffling, Swap;
    ghost var was := v[..];
    assert choices[0..] == choices;
    ghost var goal := Shuffled(was[begin..end], choices);
    var rangeWidth := end - begin;
    var calls := 0;
    ShufflingStart(was, begin, end, choices);
    while rangeWidth >= 2
      invariant 0 <= rangeWidth <= end - begin && calls <= |choices|
      invariant Shuffling(v[..], was, begin, end, rangeWidth, choices[calls..], goal)
    {
      MoreChoices(v[..], was, begin, end, rangeWidth, choices, calls, goal);
      RoundOfShuffle(choices[calls], begin, end, rangeWidth, v, was, choices[calls..], goal);
      assert choices[calls..][1..] == choices[calls + 1..];
      calls := calls + 1;
      rangeWidth := rangeWidth - 1;
    }
    ShufflingDone(v[..], was, begin, end, rangeWidth, choices[calls..], goal);
    return true;
  }

  lemma Swapped<T>(a: seq<T>, b: seq<T>, i: nat, j: nat)
    requires |a| == |b| && i < |a| && j < |a| && b[i] == a[j] && b[j] == a[i]
    requires forall k | 0 <= k < |a| && k != i && k != j :: b[k] == a[k]
    ensures b == Swap(a, i, j)
  {
  }

  // ---------------------------------------------------------------- what the shuffle does

  /** The first answer says which element goes last; the element that was last takes its place, and
      the others are shuffled by the rest of the answers. */
  lemma LastIsChosen<T>(s: seq<T>, choices: seq<nat>)
    requires InBounds(choices, |s|) && |s| >= 2
    ensures choices[0] < |s| && InBounds(choices[1..], |s| - 1)
    ensures var n := |s| - 1; var front := if choices[0] == n then s[..n] else s[..n][choices[0] := s[n]];
            Shuffled(s, choices) == Shuffled(front, choices[1..]) + [s[choices[0]]]
  {
    OneRound(s, choices);
    hide Shuffled;
    var n := |s| - 1;
    assert Swap(s, choices[0], n)[..n] == if choices[0] == n then s[..n] else s[..n][choices[0] := s[n]];
  }

  lemma SwapKeeps<T>(s: seq<T>, i: nat, j: nat)
    requires i < |s| && j < |s|
    ensures multiset(Swap(s, i, j)) == multiset(s)
  {
  }

  /** The shuffle permutes the elements. */
  lemma {:induction false} Permutes<T>(s: seq<T>, choices: seq<nat>)
    requires InBounds(choices, |s|)
    ensures multiset(Shuffled(s, choices)) == multiset(s)
    decreases |s|
  {
    if |s| >= 2 {
      var n := |s| - 1;
      var t := Swap(s, choices[0], n);
      RestInBounds(choices, |s|);
      SwapKeeps(s, choices[0], n);
      Permutes(t[..n], choices[1..]);
      assert t == t[..n] + [t[n]];
    }
  }

  ghost predicate Distinct<T>(s: seq<T>) {
    forall i, j | 0 <= i < j < |s| :: s[i] != s[j]
  }

  lemma SwapDistinct<T>(s: seq<T>, i: nat)
    requires i < |s| && Distinct(s)
    ensures Distinct(Swap(s, i, |s| - 1)) && Distinct(Swap(s, i, |s| - 1)[..|s| - 1]) && Swap(s, i, |s| - 1)[|s| - 1] == s[i]
  {
  }

  /** Different choices give different permutations. */
  lemma {:induction false} ChoicesUnique<T>(s: seq<T>, choices: seq<nat>, others: seq<nat>)
    requires Distinct(s) && InBounds(choices, |s|) && InBounds(others, |s|)
    requires Shuffled(s, choices) == Shuffled(s, others)
    ensures choices == others
    decreases |s|
  {
    if |s| >= 2 {
      var n := |s| - 1;
      RestInBounds(choices, |s|);
      RestInBounds(others, |s|);
      SwapDistinct(s, choices[0]);
      SwapDistinct(s, others[0]);
      var a, b := Shuffled(s, choices), Shuffled(s, others);
      assert a[n] == s[choices[0]] && b[n] == s[others[0]];
      var t := Swap(s, choices[0], n);
      assert a[..n] == Shuffled(t[..n], choices[1..]) && b[..n] == Shuffled(t[..n], others[1..]);
      ChoicesUnique(t[..n], choices[1..], others[1..]);
      assert choices == [choices[0]] + choices[1..] && others == [others[0]] + others[1..];
    }
  }

  /** Every permutation is the result of some choices. */
  lemma {:induction false} ChoicesExist<T>(s: seq<T>, p: seq<T>) returns (choices: seq<nat>)
    requires multiset(p) == multiset(s)
    ensures InBounds(choices, |s|) && Shuffled(s, choices) == p
    decreases |s|
  {
    SameSize(s, p);
    if |s| < 2 {
      choices := [];
      SameShort(s, p);
    } else {
      var n := |s| - 1;
      var c := IndexIn(s, p);
      var t := Swap(s, c, n);
      SameFront(s, p, c);
      var rest := ChoicesExist(t[..n], p[..n]);
      choices := [c] + rest;
      assert choices[1..] == rest;
      assert forall j | 0 < j < |choices| :: choices[j] == rest[j - 1];
      assert p == p[..n] + [p[n]];
    }
  }

  lemma SameSize<T>(s: seq<T>, p: seq<T>)
    requires multiset(p) == multiset(s)
    ensures |p| == |s|
  {
    assert |multiset(p)| == |p| && |multiset(s)| == |s|;
  }

  lemma SameShort<T>(s: seq<T>, p: seq<T>)
    requires multiset(p) == multiset(s) && |p| == |s| < 2
    ensures p == s
  {
    if |s| == 1 {
      assert s == [s[0]] && p == [p[0]];
      assert p[0] in multiset(p) && p[0] in multiset(s);
    }
  }

  lemma IndexIn<T>(s: seq<T>, p: seq<T>) returns (c: nat)
    requires multiset(p) == multiset(s) && p != []
    ensures c < |s| && s[c] == p[|p| - 1]
  {
    assert p[|p| - 1] in multiset(p) && p[|p| - 1] in multiset(s);
    c :| c < |s| && s[c] == p[|p| - 1];
  }

  lemma SameFront<T>(s: seq<T>, p: seq<T>, c: nat)
    requires multiset(p) == multiset(s) && |p| == |s| && c < |s| && s[c] == p[|p| - 1]
    ensures var n := |s| - 1; var t := Swap(s, c, n); multiset(p[..n]) == multiset(t[..n]) && t[n] == p[n]
  {
    var n := |s| - 1;
    var t := Swap(s, c, n);
    SwapKeeps(s, c, n);
    assert t[n] == s[c];
    hide Swap;
    WithoutLast(t);
    WithoutLast(p);
  }

  lemma WithoutLast<T>(s: seq<T>)
    requires s != []
    ensures multiset(s[..|s| - 1]) == multiset(s) - multiset{s[|s| - 1]}
  {
    assert s == s[..|s| - 1] + [s[|s| - 1]];
  }
}
