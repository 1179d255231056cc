/** Optional values and results that may be errors. */
module Wrappers {
  datatype Option<+T> = None | Some(value: T)

  datatype Result<+T, +E> = Ok(value: T) | Err(error: E)
}

/** Regrouping concatenations, and what it means to filter a sequence. */
module Seqs {
  /** `at` are the ascending positions of exactly the elements kept. */
  ghost predicate KeptAt<S(!new)>(s: seq<S>, keep: S -> bool, at: seq<nat>) {
    && (forall i :: 0 <= i < |at| ==> at[i] < |s| && keep(s[at[i]]))
    && (forall i, j :: 0 <= i < j < |at| ==> at[i] < at[j])
    && (forall k: nat :: k < |s| && keep(s[k]) ==> k in at)
  }

  /** `out` are the views of the elements at those positions. */
  ghost predicate ShownAt<S, T>(s: seq<S>, view: S -> T, at: seq<nat>, out: seq<T>) {
    |at| == |out| && forall i :: 0 <= i < |at| ==> at[i] < |s| && out[i] == view(s[at[i]])
  }

  /** `out` shows the kept elements of `s`, each once and in order. */
  ghost predicate Picks<S(!new), T>(s: seq<S>, keep: S -> bool, view: S -> T, out: seq<T>) {
    exists at: seq<nat> :: KeptAt(s, keep, at) && ShownAt(s, view, at, out)
  }

  lemma PicksNone<S(!new), T>(keep: S -> bool, view: S -> T)
    ensures Picks([], keep, view, [])
  {
    assert KeptAt([], keep, []) && ShownAt([], view, [], []);
  }

  lemma KeptSnoc<S(!new)>(s: seq<S>, keep: S -> bool, at: seq<nat>)
    requires s != [] && KeptAt(s[..|s| - 1], keep, at)
    ensures keep(s[|s| - 1]) ==> KeptAt(s, keep, at + [|s| - 1])
    ensures !keep(s[|s| - 1]) ==> KeptAt(s, keep, at)
  {
    var n := |s| - 1;
    assert forall k: nat :: k < n ==> s[..n][k] == s[k];
    if keep(s[n]) {
      var more: seq<nat> := at + [n];
      forall k: nat | k < |s| && keep(s[k]) ensures k in more {
        assert k == n ==> more[|at|] == k;
        assert k < n ==> k in at;
      }
    }
  }

  lemma ShownSnoc<S, T>(s: seq<S>, view: S -> T, at: seq<nat>, out: seq<T>)
    requires s != [] && ShownAt(s[..|s| - 1], view, at, out)
    ensures ShownAt(s, view, at + [|s| - 1], out + [view(s[|s| - 1])]) && ShownAt(s, view, at, out)
  {
    assert forall k: nat :: k < |s| - 1 ==> s[..|s| - 1][k] == s[k];
  }

  lemma PicksSnoc<S(!new), T>(s: seq<S>, keep: S -> bool, view: S -> T, out: seq<T>)
    requires s != [] && Picks(s[..|s| - 1], keep, view, out)
    ensures Picks(s, keep, view, if keep(s[|s| - 1]) then out + [view(s[|s| - 1])] else out)
  {
    var n := |s| - 1;
    var at: seq<nat> :| KeptAt(s[..n], keep, at) && ShownAt(s[..n], view, at, out);
    KeptSnoc(s, keep, at);
    ShownSnoc(s, view, at, out);
  }

  lemma Assoc<T>(a: seq<T>, b: seq<T>, c: seq<T>)
    ensures a + (b + c) == a + b + c
  {
  }

  lemma LastApart<T>(a: seq<T>, b: seq<T>)
    requires b != []
    ensures a + b == (a + b[..|b| - 1]) + [b[|b| - 1]] && b == b[..|b| - 1] + [b[|b| - 1]]
  {
  }
}

/** Searching and splitting strings. */
module Text {
  import Seqs

  /** Position of the first `c` in `s`, or `|s|` when there is none. */
  function IndexOf(s: string, c: char): (i: nat)
    ensures i <= |s|
    ensures c !in s[..i]
    ensures i < |s| ==> s[i] == c
  {
    if s == [] || s[0] == c then 0 else 1 + IndexOf(s[1..], c)
  }

  lemma IndexOfIs(s: string, c: char, i: nat)
    requires i < |s| && s[i] == c && c !in s[..i]
    ensures IndexOf(s, c) == i
  {
    var k := IndexOf(s, c);
    assert s[i] !in s[..k];
    assert s[i] !in s[..i];
  }

  /** Position of the last `c` in `s`, or `|s|` when there is none. */
  function LastIndexOf(s: string, c: char): (i: nat)
    ensures i <= |s|
    ensures i < |s| ==> s[i] == c && c !in s[i + 1..]
  {
    if s == [] then 0
    else
      var rest := LastIndexOf(s[1..], c);
      if rest < |s| - 1 then rest + 1 else if s[0] == c && c !in s[1..] then 0 else |s|
  }

  lemma LastIndexOfIs(s: string, c: char, i: nat)
    requires i < |s| && s[i] == c && c !in s[i + 1..]
    ensures LastIndexOf(s, c) == i
  {
    if i == 0 {
      assert s == [s[0]] + s[1..];
    } else {
      assert s[1..][i - 1 + 1..] == s[i + 1..];
      LastIndexOfIs(s[1..], c, i - 1);
    }
  }

  /** The fields of `s` between separators `c`; a string without `c` is one field. */
  function Split(s: string, c: char): (fields: seq<string>)
    ensures |fields| > 0
  {
    var i := IndexOf(s, c);
    if i == |s| then [s] else [s[..i]] + Split(s[i + 1..], c)
  }

  lemma SplitNone(s: string, c: char)
    requires c !in s
    ensures Split(s, c) == [s]
  {
    assert IndexOf(s, c) == |s|;
  }

  lemma SplitAt(s: string, c: char, i: nat)
    requires i < |s| && s[i] == c && c !in s[..i]
    ensures Split(s, c) == [s[..i]] + Split(s[i + 1..], c)
  {
    IndexOfIs(s, c, i);
  }

  lemma SplitPair(s: string, c: char, last: string)
    requires c !in s && c !in last
    ensures Split(s + [c] + last, c) == [s, last]
  {
    var whole := s + [c] + last;
    assert whole[..|s|] == s && whole[|s| + 1..] == last;
    SplitAt(whole, c, |s|);
    SplitNone(last, c);
  }

  lemma SliceBeyond(s: string, c: char, last: string, i: nat)
    requires i < |s|
    ensures (s + [c] + last)[..i] == s[..i] && (s + [c] + last)[i + 1..] == s[i + 1..] + [c] + last
  {
  }

  /** Appending a separator and a separator-free field appends exactly that field. */
  lemma {:induction false} SplitSnoc(s: string, c: char, last: string)
    requires c !in last
    ensures Split(s + [c] + last, c) == Split(s, c) + [last]
  {
    var i := IndexOf(s, c);
    if i == |s| {
      assert s[..i] == s;
      SplitPair(s, c, last);
      SplitNone(s, c);
    } else {
      SliceBeyond(s, c, last, i);
      SplitAt(s + [c] + last, c, i);
      SplitAt(s, c, i);
      SplitSnoc(s[i + 1..], c, last);
      Seqs.Assoc([s[..i]], Split(s[i + 1..], c), [last]);
    }
  }
}

/** Decimal text as produced by the `%d` verb. */
module Decimal {
  predicate IsDigit(c: char) { '0' <= c <= '9' }

  function Digit(d: nat): (c: char)
    requires d < 10
    ensures IsDigit(c)
  {
    '0' + d as char
  }

  predicate AllDigits(s: string) { forall k :: 0 <= k < |s| ==> IsDigit(s[k]) }

  function Format(n: nat): (s: string)
    ensures |s| > 0 && AllDigits(s)
  {
    if n < 10 then [Digit(n)] else Format(n / 10) + [Digit(n % 10)]
  }

  function FormatInt(n: int): (s: string)
    ensures |s| > 0
    ensures forall k :: 0 <= k < |s| ==> IsDigit(s[k]) || s[k] == '-'
  {
    if n < 0 then "-" + Format(-n) else Format(n)
  }

  /** Value of a digit string, the reader's side of `Format`. */
  function Value(s: string): nat
    requires AllDigits(s)
  {
    if s == [] then 0
    else
      var last := s[|s| - 1];
      assert IsDigit(last);
      10 * Value(s[..|s| - 1]) + (last - '0') as nat
  }

  lemma {:induction false} FormatValue(n: nat)
    ensures Value(Format(n)) == n
  {
    if n >= 10 {
      var s := Format(n);
      assert s[..|s| - 1] == Format(n / 10);
      FormatValue(n / 10);
    }
  }

  lemma FormatInjective(m: nat, n: nat)
    requires Format(m) == Format(n)
    ensures m == n
  {
    FormatValue(m);
    FormatValue(n);
  }

  lemma FormatIntInjective(m: int, n: int)
    requires FormatInt(m) == FormatInt(n)
    ensures m == n
  {
    var s := FormatInt(m);
    if m < 0 {
      assert s[0] == '-' && s[1..] == Format(-m);
    } else {
      assert IsDigit(s[0]);
    }
    if n < 0 {
      assert s[0] == '-' && s[1..] == Format(-n);
    } else {
      assert IsDigit(s[0]);
    }
    if m < 0 {
      FormatInjective(-m, -n);
    } else {
      FormatInjective(m, n);
    }
  }

  lemma FormatExamples()
    ensures FormatInt(0) == "0" && FormatInt(10) == "10" && FormatInt(-305) == "-305"
  {
    assert Format(3) == "3";
    assert Format(30) == "30";
    assert Format(305) == "305";
  }
}
