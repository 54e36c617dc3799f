/** The elements of a set of numbers in ascending order. */
module SortedSets {
  import opened Options

  predicate IsMax(m: int, numbers: set<int>) {
    m in numbers && forall n | n in numbers :: n <= m
  }

  lemma {:induction false} HasMax(numbers: set<int>)
    requires numbers != {}
    ensures exists m :: IsMax(m, numbers)
    decreases |numbers|
  {
    var n := Element(numbers);
    if numbers == {n} {
      assert IsMax(n, numbers);
    } else {
      HasMax(numbers - {n});
      var m :| IsMax(m, numbers - {n});
      OneMore(numbers, n, m);
    }
  }

  lemma OneMore(numbers: set<int>, n: int, m: int)
    requires n in numbers && IsMax(m, numbers - {n})
    ensures IsMax(if n > m then n else m, numbers)
  {
    assert forall k | k in numbers :: k == n || k in numbers - {n};
  }

  ghost function Max(numbers: set<int>): (m: int)
    requires numbers != {}
    ensures IsMax(m, numbers)
  {
    HasMax(numbers);
    var m :| IsMax(m, numbers);
    m
  }

  /** The numbers of a set in ascending order. */
  ghost function Ascending(numbers: set<int>): (sorted: seq<int>)
    decreases |numbers|
  {
    if numbers == {} then [] else Ascending(numbers - {Max(numbers)}) + [Max(numbers)]
  }

  lemma {:induction false} AscendingMeans(numbers: set<int>)
    ensures |Ascending(numbers)| == |numbers|
    ensures forall n :: n in Ascending(numbers) <==> n in numbers
    ensures forall i, j | 0 <= i < j < |numbers| :: Ascending(numbers)[i] < Ascending(numbers)[j]
    decreases |numbers|
  {
    if numbers != {} {
      var m := Max(numbers);
      var front := Ascending(numbers - {m});
      AscendingMeans(numbers - {m});
      assert forall i | 0 <= i < |front| :: front[i] in front;
    }
  }

  lemma AscendingMax(numbers: set<int>, m: int)
    requires IsMax(m, numbers)
    ensures Ascending(numbers) == Ascending(numbers - {m}) + [m]
  {
    assert Max(numbers) == m;
  }

  method SortedKeys(keys: set<int>) returns (sorted: seq<int>)
    ensures sorted == Ascending(keys)
  {
    sorted := [];
    var rest := keys;
    while rest != {}
      invariant Ascending(keys) == Ascending(rest) + sorted
      decreases |rest|
    {
      HasMax(rest);
      var m :| IsMax(m, rest);
      AscendingMax(rest, m);
      assert Ascending(rest - {m}) + [m] + sorted == Ascending(rest - {m}) + ([m] + sorted);
      sorted := [m] + sorted;
      rest := rest - {m};
    }
  }

  lemma AscendingSnoc(numbers: set<int>, last: int)
    requires forall n | n in numbers :: n < last
    ensures Ascending(numbers + {last}) == Ascending(numbers) + [last]
  {
    assert Max(numbers + {last}) == last;
    assert numbers + {last} - {last} == numbers;
  }

  lemma {:induction false} AtMost(numbers: set<int>, bound: nat)
    requires forall n | n in numbers :: 0 <= n < bound
    ensures |numbers| <= bound
    decreases bound
  {
    if bound == 0 {
      assert forall n :: n !in numbers;
    } else {
      AtMost(numbers - {bound - 1}, bound - 1);
    }
  }

  lemma {:induction false} AtLeast(numbers: set<int>, bound: nat)
    requires forall n | 0 <= n < bound :: n in numbers
    ensures |numbers| >= bound
    decreases bound
  {
    if bound > 0 {
      AtLeast(numbers - {bound - 1}, bound - 1);
    }
  }
}
