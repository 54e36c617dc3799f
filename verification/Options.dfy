/** A value that may be missing, and filtering in list order. */
module Options {

  datatype Option<+T> = None | Some(value: T)

  function Filter<T(!new)>(keep: T -> bool, items: seq<T>): (kept: seq<T>)
    ensures forall item :: item in kept <==> item in items && keep(item)
  {
    if |items| == 0 then []
    else
      var rest := Filter(keep, items[1..]);
      assert forall item :: item in items <==> item == items[0] || item in items[1..];
      if keep(items[0]) then [items[0]] + rest else rest
  }

  /** The first item to match, as `find` answers. */
  function First<T(!new)>(matches: T -> bool, items: seq<T>): (found: Option<T>)
    ensures found.Some? ==> found.value in items && matches(found.value)
    ensures found.None? ==> forall item | item in items :: !matches(item)
  {
    if |items| == 0 then None
    else if matches(items[0]) then Some(items[0])
    else First(matches, items[1..])
  }

  lemma Element<T>(items: set<T>) returns (item: T)
    requires items != {}
    ensures item in items
  {
    item :| item in items;
  }

  lemma {:induction false} FilterSnoc<T(!new)>(keep: T -> bool, items: seq<T>, last: T)
    ensures Filter(keep, items + [last]) == Filter(keep, items) + if keep(last) then [last] else []
    decreases |items|
  {
    if |items| == 0 {
      assert items + [last] == [last];
    } else {
      assert (items + [last])[1..] == items[1..] + [last];
      FilterSnoc(keep, items[1..], last);
    }
  }

  lemma SubsetSize<T>(small: set<T>, large: set<T>)
    requires small <= large
    ensures |small| <= |large|
  {
    assert large == small + (large - small);
  }
}
