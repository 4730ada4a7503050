/**
 The generation history: a most-recent-first list of past generations, capped
 at three entries, to which each successful generation prepends one item.
 */
module History {

  /** Maximum number of entries the history keeps. */
  const Capacity: nat := 3

  /** One past generation. `id` is the decimal clock reading taken when the
      entry was made and `timestamp` the creation time in milliseconds; both
      come from the platform clock and are taken as given. */
  datatype Item = Item(id: string, text: string, title: string, timestamp: int)

  function Min(a: int, b: int): int
  {
    if a <= b then a else b
  }

  /** The history update of a successful generation: the new item, followed by
      the first two entries of the old history. */
  function Prepend(item: Item, h: seq<Item>): (r: seq<Item>)
    ensures |r| == Min(Capacity, |h| + 1)
    ensures r[0] == item
    ensures r[1..] == h[..|r| - 1]
    ensures |h| < Capacity ==> r == [item] + h
  {
    [item] + h[..Min(Capacity - 1, |h|)]
  }

  /** `xs` in reverse order. */
  function Reverse<T>(xs: seq<T>): (r: seq<T>)
    ensures |r| == |xs|
    ensures forall i :: 0 <= i < |xs| ==> r[i] == xs[|xs| - 1 - i]
  {
    if xs == [] then [] else [xs[|xs| - 1]] + Reverse(xs[..|xs| - 1])
  }

  /** The history after the generations `items` (oldest first) have each been
      prepended, starting from an empty history. */
  function Replay(items: seq<Item>): (h: seq<Item>)
    ensures |h| <= Capacity
  {
    if items == [] then [] else Prepend(items[|items| - 1], Replay(items[..|items| - 1]))
  }

  /** The buffer keeps exactly the most recent `Capacity` generations, newest
      first, in the order they were made: the independent reference definition
      of what the history shows. */
  lemma {:induction false} ReplayKeepsMostRecent(items: seq<Item>)
    ensures Replay(items) == Reverse(items)[..Min(Capacity, |items|)]
  {
    if items != [] {
      var init := items[..|items| - 1];
      ReplayKeepsMostRecent(init);
      var rev := Reverse(items);
      assert rev == [items[|items| - 1]] + Reverse(init);
      var n := Min(Capacity, |items|);
      assert rev[..n] == [items[|items| - 1]] + Reverse(init)[..n - 1];
      assert Reverse(init)[..n - 1] == Reverse(init)[..Min(Capacity, |init|)][..n - 1];
    }
  }

  /** Once the buffer is full, a further generation evicts exactly the oldest
      entry and keeps the other two in order behind the new one. */
  lemma FullInsertEvictsOldest(item: Item, h: seq<Item>)
    requires |h| == Capacity
    ensures Prepend(item, h) == [item, h[0], h[1]]
    ensures |Prepend(item, h)| == |h|
  {
  }
}
