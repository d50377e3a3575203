/** Singly linked lists spelled out as sequences of the places they visit. */
module Lists {
  import opened Options

  function First<T>(list: seq<T>): Option<T> {
    if list == [] then None else Some(list[0])
  }

  /** What the element at `k` links to: the one after it. */
  function Link<T>(list: seq<T>, k: nat): Option<T>
    requires k < |list|
  {
    First(list[k + 1..])
  }

  ghost predicate Distinct<T>(list: seq<T>) {
    forall i, j | 0 <= i < j < |list| :: list[i] != list[j]
  }

  /** Pushing an element leaves every older link as it was. */
  lemma LinksPushed<T>(list: seq<T>, x: T)
    ensures Link([x] + list, 0) == First(list) && First([x] + list) == Some(x)
    ensures forall k | 0 <= k < |list| :: Link([x] + list, k + 1) == Link(list, k)
    ensures forall k | 0 < k < |list| + 1 :: Link([x] + list, k) == Link(list, k - 1) && ([x] + list)[k] == list[k - 1]
  {
    assert ([x] + list)[1..] == list;
    forall k | 0 <= k < |list| ensures Link([x] + list, k + 1) == Link(list, k) {
      assert ([x] + list)[k + 2..] == list[k + 1..];
    }
  }

  lemma DistinctPushed<T>(list: seq<T>, x: T)
    requires Distinct(list) && x !in list
    ensures Distinct([x] + list)
  {
  }
}
