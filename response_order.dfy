/** `responses.sort((a, b) => a.id - b.id)`: the responses in ascending order of id. */
module ResponseOrder {
  import opened Engines

  /** Responses in ascending order of id. */
  predicate SortedById(rs: seq<Response>) {
    forall i, j :: 0 <= i < j < |rs| ==> rs[i].id <= rs[j].id
  }

  /** Neighbours in order: the cheaper form of `SortedById` that the sort maintains. */
  predicate NeighboursInOrder(rs: seq<Response>) {
    forall k :: 0 < k < |rs| ==> rs[k - 1].id <= rs[k].id
  }

  /** Neighbours in order put the whole sequence in order. */
  lemma {:induction false} NeighboursSorted(rs: seq<Response>)
    requires NeighboursInOrder(rs)
    ensures SortedById(rs)
    decreases |rs|
  {
    if |rs| > 1 {
      var init := rs[..|rs| - 1];
      assert forall k :: 0 <= k < |init| ==> init[k] == rs[k];
      NeighboursSorted(init);
      forall i, j | 0 <= i < j < |rs| ensures rs[i].id <= rs[j].id {
        if j < |rs| - 1 {
          assert init[i] == rs[i] && init[j] == rs[j];
        } else if i < j - 1 {
          assert init[i] == rs[i] && init[j - 1] == rs[j - 1];
        }
      }
    }
  }

  /** `rs` with the neighbours at `k` and `k + 1` exchanged. */
  function Swap(rs: seq<Response>, k: nat): (r: seq<Response>)
    requires k + 1 < |rs|
    ensures |r| == |rs| && multiset(r) == multiset(rs)
  {
    rs[k := rs[k + 1]][k + 1 := rs[k]]
  }

  /** Exchanges the neighbours `a[k]` and `a[k + 1]`. */
  method Exchange(a: array<Response>, k: nat)
    requires k + 1 < a.Length
    modifies a
    ensures a[..] == Swap(old(a[..]), k)
  {
    a[k], a[k + 1] := a[k + 1], a[k];
  }

  /**
   * While `rs[j]` moves down into `rs[..i + 1]`: in order before `j` and
   * after it, and its two neighbours in order with each other.
   */
  predicate Inserting(rs: seq<Response>, i: nat, j: nat)
    requires j <= i < |rs|
  {
    && (forall k :: 0 < k < j ==> rs[k - 1].id <= rs[k].id)
    && (forall k :: j < k <= i ==> rs[k - 1].id <= rs[k].id)
    && (0 < j < i ==> rs[j - 1].id <= rs[j + 1].id)
  }

  /** Exchanging `rs[j]` with a larger left neighbour moves it one place down. */
  lemma InsertingStep(rs: seq<Response>, i: nat, j: nat)
    requires 0 < j <= i < |rs| && Inserting(rs, i, j) && rs[j - 1].id > rs[j].id
    ensures Inserting(Swap(rs, j - 1), i, j - 1)
  {
  }

  /** Once the left neighbour is no larger, `rs[..i + 1]` is in order. */
  lemma InsertingDone(rs: seq<Response>, i: nat, j: nat)
    requires j <= i < |rs| && Inserting(rs, i, j) && (j == 0 || rs[j - 1].id <= rs[j].id)
    ensures forall k :: 0 < k <= i ==> rs[k - 1].id <= rs[k].id
  {
  }

  /** `responses.sort((a, b) => a.id - b.id)`, as an insertion sort in place. */
  method SortById(a: array<Response>)
    modifies a
    ensures SortedById(a[..])
    ensures multiset(a[..]) == multiset(old(a[..]))
  {
    for i := 0 to a.Length
      invariant forall k :: 0 < k < i ==> a[k - 1].id <= a[k].id
      invariant multiset(a[..]) == multiset(old(a[..]))
    {
      Insert(a, i);
    }
    NeighboursSorted(a[..]);
  }

  /** Moves `a[i]` down into the ordered prefix `a[..i]`, so that `a[..i + 1]` is in order. */
  method Insert(a: array<Response>, i: nat)
    requires i < a.Length
    requires forall k :: 0 < k < i ==> a[k - 1].id <= a[k].id
    modifies a
    ensures forall k :: 0 < k <= i ==> a[k - 1].id <= a[k].id
    ensures multiset(a[..]) == multiset(old(a[..]))
  {
    var j := i;
    while j > 0 && a[j - 1].id > a[j].id
      invariant 0 <= j <= i
      invariant Inserting(a[..], i, j)
      invariant multiset(a[..]) == multiset(old(a[..]))
    {
      InsertingStep(a[..], i, j);
      Exchange(a, j - 1);
      j := j - 1;
    }
    InsertingDone(a[..], i, j);
  }
}
