/** Python list behaviour the game relies on: `list.remove`, and the loop
    `for x in xs: ... if <x is done>: xs.remove(x)` that removes from the
    list it is iterating. Python's list iterator walks by index, so after a
    removal the element that moved into the current slot is not visited:
    the element right after each removed one is skipped, and stays in the
    list even when it is done too. */
module Lists {

  /** `xs.remove(x)`: the first occurrence of x leaves the list. Python
      raises ValueError when x is missing; the game's loops only remove an
      element they have just read from the list. */
  function RemoveFirst<T(==)>(xs: seq<T>, x: T): (r: seq<T>)
    requires x in xs
    ensures |r| == |xs| - 1
    ensures xs[0] == x ==> r == xs[1..]
  {
    if xs[0] == x then xs[1..]
    else [xs[0]] + RemoveFirst(xs[1..], x)
  }

  /** Exactly one occurrence of x leaves the list. */
  lemma {:induction false} RemoveFirstCount<T>(xs: seq<T>, x: T)
    requires x in xs
    ensures multiset(RemoveFirst(xs, x)) == multiset(xs) - multiset{x}
  {
    assert xs == [xs[0]] + xs[1..];
    if xs[0] != x {
      RemoveFirstCount(xs[1..], x);
    }
  }

  /** Removing the first occurrence of an element that occurs only at index
      i removes exactly index i. */
  lemma RemoveFirstAt<T>(xs: seq<T>, i: nat)
    requires i < |xs|
    requires xs[i] !in xs[..i]
    ensures RemoveFirst(xs, xs[i]) == xs[..i] + xs[i + 1..]
  {
    if i > 0 {
      assert xs[..i] == [xs[0]] + xs[1..i];
      assert xs[1..][..i - 1] == xs[1..i];
      RemoveFirstAt(xs[1..], i - 1);
      assert xs[1..][i - 1..] == xs[i..];
      assert xs[1..][..i - 1] + xs[1..][i..] == xs[1..i] + xs[i + 1..];
    }
  }

  /** What the loop leaves of xs when drop says, for each element, whether it
      is removed once the loop visits it. */
  function Sweep<T>(xs: seq<T>, drop: seq<bool>): seq<T>
    requires |drop| == |xs|
    decreases |xs|
  {
    if |xs| == 0 then []
    else if !drop[0] then [xs[0]] + Sweep(xs[1..], drop[1..])
    else if |xs| == 1 then []
    else [xs[1]] + Sweep(xs[2..], drop[2..])
  }

  /** The loop only removes: what it leaves is no longer than the list and
      holds no element more often than the list did. */
  lemma {:induction false} SweepShrinks<T>(xs: seq<T>, drop: seq<bool>)
    requires |drop| == |xs|
    ensures |Sweep(xs, drop)| <= |xs|
    ensures multiset(Sweep(xs, drop)) <= multiset(xs)
    decreases |xs|
  {
    if |xs| == 0 {
    } else if !drop[0] {
      SweepShrinks(xs[1..], drop[1..]);
      assert xs == [xs[0]] + xs[1..];
    } else if |xs| > 1 {
      SweepShrinks(xs[2..], drop[2..]);
      assert xs == [xs[0]] + [xs[1]] + xs[2..];
    }
  }

  /** Whether the loop removes element k: it is to be dropped and the loop
      visits it, which it does unless element k - 1 was removed. */
  predicate Removed(drop: seq<bool>, k: nat)
    requires k < |drop|
  {
    drop[k] && (k == 0 || !Removed(drop, k - 1))
  }

  /** Whether the loop visits element k: unless element k - 1 was removed,
      which moves element k into the slot the loop has just read. */
  predicate Visited(drop: seq<bool>, k: nat)
    requires k < |drop|
  {
    k == 0 || !Removed(drop, k - 1)
  }

  /** The elements of xs whose flag in gone is false, in order: what a loop
      that removes exactly the flagged elements leaves. */
  function Keep<T>(xs: seq<T>, gone: seq<bool>): (r: seq<T>)
    requires |gone| == |xs|
    ensures |r| <= |xs|
    ensures forall k :: 0 <= k < |xs| && !gone[k] ==> xs[k] in r
    ensures forall x :: x in r ==> x in xs
  {
    if |xs| == 0 then []
    else
      var rest := Keep(xs[1..], gone[1..]);
      assert forall k :: 1 <= k < |xs| ==> xs[k] == xs[1..][k - 1] && gone[k] == gone[1..][k - 1];
      if gone[0] then rest else [xs[0]] + rest
  }

  /** The removal flags of the loop, element by element. */
  function RemovedFlags(drop: seq<bool>): (r: seq<bool>)
    ensures |r| == |drop|
    ensures forall k :: 0 <= k < |drop| ==> r[k] == Removed(drop, k)
  {
    seq(|drop|, k requires 0 <= k < |drop| => Removed(drop, k))
  }

  /** Removed, read after a prefix of flags whose last element was not
      removed, starts afresh. */
  lemma {:induction false} RemovedShift(drop: seq<bool>, j: nat, k: nat)
    requires j <= k < |drop|
    requires j == 0 || !Removed(drop, j - 1)
    ensures Removed(drop, k) == Removed(drop[j..], k - j)
  {
    assert drop[j..][k - j] == drop[k];
    if k > j {
      RemovedShift(drop, j, k - 1);
    }
  }

  /** The loop removes exactly the Removed elements: the sweep is a clean
      filter by RemovedFlags. */
  lemma {:induction false} SweepIsKeep<T>(xs: seq<T>, drop: seq<bool>)
    requires |drop| == |xs|
    ensures Sweep(xs, drop) == Keep(xs, RemovedFlags(drop))
    decreases |xs|
  {
    if |xs| == 0 {
    } else if !drop[0] || |xs| == 1 {
      var tail := RemovedFlags(drop)[1..];
      forall k | 0 <= k < |xs| - 1
        ensures tail[k] == RemovedFlags(drop[1..])[k]
      {
        RemovedShift(drop, 1, k + 1);
      }
      assert tail == RemovedFlags(drop[1..]);
      SweepIsKeep(xs[1..], drop[1..]);
    } else {
      var flags := RemovedFlags(drop);
      assert flags[0] && !flags[1];
      var tail := flags[2..];
      forall k | 0 <= k < |xs| - 2
        ensures tail[k] == RemovedFlags(drop[2..])[k]
      {
        RemovedShift(drop, 2, k + 2);
      }
      assert tail == RemovedFlags(drop[2..]);
      assert flags[1..][1..] == tail;
      assert xs[1..][1..] == xs[2..];
      SweepIsKeep(xs[2..], drop[2..]);
    }
  }

  /** An element right after a removed one is never removed, even when it
      is to be dropped. */
  lemma RemovedNotTwice(drop: seq<bool>, k: nat)
    requires k + 1 < |drop|
    ensures Removed(drop, k) ==> !Removed(drop, k + 1)
  {
  }

  /** With no two adjacent elements to drop, the loop removes exactly the
      elements to drop. */
  lemma {:induction false} SparseDropsRemoved(drop: seq<bool>, k: nat)
    requires k < |drop|
    requires forall i :: 0 <= i < |drop| - 1 ==> !(drop[i] && drop[i + 1])
    ensures Removed(drop, k) == drop[k]
  {
    if k > 0 {
      SparseDropsRemoved(drop, k - 1);
    }
  }

  /** Hence it then agrees with the clean filter. */
  lemma SweepSparse<T>(xs: seq<T>, drop: seq<bool>)
    requires |drop| == |xs|
    requires forall i :: 0 <= i < |drop| - 1 ==> !(drop[i] && drop[i + 1])
    ensures Sweep(xs, drop) == Keep(xs, drop)
  {
    SweepIsKeep(xs, drop);
    forall k | 0 <= k < |drop|
      ensures RemovedFlags(drop)[k] == drop[k]
    {
      SparseDropsRemoved(drop, k);
    }
    assert RemovedFlags(drop) == drop;
  }

  /** When nothing is to be dropped the loop changes nothing. */
  lemma {:induction false} SweepNoDrops<T>(xs: seq<T>, drop: seq<bool>)
    requires |drop| == |xs|
    requires forall i :: 0 <= i < |drop| ==> !drop[i]
    ensures Sweep(xs, drop) == xs
    decreases |xs|
  {
    if |xs| > 0 {
      SweepNoDrops(xs[1..], drop[1..]);
    }
  }

  /** Two adjacent elements that are both done: only the first goes. */
  lemma SweepAdjacent<T>(a: T, b: T)
    ensures Sweep([a, b], [true, true]) == [b]
    ensures Keep([a, b], [true, true]) == []
  {
  }

  /** One step of the index loop, for the loop invariants of its callers:
      at original index j, the element is either kept, or removed and its
      successor kept unvisited. */
  lemma SweepStep<T>(xs: seq<T>, drop: seq<bool>, j: nat)
    requires |drop| == |xs| && j < |xs|
    ensures !drop[j] ==> Sweep(xs[j..], drop[j..]) == [xs[j]] + Sweep(xs[j + 1..], drop[j + 1..])
    ensures drop[j] && j + 1 == |xs| ==> Sweep(xs[j..], drop[j..]) == []
    ensures drop[j] && j + 1 < |xs| ==>
              Sweep(xs[j..], drop[j..]) == [xs[j + 1]] + Sweep(xs[j + 2..], drop[j + 2..])
  {
    assert xs[j..][1..] == xs[j + 1..] && drop[j..][1..] == drop[j + 1..];
    if j + 1 < |xs| {
      assert xs[j..][2..] == xs[j + 2..] && drop[j..][2..] == drop[j + 2..];
    }
  }

  /** done is a subsequence of xs[..j]. */
  ghost predicate Subseq<T>(done: seq<T>, xs: seq<T>, j: nat)
    requires j <= |xs|
    decreases j
  {
    done == []
    || (j > 0 && ((done[|done| - 1] == xs[j - 1] && Subseq(done[..|done| - 1], xs, j - 1))
                  || Subseq(done, xs, j - 1)))
  }

  lemma {:induction false} SubExtend<T>(done: seq<T>, xs: seq<T>, j: nat, j': nat)
    requires j <= j' <= |xs| && Subseq(done, xs, j)
    ensures Subseq(done, xs, j')
    decreases j' - j
  {
    if j < j' {
      SubExtend(done, xs, j, j' - 1);
    }
  }

  /** Appending xs[k], for k at or after j, gives a subsequence of xs[..k + 1]. */
  lemma SubGrows<T>(done: seq<T>, xs: seq<T>, j: nat, k: nat)
    requires j <= k < |xs| && Subseq(done, xs, j)
    ensures Subseq(done + [xs[k]], xs, k + 1)
  {
    SubExtend(done, xs, j, k);
    assert (done + [xs[k]])[..|done|] == done;
  }

  /** A subsequence comes with the increasing positions it is taken from. */
  lemma {:induction false} SubWithin<T>(done: seq<T>, xs: seq<T>, j: nat)
    requires j <= |xs| && Subseq(done, xs, j)
    ensures exists idx :: Within(xs, done, idx, j)
    decreases j
  {
    if done == [] {
      assert Within<T>(xs, [], [], j);
    } else if done[|done| - 1] == xs[j - 1] && Subseq(done[..|done| - 1], xs, j - 1) {
      var init := done[..|done| - 1];
      SubWithin(init, xs, j - 1);
      var idx :| Within(xs, init, idx, j - 1);
      WithinGrows(xs, init, idx, j - 1, j - 1, j);
      assert init + [xs[j - 1]] == done;
    } else {
      SubWithin(done, xs, j - 1);
      var idx :| Within(xs, done, idx, j - 1);
      assert Within(xs, done, idx, j);
    }
  }

  /** done is a subsequence of xs before index j: idx says, in increasing
      order, where each of its elements comes from. */
  ghost predicate Within<T>(xs: seq<T>, done: seq<T>, idx: seq<nat>, j: nat)
  {
    |idx| == |done|
    && (forall p {:trigger idx[p]} :: 0 <= p < |done| ==> idx[p] < j && idx[p] < |xs| && done[p] == xs[idx[p]])
    && forall p, q :: 0 <= p < q < |idx| ==> idx[p] < idx[q]
  }

  /** Appending xs[k] for some k in [j, j') keeps done within the prefix. */
  lemma WithinGrows<T>(xs: seq<T>, done: seq<T>, idx: seq<nat>, j: nat, k: nat, j': nat)
    requires Within(xs, done, idx, j) && j <= k < j' && k < |xs|
    ensures Within(xs, done + [xs[k]], idx + [k], j')
  {
  }

  lemma AppendAssoc<T>(a: seq<T>, b: seq<T>, c: seq<T>)
    ensures a + (b + c) == (a + b) + c
  {
  }

  /** The list bookkeeping of one step of the removal loop, for the
      invariants of its callers. Before the step the list is done + xs[j..]
      and the loop is at done's end, looking at xs[j]. After it the list is
      that with xs[j] gone if it is dropped, and it equals done' + xs[j'..]:
      a kept xs[j] joins done, and a dropped one lets xs[j + 1] slide into
      its slot, which the loop then steps over. */
  lemma SweepAdvance<T>(xs: seq<T>, drop: seq<bool>, done: seq<T>, j: nat)
    returns (done': seq<T>, j': nat)
    requires |drop| == |xs| && j < |xs|
    requires Sweep(xs, drop) == done + Sweep(xs[j..], drop[j..])
    requires Visited(drop, j)
    requires Subseq(done, xs, j)
    ensures j < j' <= |xs|
    ensures Sweep(xs, drop) == done' + Sweep(xs[j'..], drop[j'..])
    ensures j' < |xs| ==> Visited(drop, j')
    ensures Subseq(done', xs, j')
    ensures !drop[j] ==> done + xs[j..] == done' + xs[j'..] && j' == j + 1 && |done'| == |done| + 1
    ensures drop[j] ==> done + xs[j + 1..] == done' + xs[j'..]
    ensures drop[j] && j + 1 < |xs| ==> j' == j + 2 && |done'| == |done| + 1 && !Visited(drop, j + 1)
    ensures drop[j] && j + 1 == |xs| ==> j' == |xs| && done' == done
  {
    if !drop[j] {
      done', j' := done + [xs[j]], j + 1;
      KeepStep(xs, drop, done, j);
      SubGrows(done, xs, j, j);
    } else if j + 1 < |xs| {
      done', j' := done + [xs[j + 1]], j + 2;
      SkipStep(xs, drop, done, j);
      SubGrows(done, xs, j, j + 1);
    } else {
      done', j' := done, j + 1;
      LastStep(xs, drop, done, j);
      SubExtend(done, xs, j, j + 1);
    }
  }

  /** SweepAdvance when xs[j] is kept. */
  lemma KeepStep<T>(xs: seq<T>, drop: seq<bool>, done: seq<T>, j: nat)
    requires |drop| == |xs| && j < |xs| && !drop[j]
    requires Sweep(xs, drop) == done + Sweep(xs[j..], drop[j..])
    ensures Sweep(xs, drop) == done + [xs[j]] + Sweep(xs[j + 1..], drop[j + 1..])
    ensures j + 1 < |xs| ==> Visited(drop, j + 1)
    ensures done + xs[j..] == done + [xs[j]] + xs[j + 1..]
  {
    assert Sweep(xs, drop) == done + [xs[j]] + Sweep(xs[j + 1..], drop[j + 1..]) by {
      SweepStep(xs, drop, j);
      AppendAssoc(done, [xs[j]], Sweep(xs[j + 1..], drop[j + 1..]));
    }
    assert !Removed(drop, j);
    assert done + xs[j..] == done + [xs[j]] + xs[j + 1..] by {
      assert xs[j..] == [xs[j]] + xs[j + 1..];
      AppendAssoc(done, [xs[j]], xs[j + 1..]);
    }
  }

  /** SweepAdvance when xs[j] is removed and xs[j + 1], sliding into its
      slot, is stepped over. */
  lemma SkipStep<T>(xs: seq<T>, drop: seq<bool>, done: seq<T>, j: nat)
    requires |drop| == |xs| && j + 1 < |xs| && drop[j]
    requires Sweep(xs, drop) == done + Sweep(xs[j..], drop[j..])
    requires Visited(drop, j)
    ensures Sweep(xs, drop) == done + [xs[j + 1]] + Sweep(xs[j + 2..], drop[j + 2..])
    ensures !Visited(drop, j + 1)
    ensures j + 2 < |xs| ==> Visited(drop, j + 2)
    ensures done + xs[j + 1..] == done + [xs[j + 1]] + xs[j + 2..]
  {
    assert Sweep(xs, drop) == done + [xs[j + 1]] + Sweep(xs[j + 2..], drop[j + 2..]) by {
      SweepStep(xs, drop, j);
      AppendAssoc(done, [xs[j + 1]], Sweep(xs[j + 2..], drop[j + 2..]));
    }
    assert !Visited(drop, j + 1) && (j + 2 < |xs| ==> Visited(drop, j + 2)) by {
      assert Removed(drop, j);
      assert !Removed(drop, j + 1);
    }
    assert done + xs[j + 1..] == done + [xs[j + 1]] + xs[j + 2..] by {
      assert xs[j + 1..] == [xs[j + 1]] + xs[j + 2..];
      AppendAssoc(done, [xs[j + 1]], xs[j + 2..]);
    }
  }

  /** SweepAdvance when the last element is removed. */
  lemma LastStep<T>(xs: seq<T>, drop: seq<bool>, done: seq<T>, j: nat)
    requires |drop| == |xs| && j + 1 == |xs| && drop[j]
    requires Sweep(xs, drop) == done + Sweep(xs[j..], drop[j..])
    ensures Sweep(xs, drop) == done + Sweep(xs[j + 1..], drop[j + 1..])
    ensures done + xs[j + 1..] == done
  {
    SweepStep(xs, drop, j);
    assert xs[j + 1..] == [] && drop[j + 1..] == [];
  }

  /** xs from index j on, element by element; it is the slice xs[j..]
      (SuffixIsSlice). */
  function Suffix<T>(xs: seq<T>, j: nat): (r: seq<T>)
    requires j <= |xs|
    ensures |r| == |xs| - j
    decreases |xs| - j
  {
    if j == |xs| then [] else [xs[j]] + Suffix(xs, j + 1)
  }

  lemma {:induction false} SuffixIsSlice<T>(xs: seq<T>, j: nat)
    requires j <= |xs|
    ensures Suffix(xs, j) == xs[j..]
    decreases |xs| - j
  {
    if j < |xs| {
      SuffixIsSlice(xs, j + 1);
      assert xs[j..] == [xs[j]] + xs[j + 1..];
    }
  }

  /** The state of a loop that walks list items with a Python list
      iterator (index i) and removes the elements of xs whose drop flag is
      set: items is done followed by the elements of xs from j on, the loop
      is at done's end (or one past the end of items once the last element
      has gone), and done is what Sweep keeps of xs[..j]. */
  ghost predicate Sweeping<T>(xs: seq<T>, drop: seq<bool>, items: seq<T>, done: seq<T>, i: nat, j: nat)
  {
    |drop| == |xs| && j <= |xs|
    && items == done + Suffix(xs, j)
    && (i == |done| || (i == |done| + 1 && j == |xs|))
    && Subseq(done, xs, j)
    && Sweep(xs, drop) == done + Sweep(Suffix(xs, j), Suffix(drop, j))
    && (j < |xs| ==> Visited(drop, j))
  }

  /** Sweeping with the suffixes written as slices. */
  lemma SweepingSlices<T>(xs: seq<T>, drop: seq<bool>, items: seq<T>, done: seq<T>, i: nat, j: nat)
    requires |drop| == |xs| && j <= |xs|
    ensures Sweeping(xs, drop, items, done, i, j)
        <==> items == done + xs[j..]
             && (i == |done| || (i == |done| + 1 && j == |xs|))
             && Subseq(done, xs, j)
             && Sweep(xs, drop) == done + Sweep(xs[j..], drop[j..])
             && (j < |xs| ==> Visited(drop, j))
  {
    SuffixIsSlice(xs, j);
    SuffixIsSlice(drop, j);
  }

  lemma SweepingStart<T>(xs: seq<T>, drop: seq<bool>)
    requires |drop| == |xs|
    ensures Sweeping(xs, drop, xs, [], 0, 0)
  {
    SweepingSlices(xs, drop, xs, [], 0, 0);
    assert xs[0..] == xs && drop[0..] == drop;
  }

  /** While the loop is inside the list it looks at xs[j]. */
  lemma SweepingAt<T>(xs: seq<T>, drop: seq<bool>, items: seq<T>, done: seq<T>, i: nat, j: nat)
    requires Sweeping(xs, drop, items, done, i, j) && i < |items|
    ensures j < |xs| && i == |done| && items[i] == xs[j]
  {
    SweepingSlices(xs, drop, items, done, i, j);
  }

  /** One step of the loop: xs[j] is removed when its flag is set, and the
      loop moves one index on. */
  lemma SweepingStep<T>(xs: seq<T>, drop: seq<bool>, items: seq<T>, done: seq<T>, i: nat, j: nat)
    returns (done': seq<T>, j': nat)
    requires Sweeping(xs, drop, items, done, i, j) && i < |items|
    requires xs[j] !in done
    ensures xs[j] in items
    ensures Sweeping(xs, drop, if drop[j] then RemoveFirst(items, xs[j]) else items, done', i + 1, j')
    ensures Visited(drop, j)
    ensures forall k :: 0 <= k < |xs| ==> (k < j' && Visited(drop, k) <==> k <= j && Visited(drop, k))
  {
    SweepingAt(xs, drop, items, done, i, j);
    SweepingSlices(xs, drop, items, done, i, j);
    done', j' := SweepAdvance(xs, drop, done, j);
    var items' := if drop[j] then RemoveFirst(items, xs[j]) else items;
    if drop[j] {
      assert RemoveFirst(items, xs[j]) == done + xs[j + 1..] by {
        assert items[..i] == done && items[i + 1..] == xs[j + 1..];
        RemoveFirstAt(items, i);
      }
    }
    SweepingSlices(xs, drop, items', done', i + 1, j');
    VisitedBefore(drop, j, j');
  }

  /** After a step from j to j', the visited indices below j' are those up
      to j. */
  lemma VisitedBefore(drop: seq<bool>, j: nat, j': nat)
    requires j < |drop| && Visited(drop, j)
    requires j' == j + 1 || (j' == j + 2 && j + 1 < |drop| && !Visited(drop, j + 1))
    ensures forall k :: 0 <= k < |drop| ==> (k < j' && Visited(drop, k) <==> k <= j && Visited(drop, k))
  {
  }

  /** When the loop leaves the list, it holds what Sweep keeps. */
  lemma SweepingDone<T>(xs: seq<T>, drop: seq<bool>, items: seq<T>, done: seq<T>, i: nat, j: nat)
    requires Sweeping(xs, drop, items, done, i, j) && i >= |items|
    ensures items == done == Sweep(xs, drop) && Subseq(done, xs, j)
  {
    SweepingSlices(xs, drop, items, done, i, j);
    assert j == |xs|;
    assert xs[j..] == [] && drop[j..] == [];
  }

  /** No element occurs twice: the first is not among the rest, and the
      rest has no repeats either (DistinctPairwise). */
  predicate Distinct<T(==)>(xs: seq<T>)
  {
    xs == [] || (xs[0] !in xs[1..] && Distinct(xs[1..]))
  }

  lemma {:induction false} DistinctPairwise<T>(xs: seq<T>)
    requires Distinct(xs)
    ensures forall i, j :: 0 <= i < j < |xs| ==> xs[i] != xs[j]
  {
    if xs != [] {
      DistinctPairwise(xs[1..]);
      forall i, j | 0 <= i < j < |xs| ensures xs[i] != xs[j] {
        if i == 0 {
          assert xs[j] == xs[1..][j - 1];
        } else {
          assert xs[i] == xs[1..][i - 1] && xs[j] == xs[1..][j - 1];
        }
      }
    }
  }

  /** In a list without repeats, the element the loop reaches next is not
      among those it has kept. */
  lemma DistinctNotKept<T>(xs: seq<T>, done: seq<T>, j: nat)
    requires Distinct(xs) && j < |xs| && Subseq(done, xs, j)
    ensures xs[j] !in done
  {
    DistinctPairwise(xs);
    SubWithin(done, xs, j);
    var idx :| Within(xs, done, idx, j);
    forall p | 0 <= p < |done| ensures done[p] != xs[j] {
      assert done[p] == xs[idx[p]] && idx[p] < j;
    }
  }

  /** A list holding no element more often than another holds only its
      elements; the index in the other list of the element at index i. */
  lemma SourceIndex<T>(xs: seq<T>, ys: seq<T>, i: nat) returns (k: nat)
    requires multiset(xs) <= multiset(ys) && i < |xs|
    ensures k < |ys| && ys[k] == xs[i]
  {
    assert xs[i] in multiset(xs);
    k :| 0 <= k < |ys| && ys[k] == xs[i];
  }

  lemma SubMultisetWithin<T>(xs: seq<T>, ys: seq<T>)
    requires multiset(xs) <= multiset(ys)
    ensures forall k :: 0 <= k < |xs| ==> xs[k] in ys
  {
    forall k | 0 <= k < |xs| ensures xs[k] in ys {
      assert xs[k] in multiset(xs);
    }
  }

}
