/** Shared helpers: an Option type, left-to-right sums (Python's built-in
    `sum` over a generator) and first-match removal from a list. */
module Common {

  datatype Option<T> = None | Some(value: T)

  /** The five weekdays the multi-day planner plans for, in calendar order. */
  const Weekdays: seq<string> := ["Mon", "Tue", "Wed", "Thu", "Fri"]

  /** `sum(f(x) for x in xs)` over reals, accumulated left to right. */
  function SumOf<T>(xs: seq<T>, f: T -> real): real
  {
    if xs == [] then 0.0 else SumOf(xs[..|xs| - 1], f) + f(xs[|xs| - 1])
  }

  /** `sum(f(x) for x in xs)` over integers. */
  function CountOf<T>(xs: seq<T>, f: T -> int): int
  {
    if xs == [] then 0 else CountOf(xs[..|xs| - 1], f) + f(xs[|xs| - 1])
  }

  lemma {:induction false} SumOfConcat<T>(a: seq<T>, b: seq<T>, f: T -> real)
    ensures SumOf(a + b, f) == SumOf(a, f) + SumOf(b, f)
  {
    if b != [] {
      assert (a + b)[..|a + b| - 1] == a + b[..|b| - 1];
      SumOfConcat(a, b[..|b| - 1], f);
    } else {
      assert a + b == a;
    }
  }

  lemma {:induction false} CountOfConcat<T>(a: seq<T>, b: seq<T>, f: T -> int)
    ensures CountOf(a + b, f) == CountOf(a, f) + CountOf(b, f)
  {
    if b != [] {
      assert (a + b)[..|a + b| - 1] == a + b[..|b| - 1];
      CountOfConcat(a, b[..|b| - 1], f);
    } else {
      assert a + b == a;
    }
  }

  /** A sum of terms that are each at least `lo` is at least |xs|·lo, and at most |xs|·hi. */
  lemma {:induction false} SumOfBounds<T>(xs: seq<T>, f: T -> real, lo: real, hi: real)
    requires forall i :: 0 <= i < |xs| ==> lo <= f(xs[i]) <= hi
    ensures |xs| as real * lo <= SumOf(xs, f) <= |xs| as real * hi
  {
    if xs != [] {
      var init := xs[..|xs| - 1];
      assert forall i :: 0 <= i < |init| ==> init[i] == xs[i];
      SumOfBounds(init, f, lo, hi);
    }
  }

  /** Replacing one term changes the sum by the difference of the two terms. */
  lemma {:induction false} SumOfUpdate<T>(xs: seq<T>, k: nat, y: T, f: T -> real)
    requires k < |xs|
    ensures SumOf(xs[k := y], f) == SumOf(xs, f) - f(xs[k]) + f(y)
  {
    var a, b := xs[..k], xs[k + 1..];
    assert xs == a + [xs[k]] + b;
    assert xs[k := y] == a + [y] + b;
    SumOfConcat(a + [xs[k]], b, f);
    SumOfConcat(a + [y], b, f);
    SumOfConcat(a, [xs[k]], f);
    SumOfConcat(a, [y], f);
    SumOfSingle(xs[k], f);
    SumOfSingle(y, f);
  }

  lemma {:induction false} CountOfUpdate<T>(xs: seq<T>, k: nat, y: T, f: T -> int)
    requires k < |xs|
    ensures CountOf(xs[k := y], f) == CountOf(xs, f) - f(xs[k]) + f(y)
  {
    var a, b := xs[..k], xs[k + 1..];
    assert xs == a + [xs[k]] + b;
    assert xs[k := y] == a + [y] + b;
    CountOfConcat(a + [xs[k]], b, f);
    CountOfConcat(a + [y], b, f);
    CountOfConcat(a, [xs[k]], f);
    CountOfConcat(a, [y], f);
    assert [xs[k]][..0] == [] && [y][..0] == [];
  }

  /** The mean of terms that each lie in [lo, hi] lies in [lo, hi]. */
  lemma MeanOfBounds<T>(xs: seq<T>, f: T -> real, lo: real, hi: real)
    requires xs != []
    requires forall i :: 0 <= i < |xs| ==> lo <= f(xs[i]) <= hi
    ensures lo <= SumOf(xs, f) / |xs| as real <= hi
  {
    SumOfBounds(xs, f, lo, hi);
    DivBetween(SumOf(xs, f), |xs| as real, lo, hi);
  }

  lemma DivBetween(total: real, n: real, lo: real, hi: real)
    requires n > 0.0 && n * lo <= total <= n * hi
    ensures lo <= total / n <= hi
  {
    var q := total / n;
    assert q * n == total;
    assert (q - lo) * n == total - n * lo;
    assert (hi - q) * n == n * hi - total;
  }

  /** `xs.remove(x)`: drops the first element equal to `x` (the list is unchanged if there is none). */
  function RemoveFirst<T(==)>(xs: seq<T>, x: T): (r: seq<T>)
    ensures x in xs ==> multiset(r) + multiset{x} == multiset(xs) && |r| == |xs| - 1
    ensures x !in xs ==> r == xs
  {
    if xs == [] then []
    else
      assert xs == [xs[0]] + xs[1..];
      if xs[0] == x then xs[1..] else [xs[0]] + RemoveFirst(xs[1..], x)
  }

  /** `xs.insert(k, x)` for an index already clamped into range. */
  function InsertAt<T>(xs: seq<T>, k: nat, x: T): (r: seq<T>)
    requires k <= |xs|
    ensures |r| == |xs| + 1 && r[k] == x
    ensures forall i :: 0 <= i < k ==> r[i] == xs[i]
    ensures forall i :: k < i < |r| ==> r[i] == xs[i - 1]
    ensures multiset(r) == multiset(xs) + multiset{x}
  {
    assert xs == xs[..k] + xs[k..];
    xs[..k] + [x] + xs[k..]
  }

  /** Inserting one element adds its term to the sum. */
  lemma {:induction false} SumOfInsertAt<T>(xs: seq<T>, k: nat, x: T, f: T -> real)
    requires k <= |xs|
    ensures SumOf(InsertAt(xs, k, x), f) == SumOf(xs, f) + f(x)
  {
    var a, b := xs[..k], xs[k..];
    var ins := InsertAt(xs, k, x);
    assert ins == (a + [x]) + b;
    assert xs == a + b;
    calc {
      SumOf(ins, f);
      { SumOfConcat(a + [x], b, f); }
      SumOf(a + [x], f) + SumOf(b, f);
      { SumOfConcat(a, [x], f); SumOfSingle(x, f); }
      SumOf(a, f) + f(x) + SumOf(b, f);
      { SumOfConcat(a, b, f); }
      SumOf(xs, f) + f(x);
    }
  }

  lemma SumOfSingle<T>(x: T, f: T -> real)
    ensures SumOf([x], f) == f(x)
  {
    assert [x][..0] == [];
  }

  /** `xs.pop(k)`. */
  function DeleteAt<T>(xs: seq<T>, k: nat): (r: seq<T>)
    requires k < |xs|
    ensures |r| == |xs| - 1
    ensures forall i :: 0 <= i < k ==> r[i] == xs[i]
    ensures forall i :: k <= i < |r| ==> r[i] == xs[i + 1]
    ensures multiset(r) + multiset{xs[k]} == multiset(xs)
  {
    assert xs == xs[..k] + [xs[k]] + xs[k + 1..];
    xs[..k] + xs[k + 1..]
  }

  /** Adding the same multiset to both sides keeps a balance of multisets. */
  lemma MultisetBalance<T>(a: multiset<T>, b: multiset<T>, x: multiset<T>, p: multiset<T>, q: multiset<T>)
    requires a + p == b + q
    ensures a + x + p == b + x + q
  {
    assert a + x + p == (a + p) + x;
    assert b + x + q == (b + q) + x;
  }

  /** Deleting what was just inserted gives the list back. */
  lemma DeleteInserted<T>(xs: seq<T>, k: nat, x: T)
    requires k <= |xs|
    ensures DeleteAt(InsertAt(xs, k, x), k) == xs
  {
    assert InsertAt(xs, k, x)[..k] == xs[..k];
    assert InsertAt(xs, k, x)[k + 1..] == xs[k..];
  }

  /** The keys never decrease along `xs`. */
  ghost predicate SortedByKey<T>(xs: seq<T>, key: T -> real)
  {
    forall i, j :: 0 <= i < j < |xs| ==> key(xs[i]) <= key(xs[j])
  }

  /** Where `x` goes in a list sorted by key: after every element whose key is not larger. */
  function InsertPos<T>(sorted: seq<T>, x: T, key: T -> real): (j: nat)
    ensures j <= |sorted|
  {
    if sorted == [] then 0
    else if key(x) < key(sorted[|sorted| - 1]) then InsertPos(sorted[..|sorted| - 1], x, key)
    else |sorted|
  }

  function InsertByKey<T>(sorted: seq<T>, x: T, key: T -> real): (r: seq<T>)
    ensures multiset(r) == multiset(sorted) + multiset{x}
  {
    InsertAt(sorted, InsertPos(sorted, x, key), x)
  }

  /** Python's `sorted(xs, key=key)`: a stable sort, here insertion of each element in
      turn. A descending sort with `reverse=True` keeps equal keys in their original order
      too, so it is this sort on the negated key. */
  function SortByKey<T>(xs: seq<T>, key: T -> real): (r: seq<T>)
    ensures multiset(r) == multiset(xs) && |r| == |xs|
  {
    if xs == [] then []
    else
      assert xs == xs[..|xs| - 1] + [xs[|xs| - 1]];
      InsertByKey(SortByKey(xs[..|xs| - 1], key), xs[|xs| - 1], key)
  }

  /** In a sorted list, the elements before the insert position have keys at most key(x),
      and those from it on have larger keys. */
  lemma {:induction false} InsertPosSplits<T>(sorted: seq<T>, x: T, key: T -> real)
    requires SortedByKey(sorted, key)
    ensures var j := InsertPos(sorted, x, key);
            && (forall i :: 0 <= i < j ==> key(sorted[i]) <= key(x))
            && (forall i :: j <= i < |sorted| ==> key(x) < key(sorted[i]))
  {
    if sorted != [] {
      var init := sorted[..|sorted| - 1];
      if key(x) < key(sorted[|sorted| - 1]) {
        assert forall i :: 0 <= i < |init| ==> init[i] == sorted[i];
        InsertPosSplits(init, x, key);
      }
    }
  }

  lemma {:induction false} InsertByKeySorted<T>(sorted: seq<T>, x: T, key: T -> real)
    requires SortedByKey(sorted, key)
    ensures SortedByKey(InsertByKey(sorted, x, key), key)
    ensures InsertByKey(sorted, x, key)[0] == if sorted != [] && key(sorted[0]) <= key(x) then sorted[0] else x
  {
    InsertPosSplits(sorted, x, key);
  }

  lemma {:induction false} SortByKeySorted<T>(xs: seq<T>, key: T -> real)
    ensures SortedByKey(SortByKey(xs, key), key)
  {
    if xs != [] {
      SortByKeySorted(xs[..|xs| - 1], key);
      InsertByKeySorted(SortByKey(xs[..|xs| - 1], key), xs[|xs| - 1], key);
    }
  }

  /** Index of the earliest element of smallest key. */
  function FirstMin<T>(xs: seq<T>, key: T -> real): (k: nat)
    requires xs != []
    ensures k < |xs|
    ensures forall j :: 0 <= j < |xs| ==> key(xs[k]) <= key(xs[j])
    ensures forall j :: 0 <= j < k ==> key(xs[k]) < key(xs[j])
  {
    if |xs| == 1 then 0
    else
      var init := xs[..|xs| - 1];
      var k := FirstMin(init, key);
      assert forall j :: 0 <= j < |init| ==> init[j] == xs[j];
      if key(xs[|xs| - 1]) < key(xs[k]) then |xs| - 1 else k
  }

  /** The sort is stable at the front: its first element is the earliest one of smallest key. */
  lemma {:induction false} SortByKeyFirst<T>(xs: seq<T>, key: T -> real)
    requires xs != []
    ensures SortByKey(xs, key)[0] == xs[FirstMin(xs, key)]
  {
    var init := xs[..|xs| - 1];
    var s := SortByKey(init, key);
    SortByKeySorted(init, key);
    InsertByKeySorted(s, xs[|xs| - 1], key);
    if init != [] {
      SortByKeyFirst(init, key);
      assert init[FirstMin(init, key)] == xs[FirstMin(init, key)];
    }
  }

  /** `xs[::-1]`. */
  function Reverse<T>(s: seq<T>): (r: seq<T>)
    ensures |r| == |s| && forall i :: 0 <= i < |s| ==> r[i] == s[|s| - 1 - i]
  {
    if s == [] then [] else Reverse(s[1..]) + [s[0]]
  }

  lemma ReverseFacts<T>(s: seq<T>)
    ensures s != [] ==> Reverse(s)[0] == s[|s| - 1]
  {
  }

  lemma {:induction false} ReverseMultiset<T>(s: seq<T>)
    ensures multiset(Reverse(s)) == multiset(s)
  {
    if s != [] {
      ReverseMultiset(s[1..]);
      assert s == [s[0]] + s[1..];
    }
  }

  /** `xs[:i] + xs[i:j+1][::-1] + xs[j+1:]`: the segment from i to j, both included, reversed. */
  function SegmentReversed<T>(xs: seq<T>, i: nat, j: nat): (r: seq<T>)
    requires i <= j < |xs|
    ensures |r| == |xs|
    ensures forall k :: 0 <= k < |xs| && !(i <= k <= j) ==> r[k] == xs[k]
    ensures forall k {:trigger r[k]} :: i <= k <= j ==> r[k] == xs[i + j - k]
  {
    xs[..i] + Reverse(xs[i..j + 1]) + xs[j + 1..]
  }

  lemma SegmentReversedMultiset<T>(xs: seq<T>, i: nat, j: nat)
    requires i <= j < |xs|
    ensures multiset(SegmentReversed(xs, i, j)) == multiset(xs)
  {
    var a, m, b := xs[..i], xs[i..j + 1], xs[j + 1..];
    assert multiset(SegmentReversed(xs, i, j)) == multiset(a) + multiset(Reverse(m)) + multiset(b) by {
      assert SegmentReversed(xs, i, j) == a + Reverse(m) + b;
    }
    assert multiset(xs) == multiset(a) + multiset(m) + multiset(b) by {
      assert xs == a + m + b;
    }
    ReverseMultiset(m);
  }

  /** A sequence of distinct indices below n that lists every one of them: the
      order `random.shuffle` leaves n items in. */
  ghost predicate IsPermutation(p: seq<nat>, n: nat)
  {
    && |p| == n
    && (forall k :: 0 <= k < |p| ==> p[k] < n)
    && (forall k, l :: 0 <= k < l < |p| ==> p[k] != p[l])
  }

  /** Applies `step` until it yields nothing or `n` steps have been taken. */
  function Iterate<T>(step: T -> Option<T>, x: T, n: nat): T
    decreases n
  {
    if n == 0 then x
    else match step(x)
      case None => x
      case Some(y) => Iterate(step, y, n - 1)
  }

  /** The number of steps `Iterate` takes. */
  function Steps<T>(step: T -> Option<T>, x: T, n: nat): (k: nat)
    ensures k <= n
    decreases n
  {
    if n == 0 then 0
    else match step(x)
      case None => 0
      case Some(y) => Steps(step, y, n - 1) + 1
  }

  lemma IterateUnfold<T>(step: T -> Option<T>, x: T, n: nat)
    requires n > 0
    ensures Iterate(step, x, n) == if step(x).None? then x else Iterate(step, step(x).value, n - 1)
  {
  }

  /** A property every step keeps holds after the iteration. */
  lemma {:induction false} IterateKeeps<T>(step: T -> Option<T>, inv: T -> bool, x: T, n: nat)
    requires inv(x)
    requires forall a :: inv(a) && step(a).Some? ==> inv(step(a).value)
    ensures inv(Iterate(step, x, n))
    decreases n
  {
    if n > 0 && step(x).Some? {
      IterateKeeps(step, inv, step(x).value, n - 1);
    }
  }

  /** Unless all `n` steps were taken, the iteration ends where `step` yields nothing. */
  lemma {:induction false} IterateStops<T>(step: T -> Option<T>, x: T, n: nat)
    ensures Steps(step, x, n) < n ==> step(Iterate(step, x, n)).None?
    decreases n
  {
    if n > 0 && step(x).Some? {
      IterateStops(step, step(x).value, n - 1);
    }
  }

  /** When every step lowers `m`, an iteration that takes a step ends strictly lower. */
  lemma {:induction false} IterateDecreases<T>(step: T -> Option<T>, m: T -> real, x: T, n: nat)
    requires forall a :: step(a).Some? ==> m(step(a).value) < m(a)
    ensures m(Iterate(step, x, n)) <= m(x)
    ensures Steps(step, x, n) > 0 ==> m(Iterate(step, x, n)) < m(x)
    decreases n
  {
    if n > 0 && step(x).Some? {
      IterateDecreases(step, m, step(x).value, n - 1);
    }
  }

  /** `step` applied to each element in order, starting from `acc`. */
  function FoldLeft<A, X>(step: (A, X) -> A, acc: A, xs: seq<X>): A
  {
    if xs == [] then acc else step(FoldLeft(step, acc, xs[..|xs| - 1]), xs[|xs| - 1])
  }

  /** A property every step keeps holds after the fold. */
  lemma {:induction false} FoldLeftKeeps<A, X>(step: (A, X) -> A, inv: A -> bool, acc: A, xs: seq<X>)
    requires inv(acc)
    requires forall a, x :: inv(a) ==> inv(step(a, x))
    ensures inv(FoldLeft(step, acc, xs))
  {
    if xs != [] {
      FoldLeftKeeps(step, inv, acc, xs[..|xs| - 1]);
    }
  }

  /** When every step adds its element's key to the tally `m`, the fold adds all the keys. */
  lemma {:induction false} FoldLeftTally<A, X, K>(step: (A, X) -> A, m: A -> multiset<K>, key: X -> K, acc: A, xs: seq<X>)
    requires forall a, x :: m(step(a, x)) == m(a) + multiset{key(x)}
    ensures m(FoldLeft(step, acc, xs)) == m(acc) + multiset(MapSeq(xs, key))
  {
    if xs != [] {
      var init, last := xs[..|xs| - 1], xs[|xs| - 1];
      FoldLeftTally(step, m, key, acc, init);
      MapSeqSnoc(init, last, key);
      assert xs == init + [last];
    }
  }

  /** The rows 0 to n - 1 one after the other. */
  function Flatten<T>(rows: nat -> seq<T>, n: nat): seq<T>
  {
    if n == 0 then [] else Flatten(rows, n - 1) + rows(n - 1)
  }

  /** An element that only row k can hold is in the flattened rows exactly when row k is
      among them and holds it. */
  lemma {:induction false} FlattenHas<T>(rows: nat -> seq<T>, n: nat, x: T, k: nat)
    requires forall i :: i != k ==> x !in rows(i)
    ensures x in Flatten(rows, n) <==> k < n && x in rows(k)
  {
    if n > 0 {
      FlattenHas(rows, n - 1, x, k);
      assert x in Flatten(rows, n - 1) + rows(n - 1) <==> x in Flatten(rows, n - 1) || x in rows(n - 1);
    }
  }

  /** The lists f(x) of the elements x one after the other. */
  function FlatMap<T, U>(xs: seq<T>, f: T -> seq<U>): seq<U>
  {
    if xs == [] then [] else FlatMap(xs[..|xs| - 1], f) + f(xs[|xs| - 1])
  }

  lemma FlatMapSnoc<T, U>(xs: seq<T>, x: T, f: T -> seq<U>)
    ensures FlatMap(xs + [x], f) == FlatMap(xs, f) + f(x)
  {
    assert (xs + [x])[..|xs|] == xs;
  }

  lemma {:induction false} FlatMapConcat<T, U>(a: seq<T>, b: seq<T>, f: T -> seq<U>)
    ensures FlatMap(a + b, f) == FlatMap(a, f) + FlatMap(b, f)
    decreases |b|
  {
    if b == [] {
      assert a + b == a;
    } else {
      var init, last := b[..|b| - 1], b[|b| - 1];
      assert b == init + [last];
      assert a + b == (a + init) + [last];
      FlatMapConcat(a, init, f);
      FlatMapSnoc(a + init, last, f);
      FlatMapSnoc(init, last, f);
    }
  }

  /** The values f(x) of the elements x for which f gives one, in order. */
  function Select<T, U>(xs: seq<T>, f: T -> Option<U>): seq<U>
  {
    if xs == [] then []
    else Select(xs[..|xs| - 1], f) + (if f(xs[|xs| - 1]).Some? then [f(xs[|xs| - 1]).value] else [])
  }

  lemma SelectSnoc<T, U>(xs: seq<T>, x: T, f: T -> Option<U>)
    ensures Select(xs + [x], f) == Select(xs, f) + (if f(x).Some? then [f(x).value] else [])
  {
    assert (xs + [x])[..|xs|] == xs;
  }

  /** Every selected value comes from an element of the list. */
  lemma {:induction false} SelectFrom<T, U>(xs: seq<T>, f: T -> Option<U>, y: U)
    requires y in Select(xs, f)
    ensures exists i :: 0 <= i < |xs| && f(xs[i]) == Some(y)
  {
    var init := xs[..|xs| - 1];
    if y in Select(init, f) {
      SelectFrom(init, f, y);
      var i :| 0 <= i < |init| && f(init[i]) == Some(y);
      assert init[i] == xs[i];
    }
  }

  /** Every value f gives for an element of the list is selected. */
  lemma {:induction false} SelectHas<T, U>(xs: seq<T>, f: T -> Option<U>, i: nat)
    requires i < |xs| && f(xs[i]).Some?
    ensures f(xs[i]).value in Select(xs, f)
  {
    var init := xs[..|xs| - 1];
    if i < |init| {
      SelectHas(init, f, i);
      assert init[i] == xs[i];
    }
  }

  /** A selection is never longer than the list. */
  lemma {:induction false} SelectLength<T, U>(xs: seq<T>, f: T -> Option<U>)
    ensures |Select(xs, f)| <= |xs|
  {
    if xs != [] {
      SelectLength(xs[..|xs| - 1], f);
    }
  }

  /** Nothing is selected exactly when f gives nothing for every element. */
  lemma {:induction false} SelectEmpty<T, U>(xs: seq<T>, f: T -> Option<U>)
    ensures Select(xs, f) == [] <==> forall i :: 0 <= i < |xs| ==> f(xs[i]).None?
  {
    if Select(xs, f) == [] {
      forall i | 0 <= i < |xs| ensures f(xs[i]).None? {
        if f(xs[i]).Some? {
          SelectHas(xs, f, i);
        }
      }
    } else {
      var y := Select(xs, f)[0];
      SelectFrom(xs, f, y);
    }
  }

  /** Leaving out elements whose lists are empty does not change the concatenation. */
  lemma {:induction false} SelectSkipsEmpty<T, U>(xs: seq<T>, keep: T -> Option<T>, f: T -> seq<U>)
    requires forall x :: keep(x) == Some(x) || (keep(x).None? && f(x) == [])
    ensures FlatMap(Select(xs, keep), f) == FlatMap(xs, f)
  {
    if xs != [] {
      var init, last := xs[..|xs| - 1], xs[|xs| - 1];
      SelectSkipsEmpty(init, keep, f);
      SelectSnoc(init, last, keep);
      assert xs == init + [last];
      if keep(last).Some? {
        FlatMapSnoc(Select(init, keep), last, f);
      } else {
        assert Select(xs, keep) == Select(init, keep) + [] == Select(init, keep);
        assert FlatMap(xs, f) == FlatMap(init, f) + [] == FlatMap(init, f);
      }
    }
  }

  /** A selection that keeps every element as it is is the list itself. */
  lemma {:induction false} SelectKeepsAll<T>(xs: seq<T>, keep: T -> Option<T>)
    requires forall i :: 0 <= i < |xs| ==> keep(xs[i]) == Some(xs[i])
    ensures Select(xs, keep) == xs
  {
    if xs != [] {
      var init, last := xs[..|xs| - 1], xs[|xs| - 1];
      assert forall i :: 0 <= i < |init| ==> init[i] == xs[i];
      SelectKeepsAll(init, keep);
      assert keep(last) == Some(last);
      assert xs == init + [last];
      SelectSnoc(init, last, keep);
    }
  }

  /** The scan over the selected values of a prefix, one element further. */
  lemma ScanSelectStep<T, U>(xs: seq<T>, i: nat, f: T -> Option<U>, key: U -> real)
    requires i < |xs|
    ensures MinFold(None, Select(xs[..i + 1], f), key)
         == MinFold(MinFold(None, Select(xs[..i], f), key), if f(xs[i]).Some? then [f(xs[i]).value] else [], key)
  {
    SelectSnoc(xs[..i], xs[i], f);
    assert xs[..i + 1] == xs[..i] + [xs[i]];
    MinFoldConcat(None, Select(xs[..i], f), if f(xs[i]).Some? then [f(xs[i]).value] else [], key);
  }

  /** The scan keeps an element of the list when started from nothing. */
  lemma MinFoldIn<T>(xs: seq<T>, key: T -> real)
    ensures MinFold(None, xs, key).Some? <==> xs != []
    ensures MinFold(None, xs, key).Some? ==> MinFold(None, xs, key).value in xs
  {
    MinFoldIsFirstMin(xs, key);
  }

  /** Two selections that keep the same elements have the same length, and their k-th
      values come from the same element. */
  lemma {:induction false} SelectAlong<T, U, V>(xs: seq<T>, f: T -> Option<U>, g: T -> Option<V>, k: nat)
    requires forall x :: f(x).Some? <==> g(x).Some?
    ensures |Select(xs, f)| == |Select(xs, g)|
    ensures k < |Select(xs, f)| ==>
              exists i :: 0 <= i < |xs| && f(xs[i]) == Some(Select(xs, f)[k]) && g(xs[i]) == Some(Select(xs, g)[k])
  {
    if xs != [] {
      var init, last := xs[..|xs| - 1], xs[|xs| - 1];
      SelectAlong(init, f, g, k);
      if k < |Select(init, f)| {
        var i :| 0 <= i < |init| && f(init[i]) == Some(Select(init, f)[k]) && g(init[i]) == Some(Select(init, g)[k]);
        assert xs[i] == init[i];
      } else if k < |Select(xs, f)| {
        assert xs[|xs| - 1] == last;
      }
    }
  }

  /** Two selections that keep the same elements, and whose kept values have the same
      images, have the same flattened images. */
  lemma {:induction false} SelectFlatMap<T, U, V, W>(xs: seq<T>, f: T -> Option<U>, g: T -> Option<V>,
                                                     h: U -> seq<W>, e: V -> seq<W>)
    requires forall x :: f(x).Some? <==> g(x).Some?
    requires forall x :: f(x).Some? ==> h(f(x).value) == e(g(x).value)
    ensures FlatMap(Select(xs, f), h) == FlatMap(Select(xs, g), e)
  {
    if xs != [] {
      var init, last := xs[..|xs| - 1], xs[|xs| - 1];
      SelectFlatMap(init, f, g, h, e);
      SelectSnoc(init, last, f);
      SelectSnoc(init, last, g);
      assert xs == init + [last];
      if f(last).Some? {
        FlatMapSnoc(Select(init, f), f(last).value, h);
        FlatMapSnoc(Select(init, g), g(last).value, e);
      } else {
        assert Select(xs, f) == Select(init, f) && Select(xs, g) == Select(init, g);
      }
    }
  }

  /** f applied to every element, in order. */
  function MapSeq<T, U>(xs: seq<T>, f: T -> U): (ys: seq<U>)
    ensures |ys| == |xs|
  {
    if xs == [] then [] else MapSeq(xs[..|xs| - 1], f) + [f(xs[|xs| - 1])]
  }

  lemma MapSeqSnoc<T, U>(xs: seq<T>, x: T, f: T -> U)
    ensures MapSeq(xs + [x], f) == MapSeq(xs, f) + [f(x)]
  {
    assert (xs + [x])[..|xs|] == xs;
  }

  lemma {:induction false} MapSeqAt<T, U>(xs: seq<T>, f: T -> U, k: nat)
    requires k < |xs|
    ensures MapSeq(xs, f)[k] == f(xs[k])
  {
    if k < |xs| - 1 {
      MapSeqAt(xs[..|xs| - 1], f, k);
    }
  }

  /** Mapping with f does not change the flattened images under h when h(f(x)) == h(x). */
  lemma {:induction false} FlatMapOfMapSeq<T, U, W>(xs: seq<T>, f: T -> U, h: U -> seq<W>, e: T -> seq<W>)
    requires forall x :: h(f(x)) == e(x)
    ensures FlatMap(MapSeq(xs, f), h) == FlatMap(xs, e)
  {
    if xs != [] {
      var init, last := xs[..|xs| - 1], xs[|xs| - 1];
      FlatMapOfMapSeq(init, f, h, e);
      FlatMapSnoc(MapSeq(init, f), f(last), h);
      assert MapSeq(xs, f) == MapSeq(init, f) + [f(last)];
    }
  }

  lemma {:induction false} SumOfMapSeq<T, U>(xs: seq<T>, f: T -> U, g: U -> real, e: T -> real)
    requires forall x :: g(f(x)) == e(x)
    ensures SumOf(MapSeq(xs, f), g) == SumOf(xs, e)
  {
    if xs != [] {
      var init, last := xs[..|xs| - 1], xs[|xs| - 1];
      SumOfMapSeq(init, f, g, e);
      assert MapSeq(xs, f) == MapSeq(init, f) + [f(last)];
      assert MapSeq(xs, f)[..|xs| - 1] == MapSeq(init, f);
    }
  }

  /** The lists f(k, xs[k]) one after the other, each made knowing its element's index. */
  function FlatMapIdx<T, U>(xs: seq<T>, f: (nat, T) -> seq<U>): seq<U>
  {
    if xs == [] then [] else FlatMapIdx(xs[..|xs| - 1], f) + f(|xs| - 1, xs[|xs| - 1])
  }

  lemma FlatMapIdxPrefix<T, U>(xs: seq<T>, k: nat, f: (nat, T) -> seq<U>)
    requires k < |xs|
    ensures FlatMapIdx(xs[..k + 1], f) == FlatMapIdx(xs[..k], f) + f(k, xs[k])
  {
    assert xs[..k + 1][..k] == xs[..k];
  }

  /** Every element of the flattened lists comes from the list of some element. */
  lemma {:induction false} FlatMapIdxHas<T, U>(xs: seq<T>, f: (nat, T) -> seq<U>, y: U)
    requires y in FlatMapIdx(xs, f)
    ensures exists k :: 0 <= k < |xs| && y in f(k, xs[k])
  {
    var init := xs[..|xs| - 1];
    if y in FlatMapIdx(init, f) {
      FlatMapIdxHas(init, f, y);
      var k :| 0 <= k < |init| && y in f(k, init[k]);
      assert init[k] == xs[k];
    }
  }

  /** The flattened lists are empty exactly when every list is. */
  lemma {:induction false} FlatMapIdxEmpty<T, U>(xs: seq<T>, f: (nat, T) -> seq<U>)
    ensures FlatMapIdx(xs, f) == [] <==> forall k :: 0 <= k < |xs| ==> f(k, xs[k]) == []
  {
    if xs != [] {
      var init := xs[..|xs| - 1];
      FlatMapIdxEmpty(init, f);
      assert forall k :: 0 <= k < |init| ==> init[k] == xs[k];
    }
  }

  /** Replacing one element trades its list for the new element's list, as multisets. */
  lemma {:induction false} FlatMapIdxUpdate<T, U>(xs: seq<T>, i: nat, y: T, f: (nat, T) -> seq<U>)
    requires i < |xs|
    ensures multiset(FlatMapIdx(xs[i := y], f)) + multiset(f(i, xs[i]))
         == multiset(FlatMapIdx(xs, f)) + multiset(f(i, y))
  {
    var n := |xs|;
    var init, init' := xs[..n - 1], xs[i := y][..n - 1];
    if i == n - 1 {
      assert init' == init;
    } else {
      assert init' == init[i := y];
      FlatMapIdxUpdate(init, i, y, f);
      var last := f(n - 1, xs[n - 1]);
      assert FlatMapIdx(xs[i := y], f) == FlatMapIdx(init[i := y], f) + last;
      assert FlatMapIdx(xs, f) == FlatMapIdx(init, f) + last;
      assert multiset(FlatMapIdx(xs[i := y], f)) == multiset(FlatMapIdx(init[i := y], f)) + multiset(last);
      assert multiset(FlatMapIdx(xs, f)) == multiset(FlatMapIdx(init, f)) + multiset(last);
      MultisetBalance(multiset(FlatMapIdx(init[i := y], f)), multiset(FlatMapIdx(init, f)), multiset(last),
                      multiset(f(i, xs[i])), multiset(f(i, y)));
    }
  }

  lemma {:induction false} MapSeqConcat<T, U>(a: seq<T>, b: seq<T>, f: T -> U)
    ensures MapSeq(a + b, f) == MapSeq(a, f) + MapSeq(b, f)
    decreases |b|
  {
    if b == [] {
      assert a + b == a;
    } else {
      var init, last := b[..|b| - 1], b[|b| - 1];
      assert b == init + [last];
      assert a + b == (a + init) + [last];
      assert MapSeq(a + init, f) == MapSeq(a, f) + MapSeq(init, f) by {
        MapSeqConcat(a, init, f);
      }
      assert MapSeq(a + b, f) == MapSeq(a + init, f) + [f(last)] by {
        MapSeqSnoc(a + init, last, f);
      }
      assert MapSeq(b, f) == MapSeq(init, f) + [f(last)] by {
        MapSeqSnoc(init, last, f);
      }
    }
  }

  /** MapSeq is the list whose k-th element is f of the k-th element. */
  lemma {:induction false} MapSeqIs<T, U>(xs: seq<T>, f: T -> U, ys: seq<U>)
    requires |ys| == |xs| && forall k :: 0 <= k < |xs| ==> ys[k] == f(xs[k])
    ensures MapSeq(xs, f) == ys
  {
    forall k | 0 <= k < |xs| ensures MapSeq(xs, f)[k] == ys[k] {
      MapSeqAt(xs, f, k);
    }
  }

  /** Equal sums with the same second term have equal first terms. */
  lemma MultisetCancel<T>(x: multiset<T>, y: multiset<T>, z: multiset<T>)
    requires x + z == y + z
    ensures x == y
  {
    assert forall e :: x[e] == (x + z)[e] - z[e] && y[e] == (y + z)[e] - z[e];
  }

  /** Mapping commutes with deleting an element. */
  lemma {:induction false} MapSeqDeleteAt<T, U>(xs: seq<T>, p: nat, f: T -> U)
    requires p < |xs|
    ensures multiset(MapSeq(DeleteAt(xs, p), f)) + multiset{f(xs[p])} == multiset(MapSeq(xs, f))
  {
    var d := DeleteAt(xs, p);
    forall k | 0 <= k < |d| ensures DeleteAt(MapSeq(xs, f), p)[k] == f(d[k]) {
      if k < p {
        MapSeqAt(xs, f, k);
      } else {
        MapSeqAt(xs, f, k + 1);
      }
    }
    MapSeqIs(d, f, DeleteAt(MapSeq(xs, f), p));
    MapSeqAt(xs, f, p);
  }

  /** Mapping commutes with `xs.remove(x)`. */
  lemma MapSeqRemoveFirst<T, U>(xs: seq<T>, x: T, f: T -> U)
    requires x in xs
    ensures multiset(MapSeq(RemoveFirst(xs, x), f)) + multiset{f(x)} == multiset(MapSeq(xs, f))
  {
    var rest := RemoveFirst(xs, x);
    MapSeqPerm(rest + [x], xs, f);
    MapSeqSnoc(rest, x, f);
  }

  /** Mapping two lists with the same elements gives lists with the same elements. */
  lemma {:induction false} MapSeqPerm<T, U>(xs: seq<T>, ys: seq<T>, f: T -> U)
    requires multiset(xs) == multiset(ys)
    ensures multiset(MapSeq(xs, f)) == multiset(MapSeq(ys, f))
  {
    if xs != [] {
      var n := |xs|;
      assert xs[n - 1] in multiset(ys);
      var p :| 0 <= p < |ys| && ys[p] == xs[n - 1];
      MultisetCancel(multiset(DeleteAt(xs, n - 1)), multiset(DeleteAt(ys, p)), multiset{xs[n - 1]});
      MapSeqPerm(DeleteAt(xs, n - 1), DeleteAt(ys, p), f);
      MapSeqPermJoin(xs, ys, n - 1, p, f);
    }
  }

  /** Two lists whose mapped remainders agree after deleting equal elements agree mapped. */
  lemma MapSeqPermJoin<T, U>(xs: seq<T>, ys: seq<T>, i: nat, p: nat, f: T -> U)
    requires i < |xs| && p < |ys| && xs[i] == ys[p]
    requires multiset(MapSeq(DeleteAt(xs, i), f)) == multiset(MapSeq(DeleteAt(ys, p), f))
    ensures multiset(MapSeq(xs, f)) == multiset(MapSeq(ys, f))
  {
    MapSeqDeleteAt(xs, i, f);
    MapSeqDeleteAt(ys, p, f);
  }

  /** Mapping the flattened lists is flattening the mapped lists. */
  lemma {:induction false} MapSeqFlatMapIdx<T, U, V>(xs: seq<T>, f: (nat, T) -> seq<U>, h: U -> V, g: (nat, T) -> seq<V>)
    requires forall k, x :: MapSeq(f(k, x), h) == g(k, x)
    ensures MapSeq(FlatMapIdx(xs, f), h) == FlatMapIdx(xs, g)
  {
    if xs != [] {
      var n := |xs|;
      MapSeqFlatMapIdx(xs[..n - 1], f, h, g);
      MapSeqConcat(FlatMapIdx(xs[..n - 1], f), f(n - 1, xs[n - 1]), h);
    }
  }

  /** The left-to-right scan `if best is None or key(x) < key(best): best = x`, started
      from `acc`: a strict comparison, so the earliest of equal keys is kept. */
  function MinFold<T>(acc: Option<T>, xs: seq<T>, key: T -> real): Option<T>
  {
    if xs == [] then acc
    else
      var best := MinFold(acc, xs[..|xs| - 1], key);
      var last := xs[|xs| - 1];
      if best.None? || key(last) < key(best.value) then Some(last) else best
  }

  lemma MinFoldSnoc<T>(acc: Option<T>, xs: seq<T>, x: T, key: T -> real)
    ensures MinFold(acc, xs + [x], key)
         == (var best := MinFold(acc, xs, key); if best.None? || key(x) < key(best.value) then Some(x) else best)
  {
    assert (xs + [x])[..|xs|] == xs;
  }

  lemma {:induction false} MinFoldConcat<T>(acc: Option<T>, a: seq<T>, b: seq<T>, key: T -> real)
    ensures MinFold(acc, a + b, key) == MinFold(MinFold(acc, a, key), b, key)
    decreases |b|
  {
    if b == [] {
      assert a + b == a;
    } else {
      var init, last := b[..|b| - 1], b[|b| - 1];
      assert a + b == (a + init) + [last];
      MinFoldConcat(acc, a, init, key);
      MinFoldSnoc(acc, a + init, last, key);
    }
  }

  /** Started from nothing, the scan finds the earliest element of smallest key. */
  lemma {:induction false} MinFoldIsFirstMin<T>(xs: seq<T>, key: T -> real)
    ensures MinFold(None, xs, key) == if xs == [] then None else Some(xs[FirstMin(xs, key)])
  {
    if |xs| > 1 {
      var init := xs[..|xs| - 1];
      MinFoldIsFirstMin(init, key);
      assert init[FirstMin(init, key)] == xs[FirstMin(init, key)];
    }
  }

  /** Replacing one element trades its list for the new element's list, as multisets. */
  lemma {:induction false} FlatMapUpdate<T, U>(xs: seq<T>, i: nat, y: T, f: T -> seq<U>)
    requires i < |xs|
    ensures multiset(FlatMap(xs[i := y], f)) + multiset(f(xs[i])) == multiset(FlatMap(xs, f)) + multiset(f(y))
  {
    var a, b := xs[..i], xs[i + 1..];
    assert xs == (a + [xs[i]]) + b;
    assert xs[i := y] == (a + [y]) + b;
    FlatMapConcat(a + [xs[i]], b, f);
    FlatMapConcat(a + [y], b, f);
    FlatMapSnoc(a, xs[i], f);
    FlatMapSnoc(a, y, f);
    MultisetBalance(multiset(FlatMap(a, f)) + multiset(f(y)), multiset(FlatMap(a, f)) + multiset(f(xs[i])),
                    multiset(FlatMap(b, f)), multiset(f(xs[i])), multiset(f(y)));
  }

  /** Putting a deleted element back where it was gives the list back. */
  lemma InsertDeleted<T>(xs: seq<T>, k: nat)
    requires k < |xs|
    ensures InsertAt(DeleteAt(xs, k), k, xs[k]) == xs
  {
  }

  /** When every step lowers a count by one, the iteration lowers it by its number of steps. */
  lemma {:induction false} IterateCounts<T>(step: T -> Option<T>, size: T -> nat, x: T, n: nat)
    requires forall a :: step(a).Some? ==> size(step(a).value) + 1 == size(a)
    ensures size(Iterate(step, x, n)) + Steps(step, x, n) == size(x)
    decreases n
  {
    if n > 0 && step(x).Some? {
      IterateCounts(step, size, step(x).value, n - 1);
    }
  }
}
