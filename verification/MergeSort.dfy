/**
 * The bottom-up merge sort of utlist.h (DL_SORT2) on a doubly linked list whose
 * head points back to its tail.  First the algorithm on sequences, then the
 * macro's pointer program, proved to compute it.
 */
module MergeSort {

  class Node<T> {
    const item: T
    var prev: Node?<T>
    var next: Node?<T>

    constructor (item: T) {
      this.item := item;
    }
  }

  // ----- orders

  type Comparison<!T> = (T, T) -> int

  ghost predicate TotalPreorder<T(!new)>(cmp: Comparison<T>) {
    && (forall a, b :: cmp(a, b) <= 0 || cmp(b, a) <= 0)
    && (forall a, b, c :: cmp(a, b) <= 0 && cmp(b, c) <= 0 ==> cmp(a, c) <= 0)
  }

  predicate Leq<T>(cmp: Comparison<T>, a: Node<T>, b: Node<T>) {
    cmp(a.item, b.item) <= 0
  }

  ghost predicate Sorted<T>(cmp: Comparison<T>, s: seq<Node<T>>) {
    forall i, j :: 0 <= i < j < |s| ==> Leq(cmp, s[i], s[j])
  }

  predicate SameRank<T>(cmp: Comparison<T>, g: T, x: Node<T>) {
    cmp(g, x.item) <= 0 && cmp(x.item, g) <= 0
  }

  /** The nodes that rank with `g`, in order. */
  function RankedWith<T>(cmp: Comparison<T>, g: T, s: seq<Node<T>>): seq<Node<T>> {
    if s == [] then []
    else if SameRank(cmp, g, s[0]) then [s[0]] + RankedWith(cmp, g, s[1..])
    else RankedWith(cmp, g, s[1..])
  }

  /** Nodes that compare equal keep their order. */
  ghost predicate StableCopy<T(!new)>(cmp: Comparison<T>, s: seq<Node<T>>, r: seq<Node<T>>) {
    forall g: T :: RankedWith(cmp, g, r) == RankedWith(cmp, g, s)
  }

  // ----- the algorithm on sequences

  function Merge<T>(cmp: Comparison<T>, a: seq<Node<T>>, b: seq<Node<T>>): seq<Node<T>> {
    if a == [] then b
    else if b == [] then a
    else if Leq(cmp, a[0], b[0]) then [a[0]] + Merge(cmp, a[1..], b)
    else [b[0]] + Merge(cmp, a, b[1..])
  }

  function Take<T>(s: seq<T>, k: nat): seq<T> {
    if |s| <= k then s else s[..k]
  }

  function Drop<T>(s: seq<T>, k: nat): seq<T> {
    if |s| <= k then [] else s[k..]
  }

  /** Merge adjacent runs of length `k`. */
  function Pass<T>(cmp: Comparison<T>, s: seq<Node<T>>, k: nat): seq<Node<T>>
    requires k > 0
    decreases |s|
  {
    if s == [] then []
    else Merge(cmp, Take(s, k), Take(Drop(s, k), k)) + Pass(cmp, Drop(Drop(s, k), k), k)
  }

  ghost predicate RunsSorted<T>(cmp: Comparison<T>, s: seq<Node<T>>, k: nat)
    requires k > 0
    decreases |s|
  {
    s == [] || (Sorted(cmp, Take(s, k)) && RunsSorted(cmp, Drop(s, k), k))
  }

  // ----- merging keeps content, order and stability

  lemma {:induction false} MergeContent<T>(cmp: Comparison<T>, a: seq<Node<T>>, b: seq<Node<T>>)
    ensures multiset(Merge(cmp, a, b)) == multiset(a) + multiset(b)
    ensures |Merge(cmp, a, b)| == |a| + |b|
  {
    if a != [] && b != [] {
      assert a == [a[0]] + a[1..] && b == [b[0]] + b[1..];
      if Leq(cmp, a[0], b[0]) {
        MergeContent(cmp, a[1..], b);
      } else {
        MergeContent(cmp, a, b[1..]);
      }
    }
  }

  lemma MergeMember<T>(cmp: Comparison<T>, a: seq<Node<T>>, b: seq<Node<T>>, x: Node<T>)
    ensures x in Merge(cmp, a, b) <==> x in a || x in b
  {
  }

  lemma SortedCons<T>(cmp: Comparison<T>, x: Node<T>, s: seq<Node<T>>)
    requires Sorted(cmp, s) && forall y | y in s :: Leq(cmp, x, y)
    ensures Sorted(cmp, [x] + s)
  {
  }

  lemma {:induction false} MergeSorted<T(!new)>(cmp: Comparison<T>, a: seq<Node<T>>, b: seq<Node<T>>)
    requires TotalPreorder(cmp) && Sorted(cmp, a) && Sorted(cmp, b)
    ensures Sorted(cmp, Merge(cmp, a, b))
  {
    if a != [] && b != [] {
      if Leq(cmp, a[0], b[0]) {
        MergeSorted(cmp, a[1..], b);
        forall y | y in Merge(cmp, a[1..], b)
          ensures Leq(cmp, a[0], y)
        {
          MergeMember(cmp, a[1..], b, y);
        }
        SortedCons(cmp, a[0], Merge(cmp, a[1..], b));
      } else {
        MergeSorted(cmp, a, b[1..]);
        forall y | y in Merge(cmp, a, b[1..])
          ensures Leq(cmp, b[0], y)
        {
          MergeMember(cmp, a, b[1..], y);
        }
        SortedCons(cmp, b[0], Merge(cmp, a, b[1..]));
      }
    }
  }

  lemma {:induction false} RankedConcat<T>(cmp: Comparison<T>, g: T, a: seq<Node<T>>, b: seq<Node<T>>)
    ensures RankedWith(cmp, g, a + b) == RankedWith(cmp, g, a) + RankedWith(cmp, g, b)
  {
    if a == [] {
      assert a + b == b;
    } else {
      assert (a + b)[1..] == a[1..] + b;
      RankedConcat(cmp, g, a[1..], b);
    }
  }

  lemma {:induction false} NoneRanked<T>(cmp: Comparison<T>, g: T, s: seq<Node<T>>)
    requires forall x | x in s :: !SameRank(cmp, g, x)
    ensures RankedWith(cmp, g, s) == []
  {
    if s != [] {
      NoneRanked(cmp, g, s[1..]);
    }
  }

  lemma {:induction false} MergeStable<T(!new)>(cmp: Comparison<T>, g: T, a: seq<Node<T>>, b: seq<Node<T>>)
    requires TotalPreorder(cmp) && Sorted(cmp, a)
    ensures RankedWith(cmp, g, Merge(cmp, a, b)) == RankedWith(cmp, g, a) + RankedWith(cmp, g, b)
  {
    if a != [] && b != [] {
      if Leq(cmp, a[0], b[0]) {
        MergeStable(cmp, g, a[1..], b);
        assert ([a[0]] + Merge(cmp, a[1..], b))[1..] == Merge(cmp, a[1..], b);
      } else {
        MergeStable(cmp, g, a, b[1..]);
        assert ([b[0]] + Merge(cmp, a, b[1..]))[1..] == Merge(cmp, a, b[1..]);
        if SameRank(cmp, g, b[0]) {
          forall x | x in a
            ensures !SameRank(cmp, g, x)
          {
            assert x == a[0] || Leq(cmp, a[0], x);
          }
          NoneRanked(cmp, g, a);
        }
      }
    }
  }

  // ----- a pass keeps content and stability, and doubles the runs

  lemma TakeDrop<T>(s: seq<T>, k: nat)
    ensures Take(s, k) + Drop(s, k) == s
    ensures |Take(s, k)| + |Drop(s, k)| == |s|
  {
  }

  lemma {:induction false} PassContent<T>(cmp: Comparison<T>, s: seq<Node<T>>, k: nat)
    requires k > 0
    ensures multiset(Pass(cmp, s, k)) == multiset(s) && |Pass(cmp, s, k)| == |s|
    decreases |s|
  {
    if s != [] {
      var a, b, rest := Take(s, k), Take(Drop(s, k), k), Drop(Drop(s, k), k);
      TakeDrop(s, k);
      TakeDrop(Drop(s, k), k);
      MergeContent(cmp, a, b);
      PassContent(cmp, rest, k);
      assert s == a + (b + rest);
    }
  }

  lemma SplitRuns<T>(cmp: Comparison<T>, s: seq<Node<T>>, k: nat)
    requires k > 0 && s != [] && RunsSorted(cmp, s, k)
    ensures Sorted(cmp, Take(s, k)) && Sorted(cmp, Take(Drop(s, k), k)) && RunsSorted(cmp, Drop(Drop(s, k), k), k)
    ensures |Drop(Drop(s, k), k)| < |s|
    ensures s == Take(s, k) + (Take(Drop(s, k), k) + Drop(Drop(s, k), k))
    ensures Pass(cmp, s, k) == Merge(cmp, Take(s, k), Take(Drop(s, k), k)) + Pass(cmp, Drop(Drop(s, k), k), k)
  {
    hide Merge;
    TakeDrop(s, k);
    TakeDrop(Drop(s, k), k);
  }

  lemma {:induction false} PassStable<T(!new)>(cmp: Comparison<T>, g: T, s: seq<Node<T>>, k: nat)
    requires k > 0 && TotalPreorder(cmp) && RunsSorted(cmp, s, k)
    ensures RankedWith(cmp, g, Pass(cmp, s, k)) == RankedWith(cmp, g, s)
    decreases |s|
  {
    if s == [] {
      assert Pass(cmp, s, k) == s;
    } else {
      hide *;
      SplitRuns(cmp, s, k);
      var a, b, rest := Take(s, k), Take(Drop(s, k), k), Drop(Drop(s, k), k);
      MergeStable(cmp, g, a, b);
      PassStable(cmp, g, rest, k);
      RankedConcat(cmp, g, Merge(cmp, a, b), Pass(cmp, rest, k));
      RankedConcat(cmp, g, a, b + rest);
      RankedConcat(cmp, g, b, rest);
      Associative(RankedWith(cmp, g, a), RankedWith(cmp, g, b), RankedWith(cmp, g, rest));
    }
  }

  lemma Associative<T>(a: seq<T>, b: seq<T>, c: seq<T>)
    ensures a + b + c == a + (b + c)
  {
  }

  lemma {:induction false} PassSorted<T(!new)>(cmp: Comparison<T>, s: seq<Node<T>>, k: nat)
    requires k > 0 && TotalPreorder(cmp) && RunsSorted(cmp, s, k)
    ensures RunsSorted(cmp, Pass(cmp, s, k), 2 * k)
    decreases |s|
  {
    if s != [] {
      var a, b, rest := Take(s, k), Take(Drop(s, k), k), Drop(Drop(s, k), k);
      SplitRuns(cmp, s, k);
      MergeContent(cmp, a, b);
      MergeSorted(cmp, a, b);
      PassSorted(cmp, rest, k);
      var merged, tail := Merge(cmp, a, b), Pass(cmp, rest, k);
      assert rest != [] ==> |merged| == 2 * k;
      assert Take(merged + tail, 2 * k) == merged;
      assert Drop(merged + tail, 2 * k) == tail;
    }
  }

  lemma {:induction false} SingletonsSorted<T>(cmp: Comparison<T>, s: seq<Node<T>>)
    ensures RunsSorted(cmp, s, 1)
    decreases |s|
  {
    if s != [] {
      SingletonsSorted(cmp, Drop(s, 1));
    }
  }

  lemma OneRunSorted<T>(cmp: Comparison<T>, s: seq<Node<T>>, k: nat)
    requires k > 0 && |s| <= k && RunsSorted(cmp, s, k)
    ensures Sorted(cmp, s)
  {
  }

  // ----- the pointer program

  ghost predicate Distinct<T>(s: seq<Node<T>>) {
    forall i, j :: 0 <= i < j < |s| ==> s[i] != s[j]
  }

  /** Consecutive nodes are linked forwards. */
  ghost predicate Forward<T>(s: seq<Node<T>>)
    reads s
  {
    forall i :: 0 <= i < |s| - 1 ==> s[i].next == s[i + 1]
  }

  /** Every node but the first points back to its predecessor. */
  ghost predicate Backward<T>(s: seq<Node<T>>)
    reads s
  {
    forall i :: 0 < i < |s| ==> s[i].prev == s[i - 1]
  }

  function First<T>(s: seq<Node<T>>): Node?<T> {
    if s == [] then null else s[0]
  }

  function Last<T>(s: seq<Node<T>>): Node?<T> {
    if s == [] then null else s[|s| - 1]
  }

  /** A forward list that ends in null. */
  ghost predicate Ends<T>(s: seq<Node<T>>)
    reads s
  {
    Forward(s) && (s != [] ==> s[|s| - 1].next == null)
  }

  /** The list layout of utlist.h: the head's back pointer leads to the tail. */
  ghost predicate IsList<T>(head: Node?<T>, s: seq<Node<T>>)
    reads s
  {
    && head == First(s) && Distinct(s)
    && Ends(s) && Backward(s)
    && (s != [] ==> s[0].prev == s[|s| - 1])
  }

  ghost predicate Disjoint<T>(a: seq<Node<T>>, b: seq<Node<T>>) {
    forall n :: n in a ==> n !in b
  }

  /** Three sequences of distinct nodes without a node in common. */
  ghost predicate Apart<T>(out: seq<Node<T>>, x: seq<Node<T>>, y: seq<Node<T>>) {
    && Distinct(out) && Distinct(x) && Distinct(y)
    && Disjoint(out, x) && Disjoint(out, y) && Disjoint(x, y)
  }

  /** All nodes of three sequences. */
  ghost function NodesOf<T>(out: seq<Node<T>>, x: seq<Node<T>>, y: seq<Node<T>>): set<Node<T>> {
    (set n | n in out) + (set n | n in x) + (set n | n in y)
  }

  lemma MoveFromX<T>(out: seq<Node<T>>, x: seq<Node<T>>, y: seq<Node<T>>)
    requires Apart(out, x, y) && x != []
    ensures Apart(out + [x[0]], x[1..], y)
    ensures forall i :: 0 <= i < |x| ==> x[i] !in out
    ensures forall i :: 0 <= i < |y| ==> y[i] !in out && y[i] != x[0]
  {
    assert x[0] in x && x[0] !in out && x[0] !in y;
    assert forall i :: 0 <= i < |out| ==> out[i] in out;
    assert forall i :: 0 <= i < |y| ==> y[i] in y;
    assert forall n :: n in x <==> n == x[0] || n in x[1..];
  }

  lemma MoveFromY<T>(out: seq<Node<T>>, x: seq<Node<T>>, y: seq<Node<T>>)
    requires Apart(out, x, y) && y != []
    ensures Apart(out + [y[0]], x, y[1..])
    ensures forall i :: 0 <= i < |x| ==> x[i] !in out && x[i] != y[0]
    ensures forall i :: 0 <= i < |y| ==> y[i] !in out
  {
    assert y[0] in y && y[0] !in out && y[0] !in x;
    assert forall i :: 0 <= i < |out| ==> out[i] in out;
    assert forall i :: 0 <= i < |x| ==> x[i] in x;
    assert forall n :: n in y <==> n == y[0] || n in y[1..];
  }

  /** Link `e` behind the nodes output so far. */
  method Emit<T>(list: Node?<T>, tail: Node?<T>, e: Node<T>, ghost out: seq<Node<T>>) returns (head: Node?<T>)
    requires list == First(out) && tail == Last(out) && Forward(out) && Backward(out) && Distinct(out) && e !in out
    modifies out, e
    ensures head == First(out + [e])
    ensures Forward(out + [e]) && Backward(out + [e])
    ensures e.next == old(e.next)
  {
    head := list;
    if tail != null {
      tail.next := e;
    } else {
      head := e;
    }
    e.prev := tail;
  }

  /** What the merge loop keeps: `x` and `y` are still to be merged onto `out`. */
  ghost predicate Merging<T>(list: Node?<T>, tail: Node?<T>, p: Node?<T>, q: Node?<T>,
                             out: seq<Node<T>>, x: seq<Node<T>>, y: seq<Node<T>>)
    reads out, x, y
  {
    && Apart(out, x, y)
    && list == First(out) && tail == Last(out) && (x != [] ==> p == x[0]) && q == First(y)
    && Forward(out) && Backward(out) && Forward(x) && Ends(y)
  }

  method EmitFromX<T>(list: Node?<T>, tail: Node?<T>, p: Node<T>, q: Node?<T>,
                      ghost out: seq<Node<T>>, ghost x: seq<Node<T>>, ghost y: seq<Node<T>>)
    returns (list': Node?<T>, p': Node?<T>)
    requires x != [] && Merging(list, tail, p, q, out, x, y)
    modifies out, x[0]
    ensures Merging(list', p, p', q, out + [x[0]], x[1..], y)
  {
    p' := p.next;
    MoveFromX(out, x, y);
    hide Apart;
    list' := Emit(list, tail, p, out);
    assert forall i :: 0 <= i < |x| ==> x[i].next == old(x[i].next);
    assert forall i :: 0 <= i < |y| ==> y[i].next == old(y[i].next);
  }

  method EmitFromY<T>(list: Node?<T>, tail: Node?<T>, p: Node?<T>, q: Node<T>,
                      ghost out: seq<Node<T>>, ghost x: seq<Node<T>>, ghost y: seq<Node<T>>)
    returns (list': Node?<T>, q': Node?<T>)
    requires y != [] && Merging(list, tail, p, q, out, x, y)
    modifies out, y[0]
    ensures Merging(list', q, p, q', out + [y[0]], x, y[1..])
  {
    q' := q.next;
    MoveFromY(out, x, y);
    hide Apart;
    list' := Emit(list, tail, q, out);
    assert forall i :: 0 <= i < |x| ==> x[i].next == old(x[i].next);
    assert forall i :: 0 <= i < |y| ==> y[i].next == old(y[i].next);
  }

  /** The inner loop of the macro: merge `psize` nodes from `first` with up to `k` nodes from `second`. */
  method MergeRuns<T>(cmp: Comparison<T>, head: Node?<T>, last: Node?<T>, first: Node<T>, second: Node?<T>,
                      length: nat, k: nat,
                      ghost start: seq<Node<T>>, ghost a: seq<Node<T>>, ghost b: seq<Node<T>>)
    returns (list: Node?<T>, tail: Node?<T>, q: Node?<T>, ghost out: seq<Node<T>>)
    requires a != [] && length == |a| && Merging(head, last, first, second, start, a, b)
    modifies NodesOf(start, a, b)
    ensures out == start + Merge(cmp, a, Take(b, k))
    ensures Merging(list, tail, null, q, out, [], Drop(b, k))
    ensures NodesOf(out, [], Drop(b, k)) == NodesOf(start, a, b)
  {
    list, tail, q, out := head, last, second, start;
    var p: Node?<T> := first;
    var psize, qsize := length, k;
    ghost var x, y := a, b;
    ghost var whole := start + Merge(cmp, a, Take(b, k));
    hide Merging, NodesOf, Merge, Take, Drop;
    MergingHeads(list, tail, p, q, out, x, y);
    while psize > 0 || (qsize > 0 && q != null)
      invariant psize == |x| && 0 <= qsize <= k
      invariant Merging(list, tail, p, q, out, x, y) && (x != [] ==> p == x[0]) && q == First(y)
      invariant NodesOf(out, x, y) == NodesOf(start, a, b)
      invariant out + Merge(cmp, x, Take(y, qsize)) == whole
      invariant Drop(y, qsize) == Drop(b, k)
      decreases |x| + |y|
    {
      var fromP;
      if psize == 0 {
        fromP := false;
      } else if qsize == 0 || q == null {
        fromP := true;
      } else {
        fromP := Leq(cmp, p, q);
      }
      TakeHead(y, qsize);
      AmongNodes(out, x, y);
      if fromP {
        MergeTakesX(cmp, out, x, Take(y, qsize));
        SameNodesFromX(out, x, y);
        var e := p;
        list, p := EmitFromX(list, tail, p, q, out, x, y);
        out, x, tail, psize := out + [x[0]], x[1..], e, psize - 1;
      } else {
        MergeTakesY(cmp, out, x, y, qsize);
        SameNodesFromY(out, x, y);
        var e := q;
        list, q := EmitFromY(list, tail, p, q, out, x, y);
        out, y, tail, qsize := out + [y[0]], y[1..], e, qsize - 1;
      }
      MergingHeads(list, tail, p, q, out, x, y);
    }
    RunsExhausted(cmp, y, qsize);
    MergingDone(list, tail, p, q, out, y);
    assert out + [] == out;
  }

  lemma MergingHeads<T>(list: Node?<T>, tail: Node?<T>, p: Node?<T>, q: Node?<T>, out: seq<Node<T>>, x: seq<Node<T>>,
                        y: seq<Node<T>>)
    requires Merging(list, tail, p, q, out, x, y)
    ensures (x != [] ==> p == x[0]) && q == First(y)
  {
  }

  lemma MergingDone<T>(list: Node?<T>, tail: Node?<T>, p: Node?<T>, q: Node?<T>, out: seq<Node<T>>, y: seq<Node<T>>)
    requires Merging(list, tail, p, q, out, [], y)
    ensures Merging(list, tail, null, q, out, [], y)
  {
  }

  lemma RunsExhausted<T>(cmp: Comparison<T>, y: seq<Node<T>>, qsize: nat)
    requires qsize == 0 || y == []
    ensures Merge(cmp, [], Take(y, qsize)) == [] && Drop(y, qsize) == y
  {
  }

  lemma TakeHead<T>(y: seq<T>, k: nat)
    ensures if k == 0 || y == [] then Take(y, k) == [] else Take(y, k) != [] && Take(y, k)[0] == y[0]
  {
  }

  lemma AmongNodes<T>(out: seq<Node<T>>, x: seq<Node<T>>, y: seq<Node<T>>)
    ensures forall n :: n in out ==> n in NodesOf(out, x, y)
    ensures x != [] ==> x[0] in NodesOf(out, x, y)
    ensures y != [] ==> y[0] in NodesOf(out, x, y)
  {
  }

  lemma SameNodesFromX<T>(out: seq<Node<T>>, x: seq<Node<T>>, y: seq<Node<T>>)
    requires x != []
    ensures NodesOf(out + [x[0]], x[1..], y) == NodesOf(out, x, y)
  {
  }

  lemma SameNodesFromY<T>(out: seq<Node<T>>, x: seq<Node<T>>, y: seq<Node<T>>)
    requires y != []
    ensures NodesOf(out + [y[0]], x, y[1..]) == NodesOf(out, x, y)
  {
  }

  lemma MergeTakesX<T>(cmp: Comparison<T>, out: seq<Node<T>>, x: seq<Node<T>>, run: seq<Node<T>>)
    requires x != [] && (run == [] || Leq(cmp, x[0], run[0]))
    ensures out + Merge(cmp, x, run) == out + [x[0]] + Merge(cmp, x[1..], run)
  {
  }

  lemma MergeTakesY<T>(cmp: Comparison<T>, out: seq<Node<T>>, x: seq<Node<T>>, y: seq<Node<T>>, qsize: nat)
    requires y != [] && qsize > 0 && (x == [] || !Leq(cmp, x[0], y[0]))
    ensures out + Merge(cmp, x, Take(y, qsize)) == out + [y[0]] + Merge(cmp, x, Take(y[1..], qsize - 1))
    ensures Drop(y, qsize) == Drop(y[1..], qsize - 1)
  {
    var run := Take(y, qsize);
    assert run[1..] == Take(y[1..], qsize - 1);
    if x == [] {
      assert run == [y[0]] + run[1..];
    }
  }

  /** Step `k` nodes on from `p`, or to the end of the list. */
  method StepOff<T>(p: Node<T>, k: nat, ghost s: seq<Node<T>>) returns (q: Node?<T>, psize: nat)
    requires s != [] && p == s[0] && Ends(s) && k > 0
    ensures psize == |Take(s, k)| && q == First(Drop(s, k))
  {
    q, psize := p, 0;
    var i := 0;
    while i < k
      invariant 0 <= i <= k && i < |s| && psize == i && q == s[i]
    {
      psize := psize + 1;
      assert i < |s| - 1 ==> s[i].next == s[i + 1];
      q := q.next;
      if q == null {
        assert i == |s| - 1;
        break;
      }
      i := i + 1;
    }
  }

  lemma SplitApart<T>(out: seq<Node<T>>, y: seq<Node<T>>, k: nat)
    requires Apart(out, [], y)
    ensures Apart(out, Take(y, k), Drop(y, k))
    ensures NodesOf(out, Take(y, k), Drop(y, k)) == NodesOf(out, [], y)
  {
  }

  lemma SplitEnds<T>(y: seq<Node<T>>, k: nat)
    requires Ends(y)
    ensures Forward(Take(y, k)) && Ends(Drop(y, k))
  {
  }

  /** Merge the next two runs onto the output. */
  method MergePair<T>(cmp: Comparison<T>, head: Node?<T>, last: Node?<T>, p: Node<T>, k: nat,
                      ghost start: seq<Node<T>>, ghost y: seq<Node<T>>)
    returns (list: Node?<T>, tail: Node?<T>, q: Node?<T>, ghost out: seq<Node<T>>)
    requires y != [] && k > 0 && Merging(head, last, null, p, start, [], y)
    modifies NodesOf(start, [], y)
    ensures out == start + Merge(cmp, Take(y, k), Take(Drop(y, k), k))
    ensures Merging(list, tail, null, q, out, [], Drop(Drop(y, k), k))
    ensures NodesOf(out, [], Drop(Drop(y, k), k)) == NodesOf(start, [], y)
  {
    var second, psize := StepOff(p, k, y);
    SplitApart(start, y, k);
    SplitEnds(y, k);
    hide Forward, Backward, Ends, Apart, NodesOf;
    list, tail, q, out := MergeRuns(cmp, head, last, p, second, psize, k, start, Take(y, k), Drop(y, k));
  }

  /** Close the list: the head points back to the tail, the tail ends it. */
  method Close<T>(list: Node<T>, tail: Node<T>, ghost out: seq<Node<T>>)
    requires Merging(list, tail, null, null, out, [], [])
    modifies list, tail
    ensures IsList(list, out)
  {
    list.prev := tail;
    tail.next := null;
  }

  lemma MergingEnds<T>(list: Node?<T>, tail: Node?<T>, p: Node?<T>, q: Node?<T>, out: seq<Node<T>>, x: seq<Node<T>>,
                       y: seq<Node<T>>)
    requires Merging(list, tail, p, q, out, x, y)
    ensures q == First(y) && list == First(out) && tail == Last(out)
  {
  }

  /** The output so far and a pass over the rest make up the whole pass. */
  ghost predicate PassUnderWay<T>(cmp: Comparison<T>, s: seq<Node<T>>, out: seq<Node<T>>, y: seq<Node<T>>, k: nat)
    requires k > 0
  {
    out + Pass(cmp, y, k) == Pass(cmp, s, k)
  }

  lemma RoundLengths<T>(cmp: Comparison<T>, y: seq<Node<T>>, k: nat)
    requires k > 0 && y != []
    ensures
      && |Merge(cmp, Take(y, k), Take(Drop(y, k), k))| + |Drop(Drop(y, k), k)| == |y|
      && |Drop(Drop(y, k), k)| < |y|
      && |Merge(cmp, Take(y, k), Take(Drop(y, k), k))| == if |y| <= 2 * k then |y| else 2 * k
  {
    MergeContent(cmp, Take(y, k), Take(Drop(y, k), k));
  }

  lemma PassRound<T>(cmp: Comparison<T>, s: seq<Node<T>>, out: seq<Node<T>>, y: seq<Node<T>>, k: nat)
    requires k > 0 && y != [] && PassUnderWay(cmp, s, out, y, k)
    ensures PassUnderWay(cmp, s, out + Merge(cmp, Take(y, k), Take(Drop(y, k), k)), Drop(Drop(y, k), k), k)
  {
  }

  lemma PassDone<T>(cmp: Comparison<T>, s: seq<Node<T>>, out: seq<Node<T>>, k: nat)
    requires k > 0
    ensures PassUnderWay(cmp, s, [], s, k)
    ensures PassUnderWay(cmp, s, out, [], k) ==> out == Pass(cmp, s, k)
  {
  }

  /** One round of the macro's outer loop: merge all pairs of runs of length `k`. */
  method MergePass<T>(cmp: Comparison<T>, head: Node<T>, k: nat, ghost s: seq<Node<T>>)
    returns (list: Node<T>, nmerges: nat, ghost r: seq<Node<T>>)
    requires k > 0 && IsList(head, s)
    modifies NodesOf([], [], s)
    ensures r == Pass(cmp, s, k) && |r| == |s| && NodesOf(r, [], []) == NodesOf([], [], s)
    ensures IsList(list, r)
    ensures nmerges <= 1 <==> |s| <= 2 * k
  {
    var p: Node?<T> := head;
    var chain: Node?<T>, tail: Node?<T> := null, null;
    nmerges := 0;
    ghost var out: seq<Node<T>>, y := [], s;
    assert Merging(chain, tail, null, p, out, [], y);
    assert s != [];
    PassDone(cmp, s, out, k);
    hide IsList, NodesOf, Merging, Merge, Pass, PassUnderWay, Take, Drop;
    while p != null
      invariant Merging(chain, tail, null, p, out, [], y)
      invariant p == First(y) && chain == First(out) && tail == Last(out)
      invariant NodesOf(out, [], y) == NodesOf([], [], s)
      invariant PassUnderWay(cmp, s, out, y, k) && |out| + |y| == |s|
      invariant nmerges == 0 ==> out == []
      invariant nmerges == 1 ==> |out| == if |s| <= 2 * k then |s| else 2 * k
      invariant nmerges > 1 ==> |s| > 2 * k
      decreases |y|
    {
      nmerges := nmerges + 1;
      PassRound(cmp, s, out, y, k);
      RoundLengths(cmp, y, k);
      chain, tail, p, out := MergePair(cmp, chain, tail, p, k, out, y);
      y := Drop(Drop(y, k), k);
      MergingEnds(chain, tail, null, p, out, [], y);
    }
    r := out;
    PassDone(cmp, s, r, k);
    InNodes(r, s);
    Close(chain, tail, r);
    list := chain;
  }

  lemma InNodes<T>(r: seq<Node<T>>, s: seq<Node<T>>)
    requires NodesOf(r, [], []) == NodesOf([], [], s)
    ensures forall n | n in r :: n in NodesOf([], [], s)
  {
  }

  lemma PassStableCopy<T(!new)>(cmp: Comparison<T>, s: seq<Node<T>>, r: seq<Node<T>>, k: nat)
    requires k > 0 && TotalPreorder(cmp) && RunsSorted(cmp, r, k) && StableCopy(cmp, s, r)
    ensures StableCopy(cmp, s, Pass(cmp, r, k))
  {
    forall g: T
      ensures RankedWith(cmp, g, Pass(cmp, r, k)) == RankedWith(cmp, g, s)
    {
      PassStable(cmp, g, r, k);
    }
  }

  lemma SortStart<T(!new)>(cmp: Comparison<T>, head: Node?<T>, s: seq<Node<T>>)
    requires TotalPreorder(cmp) && IsList(head, s)
    ensures StableCopy(cmp, s, s) && RunsSorted(cmp, s, 1)
    ensures head == null <==> s == []
    ensures head == null ==> Sorted(cmp, s)
  {
    SingletonsSorted(cmp, s);
  }

  lemma HeadOfList<T>(head: Node?<T>, s: seq<Node<T>>)
    requires IsList(head, s)
    ensures head == null <==> s == []
  {
  }

  lemma SameNodes<T>(r: seq<Node<T>>)
    ensures NodesOf(r, [], []) == NodesOf([], [], r)
  {
  }

  /**
   * DL_SORT2: the result is a well-formed list of the same nodes, sorted, with
   * equal nodes in their old order.
   */
  method Sort<T(!new)>(cmp: Comparison<T>, head: Node?<T>, ghost s: seq<Node<T>>)
    returns (list: Node?<T>, ghost r: seq<Node<T>>)
    requires TotalPreorder(cmp) && IsList(head, s)
    modifies NodesOf([], [], s)
    ensures IsList(list, r)
    ensures Sorted(cmp, r) && multiset(r) == multiset(s) && StableCopy(cmp, s, r)
  {
    hide TotalPreorder, RunsSorted, NodesOf, StableCopy, IsList, Pass, Sorted;
    list, r := head, s;
    SortStart(cmp, head, s);
    if list == null {
      return;
    }
    var insize := 1;
    var looping := true;
    while looping
      invariant list != null && IsList(list, r) && insize > 0
      invariant NodesOf([], [], r) == NodesOf([], [], s) && |r| == |s|
      invariant multiset(r) == multiset(s) && StableCopy(cmp, s, r)
      invariant RunsSorted(cmp, r, insize)
      invariant looping ==> insize == 1 || insize < |s|
      invariant !looping ==> |s| <= insize
      decreases looping, if looping then |s| - insize else 0
    {
      ghost var before := r;
      var nmerges;
      PassContent(cmp, before, insize);
      PassSorted(cmp, before, insize);
      PassStableCopy(cmp, s, before, insize);
      list, nmerges, r := MergePass(cmp, list, insize, before);
      SameNodes(r);
      HeadOfList(list, r);
      if nmerges <= 1 {
        looping := false;
      }
      insize := insize * 2;
    }
    OneRunSorted(cmp, r, insize);
  }
}
