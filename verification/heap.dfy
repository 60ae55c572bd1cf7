/** Heap's algorithm as `tspBrute` runs it (the inner `heap(a, k)` of
    backend/src/services/routeFinderAlgorithm.js).

    The source mutates one array in place and pushes a copy of it whenever
    `k === 1`.  Here a run returns the copies it pushed, in order, together
    with the array as the run leaves it, because the next call starts from
    there.  A run on the first `k` positions never touches the positions
    from `k` on, and only permutes the first `k` among themselves
    (`IsArrangement`). */
module HeapPermutations {
  import opened Seqs

  datatype HeapRun = HeapRun(perms: seq<seq<nat>>, final: seq<nat>)

  /** `[a[i], a[j]] = [a[j], a[i]]` */
  function Swap(a: seq<nat>, i: nat, j: nat): (r: seq<nat>)
    requires i < |a| && j < |a|
    ensures |r| == |a| && r[i] == a[j] && r[j] == a[i]
  {
    a[i := a[j]][j := a[i]]
  }

  /** Which position is swapped with `k - 1` in iteration `i`: `i` when `k` is even, else 0. */
  function SwapIndex(k: nat, i: nat): (r: nat)
    requires i < k
    ensures r < k
  {
    if k % 2 == 0 then i else 0
  }

  /** `heap(a, k)` */
  function Heap(a: seq<nat>, k: nat): (r: HeapRun)
    requires 1 <= k <= |a|
    ensures |r.final| == |a|
    decreases k, 1, 0
  {
    if k == 1 then HeapRun([a], a)
    else
      var first := Heap(a, k - 1);
      var rest := HeapLoop(first.final, k, 0);
      HeapRun(first.perms + rest.perms, rest.final)
  }

  /** `for (let i = ...; i < k - 1; i++) { swap; heap(a, k - 1); }` from iteration `i` on. */
  function HeapLoop(c: seq<nat>, k: nat, i: nat): (r: HeapRun)
    requires 2 <= k <= |c| && i < k
    ensures |r.final| == |c|
    decreases k, 0, k - i
  {
    if i == k - 1 then HeapRun([], c)
    else
      var sub := Heap(Swap(c, SwapIndex(k, i), k - 1), k - 1);
      var rest := HeapLoop(sub.final, k, i + 1);
      HeapRun(sub.perms + rest.perms, rest.final)
  }

  /** `p` is `a` with its first `k` entries reordered and the rest untouched. */
  predicate IsArrangement(p: seq<nat>, a: seq<nat>, k: nat) {
    |p| == |a| && k <= |a| && p[k..] == a[k..] && multiset(p[..k]) == multiset(a[..k])
  }

  // ---------------------------------------------------------------------------
  // Arrangements
  // ---------------------------------------------------------------------------

  lemma ArrangementTrans(p: seq<nat>, b: seq<nat>, a: seq<nat>, k: nat)
    requires IsArrangement(p, b, k) && IsArrangement(b, a, k)
    ensures IsArrangement(p, a, k)
  {
  }

  lemma ArrangementSym(p: seq<nat>, a: seq<nat>, k: nat)
    requires IsArrangement(p, a, k)
    ensures IsArrangement(a, p, k)
  {
  }

  /** Reordering the first `k` is also reordering the first `k + 1`. */
  lemma ArrangementWiden(p: seq<nat>, a: seq<nat>, k: nat)
    requires IsArrangement(p, a, k) && k < |a|
    ensures IsArrangement(p, a, k + 1)
  {
    assert p[k..] == [p[k]] + p[k + 1..];
    assert a[k..] == [a[k]] + a[k + 1..];
    assert p[..k + 1] == p[..k] + [p[k]];
    assert a[..k + 1] == a[..k] + [a[k]];
  }

  /** An arrangement of the first `k` that keeps position `k - 1` arranges the first `k - 1`. */
  lemma ArrangementNarrow(p: seq<nat>, a: seq<nat>, k: nat)
    requires IsArrangement(p, a, k) && k >= 1 && p[k - 1] == a[k - 1]
    ensures IsArrangement(p, a, k - 1)
  {
    assert p[..k] == p[..k - 1] + [p[k - 1]];
    assert a[..k] == a[..k - 1] + [a[k - 1]];
    assert multiset(p[..k]) == multiset{p[k - 1]} + multiset(p[..k - 1]);
    assert multiset(a[..k]) == multiset{p[k - 1]} + multiset(a[..k - 1]);
    AddCancel(p[k - 1], multiset(p[..k - 1]), multiset(a[..k - 1]));
    assert p[k - 1..] == [p[k - 1]] + p[k..];
    assert a[k - 1..] == [a[k - 1]] + a[k..];
  }

  lemma SwapArranges(a: seq<nat>, i: nat, j: nat, k: nat)
    requires i < k && j < k && k <= |a|
    ensures IsArrangement(Swap(a, i, j), a, k)
  {
    var r := Swap(a, i, j);
    assert r[k..] == a[k..];
    assert r[..k] == a[..k][i := a[j]][j := a[i]];
  }

  /** No repeats among the first `k` carries over to any arrangement of them. */
  lemma ArrangementNoDuplicates(p: seq<nat>, a: seq<nat>, k: nat)
    requires IsArrangement(p, a, k) && NoDuplicates(a[..k])
    ensures NoDuplicates(p[..k])
  {
    NoDuplicatesMultiset(a[..k]);
    NoDuplicatesMultiset(p[..k]);
  }

  // ---------------------------------------------------------------------------
  // Every run emits k! arrangements
  // ---------------------------------------------------------------------------

  /** Every copy `r` pushed, and the array it leaves behind, arranges the first `k` of `a`. */
  predicate RunArranges(r: HeapRun, a: seq<nat>, k: nat) {
    (forall p :: p in r.perms ==> IsArrangement(p, a, k)) && IsArrangement(r.final, a, k)
  }

  /** Every pushed copy, and the array left behind, is an arrangement of the first `k`. */
  lemma HeapArranges(a: seq<nat>, k: nat)
    requires 1 <= k <= |a|
    ensures forall p :: p in Heap(a, k).perms ==> IsArrangement(p, a, k)
    ensures IsArrangement(Heap(a, k).final, a, k)
  {
    HeapRunArranges(a, k);
  }

  lemma {:induction false} HeapRunArranges(a: seq<nat>, k: nat)
    requires 1 <= k <= |a|
    ensures RunArranges(Heap(a, k), a, k)
    decreases k, 1, 0
  {
    if k > 1 {
      var first := Heap(a, k - 1);
      var rest := HeapLoop(first.final, k, 0);
      HeapRunArranges(a, k - 1);
      LoopRunArranges(first.final, k, 0);
      ComposeRuns(a, a, first, rest, k);
    }
  }

  lemma {:induction false} LoopRunArranges(c: seq<nat>, k: nat, i: nat)
    requires 2 <= k <= |c| && i < k
    ensures RunArranges(HeapLoop(c, k, i), c, k)
    decreases k, 0, k - i
  {
    if i < k - 1 {
      var b := Swap(c, SwapIndex(k, i), k - 1);
      var sub := Heap(b, k - 1);
      var rest := HeapLoop(sub.final, k, i + 1);
      SwapArranges(c, SwapIndex(k, i), k - 1, k);
      HeapRunArranges(b, k - 1);
      LoopRunArranges(sub.final, k, i + 1);
      ComposeRuns(c, b, sub, rest, k);
      assert HeapLoop(c, k, i) == HeapRun(sub.perms + rest.perms, rest.final);
    }
  }

  /** A run on the first `k - 1` of `b` (an arrangement of `c`) followed by a
      run on the first `k` from where it left off only arranges the first `k` of `c`. */
  lemma ComposeRuns(c: seq<nat>, b: seq<nat>, sub: HeapRun, rest: HeapRun, k: nat)
    requires 2 <= k <= |b| && IsArrangement(b, c, k)
    requires RunArranges(sub, b, k - 1) && RunArranges(rest, sub.final, k)
    ensures RunArranges(HeapRun(sub.perms + rest.perms, rest.final), c, k)
  {
    ArrangementWiden(sub.final, b, k - 1);
    ArrangementTrans(sub.final, b, c, k);
    ArrangementsWiden(sub.perms, b, c, k);
    ArrangementsJoin(sub.perms, rest.perms, sub.final, c, k);
    ArrangementTrans(rest.final, sub.final, c, k);
  }

  /** Arrangements of the first `k - 1` of `b`, itself an arrangement of the first `k` of `c`,
      are arrangements of the first `k` of `c`. */
  lemma ArrangementsWiden(ps: seq<seq<nat>>, b: seq<nat>, c: seq<nat>, k: nat)
    requires 1 <= k <= |b|
    requires forall p :: p in ps ==> IsArrangement(p, b, k - 1)
    requires IsArrangement(b, c, k)
    ensures forall p :: p in ps ==> IsArrangement(p, c, k)
  {
    forall p | p in ps
      ensures IsArrangement(p, c, k)
    {
      ArrangementWiden(p, b, k - 1);
      ArrangementTrans(p, b, c, k);
    }
  }

  /** Copies pushed before and after reaching `mid` are all arrangements of `c`. */
  lemma ArrangementsJoin(ps: seq<seq<nat>>, qs: seq<seq<nat>>, mid: seq<nat>, c: seq<nat>, k: nat)
    requires forall p :: p in ps ==> IsArrangement(p, c, k)
    requires forall p :: p in qs ==> IsArrangement(p, mid, k)
    requires IsArrangement(mid, c, k)
    ensures forall p :: p in ps + qs ==> IsArrangement(p, c, k)
  {
    forall p | p in qs
      ensures IsArrangement(p, c, k)
    {
      ArrangementTrans(p, mid, c, k);
    }
  }

  lemma {:induction false} HeapCount(a: seq<nat>, k: nat)
    requires 1 <= k <= |a|
    ensures |Heap(a, k).perms| == Factorial(k)
    decreases k, 1, 0
  {
    if k > 1 {
      var f := Factorial(k - 1);
      HeapCount(a, k - 1);
      HeapLoopCount(Heap(a, k - 1).final, k, 0);
      assert f + (k - 1) * f == k * f;
    }
  }

  lemma {:induction false} HeapLoopCount(c: seq<nat>, k: nat, i: nat)
    requires 2 <= k <= |c| && i < k
    ensures |HeapLoop(c, k, i).perms| == (k - 1 - i) * Factorial(k - 1)
    decreases k, 0, k - i
  {
    if i < k - 1 {
      var f := Factorial(k - 1);
      var b := Swap(c, SwapIndex(k, i), k - 1);
      HeapCount(b, k - 1);
      HeapLoopCount(Heap(b, k - 1).final, k, i + 1);
      assert f + (k - 1 - (i + 1)) * f == (k - 1 - i) * f;
    }
  }

  // ---------------------------------------------------------------------------
  // A run of size k as k runs of size k - 1
  // ---------------------------------------------------------------------------

  /** The array the `i`-th inner call `heap(a, k - 1)` starts from. */
  function Starts(a: seq<nat>, k: nat, i: nat): (r: seq<nat>)
    requires 2 <= k <= |a| && i < k
    ensures |r| == |a|
    decreases i
  {
    if i == 0 then a
    else Swap(Heap(Starts(a, k, i - 1), k - 1).final, SwapIndex(k, i - 1), k - 1)
  }

  /** What the `i`-th inner call pushes. */
  function Block(a: seq<nat>, k: nat, i: nat): seq<seq<nat>>
    requires 2 <= k <= |a| && i < k
  {
    Heap(Starts(a, k, i), k - 1).perms
  }

  /** What the inner calls from the `i`-th on push, in order. */
  function SubPerms(a: seq<nat>, k: nat, i: nat): seq<seq<nat>>
    requires 2 <= k <= |a| && i <= k
    decreases k - i
  {
    if i == k then [] else Block(a, k, i) + SubPerms(a, k, i + 1)
  }

  lemma {:induction false} LoopBySubCalls(a: seq<nat>, k: nat, i: nat)
    requires 2 <= k <= |a| && i < k
    ensures HeapLoop(Heap(Starts(a, k, i), k - 1).final, k, i)
         == HeapRun(SubPerms(a, k, i + 1), Heap(Starts(a, k, k - 1), k - 1).final)
    decreases k - i
  {
    if i < k - 1 {
      LoopBySubCalls(a, k, i + 1);
    }
  }

  lemma HeapBySubCalls(a: seq<nat>, k: nat)
    requires 2 <= k <= |a|
    ensures Heap(a, k).perms == SubPerms(a, k, 0)
    ensures Heap(a, k).final == Heap(Starts(a, k, k - 1), k - 1).final
  {
    LoopBySubCalls(a, k, 0);
  }

  lemma {:induction false} StartsArrange(a: seq<nat>, k: nat, i: nat)
    requires 2 <= k <= |a| && i < k
    ensures IsArrangement(Starts(a, k, i), a, k)
    decreases i
  {
    if i > 0 {
      var prev := Starts(a, k, i - 1);
      StartsNext(a, k, i - 1);
      StartsArrange(a, k, i - 1);
      StepArranges(prev, k, SwapIndex(k, i - 1));
      ArrangementTrans(Starts(a, k, i), prev, a, k);
    }
  }

  /** One inner call followed by one swap arranges the first `k`. */
  lemma StepArranges(prev: seq<nat>, k: nat, idx: nat)
    requires 2 <= k <= |prev| && idx < k
    ensures IsArrangement(Swap(Heap(prev, k - 1).final, idx, k - 1), prev, k)
  {
    var done := Heap(prev, k - 1).final;
    HeapArranges(prev, k - 1);
    ArrangementWiden(done, prev, k - 1);
    SwapArranges(done, idx, k - 1, k);
    ArrangementTrans(Swap(done, idx, k - 1), done, prev, k);
  }

  lemma {:induction false} SubPermsContain(a: seq<nat>, k: nat, i: nat, j: nat, p: seq<nat>)
    requires 2 <= k <= |a| && i <= j < k
    requires p in Block(a, k, j)
    ensures p in SubPerms(a, k, i)
    decreases j - i
  {
    if i < j {
      SubPermsContain(a, k, i + 1, j, p);
    }
  }

  // ---------------------------------------------------------------------------
  // Exactly every arrangement once
  // ---------------------------------------------------------------------------

  /** The k inner calls start with k different values in position `k - 1`.
      This is the fact about the swap schedule that makes the algorithm work. */
  predicate DistinctLasts(a: seq<nat>, k: nat)
    requires 2 <= k <= |a|
  {
    forall i, j :: 0 <= i < j < k ==> Starts(a, k, i)[k - 1] != Starts(a, k, j)[k - 1]
  }

  lemma StartsNext(a: seq<nat>, k: nat, i: nat)
    requires 2 <= k <= |a| && i + 1 < k
    ensures Starts(a, k, i + 1) == Swap(Heap(Starts(a, k, i), k - 1).final, SwapIndex(k, i), k - 1)
  {
  }

  /** `heap(x, 2)` leaves the first two entries swapped. */
  lemma HeapFinal2(x: seq<nat>)
    requires 2 <= |x|
    ensures Heap(x, 2).final[0] == x[1] && Heap(x, 2).final[1] == x[0]
  {
  }

  lemma ThreeStart1(x: seq<nat>)
    requires 3 <= |x|
    ensures Starts(x, 3, 1)[0] == x[2] && Starts(x, 3, 1)[1] == x[0] && Starts(x, 3, 1)[2] == x[1]
  {
    StartsNext(x, 3, 0);
    HeapFinal2(x);
  }

  lemma ThreeStart2(x: seq<nat>)
    requires 3 <= |x|
    ensures Starts(x, 3, 2)[0] == x[1] && Starts(x, 3, 2)[1] == x[2] && Starts(x, 3, 2)[2] == x[0]
  {
    StartsNext(x, 3, 1);
    ThreeStart1(x);
    HeapFinal2(Starts(x, 3, 1));
  }

  /** `heap(x, 3)` leaves the first and third entries swapped. */
  lemma HeapFinal3(x: seq<nat>)
    requires 3 <= |x|
    ensures Heap(x, 3).final[0] == x[2] && Heap(x, 3).final[1] == x[1] && Heap(x, 3).final[2] == x[0]
  {
    HeapBySubCalls(x, 3);
    ThreeStart2(x);
    HeapFinal2(Starts(x, 3, 2));
  }

  lemma FourStart1(x: seq<nat>)
    requires 4 <= |x|
    ensures Starts(x, 4, 1)[3] == x[2] && Starts(x, 4, 1)[1] == x[1] && Starts(x, 4, 1)[2] == x[0]
  {
    StartsNext(x, 4, 0);
    HeapFinal3(x);
  }

  lemma FourStart2(x: seq<nat>)
    requires 4 <= |x|
    ensures Starts(x, 4, 2)[3] == x[1] && Starts(x, 4, 2)[0] == x[0]
  {
    var s1 := Starts(x, 4, 1);
    var f := Heap(s1, 3).final;
    StartsNext(x, 4, 1);
    assert SwapIndex(4, 1) == 1;
    assert Starts(x, 4, 2) == Swap(f, 1, 3);
    FourStart1(x);
    HeapFinal3(s1);
  }

  lemma FourStart3(x: seq<nat>)
    requires 4 <= |x|
    ensures Starts(x, 4, 3)[3] == x[0]
  {
    var s2 := Starts(x, 4, 2);
    var f := Heap(s2, 3).final;
    StartsNext(x, 4, 2);
    assert SwapIndex(4, 2) == 2;
    assert Starts(x, 4, 3) == Swap(f, 2, 3);
    FourStart2(x);
    HeapFinal3(s2);
  }

  /** The swap schedule puts distinct values last for k = 2, 3 and 4. */
  lemma DistinctLastsSmall(a: seq<nat>, k: nat)
    requires 2 <= k <= |a| && k <= 4 && NoDuplicates(a[..k])
    ensures DistinctLasts(a, k)
  {
    LastsReversed(a, k);
    forall i, j | 0 <= i < j < k
      ensures Starts(a, k, i)[k - 1] != Starts(a, k, j)[k - 1]
    {
      assert a[..k][k - 1 - i] == a[k - 1 - i] && a[..k][k - 1 - j] == a[k - 1 - j];
    }
  }

  /** Inner call `i` of `heap(a, k)` starts with `a[k - 1 - i]` last, for k <= 4. */
  lemma LastsReversed(a: seq<nat>, k: nat)
    requires 2 <= k <= |a| && k <= 4
    ensures forall i :: 0 <= i < k ==> Starts(a, k, i)[k - 1] == a[k - 1 - i]
  {
    assert Starts(a, k, 0) == a;
    if k == 2 {
      StartsNext(a, 2, 0);
    } else if k == 3 {
      ThreeStart1(a);
      ThreeStart2(a);
    } else {
      FourStart1(a);
      FourStart2(a);
      FourStart3(a);
    }
  }

  /** For k <= 4, and first `k` entries without repeats, `heap(a, k)` pushes
      every arrangement of the first `k` entries, each exactly once. */
  lemma {:induction false} HeapExact(a: seq<nat>, k: nat)
    requires 1 <= k <= |a| && k <= 4 && NoDuplicates(a[..k])
    ensures NoDuplicates(Heap(a, k).perms)
    ensures forall q :: IsArrangement(q, a, k) ==> q in Heap(a, k).perms
    decreases k, 2
  {
    if k == 1 {
      forall q | IsArrangement(q, a, 1)
        ensures q in Heap(a, 1).perms
      {
        assert q[..1] == [q[0]] && a[..1] == [a[0]];
        assert multiset(q[..1])[a[0]] == 1;
        assert q == [q[0]] + q[1..] && a == [a[0]] + a[1..];
      }
    } else {
      HeapBySubCalls(a, k);
      DistinctLastsSmall(a, k);
      SubPermsDistinct(a, k, 0);
      forall q | IsArrangement(q, a, k)
        ensures q in Heap(a, k).perms
      {
        HeapCompleteOne(a, k, q);
      }
    }
  }

  /** Each arrangement is pushed by the inner call whose start has its last entry last. */
  lemma {:induction false} HeapCompleteOne(a: seq<nat>, k: nat, q: seq<nat>)
    requires 2 <= k <= |a| && k <= 4 && NoDuplicates(a[..k])
    requires IsArrangement(q, a, k)
    ensures q in SubPerms(a, k, 0)
    decreases k, 1
  {
    LastFound(a, k, q);
    var j :| 0 <= j < k && Starts(a, k, j)[k - 1] == q[k - 1];
    var b := Starts(a, k, j);
    StartsArrange(a, k, j);
    ArrangementSym(b, a, k);
    ArrangementTrans(q, a, b, k);
    ArrangementNarrow(q, b, k);
    ArrangementNoDuplicates(b, a, k);
    assert b[..k - 1] == b[..k][..k - 1];
    HeapExact(b, k - 1);
    SubPermsContain(a, k, 0, j, q);
  }

  /** Some inner call starts with the last entry of `q` last. */
  lemma LastFound(a: seq<nat>, k: nat, q: seq<nat>)
    requires 2 <= k <= |a| && k <= 4 && NoDuplicates(a[..k])
    requires IsArrangement(q, a, k)
    ensures exists j :: 0 <= j < k && Starts(a, k, j)[k - 1] == q[k - 1]
  {
    DistinctLastsSmall(a, k);
    var lasts := seq(k, j requires 0 <= j < k => Starts(a, k, j)[k - 1]);
    forall x | x in lasts
      ensures x in a[..k]
    {
      var j :| 0 <= j < k && lasts[j] == x;
      StartsArrange(a, k, j);
      assert x == Starts(a, k, j)[..k][k - 1];
      assert x in multiset(Starts(a, k, j)[..k]);
    }
    Pigeonhole(lasts, a[..k]);
    assert q[k - 1] == q[..k][k - 1];
    assert q[k - 1] in multiset(a[..k]);
    assert q[k - 1] in lasts;
  }

  /** Everything the `i`-th inner call pushes has that call's start value last. */
  lemma BlockLast(a: seq<nat>, k: nat, i: nat)
    requires 2 <= k <= |a| && i < k
    ensures forall p :: p in Block(a, k, i) ==>
              |p| == |a| && p[k - 1] == Starts(a, k, i)[k - 1]
  {
    var b := Starts(a, k, i);
    HeapArranges(b, k - 1);
    forall p | p in Block(a, k, i)
      ensures |p| == |a| && p[k - 1] == b[k - 1]
    {
      assert p[k - 1..][0] == b[k - 1..][0];
    }
  }

  /** `p` has, last, the last entry of the start of one of the inner calls from the `i`-th on. */
  predicate LastAmongStarts(a: seq<nat>, k: nat, i: nat, p: seq<nat>)
    requires 2 <= k <= |a| && i <= k
  {
    |p| == |a| && exists j :: i <= j < k && p[k - 1] == Starts(a, k, j)[k - 1]
  }

  lemma {:induction false} SubPermsLasts(a: seq<nat>, k: nat, i: nat)
    requires 2 <= k <= |a| && i <= k
    ensures forall p :: p in SubPerms(a, k, i) ==> LastAmongStarts(a, k, i, p)
    decreases k - i
  {
    if i < k {
      var block := Block(a, k, i);
      var rest := SubPerms(a, k, i + 1);
      assert SubPerms(a, k, i) == block + rest;
      BlockLast(a, k, i);
      SubPermsLasts(a, k, i + 1);
      forall p | p in block + rest
        ensures LastAmongStarts(a, k, i, p)
      {
        if p in block {
          assert p[k - 1] == Starts(a, k, i)[k - 1];
        } else {
          assert LastAmongStarts(a, k, i + 1, p);
          var j :| i + 1 <= j < k && p[k - 1] == Starts(a, k, j)[k - 1];
        }
      }
    }
  }

  lemma {:induction false} SubPermsDistinct(a: seq<nat>, k: nat, i: nat)
    requires 2 <= k <= |a| && i <= k && k <= 4
    requires NoDuplicates(a[..k]) && DistinctLasts(a, k)
    ensures NoDuplicates(SubPerms(a, k, i))
    decreases k, 0, k - i
  {
    if i < k {
      var block := Block(a, k, i);
      var rest := SubPerms(a, k, i + 1);
      assert SubPerms(a, k, i) == block + rest;
      BlockDistinct(a, k, i);
      SubPermsDistinct(a, k, i + 1);
      BlockLast(a, k, i);
      LaterLastsDiffer(a, k, i);
      forall e | e in block
        ensures e !in rest
      {
        assert e[k - 1] == Starts(a, k, i)[k - 1];
      }
      NoDuplicatesAppend(block, rest);
    }
  }

  lemma {:induction false} BlockDistinct(a: seq<nat>, k: nat, i: nat)
    requires 2 <= k <= |a| && i < k && k <= 4 && NoDuplicates(a[..k])
    ensures NoDuplicates(Block(a, k, i))
    decreases k, 0, 0
  {
    var b := Starts(a, k, i);
    StartsArrange(a, k, i);
    ArrangementNoDuplicates(b, a, k);
    assert b[..k - 1] == b[..k][..k - 1];
    HeapExact(b, k - 1);
  }

  /** No later inner call pushes anything with the `i`-th start value last. */
  lemma LaterLastsDiffer(a: seq<nat>, k: nat, i: nat)
    requires 2 <= k <= |a| && i < k && DistinctLasts(a, k)
    ensures forall q :: q in SubPerms(a, k, i + 1) ==> |q| == |a| && q[k - 1] != Starts(a, k, i)[k - 1]
  {
    SubPermsLasts(a, k, i + 1);
    forall q | q in SubPerms(a, k, i + 1)
      ensures |q| == |a| && q[k - 1] != Starts(a, k, i)[k - 1]
    {
      assert LastAmongStarts(a, k, i + 1, q);
      var j :| i + 1 <= j < k && q[k - 1] == Starts(a, k, j)[k - 1];
    }
  }
}
