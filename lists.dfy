/**
 * Python list comprehensions of the form `[f(x) for x in xs if keep(f(x))]` and list
 * concatenation, with the facts the line cleaners and section parsers need about them.
 */
module Lists {
  import opened Wrappers

  /** `[f(x) for x in xs if keep(f(x))]`. */
  function KeepMapped<T, U>(xs: seq<T>, f: T -> U, keep: U -> bool): (r: seq<U>)
    ensures |r| <= |xs|
    ensures forall k :: 0 <= k < |r| ==> keep(r[k])
    decreases |xs|
  {
    if xs == [] then []
    else (if keep(f(xs[0])) then [f(xs[0])] else []) + KeepMapped(xs[1..], f, keep)
  }

  predicate StrictlyIncreasing(idx: seq<nat>) {
    forall a, b :: 0 <= a < b < |idx| ==> idx[a] < idx[b]
  }

  /**
   * idx lists, in increasing order, the positions of xs whose image is kept, and the
   * comprehension's result is the images at those positions.
   */
  predicate Selects<T, U(==)>(xs: seq<T>, f: T -> U, keep: U -> bool, idx: seq<nat>) {
    && |idx| == |KeepMapped(xs, f, keep)| && StrictlyIncreasing(idx)
    && (forall m :: 0 <= m < |idx| ==> idx[m] < |xs| && KeepMapped(xs, f, keep)[m] == f(xs[idx[m]]))
    && (forall i :: 0 <= i < |xs| && keep(f(xs[i])) ==> i in idx)
  }

  /** The comprehension keeps exactly the elements whose image is kept, in their original order. */
  lemma {:induction false} KeepMappedSelects<T, U>(xs: seq<T>, f: T -> U, keep: U -> bool) returns (idx: seq<nat>)
    ensures Selects(xs, f, keep, idx)
    decreases |xs|
  {
    if xs == [] {
      idx := [];
    } else {
      var tail := KeepMappedSelects(xs[1..], f, keep);
      var shifted := ShiftSelection(xs, f, keep, tail);
      idx := ExtendSelection(xs, f, keep, shifted);
    }
  }

  /** The positions for the whole list: position 0 if its image is kept, then the shifted ones. */
  lemma ExtendSelection<T, U>(xs: seq<T>, f: T -> U, keep: U -> bool, shifted: seq<nat>) returns (idx: seq<nat>)
    requires xs != []
    requires |shifted| == |KeepMapped(xs[1..], f, keep)| && StrictlyIncreasing(shifted)
    requires forall m :: 0 <= m < |shifted| ==> 1 <= shifted[m] < |xs| && KeepMapped(xs[1..], f, keep)[m] == f(xs[shifted[m]])
    requires forall i :: 1 <= i < |xs| && keep(f(xs[i])) ==> i in shifted
    ensures Selects(xs, f, keep, idx)
  {
    var rest := KeepMapped(xs[1..], f, keep);
    var r := KeepMapped(xs, f, keep);
    if keep(f(xs[0])) {
      idx := [0] + shifted;
      assert r == [f(xs[0])] + rest;
      forall m | 0 <= m < |idx|
        ensures idx[m] < |xs| && r[m] == f(xs[idx[m]])
      {
        if m > 0 {
          assert idx[m] == shifted[m - 1] && r[m] == rest[m - 1];
        }
      }
      ZeroThenIncreasing(shifted);
      forall i | 0 <= i < |xs| && keep(f(xs[i]))
        ensures i in idx
      {
        if i == 0 {
          assert idx[0] == 0;
        } else {
          assert i in shifted;
        }
      }
    } else {
      idx := shifted;
      assert r == rest;
    }
  }

  lemma ZeroThenIncreasing(s: seq<nat>)
    requires StrictlyIncreasing(s)
    requires forall m :: 0 <= m < |s| ==> s[m] >= 1
    ensures StrictlyIncreasing([0] + s)
  {
    var t := [0] + s;
    forall a, b | 0 <= a < b < |t|
      ensures t[a] < t[b]
    {
      assert t[b] == s[b - 1];
      if a > 0 {
        assert t[a] == s[a - 1];
      }
    }
  }

  /** The positions selected in the tail of a list, as positions in the whole list. */
  lemma ShiftSelection<T, U>(xs: seq<T>, f: T -> U, keep: U -> bool, tail: seq<nat>) returns (shifted: seq<nat>)
    requires xs != []
    requires Selects(xs[1..], f, keep, tail)
    ensures |shifted| == |KeepMapped(xs[1..], f, keep)| && StrictlyIncreasing(shifted)
    ensures forall m :: 0 <= m < |shifted| ==> 1 <= shifted[m] < |xs| && KeepMapped(xs[1..], f, keep)[m] == f(xs[shifted[m]])
    ensures forall i :: 1 <= i < |xs| && keep(f(xs[i])) ==> i in shifted
  {
    shifted := seq(|tail|, m requires 0 <= m < |tail| => tail[m] + 1);
    ShiftedImages(xs, f, keep, tail, shifted);
    ShiftedComplete(xs, f, keep, tail, shifted);
  }

  lemma ShiftedImages<T, U>(xs: seq<T>, f: T -> U, keep: U -> bool, tail: seq<nat>, shifted: seq<nat>)
    requires xs != []
    requires Selects(xs[1..], f, keep, tail)
    requires |shifted| == |tail| && forall m :: 0 <= m < |tail| ==> shifted[m] == tail[m] + 1
    ensures forall m :: 0 <= m < |shifted| ==> 1 <= shifted[m] < |xs| && KeepMapped(xs[1..], f, keep)[m] == f(xs[shifted[m]])
  {
    forall m | 0 <= m < |shifted|
      ensures 1 <= shifted[m] < |xs| && KeepMapped(xs[1..], f, keep)[m] == f(xs[shifted[m]])
    {
      assert xs[1..][tail[m]] == xs[shifted[m]];
    }
  }

  lemma ShiftedComplete<T, U>(xs: seq<T>, f: T -> U, keep: U -> bool, tail: seq<nat>, shifted: seq<nat>)
    requires xs != []
    requires Selects(xs[1..], f, keep, tail)
    requires |shifted| == |tail| && forall m :: 0 <= m < |tail| ==> shifted[m] == tail[m] + 1
    ensures forall i :: 1 <= i < |xs| && keep(f(xs[i])) ==> i in shifted
  {
    forall i | 1 <= i < |xs| && keep(f(xs[i]))
      ensures i in shifted
    {
      assert xs[1..][i - 1] == xs[i];
      assert i - 1 in tail;
      var m :| 0 <= m < |tail| && tail[m] == i - 1;
      assert shifted[m] == i;
    }
  }

  /** A property every image has, every element of the comprehension has. */
  lemma {:induction false} KeepMappedAll<T, U>(xs: seq<T>, f: T -> U, keep: U -> bool, p: U -> bool)
    requires forall i :: 0 <= i < |xs| ==> p(f(xs[i]))
    ensures forall k :: 0 <= k < |KeepMapped(xs, f, keep)| ==> p(KeepMapped(xs, f, keep)[k])
    decreases |xs|
  {
    if xs != [] {
      assert forall i :: 0 <= i < |xs[1..]| ==> xs[1..][i] == xs[i + 1];
      KeepMappedAll(xs[1..], f, keep, p);
    }
  }

  /** A list whose every element is kept and is its own image passes through the comprehension unchanged. */
  lemma {:induction false} KeepMappedFixed<T>(xs: seq<T>, f: T -> T, keep: T -> bool)
    requires forall k :: 0 <= k < |xs| ==> keep(xs[k]) && f(xs[k]) == xs[k]
    ensures KeepMapped(xs, f, keep) == xs
    decreases |xs|
  {
    if xs != [] {
      KeepMappedFixed(xs[1..], f, keep);
      assert [xs[0]] + xs[1..] == xs;
    }
  }

  /** A list whose every image is kept comes out of the comprehension as all of its images. */
  lemma {:induction false} KeepMappedEvery<T, U>(xs: seq<T>, f: T -> U, keep: U -> bool)
    requires forall k :: 0 <= k < |xs| ==> keep(f(xs[k]))
    ensures KeepMapped(xs, f, keep) == seq(|xs|, k requires 0 <= k < |xs| => f(xs[k]))
    decreases |xs|
  {
    if xs != [] {
      KeepMappedEvery(xs[1..], f, keep);
    }
  }

  /** Concatenation of a list of lists (`sum(rows, [])`, numpy's flatten). */
  function Flatten<T>(xss: seq<seq<T>>): (r: seq<T>)
    decreases |xss|
  {
    if xss == [] then [] else xss[0] + Flatten(xss[1..])
  }

  lemma {:induction false} FlattenAppend<T>(xss: seq<seq<T>>, ys: seq<T>)
    ensures Flatten(xss + [ys]) == Flatten(xss) + ys
    decreases |xss|
  {
    if xss == [] {
      assert [ys][1..] == [];
    } else {
      assert (xss + [ys])[1..] == xss[1..] + [ys];
      FlattenAppend(xss[1..], ys);
    }
  }

  /** `[pick(x) for x in xs[:n] if pick(x) is not None]`, the picked values in order. */
  function Picked<T, U>(xs: seq<T>, n: nat, pick: T -> Option<U>): seq<U>
    requires n <= |xs|
  {
    if n == 0 then []
    else if pick(xs[n - 1]).Some? then Picked(xs, n - 1, pick) + [pick(xs[n - 1]).value]
    else Picked(xs, n - 1, pick)
  }

  /** When the first |ys| elements pick ys and the others pick nothing, the picked values are ys. */
  lemma {:induction false} PickedPrefix<T, U>(xs: seq<T>, n: nat, pick: T -> Option<U>, ys: seq<U>)
    requires |ys| <= |xs| && n <= |xs|
    requires forall k :: 0 <= k < |ys| ==> pick(xs[k]) == Some(ys[k])
    requires forall k :: |ys| <= k < |xs| ==> pick(xs[k]).None?
    ensures Picked(xs, n, pick) == if n <= |ys| then ys[..n] else ys
    decreases n
  {
    if n > 0 {
      PickedPrefix(xs, n - 1, pick, ys);
      if n <= |ys| {
        assert ys[..n] == ys[..n - 1] + [ys[n - 1]];
      } else if n - 1 == |ys| {
        assert ys[..n - 1] == ys;
      }
    }
  }

  /** When the first r elements pick nothing and the others pick ys, the picked values are ys. */
  lemma {:induction false} PickedSuffix<T, U>(xs: seq<T>, n: nat, pick: T -> Option<U>, r: nat, ys: seq<U>)
    requires r + |ys| == |xs| && n <= |xs|
    requires forall k :: 0 <= k < r ==> pick(xs[k]).None?
    requires forall j :: 0 <= j < |ys| ==> pick(xs[r + j]) == Some(ys[j])
    ensures Picked(xs, n, pick) == if n <= r then [] else ys[..n - r]
    decreases n
  {
    if n > 0 {
      PickedSuffix(xs, n - 1, pick, r, ys);
      if n > r {
        var j := n - 1 - r;
        assert xs[n - 1] == xs[r + j];
        assert ys[..n - r] == ys[..j] + [ys[j]];
      }
    }
  }

  /** Picking over a + b, where nothing of a is picked and b picks ys, gives ys. */
  lemma PickedAfter<T, U>(a: seq<T>, b: seq<T>, pick: T -> Option<U>, ys: seq<U>)
    requires |b| == |ys|
    requires forall k :: 0 <= k < |a| ==> pick(a[k]).None?
    requires forall j :: 0 <= j < |b| ==> pick(b[j]) == Some(ys[j])
    ensures Picked(a + b, |a + b|, pick) == ys
  {
    var xs := a + b;
    forall k | 0 <= k < |a| ensures pick(xs[k]).None? {
      assert xs[k] == a[k];
    }
    forall j | 0 <= j < |ys| ensures pick(xs[|a| + j]) == Some(ys[j]) {
      assert xs[|a| + j] == b[j];
    }
    PickedSuffix(xs, |xs|, pick, |a|, ys);
    assert ys[..|xs| - |a|] == ys;
  }
}
