/**
 * The dictionary-filling loops of the readers, over an abstract entry function: one that stores
 * every entry (later keys overwrite earlier ones), one that refuses a key already present, and a
 * general one whose step may fail. The facts about them are proved once here, with the parsers
 * kept out of sight.
 */
module Stores {
  import opened Wrappers
  import opened Lists

  /** `for x in xs[:n]: k, v = f(x); d[k] = v`, stopping at the first failing entry. */
  function StoreAll<T, K, V>(xs: seq<T>, n: nat, f: T -> Result<(K, V)>): Result<map<K, V>>
    requires n <= |xs|
  {
    if n == 0 then Ok(map[])
    else match StoreAll(xs, n - 1, f)
      case Err(e) => Err(e)
      case Ok(m) =>
        match f(xs[n - 1])
        case Err(e) => Err(e)
        case Ok(kv) => Ok(m[kv.0 := kv.1])
  }

  /** When every entry succeeds, the keys are exactly the entries' keys. */
  lemma {:induction false} StoreAllKeys<T, K, V>(xs: seq<T>, n: nat, f: T -> Result<(K, V)>)
    requires n <= |xs| && forall i :: 0 <= i < n ==> f(xs[i]).Ok?
    ensures StoreAll(xs, n, f).Ok?
    ensures forall i :: 0 <= i < n ==> f(xs[i]).value.0 in StoreAll(xs, n, f).value
    ensures forall k :: k in StoreAll(xs, n, f).value ==> exists i :: 0 <= i < n && f(xs[i]).value.0 == k
  {
    if n > 0 {
      StoreAllKeys(xs, n - 1, f);
    }
  }

  /** The value stored under a key is the one of its last entry. */
  lemma {:induction false} StoreAllLastWins<T, K, V>(xs: seq<T>, n: nat, f: T -> Result<(K, V)>, i: nat)
    requires i < n <= |xs| && forall j :: 0 <= j < n ==> f(xs[j]).Ok?
    requires forall j :: i < j < n ==> f(xs[j]).value.0 != f(xs[i]).value.0
    ensures StoreAll(xs, n, f).Ok? && f(xs[i]).value.0 in StoreAll(xs, n, f).value
    ensures StoreAll(xs, n, f).value[f(xs[i]).value.0] == f(xs[i]).value.1
    decreases n
  {
    StoreAllKeys(xs, n, f);
    StoreAllKeys(xs, n - 1, f);
    if i < n - 1 {
      StoreAllLastWins(xs, n - 1, f, i);
    }
  }

  /** The last step of a fold whose earlier steps have not failed. */
  lemma FoldLast<S, T>(xs: seq<T>, n: nat, init: S, step: (S, T) -> Result<S>, s: S)
    requires 0 < n <= |xs| && Fold(xs, n - 1, init, step) == Ok(s)
    ensures Fold(xs, n, init, step) == step(s, xs[n - 1])
  {
  }

  /** Every state satisfying `holds` still satisfies it after a step on `x` that succeeds. */
  ghost predicate Keeps<S(!new), T>(step: (S, T) -> Result<S>, holds: S -> bool, x: T) {
    forall s :: holds(s) && step(s, x).Ok? ==> holds(step(s, x).value)
  }

  /**
   * A property of the state after `m` steps that every later step keeps holds at the end of a
   * fold that succeeds.
   */
  lemma {:induction false} FoldKeeps<S(!new), T>(xs: seq<T>, m: nat, n: nat, init: S, step: (S, T) -> Result<S>, holds: S -> bool)
    requires m <= n <= |xs| && Fold(xs, n, init, step).Ok?
    requires Fold(xs, m, init, step).Ok? && holds(Fold(xs, m, init, step).value)
    requires forall j :: m <= j < n ==> Keeps(step, holds, xs[j])
    ensures holds(Fold(xs, n, init, step).value)
    decreases n - m
  {
    if m < n {
      var l: nat := n - 1;
      FoldOkBefore(xs, l, n, init, step);
      FoldKeeps(xs, m, l, init, step, holds);
      assert Keeps(step, holds, xs[l]);
    }
  }

  /** Once the loop has failed, it stays failed with the same error. */
  lemma {:induction false} StoreAllErrorStays<T, K, V>(xs: seq<T>, m: nat, n: nat, f: T -> Result<(K, V)>)
    requires m <= n <= |xs| && StoreAll(xs, m, f).Err?
    ensures StoreAll(xs, n, f) == StoreAll(xs, m, f)
    decreases n - m
  {
    if m < n {
      StoreAllErrorStays(xs, m, n - 1, f);
    }
  }

  /**
   * `for x in xs[:n]: v = val(x, d); if key(x) in d: raise clash(key(x)); d[key(x)] = v`, starting
   * from init; the value function sees the dictionary filled so far and is evaluated first.
   */
  function StoreFresh<T, K, V>(xs: seq<T>, n: nat, init: map<K, V>, key: T -> K, val: (T, map<K, V>) -> Result<V>, clash: K -> Error): Result<map<K, V>>
    requires n <= |xs|
  {
    if n == 0 then Ok(init)
    else match StoreFresh(xs, n - 1, init, key, val, clash)
      case Err(e) => Err(e)
      case Ok(m) =>
        match val(xs[n - 1], m)
        case Err(e) => Err(e)
        case Ok(v) => if key(xs[n - 1]) in m then Err(clash(key(xs[n - 1]))) else Ok(m[key(xs[n - 1]) := v])
  }

  /**
   * A successful loop saw no key of init and no key twice, kept init unchanged, and added exactly
   * the entries' keys.
   */
  lemma {:induction false} StoreFreshKeys<T, K, V>(xs: seq<T>, n: nat, init: map<K, V>, key: T -> K, val: (T, map<K, V>) -> Result<V>, clash: K -> Error)
    requires n <= |xs| && StoreFresh(xs, n, init, key, val, clash).Ok?
    ensures forall i :: 0 <= i < n ==> key(xs[i]) !in init
    ensures forall i, j :: 0 <= i < j < n ==> key(xs[i]) != key(xs[j])
    ensures forall k :: k in init ==>
      k in StoreFresh(xs, n, init, key, val, clash).value && StoreFresh(xs, n, init, key, val, clash).value[k] == init[k]
    ensures forall i :: 0 <= i < n ==> key(xs[i]) in StoreFresh(xs, n, init, key, val, clash).value
    ensures forall k :: k in StoreFresh(xs, n, init, key, val, clash).value ==> k in init || exists i :: 0 <= i < n && key(xs[i]) == k
  {
    if n > 0 {
      assert StoreFresh(xs, n - 1, init, key, val, clash).Ok?;
      StoreFreshKeys(xs, n - 1, init, key, val, clash);
    }
  }

  /** Once the loop has failed, it stays failed with the same error. */
  lemma {:induction false} StoreFreshErrorStays<T, K, V>(xs: seq<T>, m: nat, n: nat, init: map<K, V>, key: T -> K, val: (T, map<K, V>) -> Result<V>, clash: K -> Error)
    requires m <= n <= |xs| && StoreFresh(xs, m, init, key, val, clash).Err?
    ensures StoreFresh(xs, n, init, key, val, clash) == StoreFresh(xs, m, init, key, val, clash)
    decreases n - m
  {
    if m < n {
      StoreFreshErrorStays(xs, m, n - 1, init, key, val, clash);
    }
  }

  /** `s = init; for x in xs[:n]: s = step(s, x)`, stopping at the first failing step. */
  function Fold<S, T>(xs: seq<T>, n: nat, init: S, step: (S, T) -> Result<S>): Result<S>
    requires n <= |xs|
  {
    if n == 0 then Ok(init)
    else match Fold(xs, n - 1, init, step)
      case Err(e) => Err(e)
      case Ok(s) => step(s, xs[n - 1])
  }

  /** One more step of a fold that has not failed. */
  lemma FoldStep<S, T>(xs: seq<T>, n: nat, init: S, step: (S, T) -> Result<S>, s: S)
    requires n < |xs| && Fold(xs, n, init, step) == Ok(s)
    ensures Fold(xs, n + 1, init, step) == step(s, xs[n])
  {
  }

  /** Once the loop has failed, it stays failed with the same error. */
  lemma {:induction false} FoldErrorStays<S, T>(xs: seq<T>, m: nat, n: nat, init: S, step: (S, T) -> Result<S>)
    requires m <= n <= |xs| && Fold(xs, m, init, step).Err?
    ensures Fold(xs, n, init, step) == Fold(xs, m, init, step)
    decreases n - m
  {
    if m < n {
      FoldErrorStays(xs, m, n - 1, init, step);
    }
  }

  /** A loop that succeeded had succeeded at every earlier point. */
  lemma {:induction false} FoldOkBefore<S, T>(xs: seq<T>, m: nat, n: nat, init: S, step: (S, T) -> Result<S>)
    requires m <= n <= |xs| && Fold(xs, n, init, step).Ok?
    ensures Fold(xs, m, init, step).Ok?
    decreases n - m
  {
    if m < n {
      assert Fold(xs, n - 1, init, step).Ok?;
      FoldOkBefore(xs, m, n - 1, init, step);
    }
  }

  /**
   * `for x in xs[:n]: out += emit(p, x)`, where an entry that fails stops the loop: the output so
   * far, and the error if one stopped it.
   */
  function Emitted<P, T, L>(xs: seq<T>, n: nat, p: P, emit: (P, T) -> Result<seq<L>>): (seq<L>, Option<Error>)
    requires n <= |xs|
  {
    if n == 0 then ([], None)
    else
      var w := Emitted(xs, n - 1, p, emit);
      if w.1.Some? then w
      else match emit(p, xs[n - 1])
        case Err(e) => (w.0, Some(e))
        case Ok(ls) => (w.0 + ls, None)
  }

  /** Once an entry has failed the output stays as it was. */
  lemma {:induction false} EmittedErrorStays<P, T, L>(xs: seq<T>, m: nat, n: nat, p: P, emit: (P, T) -> Result<seq<L>>)
    requires m <= n <= |xs| && Emitted(xs, m, p, emit).1.Some?
    ensures Emitted(xs, n, p, emit) == Emitted(xs, m, p, emit)
    decreases n - m
  {
    if m < n {
      EmittedErrorStays(xs, m, n - 1, p, emit);
    }
  }

  /** Entries that each give one line ys[i] are written as the lines ys, in order. */
  lemma {:induction false} EmittedSingles<P, T, L>(xs: seq<T>, n: nat, p: P, emit: (P, T) -> Result<seq<L>>, ys: seq<L>)
    requires n <= |xs| && n <= |ys|
    requires forall i :: 0 <= i < n ==> emit(p, xs[i]) == Ok([ys[i]])
    ensures Emitted(xs, n, p, emit) == (ys[..n], None)
  {
    if n > 0 {
      EmittedSingles(xs, n - 1, p, emit, ys);
      assert ys[..n] == ys[..n - 1] + [ys[n - 1]];
    }
  }

  /** The loop ends without error exactly when every entry succeeds; an error is some entry's. */
  lemma {:induction false} EmittedOk<P, T, L>(xs: seq<T>, n: nat, p: P, emit: (P, T) -> Result<seq<L>>)
    requires n <= |xs|
    ensures Emitted(xs, n, p, emit).1.None? <==> forall i :: 0 <= i < n ==> emit(p, xs[i]).Ok?
    ensures Emitted(xs, n, p, emit).1.Some? ==> exists i :: 0 <= i < n && emit(p, xs[i]) == Err(Emitted(xs, n, p, emit).1.value)
  {
    if n > 0 {
      EmittedOk(xs, n - 1, p, emit);
    }
  }

  /**
   * Entries are written in order: the output for xs + ys is the output for xs followed by the
   * output for ys, unless xs already failed.
   */
  lemma {:induction false} EmittedConcat<P, T, L>(xs: seq<T>, ys: seq<T>, p: P, emit: (P, T) -> Result<seq<L>>)
    ensures var a := Emitted(xs, |xs|, p, emit);
      Emitted(xs + ys, |xs + ys|, p, emit) == if a.1.Some? then a else (a.0 + Emitted(ys, |ys|, p, emit).0, Emitted(ys, |ys|, p, emit).1)
    decreases |ys|
  {
    var a := Emitted(xs, |xs|, p, emit);
    if ys == [] {
      assert xs + ys == xs;
      assert a.0 + [] == a.0;
    } else {
      var ys' := ys[..|ys| - 1];
      assert xs + ys == (xs + ys') + [ys[|ys| - 1]];
      assert (xs + ys)[..|xs + ys| - 1] == xs + ys';
      assert ys[..|ys| - 1] == ys';
      EmittedPrefix(xs + ys, |xs + ys'|, p, emit, xs + ys');
      EmittedPrefix(ys, |ys'|, p, emit, ys');
      EmittedConcat(xs, ys', p, emit);
      if a.1.None? {
        var b := Emitted(ys', |ys'|, p, emit);
        if b.1.None? && emit(p, ys[|ys| - 1]).Ok? {
          assert (a.0 + b.0) + emit(p, ys[|ys| - 1]).value == a.0 + (b.0 + emit(p, ys[|ys| - 1]).value);
        }
      }
    }
  }

  /** The output for the first n entries depends only on those entries. */
  lemma {:induction false} EmittedPrefix<P, T, L>(xs: seq<T>, n: nat, p: P, emit: (P, T) -> Result<seq<L>>, ys: seq<T>)
    requires n <= |xs| && n <= |ys| && xs[..n] == ys[..n]
    ensures Emitted(xs, n, p, emit) == Emitted(ys, n, p, emit)
  {
    if n > 0 {
      assert xs[..n - 1] == ys[..n - 1];
      assert xs[n - 1] == xs[..n][n - 1] == ys[..n][n - 1] == ys[n - 1];
      EmittedPrefix(xs, n - 1, p, emit, ys);
    }
  }

  /**
   * `for x in xs[:n]: write(emit(p, x))`, where an entry writes its lines as it goes and may then
   * fail: the lines written so far, the failing entry's included, and the error if one stopped it.
   */
  function Streamed<P, T, L>(xs: seq<T>, n: nat, p: P, emit: (P, T) -> (seq<L>, Option<Error>)): (seq<L>, Option<Error>)
    requires n <= |xs|
  {
    if n == 0 then ([], None)
    else
      var w := Streamed(xs, n - 1, p, emit);
      if w.1.Some? then w
      else
        var e := emit(p, xs[n - 1]);
        (w.0 + e.0, e.1)
  }

  /** Once an entry has failed the output stays as it was. */
  lemma {:induction false} StreamedErrorStays<P, T, L>(xs: seq<T>, m: nat, n: nat, p: P, emit: (P, T) -> (seq<L>, Option<Error>))
    requires m <= n <= |xs| && Streamed(xs, m, p, emit).1.Some?
    ensures Streamed(xs, n, p, emit) == Streamed(xs, m, p, emit)
    decreases n - m
  {
    if m < n {
      StreamedErrorStays(xs, m, n - 1, p, emit);
    }
  }

  /** The loop ends without error exactly when every entry is written without one; an error is some entry's. */
  lemma {:induction false} StreamedOk<P, T, L>(xs: seq<T>, n: nat, p: P, emit: (P, T) -> (seq<L>, Option<Error>))
    requires n <= |xs|
    ensures Streamed(xs, n, p, emit).1.None? <==> forall i :: 0 <= i < n ==> emit(p, xs[i]).1.None?
    ensures Streamed(xs, n, p, emit).1.Some? ==> exists i :: 0 <= i < n && emit(p, xs[i]).1 == Streamed(xs, n, p, emit).1
  {
    if n > 0 {
      StreamedOk(xs, n - 1, p, emit);
    }
  }

  /** The lines of each of the first n entries, in order. */
  function Outputs<P, T, L>(xs: seq<T>, n: nat, p: P, emit: (P, T) -> (seq<L>, Option<Error>)): (r: seq<seq<L>>)
    requires n <= |xs|
    ensures |r| == n && forall i :: 0 <= i < n ==> r[i] == emit(p, xs[i]).0
  {
    if n == 0 then [] else Outputs(xs, n - 1, p, emit) + [emit(p, xs[n - 1]).0]
  }

  /** With no entry failing, the output is the entries' lines one after the other, in order. */
  lemma {:induction false} StreamedInOrder<P, T, L>(xs: seq<T>, n: nat, p: P, emit: (P, T) -> (seq<L>, Option<Error>))
    requires n <= |xs| && forall i :: 0 <= i < n ==> emit(p, xs[i]).1.None?
    ensures Streamed(xs, n, p, emit) == (Flatten(Outputs(xs, n, p, emit)), None)
  {
    if n > 0 {
      StreamedInOrder(xs, n - 1, p, emit);
      FlattenAppend(Outputs(xs, n - 1, p, emit), emit(p, xs[n - 1]).0);
    }
  }
}
