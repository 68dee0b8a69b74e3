/** Types shared by the modules of this project. */
module Common {

  datatype Option<+T> = None | Some(value: T)

  datatype Result<+T, +E> = Ok(value: T) | Err(error: E)

  function Max(a: int, b: int): int { if a < b then b else a }

  function Min(a: int, b: int): int { if a < b then a else b }

  /** The first k natural numbers. */
  function Below(k: nat): (s: set<nat>)
    ensures |s| == k && forall i: nat :: i in s <==> i < k
  {
    if k == 0 then {} else Below(k - 1) + {k - 1}
  }

  lemma {:induction false} SubsetSize<T>(a: set<T>, b: set<T>)
    requires a <= b
    ensures |a| <= |b|
  {
    if a != {} {
      var x :| x in a;
      SubsetSize(a - {x}, b - {x});
    }
  }

  /** block(0) + ... + block(k - 1). */
  function Blocks<T>(block: nat -> seq<T>, k: nat): seq<T> {
    if k == 0 then [] else Blocks(block, k - 1) + block(k - 1)
  }

  /** The state after the steps es. */
  function Fold<S, E>(next: (S, E) -> S, s: S, es: seq<E>): S {
    if es == [] then s else next(Fold(next, s, es[..|es| - 1]), es[|es| - 1])
  }

  lemma {:induction false} FoldConcat<S, E>(next: (S, E) -> S, s: S, es: seq<E>, fs: seq<E>)
    ensures Fold(next, s, es + fs) == Fold(next, Fold(next, s, es), fs)
  {
    if fs == [] {
      assert es + fs == es;
    } else {
      FoldConcat(next, s, es, fs[..|fs| - 1]);
      assert (es + fs)[..|es + fs| - 1] == es + fs[..|fs| - 1];
    }
  }
}
