/** Small shared vocabulary: ids, optional values, results, `f32` values and enumerations of sets. */
module Common {

  // Room ids are `u32` numbers; wallets are opaque, only their equality matters.
  type RoomId = nat
  type Wallet = nat

  datatype Option<+T> = None | Some(value: T)

  datatype Result<+T, +E> = Ok(value: T) | Err(error: E) {
    predicate IsFailure() {
      Err?
    }

    function PropagateFailure<U>(): Result<U, E>
      requires Err?
    {
      Err(error)
    }

    function Extract(): T
      requires Ok?
    {
      value
    }
  }

  /** An `f32` without its rounding: a real number or one of the three non-finite values. */
  datatype F32 = Fin(v: real) | PosInf | NegInf | NaN

  const U64_MAX: nat := 0xFFFF_FFFF_FFFF_FFFF

  /** `u64::saturating_add(1)`. */
  function SatInc(n: nat): nat {
    if n < U64_MAX then n + 1 else n
  }

  function Min(a: real, b: real): real {
    if a <= b then a else b
  }

  function Abs(a: real): real {
    if a < 0.0 then -a else a
  }

  /** `order` lists every element of `s` once: one possible iteration order of a hash map. */
  ghost predicate Enumerates<T(!new)>(order: seq<T>, s: set<T>) {
    && (forall x :: x in order <==> x in s)
    && forall i, j :: 0 <= i < j < |order| ==> order[i] != order[j]
  }

  lemma EnumerateNothing<T(!new)>()
    ensures Enumerates<T>([], {})
  {
  }

  lemma EnumerateOneMore<T(!new)>(order: seq<T>, s: set<T>, x: T)
    requires Enumerates(order, s) && x !in s
    ensures Enumerates(order + [x], s + {x})
  {
    assert forall y :: y in order + [x] <==> y in order || y == x;
  }

  lemma EnumerateAtMostOne<T(!new)>(order: seq<T>, s: set<T>)
    requires Enumerates(order, s) && forall x, y :: x in s && y in s ==> x == y
    ensures |order| <= 1
  {
    if order != [] {
      var last := |order| - 1;
      assert order[0] in order && order[last] in order;
      assert order[0] == order[last];
    }
  }
}
