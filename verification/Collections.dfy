/** Small vocabulary shared by every component: options, results, duplicate-free
    sequences, and sums of real-valued functions over finite sets. */
module Collections {

  datatype Option<+T> = None | Some(value: T)

  datatype Result<+T> = Ok(value: T) | Err(error: string)

  const U32_MAX: nat := 0xFFFF_FFFF

  const U64_MAX: nat := 0xFFFF_FFFF_FFFF_FFFF

  function Max(a: real, b: real): real { if a >= b then a else b }

  function Min(a: real, b: real): real { if a <= b then a else b }

  function Clamp(x: real, low: real, high: real): real { Max(low, Min(x, high)) }

  function ToSet<T>(xs: seq<T>): set<T> { set x | x in xs }

  ghost predicate Distinct<T>(xs: seq<T>) {
    forall i, j :: 0 <= i < j < |xs| ==> xs[i] != xs[j]
  }

  /** The value stored for a key, or zero. */
  function Get<K>(m: map<K, real>, k: K): real { if k in m then m[k] else 0.0 }

  lemma {:induction false} DistinctSize<T>(xs: seq<T>)
    requires Distinct(xs)
    ensures |ToSet(xs)| == |xs|
  {
    if |xs| > 0 {
      var front, last := xs[..|xs| - 1], xs[|xs| - 1];
      DistinctSize(front);
      assert ToSet(xs) == ToSet(front) + {last};
    } else {
      assert ToSet(xs) == {};
    }
  }

  lemma SetOfConcat<T>(xs: seq<T>, ys: seq<T>)
    ensures ToSet(xs + ys) == ToSet(xs) + ToSet(ys)
  {
  }

  lemma SubsetSize<T>(a: set<T>, b: set<T>)
    requires a <= b
    ensures |a| <= |b|
    ensures |a| == |b| ==> a == b
  {
    assert b == a + (b - a);
    assert |b| == |a| + |b - a|;
  }

  // ----- Finite sums -----

  ghost function Sum<K>(keys: set<K>, f: K -> real): real {
    if keys == {} then 0.0 else
      var k :| k in keys;
      f(k) + Sum(keys - {k}, f)
  }

  lemma {:induction false} SumPick<K>(keys: set<K>, f: K -> real, k: K)
    requires k in keys
    ensures Sum(keys, f) == f(k) + Sum(keys - {k}, f)
    decreases keys
  {
    var first :| first in keys && Sum(keys, f) == f(first) + Sum(keys - {first}, f);
    if first != k {
      SumPick(keys - {first}, f, k);
      SumPick(keys - {k}, f, first);
      assert keys - {first} - {k} == keys - {k} - {first};
    }
  }

  lemma SumInsert<K>(keys: set<K>, f: K -> real, k: K)
    requires k !in keys
    ensures Sum(keys + {k}, f) == Sum(keys, f) + f(k)
  {
    SumPick(keys + {k}, f, k);
    assert keys + {k} - {k} == keys;
  }

  lemma {:induction false} SumSame<K>(keys: set<K>, f: K -> real, g: K -> real)
    requires forall k :: k in keys ==> f(k) == g(k)
    ensures Sum(keys, f) == Sum(keys, g)
    decreases keys
  {
    if keys != {} {
      var k :| k in keys;
      SumPick(keys, f, k);
      SumPick(keys, g, k);
      SumSame(keys - {k}, f, g);
    }
  }

  lemma {:induction false} SumNonNegative<K>(keys: set<K>, f: K -> real)
    requires forall k :: k in keys ==> f(k) >= 0.0
    ensures Sum(keys, f) >= 0.0
    ensures forall k :: k in keys ==> Sum(keys, f) >= f(k)
    decreases keys
  {
    forall k | k in keys
      ensures Sum(keys, f) >= f(k) >= 0.0
    {
      SumPick(keys, f, k);
      SumNonNegative(keys - {k}, f);
    }
  }

  /** Zero terms outside `part` contribute nothing. */
  lemma {:induction false} SumSupport<K>(keys: set<K>, part: set<K>, f: K -> real)
    requires part <= keys
    requires forall k :: k in keys && k !in part ==> f(k) == 0.0
    ensures Sum(keys, f) == Sum(part, f)
    decreases keys
  {
    if k :| k in keys && k !in part {
      SumPick(keys, f, k);
      SumSupport(keys - {k}, part, f);
    } else {
      assert keys == part;
    }
  }

  lemma Distribute(c: real, total: real, a: real, b: real)
    requires total == a + b
    ensures c * total == c * a + c * b
  {
  }

  lemma {:induction false} SumScaled<K>(keys: set<K>, f: K -> real, c: real)
    ensures Sum(keys, (k: K) => c * f(k)) == c * Sum(keys, f)
    decreases keys
  {
    if keys != {} {
      var k :| k in keys;
      SumPick(keys, f, k);
      SumPick(keys, (k: K) => c * f(k), k);
      SumScaled(keys - {k}, f, c);
      Distribute(c, Sum(keys, f), f(k), Sum(keys - {k}, f));
    }
  }

  lemma {:induction false} SumAdded<K>(keys: set<K>, f: K -> real, g: K -> real, h: K -> real)
    requires forall k :: k in keys ==> h(k) == f(k) + g(k)
    ensures Sum(keys, h) == Sum(keys, f) + Sum(keys, g)
    decreases keys
  {
    if keys != {} {
      var k :| k in keys;
      SumPick(keys, f, k);
      SumPick(keys, g, k);
      SumPick(keys, h, k);
      SumAdded(keys - {k}, f, g, h);
    }
  }

  /** Moving one key's value onto another and dropping it conserves the sum. */
  lemma SumTransfer<K>(keys: set<K>, into: K, gone: K, before: K -> real, after: K -> real)
    requires into in keys && gone in keys && into != gone
    requires after(into) == before(into) + before(gone)
    requires forall k :: k in keys && k != into && k != gone ==> after(k) == before(k)
    ensures Sum(keys - {gone}, after) == Sum(keys, before)
  {
    var rest := keys - {gone} - {into};
    SumPick(keys - {gone}, after, into);
    SumPick(keys, before, gone);
    SumPick(keys - {gone}, before, into);
    SumSame(rest, before, after);
  }
}
