/** Vocabulary shared by the models: options, results, bytes, and finite sets
    and sequences of parts. */
module Common {

  datatype Option<+T> = None | Some(value: T)

  datatype Result<+T, +E> = Ok(value: T) | Err(error: E)

  /** An octet, as Go's `byte` counts it. */
  type byte = n: int | 0 <= n < 256

  function Zeros(n: nat): (z: seq<byte>)
    ensures |z| == n
  {
    seq(n, i => 0)
  }

  function Flatten<T>(parts: seq<seq<T>>): seq<T> {
    if parts == [] then [] else parts[0] + Flatten(parts[1..])
  }

  lemma {:induction false} FlattenConcat<T>(a: seq<seq<T>>, b: seq<seq<T>>)
    ensures Flatten(a + b) == Flatten(a) + Flatten(b)
  {
    if a == [] {
      assert a + b == b;
    } else {
      var first, rest := a[0], a[1..];
      FlattenConcat(rest, b);
      assert (a + b)[0] == first && (a + b)[1..] == rest + b;
      assert first + (Flatten(rest) + Flatten(b)) == (first + Flatten(rest)) + Flatten(b);
    }
  }

  lemma FlattenOne<T>(a: seq<seq<T>>, last: seq<T>)
    ensures Flatten(a + [last]) == Flatten(a) + last
  {
    FlattenConcat(a, [last]);
    assert Flatten([last]) == last + Flatten<T>([]);
  }

  /** The set 1..n. */
  function Upto(n: nat): (s: set<int>)
    ensures forall i :: i in s <==> 1 <= i <= n
    ensures |s| == n
  {
    if n == 0 then {} else Upto(n - 1) + {n}
  }

  lemma {:induction false} SubsetSize<T>(a: set<T>, b: set<T>)
    requires a <= b
    ensures |a| <= |b|
    ensures |a| == |b| ==> a == b
  {
    if x :| x in a {
      SubsetSize(a - {x}, b - {x});
    }
  }

  /** Subset reasoning for the numbers 1..n: as many members as n means all. */
  lemma FullWhenCounted(s: set<int>, n: nat)
    requires s <= Upto(n)
    ensures |s| <= n
    ensures |s| == n <==> s == Upto(n)
  {
    SubsetSize(s, Upto(n));
  }

  lemma MultiplyMonotone(x: int, y: int, d: nat)
    requires x <= y
    ensures x * d <= y * d
  {
  }

  lemma DivideUnique(a: int, d: nat, q: int, r: int)
    requires d > 0 && a == q * d + r && 0 <= r < d
    ensures a / d == q && a % d == r
  {
    var p := a / d;
    assert p * d <= a < p * d + d;
    assert (p + 1) * d == p * d + d && (q + 1) * d == q * d + d;
    if p < q {
      MultiplyMonotone(p + 1, q, d);
    } else if p > q {
      MultiplyMonotone(q + 1, p, d);
    }
  }

  lemma DivideOneMore(a: int, d: nat)
    requires d > 0
    ensures (a + d) / d == a / d + 1
    ensures (a + d) % d == a % d
  {
    assert (a / d + 1) * d == a / d * d + d;
    DivideUnique(a + d, d, a / d + 1, a % d);
  }

  /** Consecutive slices of `cap` elements, the last one possibly shorter. */
  function Chunks<T>(s: seq<T>, cap: nat): (cs: seq<seq<T>>)
    requires cap > 0
    ensures |cs| >= 1
    decreases |s|
  {
    if |s| <= cap then [s] else [s[..cap]] + Chunks(s[cap..], cap)
  }

  lemma {:induction false} ChunksFlatten<T>(s: seq<T>, cap: nat)
    requires cap > 0
    ensures Flatten(Chunks(s, cap)) == s
    decreases |s|
  {
    if |s| <= cap {
      assert Flatten([s]) == s + Flatten<T>([]);
    } else {
      ChunksFlatten(s[cap..], cap);
      assert Chunks(s, cap)[1..] == Chunks(s[cap..], cap);
    }
  }

  lemma {:induction false} ChunksSizes<T>(s: seq<T>, cap: nat)
    requires cap > 0 && s != []
    ensures forall c :: c in Chunks(s, cap) ==> 0 < |c| <= cap
    decreases |s|
  {
    if |s| > cap {
      ChunksSizes(s[cap..], cap);
    }
  }

  lemma {:induction false} ChunksCount<T>(s: seq<T>, cap: nat)
    requires cap > 0 && s != []
    ensures |Chunks(s, cap)| == (|s| + cap - 1) / cap
    decreases |s|
  {
    if |s| <= cap {
      DivideUnique(|s| + cap - 1, cap, 1, |s| - 1);
    } else {
      ChunksCount(s[cap..], cap);
      DivideOneMore(|s[cap..]| + cap - 1, cap);
    }
  }

  /** Where the chunks of what is left continue those of the whole. */
  lemma ChunksStep<T>(s: seq<T>, cap: nat, offset: nat, pieces: seq<seq<T>>, i: nat)
    requires cap > 0 && offset <= |s| && i < |pieces| && pieces[i..] == Chunks(s[offset..], cap)
    ensures var end := if offset + cap > |s| then |s| else offset + cap;
            && pieces[i] == s[offset..end]
            && (i + 1 < |pieces| ==> pieces[i + 1..] == Chunks(s[end..], cap))
  {
    var end := if offset + cap > |s| then |s| else offset + cap;
    assert s[offset..][..end - offset] == s[offset..end];
    assert pieces[i] == pieces[i..][0];
    assert pieces[i..][1..] == pieces[i + 1..];
    assert s[offset..][end - offset..] == s[end..];
  }

  lemma TwicePresent<T>(es: seq<T>, i: nat, j: nat)
    requires i < j < |es| && es[i] == es[j]
    ensures multiset(es)[es[i]] >= 2
  {
    assert es == es[..i] + [es[i]] + es[i + 1..j] + [es[j]] + es[j + 1..];
  }
}
