/** Sequence helpers shared by the model: flattening (`Array.prototype.flat`),
    fixed-size slicing (the `slice(i, i + size)` loops), filtering and sums. */
module Seqs {

  /** Concatenation of a sequence of sequences, defined from the right end so that
      a loop that appends group after group hits the definition directly. */
  function Flatten<T>(gs: seq<seq<T>>): seq<T>
  {
    if gs == [] then [] else Flatten(gs[..|gs| - 1]) + gs[|gs| - 1]
  }

  lemma FlattenAppend<T>(gs: seq<seq<T>>, g: seq<T>)
    ensures Flatten(gs + [g]) == Flatten(gs) + g
  {
    assert (gs + [g])[..|gs|] == gs;
  }

  lemma {:induction false} FlattenConcat<T>(a: seq<seq<T>>, b: seq<seq<T>>)
    ensures Flatten(a + b) == Flatten(a) + Flatten(b)
    decreases |b|
  {
    if b == [] {
      assert a + b == a;
    } else {
      var b' := b[..|b| - 1];
      assert a + b == (a + b') + [b[|b| - 1]];
      FlattenAppend(a + b', b[|b| - 1]);
      FlattenConcat(a, b');
      FlattenAppend(b', b[|b| - 1]);
      assert b == b' + [b[|b| - 1]];
    }
  }

  lemma FlattenCons<T>(g: seq<T>, gs: seq<seq<T>>)
    ensures Flatten([g] + gs) == g + Flatten(gs)
  {
    FlattenConcat([g], gs);
    assert Flatten([g]) == Flatten([g][..0]) + g;
  }

  lemma FlattenFour<T>(a: seq<T>, b: seq<T>, c: seq<T>, d: seq<T>)
    ensures Flatten([a, b, c, d]) == a + b + c + d
  {
    assert [a][..0] == [] && [] + a == a;
    assert Flatten([a]) == a;
    assert [a, b][..1] == [a];
    assert Flatten([a, b]) == a + b;
    assert [a, b, c][..2] == [a, b];
    assert Flatten([a, b, c]) == a + b + c;
    assert [a, b, c, d][..3] == [a, b, c];
  }

  lemma ConcatAssoc<T>(a: seq<T>, b: seq<T>, c: seq<T>)
    ensures (a + b) + c == a + (b + c)
  {
  }

  /** A non-empty sequence no longer than `size` is a single slice. */
  lemma ChunkedSingle<T>(s: seq<T>, size: nat)
    requires 0 < |s| <= size
    ensures Chunked(s, size) == [s]
  {
    assert s[..Min(size, |s|)] == s;
    assert s[Min(size, |s|)..] == [];
  }

  /** A non-empty sequence is its front followed by its last element. */
  lemma SplitLast<T>(s: seq<T>)
    requires s != []
    ensures s == s[..|s| - 1] + [s[|s| - 1]]
  {
  }

  lemma AppendFour<T>(s: seq<T>, a: T, b: T, c: T, d: T)
    ensures s + [a] + [b] + [c] + [d] == s + [a, b, c, d]
  {
  }

  /** Taking one more element of `b` after `a`. */
  lemma PrefixSnoc<T>(a: seq<T>, b: seq<T>, j: nat)
    requires j < |b|
    ensures a + b[..j + 1] == (a + b[..j]) + [b[j]]
  {
    assert b[..j + 1] == b[..j] + [b[j]];
  }

  lemma DropConcat<T>(a: seq<T>, b: seq<T>, c: seq<T>)
    ensures (a + (b + c))[|a|..] == b + c
    ensures (a + (b + c))[|a| + |b|..] == c
  {
  }

  /** `xs.flatMap(f)`, defined from the right end like Flatten. */
  function FlatMap<T, U>(f: T -> seq<U>, xs: seq<T>): seq<U>
  {
    if xs == [] then [] else FlatMap(f, xs[..|xs| - 1]) + f(xs[|xs| - 1])
  }

  lemma FlatMapAppend<T, U>(f: T -> seq<U>, xs: seq<T>, x: T)
    ensures FlatMap(f, xs + [x]) == FlatMap(f, xs) + f(x)
  {
    assert (xs + [x])[..|xs|] == xs;
  }

  lemma {:induction false} FlatMapCons<T, U>(f: T -> seq<U>, x: T, xs: seq<T>)
    ensures FlatMap(f, [x] + xs) == f(x) + FlatMap(f, xs)
    decreases |xs|
  {
    if xs == [] {
      assert [x] + xs == [] + [x];
      FlatMapAppend(f, [], x);
    } else {
      var init, last := xs[..|xs| - 1], xs[|xs| - 1];
      FlatMapCons(f, x, init);
      assert [x] + xs == ([x] + init) + [last];
      assert xs == init + [last];
      FlatMapAppend(f, [x] + init, last);
      FlatMapAppend(f, init, last);
    }
  }

  function Min(a: int, b: int): int { if a <= b then a else b }

  /** `s` cut into consecutive slices of `size` elements; only the last may be shorter.
      This is what `for (i = 0; i < s.length; i += size) out.push(s.slice(i, i + size))`
      and `while (s.length) { out.push(s.slice(0, size)); s = s.slice(size) }` produce. */
  function Chunked<T>(s: seq<T>, size: nat): seq<seq<T>>
    requires size > 0
    decreases |s|
  {
    if s == [] then [] else [s[..Min(size, |s|)]] + Chunked(s[Min(size, |s|)..], size)
  }

  lemma {:induction false} ChunkedFlatten<T>(s: seq<T>, size: nat)
    requires size > 0
    ensures Flatten(Chunked(s, size)) == s
    decreases |s|
  {
    if s != [] {
      var k := Min(size, |s|);
      ChunkedFlatten(s[k..], size);
      FlattenCons(s[..k], Chunked(s[k..], size));
      assert s[..k] + s[k..] == s;
    }
  }

  /** Every slice is non-empty and at most `size` long; all but the last are exactly `size`. */
  lemma {:induction false} ChunkedShape<T>(s: seq<T>, size: nat)
    requires size > 0
    ensures forall c :: c in Chunked(s, size) ==> 0 < |c| <= size
    ensures forall i :: 0 <= i < |Chunked(s, size)| - 1 ==> |Chunked(s, size)[i]| == size
    decreases |s|
  {
    if s != [] {
      var k := Min(size, |s|);
      ChunkedShape(s[k..], size);
      var rest := Chunked(s[k..], size);
      assert Chunked(s, size) == [s[..k]] + rest;
      if rest != [] {
        assert s[k..] != [];
        assert k == size;
      }
      forall i | 0 <= i < |Chunked(s, size)| - 1
        ensures |Chunked(s, size)[i]| == size
      {
        if i > 0 {
          assert Chunked(s, size)[i] == rest[i - 1];
        } else {
          assert rest != [];
        }
      }
    }
  }

  /** The number of slices is the length divided by `size`, rounded up:
      the fewest slices of `size` elements that cover the whole sequence. */
  lemma {:induction false} ChunkedCount<T>(s: seq<T>, size: nat)
    requires size > 0
    ensures |s| <= |Chunked(s, size)| * size
    ensures |Chunked(s, size)| > 0 ==> (|Chunked(s, size)| - 1) * size < |s|
    decreases |s|
  {
    if s != [] {
      var k := Min(size, |s|);
      ChunkedCount(s[k..], size);
      var c := |Chunked(s[k..], size)|;
      assert |Chunked(s, size)| == c + 1;
      assert (c + 1) * size == c * size + size;
      if c == 0 {
        assert s[k..] == [];
      }
    }
  }

  /** One slice of a `for (i = 0; i < s.length; i += size)` loop: the slices from `i`
      are the slice at `i`, then the slices from the next offset. */
  lemma ChunkedStep<T>(s: seq<T>, size: nat, i: nat)
    requires size > 0 && i < |s|
    ensures Chunked(s[i..], size) == [s[i..Min(i + size, |s|)]] + Chunked(s[Min(i + size, |s|)..], size)
  {
    var rest := s[i..];
    var k := Min(size, |rest|);
    assert rest[..k] == s[i..i + k];
    assert rest[k..] == s[i + k..];
  }

  /** Order-preserving filter, defined from the right end like a `for ... push` loop. */
  function Filter<T>(s: seq<T>, p: T -> bool): seq<T>
  {
    if s == [] then []
    else if p(s[|s| - 1]) then Filter(s[..|s| - 1], p) + [s[|s| - 1]]
    else Filter(s[..|s| - 1], p)
  }

  lemma {:induction false} FilterMembership<T>(s: seq<T>, p: T -> bool, x: T)
    ensures x in Filter(s, p) <==> x in s && p(x)
  {
    if s != [] {
      var s' := s[..|s| - 1];
      FilterMembership(s', p, x);
      assert s == s' + [s[|s| - 1]];
    }
  }

  lemma {:induction false} FilterLength<T>(s: seq<T>, p: T -> bool)
    ensures |Filter(s, p)| <= |s|
  {
    if s != [] {
      FilterLength(s[..|s| - 1], p);
    }
  }

  lemma FilterAppend<T>(s: seq<T>, x: T, p: T -> bool)
    ensures Filter(s + [x], p) == if p(x) then Filter(s, p) + [x] else Filter(s, p)
  {
    assert (s + [x])[..|s|] == s;
  }

  /** Filtering distributes over concatenation, so relative order is kept. */
  lemma {:induction false} FilterConcat<T>(a: seq<T>, b: seq<T>, p: T -> bool)
    ensures Filter(a + b, p) == Filter(a, p) + Filter(b, p)
    decreases |b|
  {
    if b == [] {
      assert a + b == a;
    } else {
      var b' := b[..|b| - 1];
      assert a + b == (a + b') + [b[|b| - 1]];
      FilterAppend(a + b', b[|b| - 1], p);
      FilterConcat(a, b', p);
      FilterAppend(b', b[|b| - 1], p);
      assert b == b' + [b[|b| - 1]];
    }
  }

  lemma FilterCons<T>(x: T, s: seq<T>, p: T -> bool)
    ensures Filter([x] + s, p) == (if p(x) then [x] else []) + Filter(s, p)
  {
    FilterConcat([x], s, p);
    FilterAppend([], x, p);
    assert [] + [x] == [x];
  }

  function Sum(s: seq<nat>): nat
  {
    if s == [] then 0 else Sum(s[..|s| - 1]) + s[|s| - 1]
  }

  lemma SumAppend(s: seq<nat>, x: nat)
    ensures Sum(s + [x]) == Sum(s) + x
  {
    assert (s + [x])[..|s|] == s;
  }

  /** `Buffer.reverse()`: the elements in the opposite order. */
  function Reverse<T>(s: seq<T>): (r: seq<T>)
    ensures |r| == |s|
    ensures forall i :: 0 <= i < |s| ==> r[i] == s[|s| - 1 - i]
  {
    if s == [] then [] else [s[|s| - 1]] + Reverse(s[..|s| - 1])
  }

  /** Reversing twice gives the sequence back. */
  lemma ReverseReverse<T>(s: seq<T>)
    ensures Reverse(Reverse(s)) == s
  {
  }
}
