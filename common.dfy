/** Values and string operations shared by the backend and client models:
    bytes, optional values, Python's substring test, prefix/suffix slices,
    ASCII lower-casing and `str.replace`. */
module Common {

  /** A byte of a `bytes` object. */
  newtype byte = x: int | 0 <= x < 256

  datatype Option<T> = None | Some(value: T)

  function Min(a: int, b: int): int { if a <= b then a else b }

  predicate StartsWith(s: string, p: string) {
    |p| <= |s| && s[..|p|] == p
  }

  /** Python's `s.endswith(p)`. */
  predicate EndsWith(s: string, p: string) {
    |p| <= |s| && s[|s| - |p|..] == p
  }

  /** Python's `t in s` for strings: `t` occurs in `s` at some offset. */
  predicate Contains(s: string, t: string)
    decreases |s|
  {
    StartsWith(s, t) || (|s| > 0 && Contains(s[1..], t))
  }

  /** `t` is the slice of `s` at offset `i`. */
  predicate OccursAt(s: string, t: string, i: nat) {
    i + |t| <= |s| && s[i..i + |t|] == t
  }

  /** An occurrence at offset `i` makes `t in s` true. */
  lemma {:induction false} ContainsAt(s: string, t: string, i: nat)
    requires OccursAt(s, t, i)
    ensures Contains(s, t)
    decreases i
  {
    if i > 0 {
      assert s[1..][i - 1..i - 1 + |t|] == s[i..i + |t|];
      ContainsAt(s[1..], t, i - 1);
    }
  }

  /** `t in s` yields an offset at which `t` occurs. */
  lemma {:induction false} ContainsOffset(s: string, t: string) returns (i: nat)
    requires Contains(s, t)
    ensures OccursAt(s, t, i)
    decreases |s|
  {
    if StartsWith(s, t) {
      i := 0;
    } else {
      var j := ContainsOffset(s[1..], t);
      assert s[1..][j..j + |t|] == s[j + 1..j + 1 + |t|];
      i := j + 1;
    }
  }

  /** `t in s` holds exactly when `t` occurs in `s` at some offset. */
  lemma ContainsIff(s: string, t: string)
    ensures Contains(s, t) <==> exists i: nat :: OccursAt(s, t, i)
  {
    if Contains(s, t) {
      var i := ContainsOffset(s, t);
    }
    forall i: nat | OccursAt(s, t, i)
      ensures Contains(s, t)
    {
      ContainsAt(s, t, i);
    }
  }

  /** Python's `s[:n]` for n >= 0. */
  function Take<T>(s: seq<T>, n: nat): (r: seq<T>)
    ensures |r| == Min(n, |s|)
    ensures r == s[..|r|]
    ensures |s| <= n ==> r == s
  {
    if |s| <= n then s else s[..n]
  }

  /** Python's `s[-n:]` for n > 0: the last n elements, or all of them. */
  function Last<T>(s: seq<T>, n: nat): (r: seq<T>)
    requires n > 0
    ensures |r| == Min(n, |s|)
    ensures r == s[|s| - |r|..]
  {
    if |s| <= n then s else s[|s| - n..]
  }

  function LowerChar(c: char): char {
    if 'A' <= c <= 'Z' then (c as int + 32) as char else c
  }

  /** `s.lower()` on the ASCII letters; every other character is kept. */
  function Lower(s: string): (r: string)
    ensures |r| == |s|
    ensures forall i :: 0 <= i < |s| ==> r[i] == LowerChar(s[i])
  {
    if s == [] then [] else [LowerChar(s[0])] + Lower(s[1..])
  }

  lemma {:induction false} LowerIdempotent(s: string)
    ensures Lower(Lower(s)) == Lower(s)
  {
    var l := Lower(s);
    assert forall i :: 0 <= i < |l| ==> Lower(l)[i] == l[i];
  }

  /** Python's `s.replace(pat, rep)` for a non-empty `pat`: every
      non-overlapping occurrence, found scanning left to right, is replaced. */
  function Replace(s: string, pat: string, rep: string): string
    requires pat != []
    decreases |s|
  {
    if StartsWith(s, pat) then rep + Replace(s[|pat|..], pat, rep)
    else if s == [] then []
    else [s[0]] + Replace(s[1..], pat, rep)
  }

  /** Replacing a pattern that does not occur changes nothing. */
  lemma {:induction false} ReplaceAbsent(s: string, pat: string, rep: string)
    requires pat != []
    requires !Contains(s, pat)
    ensures Replace(s, pat, rep) == s
    decreases |s|
  {
    if s != [] {
      ReplaceAbsent(s[1..], pat, rep);
    }
  }

  /** How often `c` occurs in `s`. */
  function CountChar(s: string, c: char): (n: nat)
    ensures n <= |s|
  {
    if s == [] then 0 else (if s[0] == c then 1 else 0) + CountChar(s[1..], c)
  }

  /** Concatenation is associative (stated once, so that proofs about long
      string literals need not rediscover it element by element). */
  lemma AppendAssoc<T>(a: seq<T>, b: seq<T>, c: seq<T>)
    ensures (a + b) + c == a + (b + c)
  {
  }

  /** Appending two elements one at a time appends the pair. */
  lemma AppendTwo<T>(s: seq<T>, a: T, b: T)
    ensures s + [a] + [b] == s + [a, b]
  {
  }

  /** The concatenation of `f(x)` for the elements `x` of `xs`, in order. */
  function ConcatMap<T, U>(xs: seq<T>, f: T -> seq<U>): seq<U>
    decreases |xs|
  {
    if xs == [] then [] else ConcatMap(xs[..|xs| - 1], f) + f(xs[|xs| - 1])
  }

  /** Mapping a concatenation concatenates the maps. */
  lemma {:induction false} ConcatMapAppend<T, U>(a: seq<T>, b: seq<T>, f: T -> seq<U>)
    ensures ConcatMap(a + b, f) == ConcatMap(a, f) + ConcatMap(b, f)
    decreases |b|
  {
    if b == [] {
      assert a + b == a;
    } else {
      var b', last := b[..|b| - 1], b[|b| - 1];
      assert (a + b)[..|a + b| - 1] == a + b';
      assert (a + b)[|a + b| - 1] == last;
      ConcatMapAppend(a, b', f);
      AppendAssoc(ConcatMap(a, f), ConcatMap(b', f), f(last));
    }
  }

  /** Extending the prefix by one element appends that element's image. */
  lemma ConcatMapPrefix<T, U>(xs: seq<T>, f: T -> seq<U>, i: nat)
    requires i < |xs|
    ensures ConcatMap(xs[..i + 1], f) == ConcatMap(xs[..i], f) + f(xs[i])
  {
    var upTo := xs[..i + 1];
    assert upTo[..i] == xs[..i] && upTo[i] == xs[i];
  }

  /** The step of a loop that appends the image of element `i` to a list
      holding a fixed prefix and the images of the elements before `i`. */
  lemma ConcatMapStep<T, U>(prefix: seq<U>, xs: seq<T>, f: T -> seq<U>, i: nat)
    requires i < |xs|
    ensures prefix + ConcatMap(xs[..i], f) + f(xs[i]) == prefix + ConcatMap(xs[..i + 1], f)
  {
    ConcatMapPrefix(xs, f, i);
    AppendAssoc(prefix, ConcatMap(xs[..i], f), f(xs[i]));
  }

  /** An element's image stands between the images of the elements before
      and after it. */
  lemma ConcatMapSplit<T, U>(a: seq<T>, x: T, b: seq<T>, f: T -> seq<U>)
    ensures ConcatMap(a + [x] + b, f) == ConcatMap(a, f) + f(x) + ConcatMap(b, f)
  {
    ConcatMapAppend(a + [x], b, f);
    assert (a + [x])[..|a|] == a;
  }

  /** When every image has `k` elements, the concatenation has `k` per element. */
  lemma {:induction false} ConcatMapUniformLength<T, U>(xs: seq<T>, f: T -> seq<U>, k: nat)
    requires forall i :: 0 <= i < |xs| ==> |f(xs[i])| == k
    ensures |ConcatMap(xs, f)| == k * |xs|
    decreases |xs|
  {
    if xs != [] {
      var n := |xs| - 1;
      var init := xs[..n];
      assert forall i :: 0 <= i < n ==> init[i] == xs[i];
      ConcatMapUniformLength(init, f, k);
      assert |ConcatMap(xs, f)| == |ConcatMap(init, f)| + |f(xs[n])|;
      MulSucc(k, n);
    }
  }

  /** When every image has `k` elements, element `i`'s image starts at `k * i`. */
  lemma ConcatMapUniformAt<T, U>(xs: seq<T>, f: T -> seq<U>, k: nat, i: nat)
    requires forall j :: 0 <= j < |xs| ==> |f(xs[j])| == k
    requires i < |xs|
    ensures |ConcatMap(xs, f)| == k * |xs|
    ensures k * i + k <= k * |xs|
    ensures ConcatMap(xs, f)[k * i..k * i + k] == f(xs[i])
  {
    ConcatMapUniformLength(xs, f, k);
    MulSucc(k, i);
    MulLe(k, i + 1, |xs|);
    var before, after := xs[..i], xs[i + 1..];
    assert xs == before + [xs[i]] + after;
    ConcatMapSplit(before, xs[i], after, f);
    assert forall j :: 0 <= j < i ==> before[j] == xs[j];
    ConcatMapUniformLength(before, f, k);
    SliceMiddle(ConcatMap(before, f), f(xs[i]), ConcatMap(after, f));
  }

  lemma MulSucc(k: int, n: int)
    ensures k * n + k == k * (n + 1)
  {
  }

  lemma {:induction false} MulLe(k: nat, a: nat, b: nat)
    requires a <= b
    ensures k * a <= k * b
    decreases b - a
  {
    if a < b {
      MulLe(k, a, b - 1);
      MulSucc(k, b - 1);
    }
  }

  /** The middle part of a three-part concatenation. */
  lemma SliceMiddle<U>(a: seq<U>, b: seq<U>, c: seq<U>)
    ensures (a + b + c)[|a|..|a| + |b|] == b
  {
  }


  /** When every image has one element, the concatenation lists them in order. */
  lemma ConcatMapSingleAt<T, U>(xs: seq<T>, f: T -> seq<U>)
    requires forall j :: 0 <= j < |xs| ==> |f(xs[j])| == 1
    ensures |ConcatMap(xs, f)| == |xs|
    ensures forall i :: 0 <= i < |xs| ==> ConcatMap(xs, f)[i] == f(xs[i])[0]
  {
    ConcatMapUniformLength(xs, f, 1);
    forall i | 0 <= i < |xs|
      ensures ConcatMap(xs, f)[i] == f(xs[i])[0]
    {
      ConcatMapUniformAt(xs, f, 1, i);
      assert ConcatMap(xs, f)[i] == ConcatMap(xs, f)[1 * i..1 * i + 1][0];
    }
  }

  /** Where the parts of `header + ConcatMap(xs, f) + [last]` stand when
      every image has one element. */
  lemma FramedSingles<T, U>(header: seq<U>, xs: seq<T>, f: T -> seq<U>, last: U)
    requires forall j :: 0 <= j < |xs| ==> |f(xs[j])| == 1
    ensures var full := header + ConcatMap(xs, f) + [last];
      && |full| == |header| + |xs| + 1
      && (forall i :: 0 <= i < |header| ==> full[i] == header[i])
      && (forall i :: 0 <= i < |xs| ==> full[|header| + i] == f(xs[i])[0])
      && full[|full| - 1] == last
  {
    ConcatMapSingleAt(xs, f);
    var body := ConcatMap(xs, f);
    var full := header + body + [last];
    assert forall i :: 0 <= i < |xs| ==> full[|header| + i] == body[i];
  }

  /** When every image has at most one element, so has the concatenation per element. */
  lemma {:induction false} ConcatMapAtMostOne<T, U>(xs: seq<T>, f: T -> seq<U>)
    requires forall x :: x in xs ==> |f(x)| <= 1
    ensures |ConcatMap(xs, f)| <= |xs|
    decreases |xs|
  {
    if xs != [] {
      var init, last := xs[..|xs| - 1], xs[|xs| - 1];
      assert forall x :: x in init ==> x in xs;
      ConcatMapAtMostOne(init, f);
      assert |f(last)| <= 1;
    }
  }

  /** Every element of the concatenation comes from the image of some element. */
  lemma {:induction false} ConcatMapMember<T, U>(xs: seq<T>, f: T -> seq<U>, y: U) returns (x: T)
    requires y in ConcatMap(xs, f)
    ensures x in xs && y in f(x)
    decreases |xs|
  {
    var init, last := xs[..|xs| - 1], xs[|xs| - 1];
    if y in f(last) {
      x := last;
    } else {
      x := ConcatMapMember(init, f, y);
      assert x in xs by {
        assert x in init;
      }
    }
  }
}
