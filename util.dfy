/**
 * `split_string_every` of src/util.rs: cuts a string into consecutive pieces
 * of `n` characters, the last piece holding what is left. Lines are taken to
 * be ASCII, so the byte length `s.len()` the loop tests equals the number of
 * characters that `chars().skip(..).take(..)` walks over.
 */
module Util {

  /** The reference definition: the first `n` characters, then the rest cut the same way. */
  function Chunks(s: string, n: nat): seq<string>
    requires n > 0
    decreases |s|
  {
    if s == [] then []
    else if |s| <= n then [s]
    else [s[..n]] + Chunks(s[n..], n)
  }

  /** Joins a sequence of strings end to end. */
  function Concat(ss: seq<string>): string
  {
    if ss == [] then [] else ss[0] + Concat(ss[1..])
  }

  function Min(a: int, b: int): int
  {
    if a <= b then a else b
  }

  /** What is left of `s` once `k` characters are skipped. */
  function Skip(s: string, k: nat): string
  {
    if k >= |s| then [] else s[k..]
  }

  /** The pieces the loop takes from offset `ctr` on. */
  function ChunksFrom(s: string, ctr: nat, n: nat): seq<string>
    requires n > 0
    decreases |s| - ctr
  {
    if ctr >= |s| then [] else [s[ctr..Min(ctr + n, |s|)]] + ChunksFrom(s, ctr + n, n)
  }

  /** The loop of `split_string_every`; with `n == 0` it would never end on a non-empty string. */
  method SplitStringEvery(s: string, n: nat) returns (res: seq<string>)
    requires n > 0
    ensures res == Chunks(s, n)
    ensures Concat(res) == s
    ensures forall i :: 0 <= i < |res| - 1 ==> |res[i]| == n
    ensures |res| > 0 ==> 1 <= |res[|res| - 1]| <= n
    ensures |res| == (|s| + n - 1) / n
  {
    res := [];
    var ctr := 0;
    while ctr < |s|
      invariant res + ChunksFrom(s, ctr, n) == ChunksFrom(s, 0, n)
      decreases |s| - ctr
    {
      var piece := s[ctr..Min(ctr + n, |s|)];
      assert res + [piece] + ChunksFrom(s, ctr + n, n) == res + ChunksFrom(s, ctr, n);
      res := res + [piece];
      ctr := ctr + n;
    }
    assert res == Chunks(s, n) by {
      ChunksFromSkip(s, 0, n);
      assert Skip(s, 0) == s;
    }
    ChunksFacts(s, n);
  }

  /** The loop's pieces from `ctr` are the pieces of what is left at `ctr`. */
  lemma {:induction false} ChunksFromSkip(s: string, ctr: nat, n: nat)
    requires n > 0
    ensures ChunksFrom(s, ctr, n) == Chunks(Skip(s, ctr), n)
    decreases |s| - ctr
  {
    if ctr < |s| {
      ChunksStep(s, ctr, n);
      ChunksFromSkip(s, ctr + n, n);
    }
  }

  /** What the pieces of `s` are: the three properties below, together. */
  lemma ChunksFacts(s: string, n: nat)
    requires n > 0
    ensures Concat(Chunks(s, n)) == s
    ensures forall i :: 0 <= i < |Chunks(s, n)| - 1 ==> |Chunks(s, n)[i]| == n
    ensures |Chunks(s, n)| > 0 ==> 1 <= |Chunks(s, n)[|Chunks(s, n)| - 1]| <= n
    ensures |Chunks(s, n)| == (|s| + n - 1) / n
  {
    ChunksConcat(s, n);
    ChunksLengths(s, n);
    ChunksCount(s, n);
  }

  /** One turn of the loop: the piece taken at `ctr`, then the rest from `ctr + n`. */
  lemma ChunksStep(s: string, ctr: nat, n: nat)
    requires n > 0 && ctr < |s|
    ensures Chunks(Skip(s, ctr), n) == [s[ctr..Min(ctr + n, |s|)]] + Chunks(Skip(s, ctr + n), n)
  {
    var rest := s[ctr..];
    if ctr + n < |s| {
      assert rest[..n] == s[ctr..ctr + n];
      assert rest[n..] == s[ctr + n..];
      assert Chunks(rest, n) == [rest[..n]] + Chunks(rest[n..], n);
    } else {
      assert s[ctr..Min(ctr + n, |s|)] == rest;
      assert Chunks(rest, n) == [rest];
      assert Chunks(Skip(s, ctr + n), n) == [];
    }
  }

  /** Joining the pieces gives back the string. */
  lemma {:induction false} ChunksConcat(s: string, n: nat)
    requires n > 0
    ensures Concat(Chunks(s, n)) == s
    decreases |s|
  {
    if |s| > n {
      ChunksConcat(s[n..], n);
      assert s == s[..n] + s[n..];
    }
  }

  /** Every piece but the last has exactly `n` characters, the last one between 1 and `n`. */
  lemma {:induction false} ChunksLengths(s: string, n: nat)
    requires n > 0
    ensures forall i :: 0 <= i < |Chunks(s, n)| - 1 ==> |Chunks(s, n)[i]| == n
    ensures |Chunks(s, n)| > 0 ==> 1 <= |Chunks(s, n)[|Chunks(s, n)| - 1]| <= n
    decreases |s|
  {
    if |s| > n {
      ChunksLengths(s[n..], n);
      var rest := Chunks(s[n..], n);
      assert Chunks(s, n) == [s[..n]] + rest;
      assert rest != [];
    }
  }

  /** There are `ceil(|s| / n)` pieces; the empty string gives none. */
  lemma {:induction false} ChunksCount(s: string, n: nat)
    requires n > 0
    ensures |Chunks(s, n)| == (|s| + n - 1) / n
    decreases |s|
  {
    if s == [] {
      assert (n - 1) / n == 0;
    } else if |s| <= n {
      assert n <= |s| + n - 1 < 2 * n;
      DivisionRange(|s| + n - 1, n, 1);
    } else {
      ChunksCount(s[n..], n);
      DivisionShift(|s| - 1, n);
    }
  }

  lemma DivisionRange(a: int, n: int, q: int)
    requires n > 0 && q * n <= a < (q + 1) * n
    ensures a / n == q
  {
    var d, r := a / n, a % n;
    assert a == d * n + r && 0 <= r < n;
    MulBound(d - q, n);
    assert (d - q) * n == d * n - q * n;
  }

  lemma DivisionShift(a: int, n: int)
    requires n > 0 && a >= 0
    ensures (a + n) / n == a / n + 1
  {
    var q, r := a / n, a % n;
    assert a == q * n + r && 0 <= r < n;
    assert a + n == (q + 1) * n + r;
    DivisionRange(a + n, n, q + 1);
  }

  lemma MulBound(k: int, n: int)
    requires n > 0
    ensures k >= 1 ==> k * n >= n
    ensures k <= -1 ==> k * n <= -n
    decreases if k < 0 then -k else k
  {
    if k > 1 {
      MulBound(k - 1, n);
      assert k * n == (k - 1) * n + n;
    } else if k < -1 {
      MulBound(k + 1, n);
      assert k * n == (k + 1) * n - n;
    }
  }

  /** A full piece of `n` characters in front of more text is cut off first. */
  lemma ChunksCons(p: string, q: string, n: nat)
    requires n > 0 && |p| == n && q != []
    ensures Chunks(p + q, n) == [p] + Chunks(q, n)
  {
    assert (p + q)[..n] == p && (p + q)[n..] == q;
  }

  /** Five three-character pieces alternating between `a` and `b`, then the remainder `c`. */
  lemma Alternating(a: string, b: string, c: string)
    requires |a| == 3 && |b| == 3 && 1 <= |c| <= 3
    ensures Chunks(a + (b + (a + (b + (a + (b + (a + (b + (a + c)))))))), 3)
         == [a, b, a, b, a, b, a, b, a, c]
  {
    var t1 := a + c;
    var t2 := b + t1;
    var t3 := a + t2;
    var t4 := b + t3;
    var t5 := a + t4;
    var t6 := b + t5;
    var t7 := a + t6;
    var t8 := b + t7;
    ChunksCons(a, c, 3);
    ChunksCons(b, t1, 3);
    ChunksCons(a, t2, 3);
    ChunksCons(b, t3, 3);
    ChunksCons(a, t4, 3);
    ChunksCons(b, t5, 3);
    ChunksCons(a, t6, 3);
    ChunksCons(b, t7, 3);
    ChunksCons(a, t8, 3);
  }

  /** The unit test `split_string_every_test`. */
  lemma SplitExample(s: string)
    requires s == "abc123abc123abc123abc123abc12"
    ensures Chunks(s, 3) == ["abc", "123", "abc", "123", "abc", "123", "abc", "123", "abc", "12"]
  {
    var a, b, c := "abc", "123", "12";
    assert s == a + (b + (a + (b + (a + (b + (a + (b + (a + c))))))));
    Alternating(a, b, c);
  }
}
