/** Facts about sequences; above all the order-preserving removal of repeats that the input builder
    and the node fan-out share. */
module Sequences {

  lemma Assoc<T>(a: seq<T>, b: seq<T>, c: seq<T>)
    ensures a + b + c == a + (b + c)
  {
  }

  lemma Cut<T>(s: seq<T>, i: nat, j: nat, k: nat)
    requires i <= j <= k <= |s|
    ensures s[i..k] == s[i..j] + s[j..k]
  {
  }

  lemma Middle<T>(a: seq<T>, b: seq<T>, c: seq<T>)
    ensures (a + b + c)[|a|..|a| + |b|] == b && (a + b + c)[|a| + |b|..] == c
  {
  }

  lemma CardSubset(a: set<string>, b: set<string>)
    requires a <= b
    ensures |a| <= |b|
  {
    assert b == a + (b - a);
  }

  predicate HasKey<T>(xs: seq<T>, key: T -> string, k: string)
  {
    exists i :: 0 <= i < |xs| && key(xs[i]) == k
  }

  predicate DistinctKeys<T>(xs: seq<T>, key: T -> string)
  {
    forall i, j :: 0 <= i < j < |xs| ==> key(xs[i]) != key(xs[j])
  }

  /** Keeps the first element of every key and drops the later ones. */
  function Dedup<T>(xs: seq<T>, key: T -> string): (r: seq<T>)
  {
    if xs == [] then []
    else
      var front := Dedup(xs[..|xs| - 1], key);
      var last := xs[|xs| - 1];
      if HasKey(front, key, key(last)) then front else front + [last]
  }

  function FirstN<T>(n: nat, xs: seq<T>): seq<T>
  {
    if |xs| <= n then xs else xs[..n]
  }

  lemma DedupSnoc<T>(xs: seq<T>, x: T, key: T -> string)
    ensures Dedup(xs + [x], key) ==
            if HasKey(Dedup(xs, key), key, key(x)) then Dedup(xs, key) else Dedup(xs, key) + [x]
  {
    assert (xs + [x])[..|xs|] == xs;
  }

  /** The result repeats no key and misses none. */
  lemma {:induction false} DedupKeys<T>(xs: seq<T>, key: T -> string)
    ensures DistinctKeys(Dedup(xs, key), key)
    ensures forall k :: HasKey(Dedup(xs, key), key, k) <==> HasKey(xs, key, k)
  {
    if xs == [] {
    } else {
      var init, last := xs[..|xs| - 1], xs[|xs| - 1];
      DedupKeys(init, key);
      var d, r := Dedup(init, key), Dedup(xs, key);
      assert xs == init + [last];
      forall k ensures HasKey(r, key, k) <==> HasKey(xs, key, k) {
        if HasKey(init, key, k) {
          var i :| 0 <= i < |d| && key(d[i]) == k;
          assert key(r[i]) == k;
          var j :| 0 <= j < |init| && key(init[j]) == k;
          assert key(xs[j]) == k;
        } else if key(last) == k {
          assert key(xs[|xs| - 1]) == k;
          assert r == d + [last];
          assert key(r[|d|]) == k;
        } else {
          forall i | 0 <= i < |init| ensures key(xs[i]) != k { assert xs[i] == init[i]; }
        }
      }
      if !HasKey(d, key, key(last)) {
        forall i, j | 0 <= i < j < |r| ensures key(r[i]) != key(r[j]) {
          if j == |d| { assert key(d[i]) != key(last); }
        }
      }
    }
  }

  /** An element survives exactly when it sits at the first position holding its key. */
  lemma {:induction false} DedupMembers<T>(xs: seq<T>, key: T -> string, x: T)
    ensures x in Dedup(xs, key) <==>
            exists i :: 0 <= i < |xs| && xs[i] == x && !HasKey(xs[..i], key, key(x))
  {
    if xs == [] {
    } else {
      var n := |xs| - 1;
      var init, last := xs[..n], xs[n];
      DedupMembers(init, key, x);
      DedupKeys(init, key);
      forall i | 0 <= i <= n ensures init[..i] == xs[..i] { }
      var front := Dedup(init, key);
      assert Dedup(xs, key) == if HasKey(front, key, key(last)) then front else front + [last];
      if x in Dedup(xs, key) {
        if x in Dedup(init, key) {
          var i :| 0 <= i < |init| && init[i] == x && !HasKey(init[..i], key, key(x));
          assert xs[i] == x && !HasKey(xs[..i], key, key(x));
        } else {
          assert xs[n] == x && !HasKey(xs[..n], key, key(x));
        }
      }
      if i :| 0 <= i < |xs| && xs[i] == x && !HasKey(xs[..i], key, key(x)) {
        if i < n {
          assert init[i] == x && !HasKey(init[..i], key, key(x));
        }
      }
    }
  }

  /** Appending input only appends output: an early exit can never be overtaken by a later element. */
  lemma {:induction false} DedupPrefix<T>(xs: seq<T>, ys: seq<T>, key: T -> string)
    ensures Dedup(xs, key) <= Dedup(xs + ys, key)
  {
    if ys == [] {
      assert xs + ys == xs;
    } else {
      var n := |ys| - 1;
      DedupPrefix(xs, ys[..n], key);
      assert xs + ys == (xs + ys[..n]) + [ys[n]];
      DedupSnoc(xs + ys[..n], ys[n], key);
    }
  }

  /** A sequence that repeats no key is left alone. */
  lemma {:induction false} DedupDistinct<T>(xs: seq<T>, key: T -> string)
    requires DistinctKeys(xs, key)
    ensures Dedup(xs, key) == xs
  {
    if xs == [] {
    } else {
      var n := |xs| - 1;
      DedupDistinct(xs[..n], key);
      assert xs == xs[..n] + [xs[n]];
    }
  }
}
