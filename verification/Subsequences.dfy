/** Order-preserving selection from a list. */
module Subsequences {

  predicate IsSubseq<T(==)>(a: seq<T>, b: seq<T>)
    decreases |b|
  {
    || a == []
    || (b != [] && ((a[0] == b[0] && IsSubseq(a[1..], b[1..])) || IsSubseq(a, b[1..])))
  }

  lemma {:induction false} SubseqRefl<T>(a: seq<T>)
    ensures IsSubseq(a, a)
  {
    if a == [] {
    } else {
      SubseqRefl(a[1..]);
    }
  }

  lemma EmptySubseq<T>(b: seq<T>)
    ensures IsSubseq([], b)
  {
  }

  lemma {:induction false} SubseqCons<T>(a: seq<T>, b: seq<T>, x: T)
    requires IsSubseq(a, b)
    ensures IsSubseq(a, [x] + b) && IsSubseq([x] + a, [x] + b)
  {
    assert ([x] + b)[1..] == b && ([x] + a)[1..] == a;
  }

  /** The rest of a subsequence is one too. */
  lemma {:induction false} SubseqTail<T>(a: seq<T>, b: seq<T>)
    requires a != [] && IsSubseq(a, b)
    ensures IsSubseq(a[1..], b)
    decreases |b|
  {
    if !(a[0] == b[0] && IsSubseq(a[1..], b[1..])) { SubseqTail(a, b[1..]); }
  }

  lemma {:induction false} SubseqTrans<T>(a: seq<T>, b: seq<T>, c: seq<T>)
    requires IsSubseq(a, b) && IsSubseq(b, c)
    ensures IsSubseq(a, c)
    decreases |c|, |b|
  {
    if a == [] || b == [] {
    } else if b[0] == c[0] && IsSubseq(b[1..], c[1..]) {
      if a[0] == b[0] && IsSubseq(a[1..], b[1..]) {
        SubseqTrans(a[1..], b[1..], c[1..]);
      } else {
        SubseqTrans(a, b[1..], c[1..]);
      }
    } else {
      SubseqTrans(a, b, c[1..]);
    }
  }

  lemma {:induction false} SubseqAppend<T>(a: seq<T>, b: seq<T>, x: seq<T>, y: seq<T>)
    requires IsSubseq(a, b) && IsSubseq(x, y)
    ensures IsSubseq(a + x, b + y)
    decreases |b|
  {
    if b == [] {
      assert a + x == x && b + y == y;
    } else {
      assert (b + y)[1..] == b[1..] + y;
      if a == [] {
        SubseqAppend(a, b[1..], x, y);
      } else if a[0] == b[0] && IsSubseq(a[1..], b[1..]) {
        SubseqAppend(a[1..], b[1..], x, y);
        assert (a + x)[1..] == a[1..] + x;
      } else {
        SubseqAppend(a, b[1..], x, y);
      }
    }
  }

  lemma {:induction false} SuffixIsSubseq<T>(a: seq<T>, k: nat)
    requires k <= |a|
    ensures IsSubseq(a[k..], a)
  {
    if k == 0 {
      assert a[0..] == a;
      SubseqRefl(a);
    } else {
      SuffixIsSubseq(a[1..], k - 1);
      assert a[k..] == a[1..][k - 1..];
    }
  }

  lemma {:induction false} SubseqMembers<T>(a: seq<T>, b: seq<T>)
    requires IsSubseq(a, b)
    ensures forall x :: x in a ==> x in b
    decreases |b|
  {
    if a == [] {
    } else {
      if a[0] == b[0] && IsSubseq(a[1..], b[1..]) {
        SubseqMembers(a[1..], b[1..]);
        forall x | x in a
          ensures x in b
        {
          if x != a[0] { assert x in a[1..]; }
        }
      } else {
        SubseqMembers(a, b[1..]);
      }
    }
  }

  lemma {:induction false} SubseqLength<T>(a: seq<T>, b: seq<T>)
    requires IsSubseq(a, b)
    ensures |a| <= |b|
    ensures |a| == |b| ==> a == b
    decreases |b|
  {
    if a == [] {
    } else {
      if a[0] == b[0] && IsSubseq(a[1..], b[1..]) {
        SubseqLength(a[1..], b[1..]);
        if |a| == |b| { assert a == [a[0]] + a[1..] && b == [b[0]] + b[1..]; }
      } else {
        SubseqLength(a, b[1..]);
      }
    }
  }

  predicate Distinct<T(==)>(a: seq<T>) { forall i, j :: 0 <= i < j < |a| ==> a[i] != a[j] }

  /** In a list without repetitions a subsequence cannot turn two elements round. */
  lemma {:induction false} SubseqKeepsOrder<T>(a: seq<T>, b: seq<T>, i: nat, j: nat, p: nat, q: nat)
    requires Distinct(b) && IsSubseq(a, b)
    requires i < j < |a| && p < |b| && q < |b| && a[i] == b[p] && a[j] == b[q]
    ensures p < q
    decreases |b|
  {
    if a[0] == b[0] && IsSubseq(a[1..], b[1..]) {
      SubseqMembers(a[1..], b[1..]);
      assert a[j] == a[1..][j - 1] && a[j] in b[1..];
      if i > 0 {
        assert a[i] == a[1..][i - 1] && a[i] in b[1..];
        SubseqKeepsOrder(a[1..], b[1..], i - 1, j - 1, p - 1, q - 1);
      }
    } else {
      SubseqMembers(a, b[1..]);
      assert a[i] in b[1..] && a[j] in b[1..];
      SubseqKeepsOrder(a, b[1..], i, j, p - 1, q - 1);
    }
  }

  /** The elements whose flag is set, in their order. */
  function Select<T>(a: seq<T>, flags: seq<bool>): seq<T>
    requires |a| == |flags|
  {
    if a == [] then []
    else (if flags[0] then [a[0]] else []) + Select(a[1..], flags[1..])
  }

  lemma {:induction false} SelectIsSubseq<T>(a: seq<T>, flags: seq<bool>)
    requires |a| == |flags|
    ensures IsSubseq(Select(a, flags), a)
  {
    if a == [] {
    } else {
      var rest := Select(a[1..], flags[1..]);
      SelectIsSubseq(a[1..], flags[1..]);
      SubseqCons(rest, a[1..], a[0]);
      assert a == [a[0]] + a[1..] && [] + rest == rest;
    }
  }

  lemma {:induction false} SelectAppend<T>(a: seq<T>, f: seq<bool>, b: seq<T>, g: seq<bool>)
    requires |a| == |f| && |b| == |g|
    ensures Select(a + b, f + g) == Select(a, f) + Select(b, g)
  {
    if a == [] {
      assert a + b == b && f + g == g;
    } else {
      var h, x, y := if f[0] then [a[0]] else [], Select(a[1..], f[1..]), Select(b, g);
      SelectAppend(a[1..], f[1..], b, g);
      assert (a + b)[1..] == a[1..] + b && (f + g)[1..] == f[1..] + g;
      assert Select(a + b, f + g) == h + Select(a[1..] + b, f[1..] + g);
      assert h + (x + y) == (h + x) + y;
    }
  }

  lemma {:induction false} SelectMembers<T>(a: seq<T>, flags: seq<bool>)
    requires |a| == |flags|
    ensures forall i :: 0 <= i < |a| && flags[i] ==> a[i] in Select(a, flags)
    ensures forall x :: x in Select(a, flags) ==> exists i :: 0 <= i < |a| && flags[i] && a[i] == x
  {
    if a == [] {
    } else {
      var rest := Select(a[1..], flags[1..]);
      SelectMembers(a[1..], flags[1..]);
      forall i | 0 <= i < |a| && flags[i]
        ensures a[i] in Select(a, flags)
      {
        if i > 0 { assert a[i] == a[1..][i - 1] && flags[1..][i - 1]; assert a[i] in rest; }
      }
      forall x | x in Select(a, flags)
        ensures exists i :: 0 <= i < |a| && flags[i] && a[i] == x
      {
        if x in rest {
          var i :| 0 <= i < |a| - 1 && flags[1..][i] && a[1..][i] == x;
          assert flags[i + 1] && a[i + 1] == x;
        } else {
          assert flags[0] && a[0] == x;
        }
      }
    }
  }

  // Where an element of a selection comes from.

  /** The number of marks before `i`: the place at which element `i` is found in the selection. */
  function Rank(flags: seq<bool>, i: nat): nat
    requires i <= |flags|
  {
    if i == 0 then 0 else Rank(flags, i - 1) + if flags[i - 1] then 1 else 0
  }

  lemma SelectSnoc<T>(a: seq<T>, flags: seq<bool>, i: nat)
    requires |a| == |flags| && i < |a|
    ensures Select(a[..i + 1], flags[..i + 1]) == Select(a[..i], flags[..i]) + if flags[i] then [a[i]] else []
  {
    assert a[..i + 1] == a[..i] + [a[i]] && flags[..i + 1] == flags[..i] + [flags[i]];
    SelectAppend(a[..i], flags[..i], [a[i]], [flags[i]]);
    assert Select([a[i]], [flags[i]]) == (if flags[i] then [a[i]] else []) + Select([a[i]][1..], [flags[i]][1..]);
  }

  lemma {:induction false} RankIsLength<T>(a: seq<T>, flags: seq<bool>, i: nat)
    requires |a| == |flags| && i <= |a|
    ensures |Select(a[..i], flags[..i])| == Rank(flags, i)
  {
    if i == 0 {
    } else {
      RankIsLength(a, flags, i - 1);
      SelectSnoc(a, flags, i - 1);
    }
  }

  lemma SelectAt<T>(a: seq<T>, flags: seq<bool>, i: nat)
    requires |a| == |flags| && i < |a| && flags[i]
    ensures Rank(flags, i) < |Select(a, flags)| && Select(a, flags)[Rank(flags, i)] == a[i]
  {
    SelectSnoc(a, flags, i);
    RankIsLength(a, flags, i);
    assert a == a[..i + 1] + a[i + 1..] && flags == flags[..i + 1] + flags[i + 1..];
    SelectAppend(a[..i + 1], flags[..i + 1], a[i + 1..], flags[i + 1..]);
  }

  lemma {:induction false} RankGrows(flags: seq<bool>, i: nat, j: nat)
    requires i <= j <= |flags|
    ensures Rank(flags, i) <= Rank(flags, j)
    ensures i < j && flags[i] ==> Rank(flags, i) < Rank(flags, j)
  {
    if i < j { RankGrows(flags, i, j - 1); }
  }

  /** No marked element lies between two neighbours of the selection. */
  lemma {:induction false} RankSkips(flags: seq<bool>, i: nat, j: nat)
    requires i <= j <= |flags|
    ensures Rank(flags, i) == Rank(flags, j) <==> forall l :: i <= l < j ==> !flags[l]
  {
    if i < j {
      RankSkips(flags, i, j - 1);
      RankGrows(flags, i, j - 1);
    }
  }

  lemma {:induction false} SelectedFrom<T>(a: seq<T>, flags: seq<bool>, p: nat, n: nat) returns (i: nat)
    requires |a| == |flags| && n <= |a| && p < Rank(flags, n)
    ensures i < n && flags[i] && Rank(flags, i) == p
  {
    if flags[n - 1] && Rank(flags, n - 1) == p {
      i := n - 1;
    } else {
      i := SelectedFrom(a, flags, p, n - 1);
    }
  }

  /** Selecting twice is selecting once. */
  function Compose(f: seq<bool>, g: seq<bool>): (r: seq<bool>)
    requires |g| == Rank(f, |f|)
    ensures |r| == |f|
  {
    seq(|f|, i requires 0 <= i < |f| => f[i] && MarkedAt(f, g, i))
  }

  predicate MarkedAt(f: seq<bool>, g: seq<bool>, i: nat)
    requires |g| == Rank(f, |f|) && i < |f|
  {
    Rank(f, i) < |g| && g[Rank(f, i)]
  }

  lemma {:induction false} SelectCompose<T>(a: seq<T>, f: seq<bool>, g: seq<bool>, n: nat)
    requires |a| == |f| && |g| == Rank(f, |f|) && n <= |a|
    ensures Rank(f, n) <= |g|
    ensures |Select(a[..n], f[..n])| == Rank(f, n)
    ensures Select(Select(a[..n], f[..n]), g[..Rank(f, n)]) == Select(a[..n], Compose(f, g)[..n])
  {
    hide Select;
    RankGrows(f, n, |f|);
    RankIsLength(a, f, n);
    if n == 0 {
      NothingSelected(a[..0], f[..0]);
      NothingSelected(Select(a[..0], f[..0]), g[..0]);
      NothingSelected(a[..0], Compose(f, g)[..0]);
    } else {
      SelectCompose(a, f, g, n - 1);
      SelectSnoc(a, f, n - 1);
      SelectSnoc(a, Compose(f, g), n - 1);
      var c, p := Select(a[..n], f[..n]), Rank(f, n - 1);
      var d := Select(a[..n - 1], f[..n - 1]);
      var before := Select(d, g[..p]);
      assert before + [] == before;
      if f[n - 1] {
        assert c == d + [a[n - 1]];
        assert c[..p] == d && c[..p + 1] == c && c[p] == a[n - 1];
        SelectSnoc(c, g[..p + 1], p);
        assert g[..p + 1][..p] == g[..p] && g[..p + 1][..p + 1] == g[..p + 1];
      } else {
        assert c == d + [] == d;
      }
    }
  }

  function AllMarked(n: nat): (f: seq<bool>)
    ensures |f| == n
  {
    seq(n, _ => true)
  }

  lemma {:induction false} SelectAll<T>(a: seq<T>)
    ensures Select(a, AllMarked(|a|)) == a
  {
    if a == [] {
    } else {
      SelectAll(a[1..]);
      assert AllMarked(|a|)[1..] == AllMarked(|a[1..]|);
      assert a == [a[0]] + a[1..];
    }
  }

  lemma NothingSelected<T>(a: seq<T>, flags: seq<bool>)
    requires a == [] && flags == []
    ensures Select(a, flags) == []
  {
  }
}
