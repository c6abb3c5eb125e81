/**
 * A particle table, reduced to the one column the filters and bins consult,
 * is a sequence of areas in row order. A boolean mask over the Area column
 * (`df[df["Area"] < b]`) is a `Cond`, and applying it is `Select`, which keeps
 * the rows that satisfy the condition in their original order.
 */
module Tables {

  /** The comparisons applied to the Area column, and their combinations. */
  datatype Cond =
    | Less(bound: real)        // area <  bound
    | Greater(bound: real)     // area >  bound
    | AtLeast(bound: real)     // area >= bound
    | AtMost(bound: real)      // area <= bound
    | Both(left: Cond, right: Cond)
    | Not(negated: Cond)

  predicate Holds(c: Cond, x: real) {
    match c
    case Less(b) => x < b
    case Greater(b) => x > b
    case AtLeast(b) => x >= b
    case AtMost(b) => x <= b
    case Both(l, r) => Holds(l, x) && Holds(r, x)
    case Not(n) => !Holds(n, x)
  }

  /** The half-open bin [lo, hi). */
  function HalfOpen(lo: real, hi: real): (c: Cond) {
    Both(AtLeast(lo), Less(hi))
  }

  /** The closed range [lo, hi]. */
  function Closed(lo: real, hi: real): (c: Cond) {
    Both(AtLeast(lo), AtMost(hi))
  }

  lemma HalfOpenHolds(lo: real, hi: real)
    ensures forall x :: Holds(HalfOpen(lo, hi), x) <==> lo <= x < hi
  {
  }

  lemma ClosedHolds(lo: real, hi: real)
    ensures forall x :: Holds(Closed(lo, hi), x) <==> lo <= x <= hi
  {
  }

  /** No area in the table is negative. */
  predicate NonNegative(s: seq<real>) {
    forall x :: x in s ==> x >= 0.0
  }

  /** `sum(column)`: the areas added up, 0 for an empty table; never negative for non-negative areas. */
  function Sum(s: seq<real>): (r: real)
    ensures NonNegative(s) ==> r >= 0.0
  {
    if s == [] then 0.0
    else
      assert NonNegative(s) ==> s[0] >= 0.0 && NonNegative(s[1..]) by {
        assert s[0] in s;
        assert forall x :: x in s[1..] ==> x in s;
      }
      s[0] + Sum(s[1..])
  }

  /** Boolean-mask selection: the rows satisfying `c`, in table order. */
  function Select(s: seq<real>, c: Cond): (r: seq<real>)
    ensures |r| <= |s|
    ensures forall x :: x in r ==> x in s && Holds(c, x)
  {
    if s == [] then []
    else if Holds(c, s[0]) then [s[0]] + Select(s[1..], c)
    else Select(s[1..], c)
  }

  /** `r` can be obtained from `s` by deleting rows, keeping the order of the rest. */
  predicate IsSubsequence(r: seq<real>, s: seq<real>)
    decreases |s|
  {
    r == [] || (s != [] && ((r[0] == s[0] && IsSubsequence(r[1..], s[1..])) || IsSubsequence(r, s[1..])))
  }

  lemma {:induction false} SelectMultiset(s: seq<real>, c: Cond)
    ensures forall x :: multiset(Select(s, c))[x] == if Holds(c, x) then multiset(s)[x] else 0
  {
    if s != [] {
      SelectMultiset(s[1..], c);
      assert s == [s[0]] + s[1..];
    }
  }

  lemma {:induction false} SelectIsSubsequence(s: seq<real>, c: Cond)
    ensures IsSubsequence(Select(s, c), s)
  {
    if s != [] {
      SelectIsSubsequence(s[1..], c);
      if Holds(c, s[0]) {
        assert Select(s, c)[1..] == Select(s[1..], c);
      }
    }
  }

  lemma {:induction false} SubsequenceMultiset(r: seq<real>, s: seq<real>)
    requires IsSubsequence(r, s)
    ensures multiset(r) <= multiset(s)
    decreases |s|
  {
    if r != [] {
      assert s == [s[0]] + s[1..];
      if r[0] == s[0] && IsSubsequence(r[1..], s[1..]) {
        SubsequenceMultiset(r[1..], s[1..]);
        assert r == [r[0]] + r[1..];
      } else {
        SubsequenceMultiset(r, s[1..]);
      }
    }
  }

  /**
   * A stable filter is determined by order and multiplicity: any `r` that is
   * a subsequence of `s` holding exactly the rows of `s` that satisfy `c`
   * (counted with multiplicity) is `Select(s, c)`.
   */
  lemma {:induction false} SelectIsUniqueStableFilter(r: seq<real>, s: seq<real>, c: Cond)
    requires IsSubsequence(r, s)
    requires forall x :: multiset(r)[x] == if Holds(c, x) then multiset(s)[x] else 0
    ensures r == Select(s, c)
    decreases |s|
  {
    if s == [] {
    } else if r == [] {
      forall x | x in s ensures !Holds(c, x) {
        assert multiset(r)[x] == 0;
      }
      SelectKeepsNone(s, c);
    } else {
      var a, t := s[0], s[1..];
      assert s == [a] + t;
      if Holds(c, a) {
        if r[0] == a && IsSubsequence(r[1..], t) {
          DropFirstMultiset(r, s, c);
          SelectIsUniqueStableFilter(r[1..], t, c);
        } else {
          SubsequenceMultiset(r, t);
          assert false;
        }
      } else {
        assert r == [r[0]] + r[1..];
        assert multiset(r)[a] == 0;
        forall x ensures multiset(r)[x] == if Holds(c, x) then multiset(t)[x] else 0 {
          if x != a {
            assert multiset(s)[x] == multiset(t)[x];
          }
        }
        SelectIsUniqueStableFilter(r, t, c);
      }
    }
  }

  lemma DropFirstMultiset(r: seq<real>, s: seq<real>, c: Cond)
    requires r != [] && s != [] && r[0] == s[0] && Holds(c, s[0])
    requires forall x :: multiset(r)[x] == if Holds(c, x) then multiset(s)[x] else 0
    ensures forall x :: multiset(r[1..])[x] == if Holds(c, x) then multiset(s[1..])[x] else 0
  {
    assert r == [r[0]] + r[1..];
    assert s == [s[0]] + s[1..];
  }

  /** Rows that satisfy `c` and rows that do not make up the table, in count and in area. */
  lemma {:induction false} SelectSplit(s: seq<real>, c: Cond)
    ensures |Select(s, c)| + |Select(s, Not(c))| == |s|
    ensures Sum(Select(s, c)) + Sum(Select(s, Not(c))) == Sum(s)
  {
    if s != [] {
      SelectSplit(s[1..], c);
    }
  }

  /** Selecting by `u` is selecting by two disjoint conditions whose union is `u`. */
  lemma {:induction false} SelectPartition(s: seq<real>, u: Cond, c: Cond, d: Cond)
    requires forall x :: x in s ==> (Holds(u, x) <==> Holds(c, x) || Holds(d, x))
    requires forall x :: x in s ==> !(Holds(c, x) && Holds(d, x))
    ensures |Select(s, u)| == |Select(s, c)| + |Select(s, d)|
    ensures Sum(Select(s, u)) == Sum(Select(s, c)) + Sum(Select(s, d))
  {
    if s != [] {
      var a, t := s[0], s[1..];
      assert a in s;
      assert forall x :: x in t ==> x in s;
      SelectPartition(t, u, c, d);
      if Holds(c, a) {
        assert Select(s, u) == [a] + Select(t, u) && Select(s, c) == [a] + Select(t, c);
        assert Select(s, d) == Select(t, d);
      } else if Holds(d, a) {
        assert Select(s, u) == [a] + Select(t, u) && Select(s, d) == [a] + Select(t, d);
        assert Select(s, c) == Select(t, c);
      } else {
        assert Select(s, u) == Select(t, u);
      }
    }
  }

  /** Conditions that agree on every row select the same rows. */
  lemma {:induction false} SelectSame(s: seq<real>, c: Cond, d: Cond)
    requires forall x :: x in s ==> (Holds(c, x) <==> Holds(d, x))
    ensures Select(s, c) == Select(s, d)
  {
    if s != [] {
      assert s[0] in s;
      SelectSame(s[1..], c, d);
    }
  }

  /** A mask keeps every row exactly when every row satisfies it. */
  lemma {:induction false} SelectKeepsAll(s: seq<real>, c: Cond)
    ensures |Select(s, c)| == |s| <==> forall x :: x in s ==> Holds(c, x)
    ensures (forall x :: x in s ==> Holds(c, x)) ==> Select(s, c) == s
  {
    if s != [] {
      SelectKeepsAll(s[1..], c);
      assert s[0] in s;
      assert s == [s[0]] + s[1..];
    }
  }

  /** A mask keeps no row exactly when no row satisfies it. */
  lemma {:induction false} SelectKeepsNone(s: seq<real>, c: Cond)
    ensures Select(s, c) == [] <==> forall x :: x in s ==> !Holds(c, x)
  {
    if s != [] {
      assert s[0] in s;
      assert s == [s[0]] + s[1..];
      SelectKeepsNone(s[1..], c);
    }
  }

  /** A one-row table keeps its row exactly when the row satisfies the mask. */
  lemma SelectSingleton(x: real, c: Cond)
    ensures Select([x], c) == if Holds(c, x) then [x] else []
  {
    assert [x][1..] == [];
  }

  /** Two successive masks are one mask by their conjunction. */
  lemma {:induction false} SelectSelect(s: seq<real>, c: Cond, d: Cond)
    ensures Select(Select(s, c), d) == Select(s, Both(c, d))
  {
    if s != [] {
      SelectSelect(s[1..], c, d);
    }
  }
}
