/** `Array.prototype.filter`, substring search and the facts the screens need about them. */
module Lists {

  /** `r` can be obtained from `s` by deleting elements, without reordering the rest. */
  ghost predicate SubsequenceOf<T>(r: seq<T>, s: seq<T>)
  {
    if r == [] then true
    else if s == [] then false
    else if r[0] == s[0] then SubsequenceOf(r[1..], s[1..])
    else SubsequenceOf(r, s[1..])
  }

  /** The elements of `s` that satisfy `keep`, in their original order. */
  function Filter<T(!new)>(s: seq<T>, keep: T -> bool): (r: seq<T>)
    ensures |r| <= |s|
    ensures forall x :: x in r <==> x in s && keep(x)
    ensures forall x :: multiset(r)[x] == if keep(x) then multiset(s)[x] else 0
    ensures SubsequenceOf(r, s)
  {
    if s == [] then []
    else
      var rest := Filter(s[1..], keep);
      assert s == [s[0]] + s[1..];
      if keep(s[0]) then [s[0]] + rest else rest
  }

  /** Filtering keeps everything exactly when every element passes. */
  lemma {:induction false} FilterKeepsAll<T(!new)>(s: seq<T>, keep: T -> bool)
    ensures Filter(s, keep) == s <==> forall x :: x in s ==> keep(x)
  {
    if s != [] {
      FilterKeepsAll(s[1..], keep);
      if !keep(s[0]) {
        assert |Filter(s, keep)| <= |s[1..]| < |s|;
      } else if Filter(s[1..], keep) != s[1..] {
        assert Filter(s, keep)[1..] == Filter(s[1..], keep);
      }
    }
  }

  /** Filtering an appended element decides that element alone. */
  lemma {:induction false} FilterAppend<T(!new)>(s: seq<T>, x: T, keep: T -> bool)
    ensures Filter(s + [x], keep) == Filter(s, keep) + (if keep(x) then [x] else [])
  {
    if s == [] {
      assert [] + [x] == [x];
      assert [x][1..] == [];
    } else {
      assert (s + [x])[1..] == s[1..] + [x];
      FilterAppend(s[1..], x, keep);
    }
  }

  /** A filter over `[x] + s` decides `x` first. */
  lemma FilterCons<T(!new)>(x: T, s: seq<T>, keep: T -> bool)
    ensures Filter([x] + s, keep) == (if keep(x) then [x] else []) + Filter(s, keep)
  {
    assert ([x] + s)[1..] == s;
  }

  /** Two filters applied one after the other may be applied in either order. */
  lemma {:induction false} FilterCommutes<T(!new)>(s: seq<T>, p: T -> bool, q: T -> bool)
    ensures Filter(Filter(s, p), q) == Filter(Filter(s, q), p)
  {
    if s != [] {
      FilterCommutes(s[1..], p, q);
      var fp, fq := Filter(s[1..], p), Filter(s[1..], q);
      if p(s[0]) { assert Filter(s, p)[1..] == fp; }
      if q(s[0]) { assert Filter(s, q)[1..] == fq; }
      if p(s[0]) && q(s[0]) {
        assert ([s[0]] + Filter(fp, q))[1..] == Filter(fp, q);
        assert ([s[0]] + Filter(fq, p))[1..] == Filter(fq, p);
      }
    }
  }

  /** `s` starts with `part`. */
  predicate StartsWith(s: string, part: string)
  {
    |part| <= |s| && s[..|part|] == part
  }

  /** `String.prototype.includes`: `part` occurs in `s` at some position. */
  function Contains(s: string, part: string): (b: bool)
    ensures part == [] ==> b
    ensures |part| > |s| ==> !b
  {
    StartsWith(s, part) || (s != [] && Contains(s[1..], part))
  }

  /** `part` occurs in `s` starting at index `i`. */
  predicate OccursAt(s: string, part: string, i: int)
  {
    0 <= i <= |s| - |part| && s[i..i + |part|] == part
  }

  /** A slice of the tail is the slice of the whole shifted by one. */
  lemma SliceOfTail(s: string, i: int, n: int)
    requires 1 <= i && 0 <= n && i + n <= |s|
    ensures s[1..][i - 1..i - 1 + n] == s[i..i + n]
  {
    var a, b := s[1..][i - 1..i - 1 + n], s[i..i + n];
    assert |a| == |b|;
    forall k | 0 <= k < n ensures a[k] == b[k] {
      assert a[k] == s[1..][i - 1 + k] == s[i + k];
    }
  }

  /** `Contains` finds `part` exactly when it occurs at some position of `s`. */
  lemma {:induction false} ContainsIffOccurs(s: string, part: string)
    ensures Contains(s, part) <==> exists i :: OccursAt(s, part, i)
  {
    if StartsWith(s, part) {
      assert s[0..|part|] == s[..|part|];
      assert OccursAt(s, part, 0);
    } else if s != [] {
      ContainsIffOccurs(s[1..], part);
      if Contains(s[1..], part) {
        var i :| OccursAt(s[1..], part, i);
        SliceOfTail(s, i + 1, |part|);
        assert OccursAt(s, part, i + 1);
      } else {
        forall i | OccursAt(s, part, i) ensures false {
          if i != 0 {
            SliceOfTail(s, i, |part|);
            assert OccursAt(s[1..], part, i - 1);
          }
        }
      }
    }
  }

}
