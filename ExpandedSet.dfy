/**
 * The accordion bookkeeping of the order-documentation page: a `number[]` of
 * expanded indices used as a set, toggled by `prev.includes(i) ? prev.filter(j => j !== i)
 * : [...prev, i]`, and a record from layer index to such a list.
 */
module ExpandedSet {

  import opened Options

  /** No index occurs twice in the list. */
  predicate NoDup(xs: seq<int>) {
    forall i, j :: 0 <= i < j < |xs| ==> xs[i] != xs[j]
  }

  /** `xs.filter(i => i !== x)`: every occurrence of `x` dropped, the rest kept in order. */
  function Without(xs: seq<int>, x: int): (r: seq<int>)
    ensures x !in r
    ensures forall y :: y in r <==> y in xs && y != x
    ensures multiset(r) == multiset(xs)[x := 0]
  {
    if xs == [] then []
    else if xs[0] == x then
      assert xs == [xs[0]] + xs[1..];
      Without(xs[1..], x)
    else
      assert xs == [xs[0]] + xs[1..];
      [xs[0]] + Without(xs[1..], x)
  }

  /** One accordion toggle: remove `x` when it is expanded, append it when it is not. */
  function Toggle(xs: seq<int>, x: int): (r: seq<int>)
    ensures forall y :: y in r <==> ((y in xs) != (y == x))
  {
    if x in xs then Without(xs, x) else xs + [x]
  }

  /** Filtering distributes over concatenation, so the survivors keep their relative order. */
  lemma {:induction false} WithoutConcat(a: seq<int>, b: seq<int>, x: int)
    ensures Without(a + b, x) == Without(a, x) + Without(b, x)
  {
    if a == [] {
      assert a + b == b;
    } else {
      assert (a + b)[0] == a[0];
      assert (a + b)[1..] == a[1..] + b;
      WithoutConcat(a[1..], b, x);
    }
  }

  /** Filtering out an index that is absent changes nothing. */
  lemma {:induction false} WithoutAbsent(xs: seq<int>, x: int)
    requires x !in xs
    ensures Without(xs, x) == xs
  {
    if xs != [] {
      assert xs[0] in xs;
      assert forall y :: y in xs[1..] ==> y in xs;
      WithoutAbsent(xs[1..], x);
      assert xs == [xs[0]] + xs[1..];
    }
  }

  /** Filtering keeps a duplicate-free list duplicate-free. */
  lemma {:induction false} WithoutNoDup(xs: seq<int>, x: int)
    requires NoDup(xs)
    ensures NoDup(Without(xs, x))
  {
    if xs != [] {
      assert NoDup(xs[1..]) by {
        forall i, j | 0 <= i < j < |xs[1..]| ensures xs[1..][i] != xs[1..][j] {
          assert xs[1..][i] == xs[i + 1] && xs[1..][j] == xs[j + 1];
        }
      }
      WithoutNoDup(xs[1..], x);
      if xs[0] != x {
        var rest := Without(xs[1..], x);
        assert xs[0] !in xs[1..] by {
          forall k | 0 <= k < |xs[1..]| ensures xs[1..][k] != xs[0] {
            assert xs[1..][k] == xs[k + 1];
          }
        }
        assert xs[0] !in rest;
        var r := [xs[0]] + rest;
        forall i, j | 0 <= i < j < |r| ensures r[i] != r[j] {
          if i == 0 {
            assert r[j] == rest[j - 1];
          } else {
            assert r[i] == rest[i - 1] && r[j] == rest[j - 1];
          }
        }
      }
    }
  }

  /** An absent index is appended at the end; every existing entry keeps its place. */
  lemma ToggleAbsentAppends(xs: seq<int>, x: int)
    requires x !in xs
    ensures |Toggle(xs, x)| == |xs| + 1
    ensures Toggle(xs, x)[..|xs|] == xs && Toggle(xs, x)[|xs|] == x
  {
  }

  /**
   * A present index loses every occurrence; the rest is exactly the filtered list. In a
   * duplicate-free list that is exactly one element fewer.
   */
  lemma TogglePresentRemoves(xs: seq<int>, x: int)
    requires x in xs
    ensures x !in Toggle(xs, x)
    ensures Toggle(xs, x) == Without(xs, x)
    ensures |Toggle(xs, x)| < |xs|
    ensures NoDup(xs) ==> |Toggle(xs, x)| == |xs| - 1
  {
    assert multiset(xs)[x] > 0;
    assert |multiset(Toggle(xs, x))| < |multiset(xs)|;
    if NoDup(xs) {
      NoDupOccursOnce(xs, x);
      assert |multiset(Toggle(xs, x))| == |multiset(xs)| - 1;
    }
  }

  /** A toggle keeps the list duplicate-free. */
  lemma ToggleNoDup(xs: seq<int>, x: int)
    requires NoDup(xs)
    ensures NoDup(Toggle(xs, x))
  {
    if x in xs {
      WithoutNoDup(xs, x);
    } else {
      var r := xs + [x];
      forall i, j | 0 <= i < j < |r| ensures r[i] != r[j] {
        if j == |xs| {
          assert r[i] == xs[i];
        }
      }
    }
  }

  /** Toggling an absent index twice gives back the very same list. */
  lemma ToggleTwiceAbsent(xs: seq<int>, x: int)
    requires x !in xs
    ensures Toggle(Toggle(xs, x), x) == xs
  {
    assert x in xs + [x];
    WithoutConcat(xs, [x], x);
    WithoutAbsent(xs, x);
    assert Without([x], x) == [];
  }

  /**
   * Toggling a present index twice restores the membership; in a duplicate-free
   * list it restores the multiset too (the index is now at the end).
   */
  lemma ToggleTwicePresent(xs: seq<int>, x: int)
    requires x in xs
    ensures forall y :: y in Toggle(Toggle(xs, x), x) <==> y in xs
    ensures NoDup(xs) ==> multiset(Toggle(Toggle(xs, x), x)) == multiset(xs)
  {
    if NoDup(xs) {
      NoDupOccursOnce(xs, x);
      assert Toggle(Toggle(xs, x), x) == Without(xs, x) + [x];
    }
  }

  /** In a duplicate-free list an index occurs at most once. */
  lemma {:induction false} NoDupOccursOnce(xs: seq<int>, x: int)
    requires NoDup(xs) && x in xs
    ensures multiset(xs)[x] == 1
  {
    assert xs == [xs[0]] + xs[1..];
    assert NoDup(xs[1..]) by {
      forall i, j | 0 <= i < j < |xs[1..]| ensures xs[1..][i] != xs[1..][j] {
        assert xs[i + 1] != xs[j + 1];
      }
    }
    if xs[0] == x {
      assert x !in xs[1..] by {
        forall i | 0 <= i < |xs[1..]| ensures xs[1..][i] != x {
          assert xs[0] != xs[i + 1];
        }
      }
    } else {
      NoDupOccursOnce(xs[1..], x);
    }
  }

  /** `prev[layerIdx] || []`: a layer that has never been toggled reads as the empty list. */
  function Entry(m: map<int, seq<int>>, layerIdx: int): (r: seq<int>)
    ensures layerIdx !in m ==> r == []
  {
    if layerIdx in m then m[layerIdx] else []
  }

  /** `{...prev, [layerIdx]: toggle(prev[layerIdx] || [], subIdx)}`. */
  function ToggleEntry(m: map<int, seq<int>>, layerIdx: int, subIdx: int): (r: map<int, seq<int>>)
    ensures r.Keys == m.Keys + {layerIdx}
    ensures forall k :: k in m && k != layerIdx ==> r[k] == m[k]
    ensures forall y :: y in r[layerIdx] <==> ((y in Entry(m, layerIdx)) != (y == subIdx))
  {
    m[layerIdx := Toggle(Entry(m, layerIdx), subIdx)]
  }

  /** `expandedSubcategories[layerIdx]?.includes(subIdx) ?? false`. */
  predicate IsSubExpanded(m: map<int, seq<int>>, layerIdx: int, subIdx: int)
    ensures IsSubExpanded(m, layerIdx, subIdx) <==> subIdx in Entry(m, layerIdx)
  {
    (if layerIdx in m then Some(subIdx in m[layerIdx]) else None).GetOr(false)
  }

  /** A subcategory toggle flips exactly the one (layer, subcategory) pair it names. */
  lemma ToggleEntryFlipsOne(m: map<int, seq<int>>, layerIdx: int, subIdx: int, l: int, s: int)
    ensures IsSubExpanded(ToggleEntry(m, layerIdx, subIdx), l, s)
        == (IsSubExpanded(m, l, s) != (l == layerIdx && s == subIdx))
  {
  }

  /** In the empty record every subcategory reads as collapsed. */
  lemma EmptyAllCollapsed(l: int, s: int)
    ensures !IsSubExpanded(map[], l, s)
  {
  }
}
