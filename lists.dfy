/**
 * Sequence helpers shared by the registry merge on the server and the
 * address grouping on the bot: `Array.prototype.filter`, a first-match
 * lookup, and the "push unless already included" idiom both of them use.
 */
module Lists {
  import opened Wrappers

  predicate NoDuplicates<T(==)>(s: seq<T>) {
    forall i, j :: 0 <= i < j < |s| ==> s[i] != s[j]
  }

  /** The first element satisfying `p`, as a `findFirst` query returns it. */
  function FindFirst<T>(s: seq<T>, p: T -> bool): (r: Option<T>)
    ensures r.Some? ==> r.value in s && p(r.value)
    ensures r.None? <==> forall i :: 0 <= i < |s| ==> !p(s[i])
  {
    if |s| == 0 then None
    else if p(s[0]) then Some(s[0])
    else FindFirst(s[1..], p)
  }

  /** `s.filter(keep)`. */
  function Filter<T>(s: seq<T>, keep: T -> bool): (r: seq<T>)
    ensures |r| <= |s|
    ensures forall i :: 0 <= i < |r| ==> r[i] in s && keep(r[i])
    ensures forall i :: 0 <= i < |s| && keep(s[i]) ==> s[i] in r
  {
    if |s| == 0 then []
    else (if keep(s[0]) then [s[0]] else []) + Filter(s[1..], keep)
  }

  /** Filtering a concatenation filters each part and keeps them in order. */
  lemma {:induction false} FilterAppend<T>(a: seq<T>, b: seq<T>, keep: T -> bool)
    ensures Filter(a + b, keep) == Filter(a, keep) + Filter(b, keep)
  {
    if |a| == 0 {
      assert a + b == b;
    } else {
      assert (a + b)[1..] == a[1..] + b;
      FilterAppend(a[1..], b, keep);
    }
  }

  /** Filtering twice with the same test changes nothing the second time. */
  lemma {:induction false} FilterIdempotent<T>(s: seq<T>, keep: T -> bool)
    ensures Filter(Filter(s, keep), keep) == Filter(s, keep)
  {
    if |s| > 0 {
      FilterIdempotent(s[1..], keep);
      var f := Filter(s, keep);
      if keep(s[0]) {
        assert f == [s[0]] + Filter(s[1..], keep);
        assert f[0] == s[0] && f[1..] == Filter(s[1..], keep);
        assert Filter(f, keep) == [s[0]] + Filter(f[1..], keep);
      } else {
        assert f == Filter(s[1..], keep);
      }
    }
  }

  /** A filter that keeps every element is the identity. */
  lemma {:induction false} FilterAll<T>(s: seq<T>, keep: T -> bool)
    requires forall i :: 0 <= i < |s| ==> keep(s[i])
    ensures Filter(s, keep) == s
  {
    if |s| > 0 {
      FilterAll(s[1..], keep);
      assert [s[0]] + s[1..] == s;
    }
  }

  /**
   * Appends the elements of `s` to `base`, in order, each one only when the
   * list built so far does not already include it: the loop
   * `for (x of s) if (!list.includes(x)) list.push(x)`.
   */
  function DedupOnto<T(==)>(base: seq<T>, s: seq<T>): (r: seq<T>)
    ensures base <= r
    ensures forall i :: 0 <= i < |r| ==> r[i] in base || r[i] in s
    ensures forall i :: 0 <= i < |s| ==> s[i] in r
    decreases |s|
  {
    if |s| == 0 then base
    else
      var p := DedupOnto(base, s[..|s| - 1]);
      if s[|s| - 1] in p then p else p + [s[|s| - 1]]
  }

  /** A list without duplicates stays without duplicates. */
  lemma {:induction false} DedupOntoNoDuplicates<T>(base: seq<T>, s: seq<T>)
    requires NoDuplicates(base)
    ensures NoDuplicates(DedupOnto(base, s))
    decreases |s|
  {
    if |s| > 0 {
      DedupOntoNoDuplicates(base, s[..|s| - 1]);
    }
  }

  /** When every element of `s` is already there, nothing is appended. */
  lemma {:induction false} DedupOntoPresent<T>(base: seq<T>, s: seq<T>)
    requires forall x :: x in s ==> x in base
    ensures DedupOnto(base, s) == base
    decreases |s|
  {
    if |s| > 0 {
      DedupOntoPresent(base, s[..|s| - 1]);
      assert s[|s| - 1] in s;
    }
  }

  /** Running the same loop a second time appends nothing. */
  lemma DedupOntoIdempotent<T>(base: seq<T>, s: seq<T>)
    ensures DedupOnto(DedupOnto(base, s), s) == DedupOnto(base, s)
  {
    DedupOntoPresent(DedupOnto(base, s), s);
  }

  /** Running the loop over `s` and then over `t` is running it over `s + t`. */
  lemma {:induction false} DedupOntoAppend<T>(base: seq<T>, s: seq<T>, t: seq<T>)
    ensures DedupOnto(DedupOnto(base, s), t) == DedupOnto(base, s + t)
    decreases |t|
  {
    if |t| == 0 {
      assert s + t == s;
    } else {
      var front, x := t[..|t| - 1], t[|t| - 1];
      DedupOntoAppend(base, s, front);
      var p := DedupOnto(base, s + front);
      assert (s + t)[..|s + t| - 1] == s + front && (s + t)[|s + t| - 1] == x;
      assert DedupOnto(base, s + t) == if x in p then p else p + [x];
      assert DedupOnto(DedupOnto(base, s), t) == if x in p then p else p + [x];
    }
  }

  /**
   * The first occurrences, read left to right: each element of `s` that is
   * not in `seen` and not earlier in `s`, in the order of `s`.
   */
  function FirstOccurrences<T(==)>(seen: set<T>, s: seq<T>): seq<T>
    decreases |s|
  {
    if |s| == 0 then []
    else if s[0] in seen then FirstOccurrences(seen, s[1..])
    else [s[0]] + FirstOccurrences(seen + {s[0]}, s[1..])
  }

  /** What a first-occurrence scan adds for one more element at the end. */
  lemma {:induction false} FirstOccurrencesSnoc<T>(seen: set<T>, s: seq<T>, x: T)
    ensures FirstOccurrences(seen, s + [x])
         == FirstOccurrences(seen, s) + (if x in seen || x in s then [] else [x])
    decreases |s|
  {
    if |s| == 0 {
      assert s + [x] == [x];
    } else {
      assert (s + [x])[1..] == s[1..] + [x];
      if s[0] in seen {
        FirstOccurrencesSnoc(seen, s[1..], x);
        assert x in s[1..] ==> x in s;
        assert x in s && x != s[0] ==> x in s[1..];
      } else {
        FirstOccurrencesSnoc(seen + {s[0]}, s[1..], x);
        assert x in s[1..] ==> x in s;
        assert x in s && x != s[0] ==> x in s[1..];
      }
    }
  }

  /**
   * The right-to-left definition agrees with the left-to-right reading: the
   * loop appends exactly the first occurrences of elements not in `base`,
   * in the order they first occur.
   */
  lemma {:induction false} DedupOntoIsFirstOccurrences<T>(base: seq<T>, s: seq<T>)
    ensures DedupOnto(base, s) == base + FirstOccurrences((set x | x in base), s)
    decreases |s|
  {
    var seen := set x | x in base;
    if |s| == 0 {
      assert base + [] == base;
    } else {
      var init, x := s[..|s| - 1], s[|s| - 1];
      assert s == init + [x];
      DedupOntoIsFirstOccurrences(base, init);
      FirstOccurrencesSnoc(seen, init, x);
      assert x in DedupOnto(base, init) <==> x in seen || x in init;
    }
  }
}
