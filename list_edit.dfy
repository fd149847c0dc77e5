/** The list edits the pages perform on their selected-value and tag lists:
    `Array.prototype.filter`, removal of every occurrence, the
    add-or-remove toggle and the "append the trimmed input unless blank or
    present" rule. */
module ListEdit {
  import opened Text

  /** `a` can be obtained from `b` by deleting elements: the elements of `a`
      occur in `b` in the same order. */
  predicate IsSubsequence<T(==,!new)>(a: seq<T>, b: seq<T>)
    decreases |b|
  {
    if a == [] then true
    else if b == [] then false
    else if a[0] == b[0] then IsSubsequence(a[1..], b[1..])
    else IsSubsequence(a, b[1..])
  }

  predicate NoDuplicates<T(==,!new)>(xs: seq<T>)
  {
    forall i, j :: 0 <= i < j < |xs| ==> xs[i] != xs[j]
  }

  /** `xs.filter(p)`: the elements that pass `p`, in their original order. */
  function Keep<T(!new)>(xs: seq<T>, p: T -> bool): (r: seq<T>)
    ensures |r| <= |xs|
    ensures forall x :: x in r <==> x in xs && p(x)
  {
    if xs == [] then []
    else (if p(xs[0]) then [xs[0]] else []) + Keep(xs[1..], p)
  }

  /** A filtered list is a subsequence of the list filtered. */
  lemma {:induction false} KeepIsSubsequence<T(!new)>(xs: seq<T>, p: T -> bool)
    ensures IsSubsequence(Keep(xs, p), xs)
  {
    if xs != [] {
      KeepIsSubsequence(xs[1..], p);
      var rest := Keep(xs[1..], p);
      if !p(xs[0]) {
        assert Keep(xs, p) == rest;
        if rest != [] {
          assert rest[0] in rest;
        }
      }
    }
  }

  /** `filter` keeps every occurrence of a passing value and none of a
      failing one. */
  lemma {:induction false} KeepCounts<T(!new)>(xs: seq<T>, p: T -> bool)
    ensures forall x :: multiset(Keep(xs, p))[x] == if p(x) then multiset(xs)[x] else 0
  {
    if xs != [] {
      KeepCounts(xs[1..], p);
      assert xs == [xs[0]] + xs[1..];
      assert multiset(xs) == multiset([xs[0]]) + multiset(xs[1..]);
    }
  }

  /** Filtering with a predicate every element passes changes nothing. */
  lemma {:induction false} KeepAll<T(!new)>(xs: seq<T>, p: T -> bool)
    requires forall x :: x in xs ==> p(x)
    ensures Keep(xs, p) == xs
  {
    if xs != [] {
      KeepAll(xs[1..], p);
      assert xs == [xs[0]] + xs[1..];
    }
  }

  /** Two predicates that agree on the list filter it alike. */
  lemma {:induction false} KeepAgree<T(!new)>(xs: seq<T>, p: T -> bool, q: T -> bool)
    requires forall x :: x in xs ==> p(x) == q(x)
    ensures Keep(xs, p) == Keep(xs, q)
  {
    if xs != [] {
      KeepAgree(xs[1..], p, q);
    }
  }

  /** Filtering twice is filtering once by both predicates. */
  lemma {:induction false} KeepTwice<T(!new)>(xs: seq<T>, p: T -> bool, q: T -> bool)
    ensures Keep(Keep(xs, p), q) == Keep(xs, x => p(x) && q(x))
  {
    if xs != [] {
      KeepTwice(xs[1..], p, q);
      var head := if p(xs[0]) then [xs[0]] else [];
      KeepAppend(head, Keep(xs[1..], p), q);
      if p(xs[0]) {
        assert Keep(head, q) == if q(xs[0]) then [xs[0]] else [];
      }
    }
  }

  lemma {:induction false} KeepAppend<T(!new)>(a: seq<T>, b: seq<T>, p: T -> bool)
    ensures Keep(a + b, p) == Keep(a, p) + Keep(b, p)
  {
    if a != [] {
      KeepAppend(a[1..], b, p);
      var head := if p(a[0]) then [a[0]] else [];
      assert (a + b)[0] == a[0] && (a + b)[1..] == a[1..] + b;
      calc {
        Keep(a + b, p);
        head + Keep(a[1..] + b, p);
        head + (Keep(a[1..], p) + Keep(b, p));
        (head + Keep(a[1..], p)) + Keep(b, p);
        Keep(a, p) + Keep(b, p);
      }
    } else {
      assert a + b == b;
    }
  }

  /** A weaker predicate keeps at least as many elements. */
  lemma {:induction false} KeepMonotone<T(!new)>(xs: seq<T>, p: T -> bool, q: T -> bool)
    requires forall x :: x in xs && p(x) ==> q(x)
    ensures |Keep(xs, p)| <= |Keep(xs, q)|
  {
    if xs != [] {
      KeepMonotone(xs[1..], p, q);
    }
  }

  /** Filtering keeps the whole list exactly when every element passes. */
  lemma {:induction false} KeepFull<T(!new)>(xs: seq<T>, p: T -> bool)
    ensures |Keep(xs, p)| == |xs| <==> forall x :: x in xs ==> p(x)
  {
    if xs != [] {
      KeepFull(xs[1..], p);
      if !p(xs[0]) {
        assert |Keep(xs, p)| == |Keep(xs[1..], p)|;
      } else {
        assert forall x :: x in xs <==> x == xs[0] || x in xs[1..];
      }
    }
  }

  /** Filtering keeps a list free of duplicates. */
  lemma {:induction false} KeepNoDuplicates<T(!new)>(xs: seq<T>, p: T -> bool)
    requires NoDuplicates(xs)
    ensures NoDuplicates(Keep(xs, p))
  {
    if xs != [] {
      assert NoDuplicates(xs[1..]) by {
        forall i, j | 0 <= i < j < |xs[1..]| ensures xs[1..][i] != xs[1..][j] {
          assert xs[1..][i] == xs[i + 1] && xs[1..][j] == xs[j + 1];
        }
      }
      KeepNoDuplicates(xs[1..], p);
      if p(xs[0]) {
        assert xs[0] !in xs[1..];
        assert xs[0] !in Keep(xs[1..], p);
      }
    }
  }

  /** `xs.filter(x => x !== v)`: every occurrence of `v` goes, every other
      element stays, as often as it occurred and in its order. */
  function RemoveAll<T(==,!new)>(xs: seq<T>, v: T): (r: seq<T>)
    ensures v !in r
    ensures forall x :: x != v ==> (x in r <==> x in xs)
    ensures forall x :: x != v ==> multiset(r)[x] == multiset(xs)[x]
    ensures IsSubsequence(r, xs)
  {
    KeepCounts(xs, x => x != v);
    KeepIsSubsequence(xs, x => x != v);
    Keep(xs, x => x != v)
  }

  /** Removing an absent value leaves the list as it was. */
  lemma RemoveAbsent<T(!new)>(xs: seq<T>, v: T)
    requires v !in xs
    ensures RemoveAll(xs, v) == xs
  {
    KeepAll(xs, x => x != v);
  }

  /** Removal keeps a duplicate-free list duplicate-free. */
  lemma RemoveAllNoDuplicates<T(!new)>(xs: seq<T>, v: T)
    requires NoDuplicates(xs)
    ensures NoDuplicates(RemoveAll(xs, v))
  {
    KeepNoDuplicates(xs, x => x != v);
  }

  /** `prev.includes(v) ? prev.filter(x => x !== v) : [...prev, v]` */
  function Toggle<T(==,!new)>(xs: seq<T>, v: T): (r: seq<T>)
    ensures v in r <==> v !in xs
    ensures forall x :: x != v ==> (x in r <==> x in xs)
    ensures v !in xs ==> r == xs + [v]
    ensures v in xs ==> r == RemoveAll(xs, v)
  {
    if v in xs then RemoveAll(xs, v) else xs + [v]
  }

  /** Toggling an absent value twice restores the list exactly. */
  lemma ToggleTwice<T(!new)>(xs: seq<T>, v: T)
    requires v !in xs
    ensures Toggle(Toggle(xs, v), v) == xs
  {
    KeepAppend(xs, [v], x => x != v);
    RemoveAbsent(xs, v);
  }

  /** Toggling keeps a list free of duplicates. */
  lemma ToggleNoDuplicates<T(!new)>(xs: seq<T>, v: T)
    requires NoDuplicates(xs)
    ensures NoDuplicates(Toggle(xs, v))
  {
    if v in xs {
      KeepNoDuplicates(xs, x => x != v);
    }
  }

  /** The "add" button next to a free-text input: the trimmed input is
      appended and the input cleared, unless the input is blank or already
      in the list, in which case neither changes. The result pairs the new
      list with the new input text. */
  function AddTrimmed(xs: seq<string>, input: string): (r: (seq<string>, string))
    ensures r.0 == xs || r.0 == xs + [Trim(input)]
    ensures r.0 != xs <==> !AllSpace(input) && Trim(input) !in xs
    ensures r.1 == if r.0 == xs then input else ""
    ensures NoDuplicates(xs) ==> NoDuplicates(r.0)
    ensures forall t :: t in r.0 && t !in xs ==> !AllSpace(t)
  {
    var t := Trim(input);
    TrimEmptyIffAllSpace(input);
    TrimIsInfix(input);
    if t != "" && t !in xs then
      assert !AllSpace(t) by { TrimEmptyIffAllSpace(t); TrimIdempotent(input); }
      (xs + [t], "")
    else (xs, input)
  }
}
