/**
 Page arithmetic, and what it yields when every page is a query of its own.

 `ORDER BY` fixes the order of rows only up to ties.  Each page is cut from whatever admissible
 ordering the database picks for that query, so pages fit together only if no tie straddles a page
 boundary.
 */
module Paging {
  import opened Wrappers
  import Sets

  function ClampPagination(limit: Option<int>, offset: Option<int>, maxLimit: int := 200, defaultLimit: int := 50)
    : (r: (int, int))
    requires maxLimit >= 1
    ensures 1 <= r.0 <= maxLimit && r.1 >= 0
    ensures limit.Some? && 1 <= limit.value <= maxLimit ==> r.0 == limit.value
    ensures limit.Some? ==> (limit.value < 1 ==> r.0 == 1) && (limit.value > maxLimit ==> r.0 == maxLimit)
    ensures limit.None? && 1 <= defaultLimit <= maxLimit ==> r.0 == defaultLimit
    ensures r.1 == if offset.Some? && offset.value >= 0 then offset.value else 0
  {
    var l := if limit.Some? then limit.value else defaultLimit;
    var l' := if l < 1 then 1 else l;
    var o := if offset.Some? then offset.value else 0;
    (if l' > maxLimit then maxLimit else l', if o < 0 then 0 else o)
  }

  /** `(page, page_size, offset)` */
  function PaginatePage(page: Option<int>, pageSize: Option<int>, maxSize: int := 200, defaultSize: int := 50)
    : (r: (int, int, int))
    requires maxSize >= 1
    ensures r.0 >= 1 && 1 <= r.1 <= maxSize && r.2 >= 0
    ensures r.0 == if page.Some? && page.value >= 1 then page.value else 1
    ensures r.1 == ClampPagination(pageSize, None, maxSize, defaultSize).0
    ensures r.2 == (r.0 - 1) * r.1
  {
    var size := ClampPagination(pageSize, Some(0), maxSize, defaultSize).0;
    var p := if page.Some? then page.value else 1;
    var p' := if p < 1 then 1 else p;
    assert (p' - 1) * size >= 0;
    (p', size, (p' - 1) * size)
  }

  // ---------------------------------------------------------------------------------------------
  // Orderings
  // ---------------------------------------------------------------------------------------------

  /** A total preorder: any two rows compare, ties allowed. */
  ghost predicate TotalPreorder<T(!new)>(le: (T, T) -> bool) {
    && (forall a, b :: le(a, b) || le(b, a))
    && (forall a, b, c :: le(a, b) && le(b, c) ==> le(a, c))
  }

  ghost predicate NoDuplicates<T>(s: seq<T>) {
    forall i, j | 0 <= i < j < |s| :: s[i] != s[j]
  }

  ghost function Elements<T>(s: seq<T>): set<T> { set x | x in s }

  /** o is a possible result of `ORDER BY` over the rows `sel`. */
  ghost predicate Admissible<T>(le: (T, T) -> bool, sel: set<T>, o: seq<T>) {
    && NoDuplicates(o) && Elements(o) == sel
    && forall i, j | 0 <= i <= j < |o| :: le(o[i], o[j])
  }

  function Cut(n: nat, k: nat): nat { if k < n then k else n }

  /** `LIMIT size OFFSET offset` */
  function Window<T>(o: seq<T>, offset: nat, size: nat): seq<T> {
    o[Cut(|o|, offset)..Cut(|o|, offset + size)]
  }

  /** The k-th page (1-based) of an ordering. */
  function Page<T>(o: seq<T>, size: nat, k: nat): seq<T>
    requires k >= 1
  {
    Window(o, (k - 1) * size, size)
  }

  /** Pages 1..|os| put together, the k-th cut from the k-th ordering. */
  function Collected<T>(os: seq<seq<T>>, size: nat): seq<T> {
    if os == [] then []
    else Collected(os[..|os| - 1], size) + Page(os[|os| - 1], size, |os|)
  }

  function PageCount(n: nat, size: nat): nat
    requires size >= 1
  {
    (n + size - 1) / size
  }

  lemma PageCountCovers(n: nat, size: nat)
    requires size >= 1
    ensures n <= PageCount(n, size) * size < n + size
  {
    var c := PageCount(n, size);
    assert c * size == (n + size - 1) - (n + size - 1) % size;
  }

  ghost predicate SameOrdering<T>(os: seq<seq<T>>, o: seq<T>) {
    forall i | 0 <= i < |os| :: os[i] == o
  }

  lemma JoinSlices<T>(o: seq<T>, lo: nat, hi: nat)
    requires lo <= hi <= |o|
    ensures o[..lo] + o[lo..hi] == o[..hi]
  {
  }

  lemma {:induction false} SameOrderingCollects<T>(os: seq<seq<T>>, o: seq<T>, size: nat)
    requires SameOrdering(os, o)
    ensures Collected(os, size) == o[..Cut(|o|, |os| * size)]
  {
    if os == [] {
    } else {
      var m := |os| - 1;
      SameOrderingCollects(os[..m], o, size);
      PageCut(o, size, |os|);
      JoinSlices(o, Cut(|o|, m * size), Cut(|o|, |os| * size));
    }
  }

  /** If the database keeps to one ordering, the pages tile it. */
  lemma OneOrderingTiles<T>(os: seq<seq<T>>, o: seq<T>, size: nat)
    requires size >= 1 && SameOrdering(os, o) && |os| == PageCount(|o|, size)
    ensures Collected(os, size) == o
  {
    SameOrderingCollects(os, o, size);
    PageCountCovers(|o|, size);
  }

  // ---------------------------------------------------------------------------------------------
  // Every page its own ordering
  // ---------------------------------------------------------------------------------------------

  ghost predicate AllAdmissible<T>(le: (T, T) -> bool, sel: set<T>, os: seq<seq<T>>) {
    forall i | 0 <= i < |os| :: Admissible(le, sel, os[i])
  }

  /** At b the ordering strictly increases: no tie crosses. */
  predicate StrictAt<T>(le: (T, T) -> bool, o: seq<T>, b: nat)
    requires 0 < b < |o|
  {
    !le(o[b], o[b - 1])
  }

  ghost predicate NoTieAtBoundary<T>(le: (T, T) -> bool, o: seq<T>, size: nat) {
    forall k: nat | 0 < k && 0 < k * size < |o| :: StrictAt(le, o, k * size)
  }

  lemma {:induction false} ElementsCount<T>(s: seq<T>)
    requires NoDuplicates(s)
    ensures |Elements(s)| == |s|
  {
    if s == [] {
    } else {
      var n := |s| - 1;
      ElementsCount(s[..n]);
      assert Elements(s) == Elements(s[..n]) + {s[n]};
    }
  }

  lemma {:induction false} MultisetOfElements<T>(s: seq<T>)
    requires NoDuplicates(s)
    ensures multiset(s) == multiset(Elements(s))
  {
    if s == [] {
    } else {
      var n := |s| - 1;
      MultisetOfElements(s[..n]);
      assert s == s[..n] + [s[n]];
      assert Elements(s) == Elements(s[..n]) + {s[n]} && s[n] !in s[..n];
    }
  }

  /** A strict boundary cuts every admissible ordering into the same two parts. */
  lemma StrictBoundarySplits<T(!new)>(le: (T, T) -> bool, sel: set<T>, o: seq<T>, p: seq<T>, b: nat)
    requires TotalPreorder(le) && Admissible(le, sel, o) && Admissible(le, sel, p)
    requires 0 < b < |o| && StrictAt(le, o, b)
    ensures |p| == |o| && multiset(p[..b]) == multiset(o[..b])
  {
    ElementsCount(o);
    ElementsCount(p);
    var low := Elements(o[..b]);
    forall x | x in sel ensures x in low <==> le(x, o[b - 1]) {
      assert x in o;
      var i :| 0 <= i < |o| && o[i] == x;
      if i < b { assert x == o[..b][i]; } else { assert le(o[b], x); }
      if x in low {
        var j :| 0 <= j < b && o[..b][j] == x;
        assert le(o[j], o[b - 1]);
      }
    }
    ElementsCount(o[..b]);
    forall i | 0 <= i < b ensures p[i] in low {
      assert p[i] in p;
      if p[i] !in low {
        forall x | x in low ensures x in Elements(p[..i]) {
          assert x in p;
          var j :| 0 <= j < |p| && p[j] == x;
          assert j < i;
          assert x == p[..i][j];
        }
        Sets.SubsetSize(low, Elements(p[..i]));
        ElementsCount(p[..i]);
      }
    }
    var low' := Elements(p[..b]);
    assert low' <= low;
    ElementsCount(p[..b]);
    Sets.SubsetSameSize(low', low);
    MultisetOfElements(o[..b]);
    MultisetOfElements(p[..b]);
  }

  lemma {:induction false} StrictBoundariesCollect<T(!new)>(le: (T, T) -> bool, sel: set<T>, o: seq<T>,
                                                            os: seq<seq<T>>, size: nat)
    requires TotalPreorder(le) && Admissible(le, sel, o) && AllAdmissible(le, sel, os)
    requires size >= 1 && NoTieAtBoundary(le, o, size)
    ensures multiset(Collected(os, size)) == multiset(o[..Cut(|o|, |os| * size)])
  {
    if os == [] {
    } else {
      var m := |os| - 1;
      var p := os[m];
      StrictBoundariesCollect(le, sel, o, os[..m], size);
      SamePrefix(le, sel, o, p, size, m);
      SamePrefix(le, sel, o, p, size, |os|);
      PageCut(p, size, |os|);
      MiddleSame(o, p, Cut(|o|, m * size), Cut(|o|, |os| * size));
    }
  }

  lemma PageCut<T>(p: seq<T>, size: nat, k: nat)
    requires k >= 1
    ensures Cut(|p|, (k - 1) * size) <= Cut(|p|, k * size)
    ensures Page(p, size, k) == p[Cut(|p|, (k - 1) * size)..Cut(|p|, k * size)]
  {
    assert k * size == (k - 1) * size + size;
  }

  lemma MiddleSame<T>(o: seq<T>, p: seq<T>, lo: nat, hi: nat)
    requires lo <= hi <= |o| == |p|
    requires multiset(p[..lo]) == multiset(o[..lo]) && multiset(p[..hi]) == multiset(o[..hi])
    ensures multiset(o[..lo]) + multiset(p[lo..hi]) == multiset(o[..hi])
  {
    assert p[..hi] == p[..lo] + p[lo..hi];
  }

  lemma SamePrefix<T(!new)>(le: (T, T) -> bool, sel: set<T>, o: seq<T>, p: seq<T>, size: nat, k: nat)
    requires TotalPreorder(le) && Admissible(le, sel, o) && Admissible(le, sel, p)
    requires size >= 1 && NoTieAtBoundary(le, o, size)
    ensures |p| == |o| && multiset(p[..Cut(|o|, k * size)]) == multiset(o[..Cut(|o|, k * size)])
  {
    ElementsCount(o);
    ElementsCount(p);
    if 0 < k * size < |o| {
      assert k > 0;
      StrictBoundarySplits(le, sel, o, p, k * size);
    } else if k * size >= |o| {
      assert o[..|o|] == o && p[..|p|] == p;
      MultisetOfElements(o);
      MultisetOfElements(p);
    }
  }

  /** With a tie across a boundary, the database may show a row on both pages. */
  lemma TieRepeatsRow<T(!new)>(le: (T, T) -> bool, sel: set<T>, o: seq<T>, size: nat, k: nat) returns (os: seq<seq<T>>)
    requires TotalPreorder(le) && Admissible(le, sel, o) && size >= 1
    requires 0 < k && 0 < k * size < |o| && !StrictAt(le, o, k * size)
    ensures |os| == PageCount(|o|, size) && AllAdmissible(le, sel, os)
    ensures multiset(Collected(os, size)) != multiset(o)
  {
    var b := k * size;
    var x := o[b - 1];
    var swapped := o[b - 1 := o[b]][b := x];
    SwapAdmissible(le, sel, o, b);
    PageCountCovers(|o|, size);
    var m := PageCount(|o|, size);
    if m <= k { MulMono(m, k, size); }
    os := seq(m, i => if i == k then swapped else o);
    RowOnBothPages(os, size, k, x);
    MultisetOfElements(o);
    assert multiset(o)[x] == 1;
  }

  /** x closes page k and opens page k + 1. */
  lemma RowOnBothPages<T>(os: seq<seq<T>>, size: nat, k: nat, x: T)
    requires 0 < k < |os| && 0 < k * size && size >= 1
    requires k * size <= |os[k - 1]| && os[k - 1][k * size - 1] == x
    requires k * size < |os[k]| && os[k][k * size] == x
    ensures multiset(Collected(os, size))[x] >= 2
  {
    LastOfPage(os, size, k, x);
    FirstOfPage(os[k], size, k + 1, x);
    CollectedSplit(os, size, k);
    CollectedGrows(os, size, k + 1, x);
  }

  lemma CollectedSplit<T>(os: seq<seq<T>>, size: nat, k: nat)
    requires k < |os|
    ensures Collected(os[..k + 1], size) == Collected(os[..k], size) + Page(os[k], size, k + 1)
  {
    assert os[..k + 1][..k] == os[..k];
  }

  lemma FirstOfPage<T>(o: seq<T>, size: nat, k: nat, x: T)
    requires k >= 1 && size >= 1 && (k - 1) * size < |o| && o[(k - 1) * size] == x
    ensures x in Page(o, size, k)
  {
    PageCut(o, size, k);
    assert k * size == (k - 1) * size + size;
    assert Page(o, size, k)[0] == x;
  }

  lemma LastOfPage<T>(os: seq<seq<T>>, size: nat, k: nat, x: T)
    requires 0 < k <= |os| && size >= 1 && k * size <= |os[k - 1]| && k * size > 0 && os[k - 1][k * size - 1] == x
    ensures x in Collected(os[..k], size)
  {
    var o := os[k - 1];
    PageCut(o, size, k);
    assert k * size == (k - 1) * size + size;
    assert Page(o, size, k)[size - 1] == x;
    assert os[..k][k - 1] == o;
  }

  lemma MulMono(a: nat, b: nat, c: nat)
    requires a <= b
    ensures a * c <= b * c
  {
  }

  lemma SwapAdmissible<T(!new)>(le: (T, T) -> bool, sel: set<T>, o: seq<T>, b: nat)
    requires TotalPreorder(le) && Admissible(le, sel, o) && 0 < b < |o| && le(o[b], o[b - 1])
    ensures Admissible(le, sel, o[b - 1 := o[b]][b := o[b - 1]])
  {
    var s := o[b - 1 := o[b]][b := o[b - 1]];
    forall x | x in sel ensures x in s {
      assert x in o;
      var i :| 0 <= i < |o| && o[i] == x;
      assert s[if i == b then b - 1 else if i == b - 1 then b else i] == x;
    }
    forall i, j | 0 <= i <= j < |s| ensures le(s[i], s[j]) {
      assert le(o[b - 1], o[b]);
      var i' := if i == b then b - 1 else i;
      var j' := if j == b - 1 then b else j;
      assert le(s[i], o[i']) || i == j;
    }
  }

  lemma {:induction false} CollectedGrows<T>(os: seq<seq<T>>, size: nat, k: nat, x: T)
    requires k <= |os|
    ensures multiset(Collected(os, size))[x] >= multiset(Collected(os[..k], size))[x]
    decreases |os|
  {
    if k < |os| {
      CollectedGrows(os[..|os| - 1], size, k, x);
      assert os[..|os| - 1][..k] == os[..k];
    } else {
      assert os[..k] == os;
    }
  }

  /** The pages show every selected row exactly once, for every choice the database may make page by
      page, exactly when no tie straddles a page boundary. */
  lemma PagesTileIff<T(!new)>(le: (T, T) -> bool, sel: set<T>, o: seq<T>, size: nat)
    requires TotalPreorder(le) && Admissible(le, sel, o) && size >= 1
    ensures (forall os | |os| == PageCount(|sel|, size) && AllAdmissible(le, sel, os) ::
               multiset(Collected(os, size)) == multiset(sel))
            <==> NoTieAtBoundary(le, o, size)
  {
    ElementsCount(o);
    MultisetOfElements(o);
    PageCountCovers(|o|, size);
    if NoTieAtBoundary(le, o, size) {
      forall os | |os| == PageCount(|sel|, size) && AllAdmissible(le, sel, os)
        ensures multiset(Collected(os, size)) == multiset(sel)
      {
        StrictBoundariesCollect(le, sel, o, os, size);
        assert o[..|o|] == o;
      }
    } else {
      var k: nat :| 0 < k && 0 < k * size < |o| && !StrictAt(le, o, k * size);
      var os := TieRepeatsRow(le, sel, o, size, k);
    }
  }
}
