/**
 * The list page's view model: the distinct categories of its items in
 * first-occurrence order (`Array.from(new Set(...))`), a selected category,
 * and the items filtered to that category.
 */
module PatternList {
  import opened Wrappers
  import opened Catalog

  /** No value occurs twice. */
  predicate NoDuplicates(xs: seq<string>) {
    forall i, j :: 0 <= i < j < |xs| ==> xs[i] != xs[j]
  }

  /** Position of the first occurrence of `x`. */
  function FirstIndex(xs: seq<string>, x: string): (i: nat)
    requires x in xs
    ensures i < |xs| && xs[i] == x && forall j :: 0 <= j < i ==> xs[j] != x
  {
    if xs[0] == x then 0 else 1 + FirstIndex(xs[1..], x)
  }

  /**
   * `Array.from(new Set(xs))`: a Set keeps its values in the order they were
   * first inserted, so each value is appended when it is first met.
   */
  function Distinct(xs: seq<string>): (r: seq<string>)
    ensures NoDuplicates(r)
    ensures forall x :: x in r <==> x in xs
  {
    if |xs| == 0 then []
    else
      var d := Distinct(xs[..|xs| - 1]);
      var last := xs[|xs| - 1];
      assert xs == xs[..|xs| - 1] + [last];
      if last in d then d else d + [last]
  }

  lemma {:induction false} FirstIndexOfPrefix(xs: seq<string>, y: string, x: string)
    requires x in xs
    ensures x in xs + [y] && FirstIndex(xs + [y], x) == FirstIndex(xs, x)
  {
    if xs[0] != x {
      assert (xs + [y])[1..] == xs[1..] + [y];
      FirstIndexOfPrefix(xs[1..], y, x);
    }
  }

  /** The categories appear in the order in which each first occurs. */
  lemma {:induction false} DistinctKeepsFirstOccurrenceOrder(xs: seq<string>)
    ensures forall i, j :: 0 <= i < j < |Distinct(xs)| ==>
              FirstIndex(xs, Distinct(xs)[i]) < FirstIndex(xs, Distinct(xs)[j])
  {
    if |xs| > 0 {
      var init := xs[..|xs| - 1];
      var last := xs[|xs| - 1];
      assert xs == init + [last];
      DistinctKeepsFirstOccurrenceOrder(init);
      var d := Distinct(init);
      forall x | x in d ensures FirstIndex(xs, x) == FirstIndex(init, x) {
        FirstIndexOfPrefix(init, last, x);
      }
      if last !in d {
        assert last !in init;
        var f := FirstIndex(xs, last);
        assert f == |init|;
      }
    }
  }

  /** `items.filter(p => p.category === cat)`. */
  function Filter(items: seq<PatternItem>, cat: string): (r: seq<PatternItem>)
    ensures |r| <= |items|
    ensures forall p :: p in r <==> p in items && p.category == cat
  {
    if |items| == 0 then []
    else (if items[0].category == cat then [items[0]] else []) + Filter(items[1..], cat)
  }

  /** Filtering keeps relative order: it distributes over concatenation. */
  lemma {:induction false} FilterAppend(a: seq<PatternItem>, b: seq<PatternItem>, cat: string)
    ensures Filter(a + b, cat) == Filter(a, cat) + Filter(b, cat)
  {
    if |a| > 0 {
      assert (a + b)[1..] == a[1..] + b;
      FilterAppend(a[1..], b, cat);
    } else {
      assert a + b == b;
    }
  }

  /** Filtering keeps every matching item as often as it occurs, and no other. */
  lemma {:induction false} FilterCounts(items: seq<PatternItem>, cat: string, p: PatternItem)
    ensures multiset(Filter(items, cat))[p] == if p.category == cat then multiset(items)[p] else 0
  {
    if |items| > 0 {
      FilterCounts(items[1..], cat, p);
      assert items == [items[0]] + items[1..];
    }
  }

  /**
   * `f` lists, in increasing order, exactly the positions of the items of
   * category `cat`, and `r` holds the items at those positions.
   */
  ghost predicate PicksInOrder(items: seq<PatternItem>, cat: string, r: seq<PatternItem>, f: seq<int>) {
    |f| == |r| &&
    (forall i :: 0 <= i < |f| ==> 0 <= f[i] < |items| && r[i] == items[f[i]]) &&
    (forall i, j :: 0 <= i < j < |f| ==> f[i] < f[j]) &&
    (forall k :: 0 <= k < |items| ==> (items[k].category == cat <==> k in f))
  }

  /** Each position moved one place on. */
  function Shift(g: seq<int>): (f: seq<int>)
    ensures |f| == |g| && forall i :: 0 <= i < |g| ==> f[i] == g[i] + 1
  {
    seq(|g|, i requires 0 <= i < |g| => g[i] + 1)
  }

  lemma ShiftMembers(g: seq<int>, k: int)
    ensures k in Shift(g) <==> k - 1 in g
  {
    if k - 1 in g {
      var i :| 0 <= i < |g| && g[i] == k - 1;
      assert Shift(g)[i] == k;
    }
  }

  /** An item of another category: the tail's positions, moved one place on, are the whole list's. */
  lemma PicksInOrderSkip(items: seq<PatternItem>, cat: string, rt: seq<PatternItem>, g: seq<int>)
    requires |items| > 0 && items[0].category != cat && PicksInOrder(items[1..], cat, rt, g)
    ensures PicksInOrder(items, cat, rt, Shift(g))
  {
    var tail := items[1..];
    var f := Shift(g);
    assert forall i :: 0 <= i < |f| ==> 0 <= f[i] < |items| && rt[i] == items[f[i]] by {
      forall i | 0 <= i < |f| ensures 0 <= f[i] < |items| && rt[i] == items[f[i]] {
        assert rt[i] == tail[g[i]];
      }
    }
    assert forall k :: 0 <= k < |items| ==> (items[k].category == cat <==> k in f) by {
      forall k | 0 <= k < |items| ensures items[k].category == cat <==> k in f {
        ShiftMembers(g, k);
        if k > 0 {
          assert items[k] == tail[k - 1];
        }
      }
    }
  }

  /** An item of the category: its own position, then the tail's moved one place on. */
  lemma PicksInOrderTake(items: seq<PatternItem>, cat: string, rt: seq<PatternItem>, g: seq<int>)
    requires |items| > 0 && items[0].category == cat && PicksInOrder(items[1..], cat, rt, g)
    ensures PicksInOrder(items, cat, [items[0]] + rt, [0] + Shift(g))
  {
    TakePositions(items, cat, rt, g);
    TakeIncreasing(g);
    TakeCovers(items, cat, rt, g);
  }

  lemma TakePositions(items: seq<PatternItem>, cat: string, rt: seq<PatternItem>, g: seq<int>)
    requires |items| > 0 && PicksInOrder(items[1..], cat, rt, g)
    ensures forall i :: 0 <= i < |[0] + Shift(g)| ==>
              0 <= ([0] + Shift(g))[i] < |items| && ([items[0]] + rt)[i] == items[([0] + Shift(g))[i]]
  {
    var tail := items[1..];
    var sh := Shift(g);
    var f := [0] + sh;
    var r := [items[0]] + rt;
    forall i | 0 <= i < |f| ensures 0 <= f[i] < |items| && r[i] == items[f[i]] {
      if i > 0 {
        assert f[i] == sh[i - 1] && r[i] == rt[i - 1] == tail[g[i - 1]];
      }
    }
  }

  lemma TakeIncreasing(g: seq<int>)
    requires forall i :: 0 <= i < |g| ==> 0 <= g[i]
    requires forall i, j :: 0 <= i < j < |g| ==> g[i] < g[j]
    ensures forall i, j :: 0 <= i < j < |[0] + Shift(g)| ==> ([0] + Shift(g))[i] < ([0] + Shift(g))[j]
  {
    var sh := Shift(g);
    var f := [0] + sh;
    forall i, j | 0 <= i < j < |f| ensures f[i] < f[j] {
      assert f[j] == sh[j - 1];
      if i > 0 {
        assert f[i] == sh[i - 1];
      }
    }
  }

  lemma TakeCovers(items: seq<PatternItem>, cat: string, rt: seq<PatternItem>, g: seq<int>)
    requires |items| > 0 && items[0].category == cat && PicksInOrder(items[1..], cat, rt, g)
    ensures forall k :: 0 <= k < |items| ==> (items[k].category == cat <==> k in [0] + Shift(g))
  {
    var tail := items[1..];
    var sh := Shift(g);
    var f := [0] + sh;
    forall k | 0 <= k < |items| ensures items[k].category == cat <==> k in f {
      ShiftMembers(g, k);
      if k > 0 {
        assert items[k] == tail[k - 1];
        assert k in f <==> k in sh;
      }
    }
  }

  /** The filtered list is the items of the category, each at its turn: a subsequence of the items. */
  lemma {:induction false} FilterPicksInOrder(items: seq<PatternItem>, cat: string)
    ensures exists f :: PicksInOrder(items, cat, Filter(items, cat), f)
  {
    if |items| == 0 {
      assert Filter(items, cat) == [];
      assert PicksInOrder(items, cat, [], []);
    } else {
      FilterPicksInOrder(items[1..], cat);
      var g :| PicksInOrder(items[1..], cat, Filter(items[1..], cat), g);
      if items[0].category == cat {
        PicksInOrderTake(items, cat, Filter(items[1..], cat), g);
        assert Filter(items, cat) == [items[0]] + Filter(items[1..], cat);
        assert PicksInOrder(items, cat, Filter(items, cat), [0] + Shift(g));
      } else {
        PicksInOrderSkip(items, cat, Filter(items[1..], cat), g);
        assert Filter(items, cat) == Filter(items[1..], cat);
        assert PicksInOrder(items, cat, Filter(items, cat), Shift(g));
      }
    }
  }

  /** A category that no item has filters to the empty list. */
  lemma NoMatchFiltersToEmpty(items: seq<PatternItem>, cat: string)
    requires forall i :: 0 <= i < |items| ==> items[i].category != cat
    ensures Filter(items, cat) == []
  {
  }

  /** `items.map(p => p.category)`. */
  function CategoryList(items: seq<PatternItem>): (cs: seq<string>)
    ensures |cs| == |items| && forall i :: 0 <= i < |items| ==> cs[i] == items[i].category
  {
    seq(|items|, i requires 0 <= i < |items| => items[i].category)
  }

  class PatternListComponent {
    /** The `items` input. */
    var items: seq<PatternItem>
    /** `_selectedCategory`; `None` is null. */
    var selectedCategory: Option<string>

    constructor (items: seq<PatternItem>)
      ensures this.items == items && selectedCategory == None
    {
      this.items := items;
      selectedCategory := None;
    }

    /** `categories()`: each category of the items exactly once, in first-occurrence order. */
    function Categories(): (cs: seq<string>)
      reads this
      ensures NoDuplicates(cs)
      ensures forall c :: c in cs <==> exists i :: 0 <= i < |items| && items[i].category == c
      ensures forall c :: c in cs ==> c in CategoryList(items)
      ensures forall i, j :: 0 <= i < j < |cs| ==>
                FirstIndex(CategoryList(items), cs[i]) < FirstIndex(CategoryList(items), cs[j])
    {
      var all := CategoryList(items);
      assert forall c :: c in all <==> exists i :: 0 <= i < |items| && items[i].category == c by {
        forall c ensures c in all <==> exists i :: 0 <= i < |items| && items[i].category == c {
          if c in all {
            var i :| 0 <= i < |all| && all[i] == c;
          }
        }
      }
      DistinctKeepsFirstOccurrenceOrder(all);
      Distinct(all)
    }

    /**
     * `filteredItems()`: all items unless a non-empty category is selected,
     * and then exactly the items of that category, in their order and with
     * their multiplicities.
     */
    function FilteredItems(): (r: seq<PatternItem>)
      reads this
      ensures !Truthy(selectedCategory) ==> r == items
      ensures Truthy(selectedCategory) ==>
                (forall p :: p in r <==> p in items && p.category == selectedCategory.value) &&
                (forall p :: multiset(r)[p] ==
                   if p.category == selectedCategory.value then multiset(items)[p] else 0) &&
                exists f :: PicksInOrder(items, selectedCategory.value, r, f)
      ensures |r| <= |items|
    {
      if Truthy(selectedCategory) then
        var cat := selectedCategory.value;
        FilterPicksInOrder(items, cat);
        assert forall p :: multiset(Filter(items, cat))[p] ==
                 if p.category == cat then multiset(items)[p] else 0 by {
          forall p ensures multiset(Filter(items, cat))[p] ==
                     if p.category == cat then multiset(items)[p] else 0 {
            FilterCounts(items, cat, p);
          }
        }
        Filter(items, cat)
      else items
    }

    /** `selectCategory(cat)`: the selection becomes exactly `cat`; the items are untouched. */
    method SelectCategory(cat: Option<string>)
      modifies this
      ensures selectedCategory == cat && items == old(items)
    {
      selectedCategory := cat;
    }
  }

  /** Four items with categories A, B, A, C give the categories A, B, C. */
  lemma CategoriesExample()
    ensures Distinct(["A", "B", "A", "C"]) == ["A", "B", "C"]
  {
    assert ["A", "B", "A", "C"][..3] == ["A", "B", "A"];
    assert ["A", "B", "A"][..2] == ["A", "B"];
    assert ["A", "B"][..1] == ["A"];
    assert ["A"][..0] == [];
  }
}
