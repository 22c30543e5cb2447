/**
 * The pure collection pipelines of the checkout: the containment test on the
 * requested line-item ids, the filter that selects the requested line items,
 * and the total price as a fold of price times quantity starting from zero.
 */
module Selection {
  import opened Domain

  /** The ids of the given line items, collected into a set. */
  function IdSet(items: seq<CartProduct>): set<int>
  {
    set p | p in items :: p.id
  }

  /** The requested ids as a set: order and repetitions of the request do not matter to it. */
  function RequestedSet(requested: seq<int>): set<int>
  {
    set id | id in requested
  }

  /** No two line items share an id. */
  predicate DistinctIds(items: seq<CartProduct>)
  {
    forall i, j :: 0 <= i < j < |items| ==> items[i].id != items[j].id
  }

  /**
   * Whether every requested id is one of `ids`, walking the request the way
   * a set's containsAll walks its argument.
   */
  function ContainsAll(ids: set<int>, requested: seq<int>): (r: bool)
    ensures r <==> RequestedSet(requested) <= ids
  {
    if requested == [] then true
    else
      assert forall id :: id in requested <==> id == requested[0] || id in requested[1..];
      requested[0] in ids && ContainsAll(ids, requested[1..])
  }

  /**
   * The line items whose id occurs in the request, in the order of `items`.
   */
  function Select(items: seq<CartProduct>, requested: seq<int>): (selected: seq<CartProduct>)
    ensures |selected| <= |items|
    ensures forall p :: p in selected <==> p in items && p.id in requested
  {
    if items == [] then []
    else
      assert forall p :: p in items <==> p == items[0] || p in items[1..];
      if items[0].id in requested then [items[0]] + Select(items[1..], requested)
      else Select(items[1..], requested)
  }

  /** `s` is obtained from `t` by deleting some of its elements, keeping the order of the rest. */
  ghost predicate IsSubsequence<T>(s: seq<T>, t: seq<T>)
    decreases |t|
  {
    if t == [] then s == []
    else (s != [] && s[0] == t[0] && IsSubsequence(s[1..], t[1..])) || IsSubsequence(s, t[1..])
  }

  /** The selection keeps the cart's items in the cart's order. */
  lemma {:induction false} SelectIsSubsequence(items: seq<CartProduct>, requested: seq<int>)
    ensures IsSubsequence(Select(items, requested), items)
  {
    if items != [] {
      SelectIsSubsequence(items[1..], requested);
      if items[0].id in requested {
        var s := Select(items, requested);
        assert s[0] == items[0] && s[1..] == Select(items[1..], requested);
      }
    }
  }

  /**
   * Each line item occurs in the selection exactly as often as in the cart when
   * its id is requested, and not at all otherwise: a requested id that is
   * repeated does not repeat an item.
   */
  lemma {:induction false} SelectCount(items: seq<CartProduct>, requested: seq<int>, p: CartProduct)
    ensures multiset(Select(items, requested))[p] == if p.id in requested then multiset(items)[p] else 0
  {
    if items != [] {
      SelectCount(items[1..], requested, p);
      assert items == [items[0]] + items[1..];
    }
  }

  /** The selection depends on the request only through its set of ids. */
  lemma {:induction false} SelectUsesOnlyRequestedSet(items: seq<CartProduct>, requested: seq<int>, other: seq<int>)
    requires RequestedSet(requested) == RequestedSet(other)
    ensures Select(items, requested) == Select(items, other)
  {
    if items != [] {
      assert items[0].id in requested <==> items[0].id in RequestedSet(requested);
      assert items[0].id in other <==> items[0].id in RequestedSet(other);
      SelectUsesOnlyRequestedSet(items[1..], requested, other);
    }
  }

  /** An empty request selects nothing, and the total of that selection is zero. */
  lemma {:induction false} SelectNothing(items: seq<CartProduct>)
    ensures Select(items, []) == []
    ensures TotalPrice(Select(items, [])) == 0
  {
    if items != [] {
      SelectNothing(items[1..]);
    }
  }

  /** A subsequence of items with distinct ids has distinct ids. */
  lemma {:induction false} SelectKeepsDistinct(items: seq<CartProduct>, requested: seq<int>)
    requires DistinctIds(items)
    ensures DistinctIds(Select(items, requested))
  {
    if items != [] {
      var rest := items[1..];
      assert DistinctIds(rest) by {
        forall i, j | 0 <= i < j < |rest| ensures rest[i].id != rest[j].id {
          assert rest[i] == items[i + 1] && rest[j] == items[j + 1];
        }
      }
      SelectKeepsDistinct(rest, requested);
      if items[0].id in requested {
        var tail := Select(rest, requested);
        var s := [items[0]] + tail;
        forall i, j | 0 <= i < j < |s| ensures s[i].id != s[j].id {
          if i == 0 {
            assert s[j] in rest;
            var k :| 0 <= k < |rest| && rest[k] == s[j];
            assert items[k + 1] == s[j];
          } else {
            assert s[i] == tail[i - 1] && s[j] == tail[j - 1];
          }
        }
      }
    }
  }

  /** Line items with distinct ids have as many ids as items. */
  lemma {:induction false} DistinctIdsCardinality(items: seq<CartProduct>)
    requires DistinctIds(items)
    ensures |IdSet(items)| == |items|
  {
    if items != [] {
      var rest := items[1..];
      assert DistinctIds(rest) by {
        forall i, j | 0 <= i < j < |rest| ensures rest[i].id != rest[j].id {
          assert rest[i] == items[i + 1] && rest[j] == items[j + 1];
        }
      }
      DistinctIdsCardinality(rest);
      assert IdSet(items) == {items[0].id} + IdSet(rest) by {
        assert forall p :: p in items <==> p == items[0] || p in rest;
      }
      assert items[0].id !in IdSet(rest) by {
        forall p | p in rest ensures p.id != items[0].id {
          var k :| 0 <= k < |rest| && rest[k] == p;
          assert items[k + 1] == p;
        }
      }
    }
  }

  /**
   * Once the containment check has passed, the selected ids are exactly the
   * requested ids; when the cart's ids are distinct, there is one selected
   * item per distinct requested id.
   */
  lemma SelectedIdsMatchRequest(items: seq<CartProduct>, requested: seq<int>)
    requires ContainsAll(IdSet(items), requested)
    ensures IdSet(Select(items, requested)) == RequestedSet(requested)
    ensures DistinctIds(items) ==> |Select(items, requested)| == |RequestedSet(requested)|
  {
    var selected := Select(items, requested);
    forall id | id in RequestedSet(requested) ensures id in IdSet(selected) {
      var p :| p in items && p.id == id;
      assert p in selected;
    }
    if DistinctIds(items) {
      SelectKeepsDistinct(items, requested);
      DistinctIdsCardinality(selected);
    }
  }

  /** The exact line total of one line item: unit price times quantity. */
  function LineTotal(p: CartProduct): int
  {
    p.product.price * p.quantity
  }

  /** The sum of the line totals, written as an independent head-first sum. */
  function SumOfLines(items: seq<CartProduct>): int
  {
    if items == [] then 0 else LineTotal(items[0]) + SumOfLines(items[1..])
  }

  /** Adding a line at the end of a list adds its line total to the head-first sum. */
  lemma {:induction false} SumOfLinesSnoc(items: seq<CartProduct>, last: CartProduct)
    ensures SumOfLines(items + [last]) == SumOfLines(items) + LineTotal(last)
  {
    if items == [] {
      assert [] + [last] == [last];
    } else {
      assert (items + [last])[1..] == items[1..] + [last];
      SumOfLinesSnoc(items[1..], last);
    }
  }

  /**
   * The total price of the selected line items: a left fold of the line
   * totals with addition, starting from zero, taken in the list's order.
   * It is the sum of price times quantity over the items, and zero for none.
   */
  function TotalPrice(selected: seq<CartProduct>): (total: int)
    ensures selected == [] ==> total == 0
    ensures total == SumOfLines(selected)
  {
    if selected == [] then 0
    else
      var init, last := selected[..|selected| - 1], selected[|selected| - 1];
      assert init + [last] == selected;
      SumOfLinesSnoc(init, last);
      TotalPrice(init) + LineTotal(last)
  }

  /** The total is additive over concatenation. */
  lemma {:induction false} TotalPriceAppend(a: seq<CartProduct>, b: seq<CartProduct>)
    ensures TotalPrice(a + b) == TotalPrice(a) + TotalPrice(b)
  {
    if b == [] {
      assert a + b == a;
    } else {
      var b' := b[..|b| - 1];
      assert (a + b)[..|a + b| - 1] == a + b';
      assert (a + b)[|a + b| - 1] == b[|b| - 1];
      TotalPriceAppend(a, b');
    }
  }

  /** No line item has a negative unit price or a negative quantity. */
  predicate NonNegativeLines(items: seq<CartProduct>)
  {
    forall p :: p in items ==> p.product.price >= 0 && p.quantity >= 0
  }

  /** With no negative lines, a selection's sum of line totals lies between zero and the cart's. */
  lemma {:induction false} SumOfSelectionBounded(items: seq<CartProduct>, requested: seq<int>)
    requires NonNegativeLines(items)
    ensures 0 <= SumOfLines(Select(items, requested)) <= SumOfLines(items)
  {
    if items != [] {
      var head, rest := items[0], items[1..];
      assert head in items;
      assert LineTotal(head) >= 0 by {
        var price, quantity := head.product.price, head.quantity;
        assert price >= 0 && quantity >= 0;
        assert price * quantity >= 0;
      }
      assert NonNegativeLines(rest) by {
        assert forall p :: p in rest ==> p in items;
      }
      SumOfSelectionBounded(rest, requested);
      if head.id in requested {
        var selected := [head] + Select(rest, requested);
        assert selected[0] == head && selected[1..] == Select(rest, requested);
      }
    }
  }

  /** With no negative lines, the total of any selection lies between zero and the cart's total. */
  lemma SelectionTotalBounded(items: seq<CartProduct>, requested: seq<int>)
    requires NonNegativeLines(items)
    ensures 0 <= TotalPrice(Select(items, requested)) <= TotalPrice(items)
  {
    SumOfSelectionBounded(items, requested);
  }
}
