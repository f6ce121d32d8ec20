/**
 * The bill summary (`BillSummary` component): what each person owes, the
 * total of the bill, the part of it assigned to somebody and the part
 * assigned to nobody, and the conditions under which the summary shows its
 * placeholder and its "Unassigned" row.
 *
 * Every sum is the source's `reduce`, a left fold, written as recursion on
 * the list without its last item. Prices are exact reals.
 */
module BillSummary {
  import opened Seqs
  import opened Entities

  /** What `personId` owes for one item: an equal part of its price when they share it. */
  function Share(item: ReceiptItem, personId: string): real {
    if personId in item.assignedTo then item.price / (|item.assignedTo| as real) else 0.0
  }

  /**
   * `calculatePersonTotal`: the shares of `personId` over all items. Somebody
   * on no item owes nothing; with prices at least zero, nobody owes a negative
   * amount or more than the assigned part of the bill.
   */
  function PersonTotal(items: seq<ReceiptItem>, personId: string): (r: real)
    ensures (forall i :: 0 <= i < |items| ==> personId !in items[i].assignedTo) ==> r == 0.0
    ensures NonNegativePrices(items) ==> 0.0 <= r <= AssignedAmount(items)
    decreases |items|
  {
    if items == [] then 0.0
    else
      var last := items[|items| - 1];
      var total := PersonTotal(items[..|items| - 1], personId);
      assert NonNegativePrices(items) ==> last.price >= 0.0;
      assert personId in last.assignedTo && last.price >= 0.0 ==> Share(last, personId) <= last.price;
      total + Share(last, personId)
  }

  /** `totalBill`: the sum of all prices. */
  function TotalBill(items: seq<ReceiptItem>): (r: real)
    ensures NonNegativePrices(items) ==> r >= 0.0
    decreases |items|
  {
    if items == [] then 0.0 else TotalBill(items[..|items| - 1]) + items[|items| - 1].price
  }

  /**
   * `assignedAmount`: the sum of the prices of the items somebody shares; with
   * prices at least zero it lies between zero and the total.
   */
  function AssignedAmount(items: seq<ReceiptItem>): (r: real)
    ensures NonNegativePrices(items) ==> 0.0 <= r <= TotalBill(items)
    decreases |items|
  {
    if items == [] then 0.0
    else
      var last := items[|items| - 1];
      AssignedAmount(items[..|items| - 1]) + (if |last.assignedTo| > 0 then last.price else 0.0)
  }

  /** `unassignedAmount`; with prices at least zero it is between zero and the total. */
  function UnassignedAmount(items: seq<ReceiptItem>): (r: real)
    ensures NonNegativePrices(items) ==> 0.0 <= r <= TotalBill(items)
  {
    TotalBill(items) - AssignedAmount(items)
  }

  /** Reference definition: the sum of the prices of the items nobody shares. */
  function UnsharedItemsTotal(items: seq<ReceiptItem>): real
    decreases |items|
  {
    if items == [] then 0.0
    else
      var last := items[|items| - 1];
      UnsharedItemsTotal(items[..|items| - 1]) + (if |last.assignedTo| == 0 then last.price else 0.0)
  }

  /** The unassigned amount is exactly what the items nobody shares cost. */
  lemma {:induction false} UnassignedIsUnsharedItems(items: seq<ReceiptItem>)
    ensures UnassignedAmount(items) == UnsharedItemsTotal(items)
    decreases |items|
  {
    if items != [] {
      UnassignedIsUnsharedItems(items[..|items| - 1]);
    }
  }

  /** The summary shows its placeholder instead of the breakdown. */
  predicate ShowPlaceholder(people: seq<Person>, items: seq<ReceiptItem>) {
    |people| == 0 || |items| == 0
  }

  /** The "Unassigned" row is shown. */
  predicate ShowUnassignedRow(items: seq<ReceiptItem>) {
    UnassignedAmount(items) > 0.0
  }

  /**
   * With prices at least zero, the "Unassigned" row appears exactly when some
   * item with a positive price is shared by nobody.
   */
  lemma {:induction false} UnassignedRowIffUnsharedPricedItem(items: seq<ReceiptItem>)
    requires NonNegativePrices(items)
    ensures ShowUnassignedRow(items) <==>
            exists i :: 0 <= i < |items| && |items[i].assignedTo| == 0 && items[i].price > 0.0
    decreases |items|
  {
    UnassignedIsUnsharedItems(items);
    if items != [] {
      var init := items[..|items| - 1];
      assert NonNegativePrices(init);
      UnassignedRowIffUnsharedPricedItem(init);
      UnassignedIsUnsharedItems(init);
      UnsharedTotalNonNegative(init);
      if exists i :: 0 <= i < |init| && |init[i].assignedTo| == 0 && init[i].price > 0.0 {
        var i :| 0 <= i < |init| && |init[i].assignedTo| == 0 && init[i].price > 0.0;
        assert items[i] == init[i];
      }
      if exists i :: 0 <= i < |items| && |items[i].assignedTo| == 0 && items[i].price > 0.0 {
        var i :| 0 <= i < |items| && |items[i].assignedTo| == 0 && items[i].price > 0.0;
        if i < |init| {
          assert init[i] == items[i];
        }
      }
    }
  }

  lemma {:induction false} UnsharedTotalNonNegative(items: seq<ReceiptItem>)
    requires NonNegativePrices(items)
    ensures UnsharedItemsTotal(items) >= 0.0
    decreases |items|
  {
    if items != [] {
      assert NonNegativePrices(items[..|items| - 1]);
      UnsharedTotalNonNegative(items[..|items| - 1]);
    }
  }

  // ---------------------------------------------------------------------------
  // Conservation: the per-person totals add up to the "Split total"
  // ---------------------------------------------------------------------------

  /** The sum of the totals the summary lists, one per person. */
  function SplitAcrossPeople(items: seq<ReceiptItem>, people: seq<Person>): real
    decreases |people|
  {
    if people == [] then 0.0 else PersonTotal(items, people[0].id) + SplitAcrossPeople(items, people[1..])
  }

  /** What all of `people` together owe for one item. */
  function SharesOfItem(item: ReceiptItem, people: seq<Person>): real
    decreases |people|
  {
    if people == [] then 0.0 else Share(item, people[0].id) + SharesOfItem(item, people[1..])
  }

  /** How many of `people` have their id in `assignedTo`. */
  function CountAssigned(assignedTo: seq<string>, people: seq<Person>): nat
    decreases |people|
  {
    if people == [] then 0
    else (if people[0].id in assignedTo then 1 else 0) + CountAssigned(assignedTo, people[1..])
  }

  /** The price of one share of an item (zero for an item nobody shares). */
  function UnitShare(item: ReceiptItem): real {
    if |item.assignedTo| == 0 then 0.0 else item.price / (|item.assignedTo| as real)
  }

  /** Adding an item at the end adds what everybody owes for it. */
  lemma {:induction false} SplitAppendLast(items: seq<ReceiptItem>, people: seq<Person>)
    requires items != []
    ensures SplitAcrossPeople(items, people)
         == SplitAcrossPeople(items[..|items| - 1], people) + SharesOfItem(items[|items| - 1], people)
    decreases |people|
  {
    if people != [] {
      SplitAppendLast(items, people[1..]);
    }
  }

  lemma {:induction false} SplitOfNoItems(people: seq<Person>)
    ensures SplitAcrossPeople([], people) == 0.0
    decreases |people|
  {
    if people != [] {
      SplitOfNoItems(people[1..]);
    }
  }

  /** Everybody's shares of one item are one unit share per person on it. */
  lemma {:induction false} SharesAreUnits(item: ReceiptItem, people: seq<Person>)
    ensures SharesOfItem(item, people) == CountAssigned(item.assignedTo, people) as real * UnitShare(item)
    decreases |people|
  {
    if people != [] {
      SharesAreUnits(item, people[1..]);
    }
  }

  /** With distinct person ids, the count is the number of ids both lists share. */
  lemma {:induction false} CountIsCommonIds(assignedTo: seq<string>, people: seq<Person>)
    requires NoDuplicates(PersonIds(people))
    ensures CountAssigned(assignedTo, people) == |Elems(assignedTo) * Elems(PersonIds(people))|
    decreases |people|
  {
    if people != [] {
      var ids := PersonIds(people);
      var rest := PersonIds(people[1..]);
      assert rest == ids[1..];
      assert NoDuplicates(rest);
      assert ids[0] !in Elems(rest);
      CountIsCommonIds(assignedTo, people[1..]);
      ElemsCons(ids);
      MeetWithOneMore(Elems(assignedTo), Elems(rest), ids[0]);
    }
  }

  /**
   * When person ids are distinct and an item's `assignedTo` holds listed ids
   * without repetition, everybody on the item counts exactly once.
   */
  lemma CountIsAssignees(assignedTo: seq<string>, people: seq<Person>)
    requires NoDuplicates(PersonIds(people)) && NoDuplicates(assignedTo)
    requires forall q | q in assignedTo :: q in PersonIds(people)
    ensures CountAssigned(assignedTo, people) == |assignedTo|
  {
    CountIsCommonIds(assignedTo, people);
    assert Elems(assignedTo) * Elems(PersonIds(people)) == Elems(assignedTo);
    DistinctCardinality(assignedTo);
  }

  /**
   * Under the same conditions, everybody's shares of one item add up to its
   * price when somebody shares it, and to zero otherwise.
   */
  lemma ItemIsSharedOut(item: ReceiptItem, people: seq<Person>)
    requires NoDuplicates(PersonIds(people)) && NoDuplicates(item.assignedTo)
    requires forall q | q in item.assignedTo :: q in PersonIds(people)
    ensures SharesOfItem(item, people) == if |item.assignedTo| > 0 then item.price else 0.0
  {
    SharesAreUnits(item, people);
    CountIsAssignees(item.assignedTo, people);
    var n := |item.assignedTo|;
    if n > 0 {
      assert (n as real) * (item.price / (n as real)) == item.price;
    }
  }

  /** Every id in an `assignedTo` list is the id of a listed person. */
  predicate AssigneesListed(items: seq<ReceiptItem>, people: seq<Person>) {
    forall i, q :: 0 <= i < |items| && q in items[i].assignedTo ==> q in PersonIds(people)
  }

  /**
   * The per-person totals add up to the assigned amount, which the summary
   * displays as the "Split total", as long as person ids are distinct and every
   * `assignedTo` lists people who are still there, each once.
   */
  lemma {:induction false} SplitTotalEqualsAssigned(items: seq<ReceiptItem>, people: seq<Person>)
    requires NoDuplicates(PersonIds(people))
    requires AssigneesDistinct(items)
    requires AssigneesListed(items, people)
    ensures SplitAcrossPeople(items, people) == AssignedAmount(items)
    decreases |items|
  {
    if items == [] {
      SplitOfNoItems(people);
    } else {
      var k := |items| - 1;
      var init := items[..k];
      var last := items[k];
      forall i | 0 <= i < |init| ensures init[i] == items[i] && NoDuplicates(init[i].assignedTo) {
      }
      forall i, q | 0 <= i < |init| && q in init[i].assignedTo ensures q in PersonIds(people) {
        assert init[i] == items[i];
      }
      SplitTotalEqualsAssigned(init, people);
      SplitAppendLast(items, people);
      forall q | q in last.assignedTo ensures q in PersonIds(people) {
      }
      ItemIsSharedOut(last, people);
    }
  }
}
