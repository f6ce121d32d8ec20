/**
 * The two records the front end passes between its components (each of the
 * source's component files declares the same two interfaces).
 */
module Entities {
  import opened Seqs

  /** A line of the bill; `assignedTo` holds the ids of the people who share it. */
  datatype ReceiptItem = ReceiptItem(id: string, name: string, price: real, assignedTo: seq<string>)

  datatype Person = Person(id: string, name: string, color: string)

  /** The ids of `people`, in order. */
  function PersonIds(people: seq<Person>): (r: seq<string>)
    ensures |r| == |people|
    ensures forall i :: 0 <= i < |people| ==> r[i] == people[i].id
  {
    seq(|people|, i requires 0 <= i < |people| => people[i].id)
  }

  /** Every price on the bill is at least zero. */
  predicate NonNegativePrices(items: seq<ReceiptItem>) {
    forall i :: 0 <= i < |items| ==> items[i].price >= 0.0
  }

  /** No item lists the same person twice. */
  predicate AssigneesDistinct(items: seq<ReceiptItem>) {
    forall i :: 0 <= i < |items| ==> NoDuplicates(items[i].assignedTo)
  }
}
