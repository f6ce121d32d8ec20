/**
 * The item list editor (`ItemAssignment` component): toggling a person on an
 * item, adding, updating and deleting items. Each edit computes a new item
 * list that the component hands to its parent (`onItemsChange`); adding and
 * updating also reset the component's own form state, modelled by the class
 * `EditorState`.
 */
module ItemAssignment {
  import opened Common
  import opened Text
  import opened Seqs
  import opened Entities

  // ---------------------------------------------------------------------------
  // Toggling a person on an item
  // ---------------------------------------------------------------------------

  /** `assignedTo.filter(id => id !== personId)`. */
  function Unassign(assignedTo: seq<string>, personId: string): (r: seq<string>)
    ensures personId !in r
    ensures forall q | q != personId :: q in r <==> q in assignedTo
    ensures personId !in assignedTo ==> r == assignedTo
    ensures NoDuplicates(assignedTo) ==> NoDuplicates(r)
  {
    Filter(assignedTo, id => id != personId)
  }

  /** `after` is `before` with the membership of `personId`, and of nobody else, flipped. */
  ghost predicate Flipped(before: seq<string>, after: seq<string>, personId: string) {
    && (personId in after <==> personId !in before)
    && forall q | q != personId :: q in after <==> q in before
  }

  /** Lines 41-46: remove the person if present, otherwise append them. */
  function ToggleAssignee(assignedTo: seq<string>, personId: string): (r: seq<string>)
    ensures Flipped(assignedTo, r, personId)
    ensures personId !in assignedTo ==> r == assignedTo + [personId]
    ensures NoDuplicates(assignedTo) ==> NoDuplicates(r)
  {
    if personId in assignedTo then Unassign(assignedTo, personId) else assignedTo + [personId]
  }

  /**
   * `togglePersonAssignment`: only the items with id `itemId` change, and only
   * in their `assignedTo`, where the person's membership flips.
   */
  function TogglePersonAssignment(items: seq<ReceiptItem>, itemId: string, personId: string): (r: seq<ReceiptItem>)
    ensures |r| == |items|
    ensures forall i :: 0 <= i < |items| ==>
              r[i].id == items[i].id && r[i].name == items[i].name && r[i].price == items[i].price
    ensures forall i :: 0 <= i < |items| && items[i].id != itemId ==> r[i] == items[i]
    ensures forall i :: 0 <= i < |items| && items[i].id == itemId ==>
              Flipped(items[i].assignedTo, r[i].assignedTo, personId)
  {
    seq(|items|, i requires 0 <= i < |items| =>
      if items[i].id == itemId
      then items[i].(assignedTo := ToggleAssignee(items[i].assignedTo, personId))
      else items[i])
  }

  /** Toggling keeps every `assignedTo` free of duplicates. */
  lemma ToggleKeepsAssigneesDistinct(items: seq<ReceiptItem>, itemId: string, personId: string)
    requires AssigneesDistinct(items)
    ensures AssigneesDistinct(TogglePersonAssignment(items, itemId, personId))
  {
    var r := TogglePersonAssignment(items, itemId, personId);
    forall i | 0 <= i < |items| ensures NoDuplicates(r[i].assignedTo) {
      if items[i].id == itemId {
        assert r[i].assignedTo == ToggleAssignee(items[i].assignedTo, personId);
      }
    }
  }

  /** Removing a person just appended undoes the append. */
  lemma {:induction false} UnassignAfterAppend(assignedTo: seq<string>, personId: string)
    requires personId !in assignedTo
    ensures Unassign(assignedTo + [personId], personId) == assignedTo
  {
    var keep := (id: string) => id != personId;
    FilterAppend(assignedTo, [personId], keep);
    assert Filter([personId], keep) == [];
  }

  /** Toggling a person who is not assigned, twice, restores the original list. */
  lemma ToggleTwiceRestores(assignedTo: seq<string>, personId: string)
    requires personId !in assignedTo
    ensures ToggleAssignee(ToggleAssignee(assignedTo, personId), personId) == assignedTo
  {
    UnassignAfterAppend(assignedTo, personId);
  }

  /**
   * The same at the level of the whole list: when the person is on none of the
   * targeted items, two toggles give back the original items.
   */
  lemma ToggleItemTwiceRestores(items: seq<ReceiptItem>, itemId: string, personId: string)
    requires forall i :: 0 <= i < |items| && items[i].id == itemId ==> personId !in items[i].assignedTo
    ensures TogglePersonAssignment(TogglePersonAssignment(items, itemId, personId), itemId, personId) == items
  {
    var once := TogglePersonAssignment(items, itemId, personId);
    var twice := TogglePersonAssignment(once, itemId, personId);
    forall i | 0 <= i < |items| ensures twice[i] == items[i] {
      if items[i].id == itemId {
        ToggleTwiceRestores(items[i].assignedTo, personId);
      }
    }
  }

  // ---------------------------------------------------------------------------
  // Adding, updating and deleting items
  // ---------------------------------------------------------------------------

  const ManualIdPrefix: string := "manual_"

  /** `manual_${Date.now()}` */
  function ManualId(now: nat): string {
    ManualIdPrefix + NatToString(now)
  }

  /** Items added at different instants get different ids. */
  lemma ManualIdsDiffer(t1: nat, t2: nat)
    requires t1 != t2
    ensures ManualId(t1) != ManualId(t2)
  {
    NatToStringInjective(t1, t2);
    assert ManualId(t1)[|ManualIdPrefix|..] == NatToString(t1);
    assert ManualId(t2)[|ManualIdPrefix|..] == NatToString(t2);
  }

  /**
   * `addNewItem`: nothing happens when the name or the price text is blank;
   * otherwise exactly one item is appended, with the trimmed name, the parsed
   * price and nobody assigned, and the existing items are left as they were.
   */
  function AddNewItem(items: seq<ReceiptItem>, newItemName: string, newItemPrice: string, now: nat,
                      parseFloat: string -> real): (r: seq<ReceiptItem>)
    ensures IsBlank(newItemName) || IsBlank(newItemPrice) ==> r == items
    ensures !IsBlank(newItemName) && !IsBlank(newItemPrice) ==>
              && |r| == |items| + 1 && r[..|items|] == items
              && r[|items|].id == ManualId(now)
              && r[|items|].name == Trim(newItemName) && r[|items|].name != "" && IsTrimmed(r[|items|].name)
              && r[|items|].price == parseFloat(newItemPrice)
              && r[|items|].assignedTo == []
  {
    if IsBlank(newItemName) || IsBlank(newItemPrice) then items
    else items + [ReceiptItem(ManualId(now), Trim(newItemName), parseFloat(newItemPrice), [])]
  }

  /**
   * `updateItem`: every item with id `itemId` gets the new name and price and
   * keeps its id and assignments; every other item is unchanged.
   */
  function UpdateItem(items: seq<ReceiptItem>, itemId: string, name: string, price: real): (r: seq<ReceiptItem>)
    ensures |r| == |items|
    ensures forall i :: 0 <= i < |items| ==> r[i].id == items[i].id && r[i].assignedTo == items[i].assignedTo
    ensures forall i :: 0 <= i < |items| && items[i].id == itemId ==> r[i].name == name && r[i].price == price
    ensures forall i :: 0 <= i < |items| && items[i].id != itemId ==> r[i] == items[i]
  {
    seq(|items|, i requires 0 <= i < |items| =>
      if items[i].id == itemId then items[i].(name := name, price := price) else items[i])
  }

  /** Saving the same edit twice is the same as saving it once. */
  lemma UpdateItemIdempotent(items: seq<ReceiptItem>, itemId: string, name: string, price: real)
    ensures UpdateItem(UpdateItem(items, itemId, name, price), itemId, name, price)
         == UpdateItem(items, itemId, name, price)
  {
    var once := UpdateItem(items, itemId, name, price);
    var twice := UpdateItem(once, itemId, name, price);
    forall i | 0 <= i < |items| ensures twice[i] == once[i] {
    }
  }

  /**
   * `deleteItem`: no item with that id is left, every other item stays, and
   * deleting an id that is not there changes nothing.
   */
  function DeleteItem(items: seq<ReceiptItem>, itemId: string): (r: seq<ReceiptItem>)
    ensures forall it | it in r :: it.id != itemId && it in items
    ensures forall it | it in items && it.id != itemId :: it in r
    ensures (forall i :: 0 <= i < |items| ==> items[i].id != itemId) ==> r == items
  {
    Filter(items, (it: ReceiptItem) => it.id != itemId)
  }

  /** Deleting from a list made of two parts deletes from each, so the survivors keep their order. */
  lemma DeleteItemKeepsOrder(a: seq<ReceiptItem>, b: seq<ReceiptItem>, itemId: string)
    ensures DeleteItem(a + b, itemId) == DeleteItem(a, itemId) + DeleteItem(b, itemId)
  {
    FilterAppend(a, b, (it: ReceiptItem) => it.id != itemId);
  }

  // ---------------------------------------------------------------------------
  // The component's own state
  // ---------------------------------------------------------------------------

  /** The form state of the component: the add dialog and the item being edited. */
  class EditorState {
    var isAddDialogOpen: bool
    var editingItem: Option<ReceiptItem>
    var newItemName: string
    var newItemPrice: string

    constructor ()
      ensures !isAddDialogOpen && editingItem == None && newItemName == "" && newItemPrice == ""
    {
      isAddDialogOpen := false;
      editingItem := None;
      newItemName := "";
      newItemPrice := "";
    }

    /**
     * The "Add Item" button. With a blank name or price nothing changes and no
     * list is handed on (`None`); otherwise the extended list is handed on and
     * the form is cleared and closed.
     */
    method SubmitNewItem(items: seq<ReceiptItem>, now: nat, parseFloat: string -> real)
      returns (changed: Option<seq<ReceiptItem>>)
      modifies this`isAddDialogOpen, this`newItemName, this`newItemPrice
      ensures IsBlank(old(newItemName)) || IsBlank(old(newItemPrice)) ==>
                changed == None && unchanged(this)
      ensures !IsBlank(old(newItemName)) && !IsBlank(old(newItemPrice)) ==>
                && changed == Some(AddNewItem(items, old(newItemName), old(newItemPrice), now, parseFloat))
                && newItemName == "" && newItemPrice == "" && !isAddDialogOpen
    {
      var name, price := newItemName, newItemPrice;
      if IsBlank(name) || IsBlank(price) {
        return None;
      }
      changed := Some(AddNewItem(items, name, price, now, parseFloat));
      ResetAddForm();
    }

    /** Clears the add form and closes its dialog. */
    method ResetAddForm()
      modifies this`isAddDialogOpen, this`newItemName, this`newItemPrice
      ensures newItemName == "" && newItemPrice == "" && !isAddDialogOpen
    {
      newItemName, newItemPrice, isAddDialogOpen := "", "", false;
    }

    /** The "Save" button of an item being edited: hands on the updated list and leaves edit mode. */
    method SaveEdit(items: seq<ReceiptItem>, itemId: string, name: string, price: real)
      returns (updated: seq<ReceiptItem>)
      modifies this`editingItem
      ensures updated == UpdateItem(items, itemId, name, price)
      ensures editingItem == None
      ensures isAddDialogOpen == old(isAddDialogOpen) && newItemName == old(newItemName)
      ensures newItemPrice == old(newItemPrice)
    {
      updated := UpdateItem(items, itemId, name, price);
      editingItem := None;
    }
  }
}
