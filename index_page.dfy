/**
 * The page that drives the wizard (`Index`): its state is the current step,
 * the uploaded file, the people and the items. Uploading a receipt moves to
 * the people step, clearing the upload goes back to the start, and two
 * buttons move on to the assignment and results steps when their guards hold.
 * The child components hand their new lists to `SetPeople` and `SetItems`.
 */
module IndexPage {
  import opened Common
  import opened Entities
  import opened BillSummary
  import PeopleManager
  import ItemAssignment

  datatype Step = Step(title: string, description: string)

  /** `STEPS`: the step indicator's entries; `currentStep` indexes them. */
  const Steps: seq<Step> := [
    Step("Upload", "Upload receipt image"),
    Step("People", "Add people"),
    Step("Assign", "Assign items"),
    Step("Calculate", "View results")
  ]

  /** An uploaded file, known only by identity here. */
  type FileRef = nat

  /** What `supabase.functions.invoke('process-receipt', ...)` resolved to. */
  datatype InvokeResult =
    | InvokeError
    | InvokeData(items: Option<seq<ReceiptItem>>)   // `data.items`, `None` when it is falsy

  /** `canProceedToAssignment`: there are people and there are items. */
  predicate CanProceedToAssignment(people: seq<Person>, items: seq<ReceiptItem>) {
    |people| > 0 && |items| > 0
  }

  /** `canViewResults`: `items.some(item => item.assignedTo.length > 0)`. */
  predicate CanViewResults(items: seq<ReceiptItem>)
    ensures CanViewResults(items) <==> exists i :: 0 <= i < |items| && |items[i].assignedTo| > 0
    decreases |items|
  {
    items != [] && (|items[0].assignedTo| > 0 || CanViewResults(items[1..]))
  }

  /** The summary's placeholder shows exactly when the assignment step may not be entered. */
  lemma PlaceholderIffCannotProceed(people: seq<Person>, items: seq<ReceiptItem>)
    ensures ShowPlaceholder(people, items) <==> !CanProceedToAssignment(people, items)
  {
  }

  /**
   * Results cannot be viewed exactly when nothing is shared: then nothing is
   * assigned and everybody owes zero.
   */
  lemma {:induction false} NoResultsMeansNothingAssigned(items: seq<ReceiptItem>, personId: string)
    requires !CanViewResults(items)
    ensures AssignedAmount(items) == 0.0 && PersonTotal(items, personId) == 0.0
    decreases |items|
  {
    if items != [] {
      var init := items[..|items| - 1];
      assert !CanViewResults(init) by {
        forall i | 0 <= i < |init| ensures |init[i].assignedTo| == 0 {
          assert init[i] == items[i];
        }
      }
      NoResultsMeansNothingAssigned(init, personId);
    }
  }

  /** A non-zero assigned amount means results can be viewed. */
  lemma AssignedMeansResults(items: seq<ReceiptItem>)
    requires AssignedAmount(items) != 0.0
    ensures CanViewResults(items)
  {
    if !CanViewResults(items) {
      NoResultsMeansNothingAssigned(items, "");
    }
  }

  /** Assigning somebody to an item that is on the list makes the results viewable. */
  lemma ToggleOnEnablesResults(items: seq<ReceiptItem>, k: nat, personId: string)
    requires k < |items| && personId !in items[k].assignedTo
    ensures CanViewResults(ItemAssignment.TogglePersonAssignment(items, items[k].id, personId))
  {
    var r := ItemAssignment.TogglePersonAssignment(items, items[k].id, personId);
    assert personId in r[k].assignedTo;
  }

  /**
   * Removing a person does not touch the items: a share of someone removed
   * stays assigned, so the per-person totals no longer add up to the "Split
   * total" (the hypothesis `AssigneesListed` of `SplitTotalEqualsAssigned` fails).
   */
  lemma RemovedPersonShareIsOrphaned(a: Person, b: Person)
    requires a.id != b.id
    ensures var items := [ReceiptItem("1", "Soup", 10.0, [a.id, b.id])];
            var people := PeopleManager.RemovePerson([a, b], b.id);
            && SplitAcrossPeople(items, people) == 5.0
            && AssignedAmount(items) == 10.0
  {
    var items := [ReceiptItem("1", "Soup", 10.0, [a.id, b.id])];
    var people := PeopleManager.RemovePerson([a, b], b.id);
    assert people == [a] by {
      assert people == Seqs.Filter([a, b], (p: Person) => p.id != b.id);
    }
    assert PersonTotal(items, a.id) == Share(items[0], a.id);
  }

  /** The page's state. */
  class Page {
    var currentStep: int
    var uploadedFile: Option<FileRef>
    var people: seq<Person>
    var items: seq<ReceiptItem>

    /** The current step is one of `Steps`. */
    ghost predicate Valid()
      reads this
    {
      0 <= currentStep < |Steps|
    }

    constructor ()
      ensures Valid()
      ensures currentStep == 0 && uploadedFile == None && people == [] && items == []
    {
      currentStep := 0;
      uploadedFile := None;
      people := [];
      items := [];
    }

    /**
     * `handleFileUpload` up to the point where the file is being read. A
     * cleared upload empties the items and goes back to the first step; a
     * reader that throws at once empties the items and moves to the people
     * step; otherwise the result arrives later, in `ReceiptProcessed`.
     */
    method HandleFileUpload(file: Option<FileRef>, readerThrows: bool)
      requires Valid()
      modifies this
      ensures Valid()
      ensures uploadedFile == file && people == old(people)
      ensures file == None ==> items == [] && currentStep == 0
      ensures file.Some? && readerThrows ==> items == [] && currentStep == 1
      ensures file.Some? && !readerThrows ==> items == old(items) && currentStep == old(currentStep)
    {
      uploadedFile := file;
      if file.Some? {
        if readerThrows {
          items := [];
          currentStep := 1;
        }
      } else {
        items := [];
        currentStep := 0;
      }
    }

    /**
     * The reader's `onload` once the edge function has answered: the items are
     * the returned ones (none on an error or a falsy `data.items`), and the
     * page always moves to the people step.
     */
    method ReceiptProcessed(result: InvokeResult)
      requires Valid()
      modifies this
      ensures Valid()
      ensures currentStep == 1
      ensures uploadedFile == old(uploadedFile) && people == old(people)
      ensures items == if result.InvokeData? && result.items.Some? then result.items.value else []
    {
      if result.InvokeError? {
        items := [];
      } else {
        items := if result.items.Some? then result.items.value else [];
      }
      currentStep := 1;
    }

    /** `onPeopleChange={setPeople}`. */
    method SetPeople(newPeople: seq<Person>)
      requires Valid()
      modifies this`people
      ensures Valid() && people == newPeople
    {
      people := newPeople;
    }

    /** `onItemsChange={setItems}`. */
    method SetItems(newItems: seq<ReceiptItem>)
      requires Valid()
      modifies this`items
      ensures Valid() && items == newItems
    {
      items := newItems;
    }

    /**
     * The "Assign Items" button, which is rendered only from the people step on,
     * while the step is below 2 and the page can proceed to assignment.
     */
    method ClickAssignItems()
      requires Valid()
      modifies this`currentStep
      ensures Valid()
      ensures currentStep == if 1 <= old(currentStep) < 2 && CanProceedToAssignment(people, items)
                             then 2 else old(currentStep)
    {
      if currentStep >= 1 && CanProceedToAssignment(people, items) && currentStep < 2 {
        currentStep := 2;
      }
    }

    /**
     * The "View Results" button, which is rendered only from the people step on,
     * while the step is below 3 and results can be viewed.
     */
    method ClickViewResults()
      requires Valid()
      modifies this`currentStep
      ensures Valid()
      ensures currentStep == if 1 <= old(currentStep) < 3 && CanViewResults(items)
                             then 3 else old(currentStep)
    {
      if currentStep >= 1 && CanViewResults(items) && currentStep < 3 {
        currentStep := 3;
      }
    }
  }

  /**
   * A client of the page: a receipt with items, one person, one assignment,
   * then both buttons take the page to the results step.
   */
  method Walkthrough(receipt: seq<ReceiptItem>, person: Person)
    requires |receipt| > 0 && person.id !in receipt[0].assignedTo
  {
    var page := new Page();
    page.HandleFileUpload(Some(1), false);
    page.ReceiptProcessed(InvokeData(Some(receipt)));
    assert page.currentStep == 1;
    page.SetPeople([person]);
    page.ClickAssignItems();
    assert page.currentStep == 2;
    var toggled := ItemAssignment.TogglePersonAssignment(page.items, page.items[0].id, person.id);
    ToggleOnEnablesResults(page.items, 0, person.id);
    page.SetItems(toggled);
    page.ClickViewResults();
    assert page.currentStep == 3;
  }
}
