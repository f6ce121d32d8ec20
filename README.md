# Easy splitting bills — a Dafny model of the receipt and bill-splitting core

The application photographs a restaurant receipt, has a vision model list its
items, and splits the bill between the people at the table. This project
models the deterministic core of it:

- **process-receipt** (`process_receipt.dfy`, module `ProcessReceipt`): the edge
  function's handling of the model's reply. Markdown code fences are removed
  with the same two global regular-expression replacements, the text is
  trimmed and JSON-parsed, a reply that fails to parse or is not an array
  becomes the empty list, and the entries are filtered to the well-formed
  ones and normalised (id kept or generated, name trimmed, price rounded to
  the cent with `Math.round`, nobody assigned). The request handler is a
  method over the request, the model's completion and the parser, and it
  returns the response: 200 with the items, 500 with an error and no items,
  or the CORS preflight answer.
- **Item list editing** (`item_assignment.dfy`, module `ItemAssignment`):
  toggling a person on an item, adding, updating and deleting items. The form
  state of the component is a class.
- **Bill summary** (`bill_summary.dfy`, module `BillSummary`): each person's
  total, the bill total, the assigned and unassigned amounts, the display
  guards. Prices are exact reals, so the conservation law "the per-person
  totals add up to the Split total" is an equation.
- **People list** (`people_manager.dfy`, module `PeopleManager`): adding with a
  trimmed name and a colour from an eight-entry palette, removing by id.
- **The wizard page** (`index_page.dfy`, module `IndexPage`): a class holding
  the current step, the uploaded file, the people and the items, with the
  upload handlers, the two guards and the two step buttons.

Shared pieces: `text.dfy` (JavaScript `trim` and the decimal text of an
integer), `js.dfy` (JSON values, truthiness, property access), `seqs.dfy`
(`filter` and "no duplicates"), `entities.dfy` (the item and person records),
`common.dfy` (`Option`).

Everything the code gets from outside is a parameter: the model's completion,
`JSON.parse` (a function giving `None` where it throws), `Math.random` (the
suffix for the k-th kept entry), `Date.now()` (a natural number),
`parseFloat` (a function to reals), and the edge function's answer as the
page sees it.

The edge function calls one vision model, JSON-parses its reply and rounds
with `Math.round`, which rounds a half cent up (towards positive infinity).

## Model

| member | source | states |
|---|---|---|
| Text.TrimStart | supabase/functions/process-receipt/index.ts:86 | the result is a suffix of the input that does not start with whitespace |
| Text.TrimStartDropsWhitespace | supabase/functions/process-receipt/index.ts:86 | everything the leading trim drops is whitespace |
| Text.TrimEnd | supabase/functions/process-receipt/index.ts:86 | the result is a prefix of the input that does not end with whitespace |
| Text.TrimEndDropsWhitespace | supabase/functions/process-receipt/index.ts:86 | everything the trailing trim drops is whitespace |
| Text.Trim | supabase/functions/process-receipt/index.ts:86 | `trim` leaves no whitespace at either end and never lengthens the text |
| Text.TrimIsSlice | src/components/people-manager.tsx:37 | what `trim` leaves is a contiguous slice of the input, with only whitespace cut off on both sides |
| Text.BlankIffAllWhitespace | src/components/people-manager.tsx:33 | `!s.trim()` holds exactly when every character of `s` is whitespace |
| Text.TrimIdempotent | src/components/item-assignment.tsx:59 | trimming twice is trimming once |
| Text.NatToString | src/components/people-manager.tsx:36 | `Date.now().toString()` is a non-empty run of decimal digits without a leading zero |
| Text.DecimalRoundTrip | src/components/people-manager.tsx:36 | reading the decimal text of `n` back gives `n` |
| Text.NatToStringInjective | src/components/people-manager.tsx:36 | different instants give different person ids |
| ProcessReceipt.StripAll | supabase/functions/process-receipt/index.ts:86 | one global `replace(/pat\n?/g, '')` pass never lengthens the text |
| ProcessReceipt.StripAllWithoutOccurrence | supabase/functions/process-receipt/index.ts:86 | a replacement pass leaves text in which the pattern does not occur unchanged |
| ProcessReceipt.Clean | supabase/functions/process-receipt/index.ts:86 | the cleaned reply has no whitespace at either end and is no longer than the reply |
| ProcessReceipt.CleanWithoutFence | supabase/functions/process-receipt/index.ts:86 | a reply containing no triple backtick is only trimmed |
| ProcessReceipt.CleanUnwrapsFencedReply | supabase/functions/process-receipt/index.ts:85-86 | a body without backticks wrapped in a "```json" fence comes out as the trimmed body |
| ProcessReceipt.ParsedEntries | supabase/functions/process-receipt/index.ts:84-96 | definition (parse the cleaned reply or fall back to no entries); its properties are in `UnparseableReplyGivesNoItems` and `HandleRequest` |
| ProcessReceipt.UnparseableReplyGivesNoItems | supabase/functions/process-receipt/index.ts:84-96 | a non-string reply, a cleaned reply `JSON.parse` rejects, or one that parses to a non-array, yields no items |
| ProcessReceipt.IsWellFormed | supabase/functions/process-receipt/index.ts:99-103 | definition of the filter's test (truthy, string `name`, number `price`, name not blank once trimmed); its properties are in `Sanitize` and `Seqs.Filter` |
| ProcessReceipt.RoundCents | supabase/functions/process-receipt/index.ts:107 | definition (`Math.round(price * 100) / 100`, `Math.round` being the floor of x + 1/2); its properties are in `RoundCentsProperties`, `WholeCentsAreFixed` and `HalfCentRoundsUp` |
| ProcessReceipt.RoundCentsProperties | supabase/functions/process-receipt/index.ts:107 | the rounded price is a whole number of cents, within half a cent of the input (a half cent rounds up), and rounding again changes nothing |
| ProcessReceipt.WholeCentsAreFixed | supabase/functions/process-receipt/index.ts:107 | a price that is already whole cents is left unchanged |
| ProcessReceipt.HalfCentRoundsUp | supabase/functions/process-receipt/index.ts:107 | exactly half a cent rounds up, also for negative amounts |
| ProcessReceipt.Normalize | supabase/functions/process-receipt/index.ts:104-109 | a normalised item's name is the entry's name trimmed (non-empty, no whitespace at either end); no one is assigned; the price is a whole number of cents within half a cent of the entry's price; the id is the entry's own id when that is truthy and `"item_"` followed by the suffix drawn for its position otherwise |
| ProcessReceipt.Sanitize | supabase/functions/process-receipt/index.ts:99-109 | the output is, position by position, the normalised well-formed entries (truthy, string name, number price, non-blank name), in order, never more than the input; every output item has a trimmed non-empty name, no one assigned and a whole-cent price |
| ProcessReceipt.ErrorMessage | supabase/functions/process-receipt/index.ts:19 | the message table for `Failure`: the texts of the two errors the function throws itself (lines 19 and 75); its properties are in `ErrorMessageCarriesStatus` |
| ProcessReceipt.ErrorMessageCarriesStatus | supabase/functions/process-receipt/index.ts:75 | exactly the function's own errors have a message, and the API error's message is "OpenAI API error: " followed by decimal digits that read back as the upstream status |
| ProcessReceipt.HandleRequest | supabase/functions/process-receipt/index.ts:11-125 | OPTIONS gets a null body with the CORS headers; every other request gets JSON with the CORS headers; status is 200 exactly when the request has truthy `imageData` and the model answered OK, and then the body holds the sanitised items; otherwise 500 with an error and `items: []` — "No image data provided" for missing image data, the upstream status for a non-OK answer |
| Seqs.Filter | src/components/item-assignment.tsx:79 | `filter` keeps exactly the elements that satisfy the predicate, never lengthens, keeps everything when all pass, and keeps a duplicate-free list duplicate-free |
| Seqs.FilterAppend | supabase/functions/process-receipt/index.ts:99-104 | filtering distributes over concatenation, so kept elements keep their relative order |
| ItemAssignment.Unassign | src/components/item-assignment.tsx:45 | the person is gone, everybody else is kept, an absent person changes nothing, no duplicates appear |
| ItemAssignment.ToggleAssignee | src/components/item-assignment.tsx:41-46 | the person's membership flips and nobody else's changes; an absent person is appended; no duplicates appear |
| ItemAssignment.TogglePersonAssignment | src/components/item-assignment.tsx:38-51 | same length, order, ids, names and prices; items with another id are unchanged; on the targeted items the person's membership flips |
| ItemAssignment.ToggleKeepsAssigneesDistinct | src/components/item-assignment.tsx:44-46 | toggling keeps every `assignedTo` free of duplicates |
| ItemAssignment.UnassignAfterAppend | src/components/item-assignment.tsx:45-46 | filtering out a person just appended restores the list |
| ItemAssignment.ToggleTwiceRestores | src/components/item-assignment.tsx:44-46 | toggling an absent person twice restores `assignedTo` |
| ItemAssignment.ToggleItemTwiceRestores | src/components/item-assignment.tsx:38-51 | toggling twice restores the whole item list when the person was on none of the targeted items |
| ItemAssignment.ManualIdsDiffer | src/components/item-assignment.tsx:58 | items added at different instants get different `manual_…` ids |
| ItemAssignment.AddNewItem | src/components/item-assignment.tsx:54-64 | blank name or price text: the list is unchanged; otherwise exactly one item is appended (trimmed non-empty name, parsed price, `manual_` id, nobody assigned) and the existing items are untouched |
| ItemAssignment.UpdateItem | src/components/item-assignment.tsx:70-73 | matching items get the new name and price and keep id and assignments; the others are unchanged; the length is kept |
| ItemAssignment.UpdateItemIdempotent | src/components/item-assignment.tsx:70-73 | saving the same edit twice equals saving it once |
| ItemAssignment.DeleteItem | src/components/item-assignment.tsx:78-80 | no item with that id is left, every other item stays, and deleting an absent id changes nothing |
| ItemAssignment.DeleteItemKeepsOrder | src/components/item-assignment.tsx:79 | deletion distributes over concatenation: survivors keep their relative order |
| ItemAssignment.EditorState.constructor | src/components/item-assignment.tsx:31-34 | the dialog starts closed, nothing is being edited, the fields are empty |
| ItemAssignment.EditorState.SubmitNewItem | src/components/item-assignment.tsx:54-68 | blank input: no list is handed on and the state is unchanged; otherwise the list from `AddNewItem` is handed on and the form is cleared and closed |
| ItemAssignment.EditorState.ResetAddForm | src/components/item-assignment.tsx:65-67 | the name and price fields are emptied and the dialog is closed |
| ItemAssignment.EditorState.SaveEdit | src/components/item-assignment.tsx:70-76 | hands on the list from `UpdateItem` and leaves edit mode, touching nothing else |
| BillSummary.Share | src/components/bill-summary.tsx:28-29 | definition (an equal part of the price for each person on the item); its properties are in `SharesAreUnits` and `ItemIsSharedOut` |
| BillSummary.PersonTotal | src/components/bill-summary.tsx:26-34 | a person on no item owes 0; with non-negative prices a person's total lies between 0 and the assigned amount |
| BillSummary.TotalBill | src/components/bill-summary.tsx:36 | with non-negative prices the total is at least 0 |
| BillSummary.AssignedAmount | src/components/bill-summary.tsx:37-39 | with non-negative prices, 0 ≤ assigned ≤ total |
| BillSummary.UnassignedAmount | src/components/bill-summary.tsx:40 | with non-negative prices, the unassigned amount lies between 0 and the total |
| BillSummary.UnassignedIsUnsharedItems | src/components/bill-summary.tsx:36-40 | total minus assigned is exactly the sum of the prices of the items nobody shares |
| BillSummary.ShowPlaceholder | src/components/bill-summary.tsx:42 | definition of the placeholder guard; its property is in `IndexPage.PlaceholderIffCannotProceed` |
| BillSummary.ShowUnassignedRow | src/components/bill-summary.tsx:92 | definition of the "Unassigned" row guard; its property is in `UnassignedRowIffUnsharedPricedItem` |
| BillSummary.UnassignedRowIffUnsharedPricedItem | src/components/bill-summary.tsx:92 | with non-negative prices the "Unassigned" row shows exactly when some positively priced item is shared by nobody |
| BillSummary.SplitAppendLast | src/components/bill-summary.tsx:27-31 | one more item adds, to the sum of everybody's totals, what everybody owes for that item |
| BillSummary.SharesAreUnits | src/components/bill-summary.tsx:29 | everybody's shares of an item are one `price / assignedTo.length` per listed person on it |
| BillSummary.ItemIsSharedOut | src/components/bill-summary.tsx:27-31 | with distinct person ids and a duplicate-free `assignedTo` of listed people, an item's shares add up to its price (0 for an unshared item) |
| BillSummary.SplitTotalEqualsAssigned | src/components/bill-summary.tsx:63-101 | with distinct person ids and every `assignedTo` duplicate-free and made of listed people, the per-person totals add up to the displayed "Split total", the assigned amount |
| PeopleManager.PaletteIsDistinct | src/components/people-manager.tsx:18-27 | the palette has eight different colours |
| PeopleManager.ColorFor | src/components/people-manager.tsx:38 | the colour picked is always a palette entry |
| PeopleManager.AddPerson | src/components/people-manager.tsx:32-41 | blank name: the list is unchanged; otherwise exactly one person is appended with the trimmed non-empty name, the decimal `Date.now()` id and colour `PERSON_COLORS[len mod 8]`, and earlier people are unchanged |
| PeopleManager.RemovePerson | src/components/people-manager.tsx:45-47 | nobody with that id is left, everybody else stays, and removing an absent id changes nothing |
| PeopleManager.RemovePersonKeepsOrder | src/components/people-manager.tsx:46 | removal distributes over concatenation: the others keep their order |
| PeopleManager.AddPersonKeepsColorCycle | src/components/people-manager.tsx:38-41 | adding keeps "the i-th person has palette colour i mod 8" |
| PeopleManager.AppendKeepsColorCycle | src/components/people-manager.tsx:41 | appending a person coloured after the list's length keeps colours in step with positions |
| PeopleManager.FirstEightColorsDiffer | src/components/people-manager.tsx:18-38 | up to eight people added from an empty list without removals have pairwise different colours |
| PeopleManager.RemoveThenAddRepeatsColor | src/components/people-manager.tsx:38-46 | after a removal the cycle breaks: removing the first of two and adding a third repeats the colour of the one who stayed |
| PeopleManager.PeopleForm.constructor | src/components/people-manager.tsx:30 | the name input starts empty |
| PeopleManager.PeopleForm.Submit | src/components/people-manager.tsx:32-43 | hands on the list from `AddPerson` and clears the input unless the name was blank |
| IndexPage.CanProceedToAssignment | src/pages/Index.tsx:82 | definition (there are people and there are items); its properties are in `PlaceholderIffCannotProceed` and `Page.ClickAssignItems` |
| IndexPage.CanViewResults | src/pages/Index.tsx:83 | `items.some(...)` holds exactly when some item has a non-empty `assignedTo` |
| IndexPage.PlaceholderIffCannotProceed | src/pages/Index.tsx:82 | the summary's placeholder shows exactly when `canProceedToAssignment` fails, that is when there are no people or no items |
| IndexPage.NoResultsMeansNothingAssigned | src/pages/Index.tsx:83 | when results cannot be viewed, the assigned amount and every person's total are 0 |
| IndexPage.AssignedMeansResults | src/pages/Index.tsx:83 | a non-zero assigned amount means results can be viewed |
| IndexPage.ToggleOnEnablesResults | src/pages/Index.tsx:83 | assigning somebody to a listed item makes results viewable |
| IndexPage.RemovedPersonShareIsOrphaned | src/components/people-manager.tsx:45-47 | removing a person leaves their share assigned, so the listed totals (5) fall short of the Split total (10) |
| IndexPage.Page.constructor | src/pages/Index.tsx:42-45 | the page starts at step 0 with no file, no people and no items |
| IndexPage.Page.HandleFileUpload | src/pages/Index.tsx:47-80 | the file is recorded; clearing empties the items and returns to step 0; a reader that throws empties the items and moves to step 1; otherwise items and step wait for the result; the step stays within 0..3 |
| IndexPage.Page.ReceiptProcessed | src/pages/Index.tsx:61-68 | the step becomes 1; the items are `data.items`, or empty on an error or a falsy `data.items` |
| IndexPage.Page.SetPeople | src/pages/Index.tsx:136-139 | the people become the list handed on; the step stays within 0..3 |
| IndexPage.Page.SetItems | src/pages/Index.tsx:170-174 | the items become the list handed on; the step stays within 0..3 |
| IndexPage.Page.ClickAssignItems | src/pages/Index.tsx:143-152 | the step becomes 2 exactly when it was 1 and there are people and items, and is unchanged otherwise |
| IndexPage.Page.ClickViewResults | src/pages/Index.tsx:153-161 | the step becomes 3 exactly when it was 1 or 2 and some item is assigned, and is unchanged otherwise |

## Left out

- The chat-completion call, `serve`, the API key and the request plumbing: the completion is an input of `HandleRequest` (its status, whether it could be read, and the reply content).
- `JSON.parse` and `req.json()`: opaque inputs. A JSON number too large for a double (parsed as Infinity) is not modelled; numbers are exact reals.
- IEEE-754 arithmetic: prices are exact reals, so `price * 100` and the per-person division have no floating-point error. The cent rounding itself is modelled exactly as `Math.round` on the exact product.
- `Math.random().toString(36).substr(2, 9)`: the drawn suffix is an input; its base-36 shape and its uniqueness are not modelled.
- `Date.now()`: an input natural number. Two additions in the same millisecond give the same id; the model shows different instants give different ids and no more.
- `parseFloat`: an input function from text to reals; a `NaN` price cannot be represented.
- The messages of exceptions raised by the runtime (unreadable request body, `null` body, a failed `fetch`, an unreadable completion): the model records which of these happened, not the engine's message text. `console.log`/`console.error` output is not modelled.
- `JSON.stringify` of the response body: the body is a datatype.
- `analyzeItemPrices`: a call to another edge function whose result is only displayed.
- `supabase/functions/calculate-final-prices/index.ts`: a network wrapper; its only arithmetic is the price sum that `BillSummary.TotalBill` models.
- Reading the file as base64 (`FileReader`) and the drop zone: the upload is an opaque file reference and the reader either throws at once or later delivers the edge function's answer (`ReceiptProcessed`). The answer may arrive after the upload was cleared; the model allows that order and the step still stays within 0..3.
- Rendering: which panels appear at which step (`src/pages/Index.tsx` lines 135, 169 and 178), the step indicator, `formatCurrency`, the edit form's field handlers (`setEditingItem` while typing), and React's batching of state updates. Only the conditions under which the two step buttons are rendered are modelled, as guards of `ClickAssignItems` and `ClickViewResults`.
- `capacitor.config.ts`: static configuration.
