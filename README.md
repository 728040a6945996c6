# Shifter schedule store, in Dafny

This project models the in-memory part of the Shifter staff-scheduling front end, covering three pieces:

- **The employee store** (`EmployeesProvider`). It holds one list of employee records. Each record carries an ordered list of per-date schedule slots. Its operations are:
  - add an employee;
  - update or archive an employee;
  - change an employee's role;
  - add a shift to a date (a new slot, or an edit of the existing slot);
  - clear a slot;
  - publish every slot;
  - filter the records by name.
- **The role sheet.** It keeps a list of pending role-change intents. Each click on an employee toggles that employee's intent by a four-rule recipe. Choosing another role empties the list. "Save" replays the list through the store.
- **The schedule page.** It keeps a filtered copy of the store. Shift templates are dragged onto cells whose drop ids encode `(employee id, date)`. A flag enables the Publish button.

The files are:

- `js.dfy` (module `Js`): the JavaScript behaviour the store depends on. This covers `undefined` for a missing key, and the index keys produced by spreading a string into an object. It also covers ASCII `toLowerCase` and `String.prototype.includes`, proved equal to "occurs at some index".
- `employees_context.dfy` (module `EmployeesContext`): the records and slots, one specification function per store operation, the laws relating operations, and the class `EmployeesProvider`. That class has one `employees` field, which every mutator replaces. Each method is proved to install exactly the list its specification function describes.
- `roles_sheet.dfy` (module `RolesSheet`): the intent list, the toggle recipe and its laws, and the class `RolesSheetState`. The class's save loop is proved against the replay function.
- `home.dfy` (module `Home`): the templates, the filled-cell test, the drop-id encoding and its `split('__')` decoding, and the class `HomePage`.

Records and slots are plain objects that the source overlays with object spread. They are modelled as maps from key to string, and a spread `{...a, ...b}` is the map union `a + b`. A record's `dates` list is kept in a separate field.

Timestamps are passed in as a `now` parameter.

## Model

| member | source | states |
|---|---|---|
| Js.IndexKeyInjective | src/context/EmployeesContext.jsx:298-300 | Distinct character indices of a spread string give distinct property keys. |
| Js.SpreadStringAt | src/context/EmployeesContext.jsx:298-300 | Character `n` of a spread string is stored under the decimal key of `n`. |
| Js.SpreadStringKeys | src/context/EmployeesContext.jsx:298-300 | The spread of a string has exactly one key per character index, and no other. |
| Js.SpreadString | src/context/EmployeesContext.jsx:299 | `{...s}` for a string `s`: every key is a decimal numeral. `SpreadStringAt` and `SpreadStringKeys` give the exact entries. |
| Js.Lower | src/context/EmployeesContext.jsx:321 | `toLowerCase` on ASCII letters, character by character. It is the normalisation both sides of the name match go through (`NameMatches`). |
| Js.Includes | src/context/EmployeesContext.jsx:321 | `includes` as a left-to-right scan. `IncludesIff` proves it equals "the query occurs at some index". |
| Js.IncludesIff | src/context/EmployeesContext.jsx:321 | `includes` is true exactly when the query occurs at some index of the string (both directions). |
| Js.IncludesEmpty | src/context/EmployeesContext.jsx:321 | Every string includes the empty query. |
| EmployeesContext.FindIndex | src/context/EmployeesContext.jsx:270 | The result is -1 exactly when no record has the id; otherwise it is the first record with that id. |
| EmployeesContext.FindSlot | src/context/EmployeesContext.jsx:271 | The result is -1 exactly when no slot's `date` equals the date; otherwise it is the first such slot. |
| EmployeesContext.FindIndexSameIds | src/context/EmployeesContext.jsx:270 | Two lists with the same ids in the same places give the same id lookup. |
| EmployeesContext.NewEmployee | src/context/EmployeesContext.jsx:245-256 | `status`, `startDate`, `endDate` and `rating` are forced to 'Active', now, '' and '19.5', and `dates` to the empty list, whatever the input holds. Every other key is the input's. |
| EmployeesContext.Merge | src/context/EmployeesContext.jsx:262-265 | The patch's keys win and every other key is kept. `dates` is replaced only when the patch carries it. |
| EmployeesContext.Updated | src/context/EmployeesContext.jsx:258-267 | Only the first record with the id is merged with the patch. The length is kept, and an unknown id changes nothing. |
| EmployeesContext.NewSlot | src/context/EmployeesContext.jsx:275-279 | The shift's keys win. `status` is 'added' and `date` is the date unless the shift carries them, and the slot has no other key. |
| EmployeesContext.EditedSlot | src/context/EmployeesContext.jsx:283-285 | `status` is 'edited', the shift's other keys overwrite, and keys absent from the shift are kept. |
| EmployeesContext.ShiftAdded | src/context/EmployeesContext.jsx:269-291 | With no slot on the date, exactly one new slot is appended after the old slots. Otherwise the first slot on the date is edited and the slot count is unchanged. The record's other keys, every other slot and every other record are unchanged. |
| EmployeesContext.ClearedSlot | src/context/EmployeesContext.jsx:298-300 | The cleared slot has only numeric keys, so it has no `date`, `time`, `position`, `shift` or `status`. |
| EmployeesContext.ShiftDeleted | src/context/EmployeesContext.jsx:293-305 | Only the first slot on the date changes. It becomes the character-indexed spread of the date string. Slot count, record keys, other slots and other records are unchanged. |
| EmployeesContext.Published | src/context/EmployeesContext.jsx:307-317 | Every slot of every record, emptied ones included, has status 'published'. Every other key, the order and all lengths are kept. |
| EmployeesContext.PublishIdempotent | src/context/EmployeesContext.jsx:307-317 | Publishing twice equals publishing once. |
| EmployeesContext.GetEmployees | src/context/EmployeesContext.jsx:319-323 | A record is in the result exactly when it is in the store and its lower-cased "first last" name includes the lower-cased query. The result is no longer than the store. |
| EmployeesContext.GetEmployeesAppend | src/context/EmployeesContext.jsx:320 | Filtering a concatenation concatenates the filtered parts, so the store's order is kept. |
| EmployeesContext.GetEmployeesCount | src/context/EmployeesContext.jsx:320-322 | A matching record occurs in the result as often as in the store, and a non-matching one never. |
| EmployeesContext.GetEmployeesEmptyQuery | src/context/EmployeesContext.jsx:319-323 | The empty query returns the whole store, in order. |
| EmployeesContext.GetEmployeesNoMatch | src/context/EmployeesContext.jsx:319-323 | A query that no name includes returns nothing. |
| EmployeesContext.RoleUpdated | src/context/EmployeesContext.jsx:325-331 | Only the first record with the id changes, and only its `position`, which becomes the role. |
| EmployeesContext.Archived | src/context/EmployeesContext.jsx:334-344 | Every record with the id gets status 'Archived' and `lastDate` now, with its other keys and slots kept. Other records are untouched, none is removed, and an unknown id changes nothing. |
| EmployeesContext.AddThenDelete | src/context/EmployeesContext.jsx:269-305 | Adding a shift on a date and then clearing that date leaves the spread of the date string in that slot. That slot is not the date-only slot `{date}`. |
| EmployeesContext.AddTwiceMerges | src/context/EmployeesContext.jsx:274-286 | Two shifts added on a fresh date produce one slot. It is 'added' after the first call and 'edited' after the second. It carries the date, the second shift's keys, and the first shift's keys that the second lacks. |
| EmployeesContext.DeleteThenAddAppends | src/context/EmployeesContext.jsx:271-300 | A cleared slot no longer matches its date, so a later `addShift` on that date appends a new slot. |
| EmployeesContext.EmployeesProvider.constructor | src/context/EmployeesContext.jsx:243 | The store starts with the seed list. |
| EmployeesContext.EmployeesProvider.AddEmployee | src/context/EmployeesContext.jsx:245-256 | The new list is the old list plus the defaulted record, appended at the end. |
| EmployeesContext.EmployeesProvider.UpdateEmployee | src/context/EmployeesContext.jsx:258-267 | The new list is `Updated` of the old list. |
| EmployeesContext.EmployeesProvider.AddShift | src/context/EmployeesContext.jsx:269-291 | The new list is `ShiftAdded` of the old list, and the method returns exactly the list it installs. It requires a known id. |
| EmployeesContext.EmployeesProvider.DeleteShift | src/context/EmployeesContext.jsx:293-305 | The new list is `ShiftDeleted` of the old list, and the method returns exactly the list it installs. It requires a known id and a slot on the date. |
| EmployeesContext.EmployeesProvider.PublishShifts | src/context/EmployeesContext.jsx:307-317 | The new list is `Published` of the old list. |
| EmployeesContext.EmployeesProvider.UpdateEmployeeRole | src/context/EmployeesContext.jsx:325-331 | The new list is `RoleUpdated` of the old list. It requires a known id. |
| EmployeesContext.EmployeesProvider.ArchiveEmployee | src/context/EmployeesContext.jsx:334-344 | Records are marked in place one at a time, and the final list is `Archived` of the old list. |
| RolesSheet.FindIntent | src/components/BottomSheets/RolesSheet.jsx:52 | The result is absent exactly when no intent has the id. Otherwise it is the first intent of the list with that id. |
| RolesSheet.WithoutId | src/components/BottomSheets/RolesSheet.jsx:55 | The result holds exactly the intents whose id differs. |
| RolesSheet.WithoutIdAppend | src/components/BottomSheets/RolesSheet.jsx:55 | Removal distributes over concatenation, so the kept intents stay in order. |
| RolesSheet.WithoutIdAbsent | src/components/BottomSheets/RolesSheet.jsx:55 | Removing an employee with no intent changes nothing. |
| RolesSheet.ToggleIntent | src/components/BottomSheets/RolesSheet.jsx:51-65 | The four rules as outcomes. With no intent, one is appended: "NoRole" when the employee holds the selected title, that title otherwise. With a "NoRole" intent, or any intent when the employee does not hold the title, all the employee's intents are removed. With an assigning intent on a holder, a "NoRole" intent is appended after it. |
| RolesSheet.ToggleIsLocal | src/components/BottomSheets/RolesSheet.jsx:50-66 | A click changes only the clicked employee's intents. The others keep their order, and every other employee's lookup is unchanged. |
| RolesSheet.FindIntentUnaffected | src/components/BottomSheets/RolesSheet.jsx:50-66 | Under each of the four rules, the lookup for any other employee is unchanged by the click. |
| RolesSheet.ToggleTwiceRestores | src/components/BottomSheets/RolesSheet.jsx:50-66 | Two clicks on an employee without an intent restore the exact list (the selected title is never "NoRole", see line 132). |
| RolesSheet.ShownSelected | src/components/BottomSheets/RolesSheet.jsx:231 | The employee holds the selected title or has an intent, and that intent is not "NoRole". `ToggleFlipsShown` proves each click flips it. |
| RolesSheet.ToggleFlipsShown | src/components/BottomSheets/RolesSheet.jsx:231 | While an employee has at most one intent, and that intent fits its position, each click flips whether the employee is shown as selected, and the condition is kept. |
| RolesSheet.ClickAfterSaveDuplicates | src/components/BottomSheets/RolesSheet.jsx:54-58 | Because save does not clear the list, a click after saving an assignment appends a second, "NoRole" intent for the same employee. |
| RolesSheet.SaveThenClickDuplicates | src/components/BottomSheets/RolesSheet.jsx:50-79 | After a save whose last intent for an employee assigns the selected title, the saved record holds that title, and clicking it again appends a second, "NoRole" intent for the same employee. |
| RolesSheet.Replayed | src/components/BottomSheets/RolesSheet.jsx:75 | Replaying the intents keeps every record's id in place. |
| RolesSheet.ReplayedRecord | src/components/BottomSheets/RolesSheet.jsx:75 | After the replay, the first record with each id has the role of the last intent for that id ("NoRole" literally when that is the role), and nothing else of it changes. Every other record is unchanged. |
| RolesSheet.RolesSheetState.constructor | src/components/BottomSheets/RolesSheet.jsx:39-42 | The sheet starts with no selected role and no intents. |
| RolesSheet.RolesSheetState.SelectRole | src/components/BottomSheets/RolesSheet.jsx:138-141 | Selecting a role with another title empties the intents. Re-selecting the same title keeps them. |
| RolesSheet.RolesSheetState.HandleRoleChange | src/components/BottomSheets/RolesSheet.jsx:50-66 | The intents become the toggle of the old list for this employee's id and position under the selected title. The employee list is shown only once a role is selected (line 150). |
| RolesSheet.RolesSheetState.HandleSaveChanges | src/components/BottomSheets/RolesSheet.jsx:74-75 | The loop calls `updateEmployeeRole` for each intent in order. The store ends as `Replayed`, and the intent list is not cleared. |
| Home.TemplateAt | src/pages/MainLayout/Home.jsx:115 | An index 0-4 gives a template with truthy `time` and `position`, plus its `id` and `shift`. Any other index gives the empty object, which the spread in `addShift` reads as no keys. |
| Home.Truthy | src/pages/MainLayout/Home.jsx:304 | A string is truthy when it is defined and not empty. |
| Home.IsFilled | src/pages/MainLayout/Home.jsx:304 | A cell shows a shift card exactly when `time` and `position` are both truthy. The lemmas below give it for cleared slots and dropped templates. |
| Home.ClearedSlotIsEmpty | src/pages/MainLayout/Home.jsx:304 | A slot cleared by `deleteShift` is shown as an empty cell. |
| Home.DroppedTemplateFills | src/pages/MainLayout/Home.jsx:27-33 | Dropping any of the five templates leaves a filled cell on the drop date. |
| Home.OutOfRangeTemplateAddsNoShift | src/pages/MainLayout/Home.jsx:115-117 | A drop with a source index outside the templates adds no shift key. On a date without a slot, it appends a slot with only date and status 'added', which shows as empty. On a date with a slot, it only sets that slot's status to 'edited': the slot count is kept, and the cell stays filled or empty as it was. |
| Home.DropId | src/pages/MainLayout/Home.jsx:319 | The droppable id `${id}__${date}`. Its decoding is given by `DropIdRoundTrip` and `DropIdTrailingUnderscore`. |
| Home.Split | src/pages/MainLayout/Home.jsx:116 | `split('__')`: joining the parts with "__" gives back the string, and the first part holds no "__". |
| Home.DecodeDropId | src/pages/MainLayout/Home.jsx:116 | The id holds no "__". The date is undefined exactly when the string has no "__", and then the id is the whole string. Otherwise the string begins with the id, then "__", then the date. |
| Home.SplitWithoutSeparator | src/pages/MainLayout/Home.jsx:116 | A string without "__" splits into itself alone. |
| Home.SplitAtJoin | src/pages/MainLayout/Home.jsx:116 | Splitting `a + "__" + b` gives `a` followed by the parts of `b`, when `a` has no "__" and does not end in '_'. |
| Home.DropIdRoundTrip | src/pages/MainLayout/Home.jsx:116 | Decoding the drop id of `(id, date)` gives back `(id, date)` when neither has "__" and the id does not end in '_'. |
| Home.DropIdTrailingUnderscore | src/pages/MainLayout/Home.jsx:319 | An id ending in '_' does not round-trip: `("a_", "b")` is read back as `("a", "_b")`. |
| Home.HomePage.constructor | src/pages/MainLayout/Home.jsx:66-71 | The page starts with the store's list unfiltered, an empty search, and both flags off. |
| Home.HomePage.HandleSearchEmployees | src/pages/MainLayout/Home.jsx:74-80 | The page's list becomes exactly the store's own `getEmployees` filter for the query. |
| Home.HomePage.OnSearchChange | src/pages/MainLayout/Home.jsx:272-273 | Typing records the query and filters by it. |
| Home.HomePage.OnEmployeesChanged | src/pages/MainLayout/Home.jsx:131-133 | A change in the store re-filters by the current search. |
| Home.HomePage.HandlePublish | src/pages/MainLayout/Home.jsx:82-85 | The store is published and the Publish button is disabled. |
| Home.HomePage.HandleDeletingShift | src/pages/MainLayout/Home.jsx:87-90 | The slot is cleared and the page shows the list the store returns. |
| Home.HomePage.OnSubmit | src/pages/MainLayout/Home.jsx:92-95 | The page shows the submitted list and becomes publishable. |
| Home.HomePage.OnDragStart | src/pages/MainLayout/Home.jsx:167 | Only the dragging flag is set. |
| Home.HomePage.OnDragEnd | src/pages/MainLayout/Home.jsx:106-120 | Without a destination, only the dragging flag is cleared. Otherwise the template at the source index is added to the decoded cell, the page shows the new list, and it becomes publishable. |

## Where the model follows the code over its description

- **Clearing a slot.** A natural reading of "delete shift" is that the slot keeps only its date. The code spreads the date string instead. The slot becomes an object keyed `"0"`, `"1"`, ... with one character each, and has no `date` key. The model does what the code does (`ClearedSlot`, `AddThenDelete`). As a consequence, a later `addShift` on that date appends a new slot (`DeleteThenAddAppends`).
- **Template index.** Only indices 0-4 name a template. The code does not demand this: `shiftsTemplates[index]` outside the list reads `undefined`, whose spread adds nothing. `TemplateAt` therefore returns the empty map, and `OnDragEnd` has no requirement on the index (`OutOfRangeTemplateAddsNoShift`).
- **Drop-id round trip.** Excluding "__" from the id and the date is not enough: an id ending in '_' splits one character early (`DropIdTrailingUnderscore`). The proved round trip also requires that the id does not end in '_'.
- **`updateEmployee` with an unknown id.** The code assigns to the array property "-1", which is not an element of the list. The model leaves the records unchanged.

## Left out

- Remote role services (`getRoles`, `updateRole`) and the loading flags are left out: they are asynchronous calls to a service whose code is not part of this model. Only the local part of save (line 75) is modelled.
- The role colour editor (RolesSheet.jsx 205-208) and the colour lookups used for rendering (Home.jsx 206, 310, 346) are left out: they only affect how things are drawn.
- JSX rendering, animation, the drag-and-drop library wiring and the UI components under `src/components/UI` are left out: they pass props through and hold no logic.
- `src/plugins/RefreshToken.js` is left out: it is HTTP and session plumbing.
- `moment()` and `Date.now()` become the `now` parameter. Seed data is taken as the constructor's argument.
- React batching and stale closures are left out, as are the reads of `employeesRolesToChange` through the closure instead of the draft (RolesSheet.jsx 52) and the closure index in `updateEmployeeRole`. Updates are applied strictly in sequence to one state.
- Js.LowerChar: lower-cases ASCII letters only; full Unicode case mapping is not modelled.
- Js.SpreadString: gives one key per Dafny `char`. JavaScript spreads UTF-16 code units, so in the source a character outside the Basic Multilingual Plane gives two keys. The ISO date strings the store spreads have no such character.
- Record keys other than `dates` hold strings. Numbers, nested objects and `undefined`-valued keys are not modelled: a key set to `undefined` is treated as absent, which every lookup here reads the same way.
- A failed `addShift`, `deleteShift` or `updateEmployeeRole` (an unknown id, or no slot on the date) throws in the source. It is modelled as a precondition rather than as an error value.
- Home.HomePage.OnDragEnd: requires that the decoded id names a known record, because `addShift` throws otherwise.
- RolesSheet.RolesSheetState.HandleRoleChange: requires a selected role, because the employee list is not rendered before one is selected (RolesSheet.jsx 150).
