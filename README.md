# Anamnesis form builder — a Dafny model

This project models the logic of a small admin application for "anamnesis"
(medical intake) forms. A form has a title, a description, a creation
timestamp and an ordered list of sections; each section has a title and an
ordered list of questions of one of four kinds (short text, long text,
multiple choice, date/time). The model covers:

- the data model (`Types`);
- drag-and-drop reordering of sections (`DnDUtils`), with `arrayMove`
  defined by its meaning: take the element out, insert it at the target index;
- the pure list updates of the form builder (`SectionOps`): add a section,
  add / update / remove a question, delete a section, rename a section;
- the ordered first-failure validator of both drafts of the form controller
  (`Validation`) and the request a save sends (`SaveDecision`);
- the two form controllers as classes whose fields are the hook's state:
  `FormState.FormStateHook` (`useFormState`) and
  `AnamnesisFormHook.AnamnesisFormController` (`useAnamnesisForm`: draft
  editing plus the detail view's modal, pending section deletion and
  reorder);
- the question editor's record updates (`QuestionEditor`);
- the create/update page's own handlers and button guards
  (`CreatePage.AnamnesisFormCreate`);
- the two list controllers (`AnamnesisList.AnamnesisListHook`,
  `FetchAnamnesis.FetchAnamnesisHook`): the case-insensitive search filter and
  deletion by id.

Every backend call is replaced by an `Outcome` parameter — a response with its
`ok` flag and body, or a thrown exception with its message — so each handler is
a deterministic state transition. Fresh ids (`Date.now()`) and timestamps
(`new Date().toISOString()`) are parameters too. Navigation (`navigate('/')`)
is a returned boolean. Requests a handler sends (the save's POST or PUT, the
section-deletion PATCH) are returned values.

Behaviour the model keeps because the code has it:

- `reorderItems` looks both ids up without checking for -1; only the detail
  view's `handleDragEndDetail` guards against a missing id.
- A save keeps the stored `createdAt` only when it is non-empty
  (`existing?.createdAt || now`), and chooses PUT only for a non-zero id.
- `useAnamnesisForm.handleSave` opens the success modal for any response,
  ok or not; `useFormState.handleSave` does not look at the response at all.
  Neither resets `isSaving` when the request throws. On the create page,
  closing either modal while `isSaving` is set navigates home, so a valid save
  whose request threw still leads home (`SaveThenClose`). The detail
  controller's close also checks that no error is stored, so there a thrown
  request keeps the user on the page (`SaveThenCloseModal`).
- `handleDeleteSectionDetail` records an error for a failed deletion and then,
  in its `finally`, closes the modal, which clears that error again. The
  close runs with the `isSaving` and `error` the handler was created with
  (a React closure), which `CloseModalWith` makes explicit.
- The button guards on the create page test `!formTitle` (emptiness), while
  validation tests blankness, so a title of spaces enables Save and is then
  refused (`BlankTitlePassesGuard`).

## Model

| member | source | states |
|---|---|---|
| `Text.LeadingSpace` | src/hooks/useFormState.ts:55 | the count of characters `trim()` drops at the front: all of them are white space, and the next character, if any, is not |
| `Text.TrailingSpace` | src/hooks/useFormState.ts:55 | the count of characters `trim()` drops at the back: all of them are white space, and the character before them, if any, is not |
| `Text.Trim` | src/hooks/useFormState.ts:55 | `trim()` gives the contiguous slice starting after the leading white space; it neither starts nor ends with white space, and everything before and after it is white space |
| `Text.BlankIffTrimEmpty` | src/hooks/useFormState.ts:55 | the blankness test used by validation (`!s.trim()`) holds iff trimming leaves the empty string, i.e. iff every character is white space |
| `Text.Lower` | src/hooks/useAnamnesisList.ts:49 | `toLowerCase()` keeps the length and maps each character to its lower-case form (ASCII letters shift by 32, others unchanged) |
| `Text.Contains` | src/hooks/useAnamnesisList.ts:52-53 | `includes` finds the empty term in every string and never a term longer than the string (and see `ContainsAt`) |
| `Text.ContainsAt` | src/hooks/useAnamnesisList.ts:51-54 | `includes` holds exactly when the term occurs at some position of the string |
| `Text.NotContainsMissingFirst` | src/hooks/useAnamnesisList.ts:51-54 | a string lacking a term's first character does not include the term |
| `Text.LowerIdempotent` | src/hooks/useAnamnesisList.ts:49 | lower-casing twice is lower-casing once |
| `Seqs.Filter` | src/hooks/useAnamnesisList.ts:67 | `filter` returns at most as many elements, all of which pass the test |
| `Seqs.FilterMultiset` | src/hooks/useAnamnesisList.ts:67 | every copy of an accepted element is kept and every copy of a rejected one is dropped |
| `Seqs.FilterMembership` | src/hooks/useAnamnesisList.ts:67 | an element is in the result iff it is in the input and passes the test |
| `Seqs.FilterIsSubsequence` | src/hooks/useAnamnesisList.ts:67 | the result is an order-preserving subsequence of the input (increasing index embedding) |
| `Seqs.FilterIdempotent` | src/hooks/useAnamnesisForm.ts:206 | filtering twice by the same test equals filtering once |
| `DnDUtils.ArrayMove` | src/utils/DnDUtils.ts:14 | `arrayMove` keeps the length and puts the moved element at the target index (and see the `ArrayMove…` lemmas) |
| `DnDUtils.GuardedReorder` | src/hooks/useAnamnesisForm.ts:218-224 | the detail view's guarded move keeps the length and the multiset of sections |
| `DnDUtils.FindIndex` | src/utils/DnDUtils.ts:12-13 | `findIndex` gives -1 iff no section has the id, otherwise the first position holding it |
| `DnDUtils.ReorderItems` | src/utils/DnDUtils.ts:5-18 | no drop target, or a drop on itself, returns the list unchanged; otherwise the result is the move from the dragged section's index to the target's index |
| `DnDUtils.ArrayMoveIsPermutation` | src/utils/DnDUtils.ts:14 | a move keeps the length and the multiset of elements |
| `DnDUtils.ArrayMoveRelocates` | src/utils/DnDUtils.ts:14 | the moved element ends at the target index and, with it taken out, the others are in their original relative order |
| `DnDUtils.ArrayMoveRoundTrip` | src/utils/DnDUtils.ts:14 | moving from i to j and back from j to i restores the list |
| `DnDUtils.ArrayMoveInPlace` | src/utils/DnDUtils.ts:14 | a move onto the same index changes nothing |
| `DnDUtils.ReorderItemsMovesDragged` | src/utils/DnDUtils.ts:11-14 | after a drop the dragged section stands at the target's former index, the list is a permutation and the others keep their order |
| `DnDUtils.GuardedReorderAgrees` | src/hooks/useAnamnesisForm.ts:215-232 | the guarded reorder equals `reorderItems` when both ids are found and leaves the list unchanged otherwise |
| `SectionOps.AddSection` | src/hooks/useFormState.ts:12-19 | one section with the fresh id, empty title and no questions is appended; the earlier sections are unchanged and in order |
| `SectionOps.AddQuestion` | src/hooks/useFormState.ts:21-31 | matching sections get one new question (fresh id, given kind, empty text, empty options) at the end; other sections, ids and titles are unchanged |
| `SectionOps.AddQuestionNoMatch` | src/hooks/useFormState.ts:28-30 | with no section of that id the list is unchanged |
| `SectionOps.ReplaceQuestion` | src/hooks/useFormState.ts:37-39 | each question with the updated id is replaced by the supplied value, the rest stay, the length stays |
| `SectionOps.UpdateQuestion` | src/hooks/useFormState.ts:33-42 | only the matching sections' questions are touched; lengths, ids and titles stay |
| `SectionOps.UpdateQuestionOnlyTouchesMatch` | src/hooks/useFormState.ts:33-42 | every question keeps its place and value except those with the updated id in the matching section, which become the supplied value |
| `SectionOps.RemoveQuestion` | src/hooks/useFormState.ts:44-51 | the matching sections keep exactly the questions with a different id; other sections are unchanged |
| `SectionOps.RemoveQuestionDropsExactly` | src/hooks/useFormState.ts:48 | in a matching section a question remains iff it was there and has a different id; every copy of a kept question stays, in original order |
| `SectionOps.RemoveQuestionIdempotent` | src/hooks/useFormState.ts:44-51 | a second identical removal changes nothing |
| `SectionOps.AddThenRemoveQuestion` | src/hooks/useFormState.ts:21-51 | adding a question with an unused id and removing that id restores the sections |
| `SectionOps.DeleteSection` | src/hooks/useAnamnesisForm.ts:205-207 | no remaining section has the deleted id |
| `SectionOps.DeleteSectionKeepsOthers` | src/pages/AnamnesisForm/Create/index.tsx:61-63 | the result holds exactly the sections with another id, with their multiplicity and in order |
| `SectionOps.DeleteSectionIdempotent` | src/hooks/useAnamnesisForm.ts:205-207 | deleting the same id twice equals deleting it once |
| `SectionOps.SetSectionTitle` | src/pages/AnamnesisForm/Create/index.tsx:115-120 | the title edit keeps the length and leaves every section with another id unchanged |
| `SectionOps.SetSectionTitleOnlyTitle` | src/pages/AnamnesisForm/Create/index.tsx:115-120 | only the matching sections' titles change; ids, questions, order and length stay |
| `Validation.QuestionErrorTwoChecks` | src/hooks/useFormState.ts:71-78 | the two-`if` question test fails iff the question is incomplete (a blank short or long text), and then with 'Question cannot be empty.' |
| `Validation.QuestionErrorIncludes` | src/hooks/useAnamnesisForm.ts:67-71 | the `includes` question test fails iff the question is incomplete, and then with 'Question cannot be empty.' |
| `Validation.FirstQuestionError` | src/hooks/useFormState.ts:71-78 | the question loop passes iff the test passes on every question, and otherwise reports the test's message for some question |
| `Validation.SectionError` | src/hooks/useFormState.ts:65-78 | a section passes iff its title is not blank, it has a question and every question passes; a failure is the title message, the no-question message or a question's message |
| `Validation.FirstSectionError` | src/hooks/useFormState.ts:64-79 | the section loop passes iff every section passes, and otherwise reports the error of some section |
| `Validation.Validate` | src/hooks/useFormState.ts:54-81 | validation passes iff title and description are not blank, there is a section and every section passes; a failure is a form-level message or a section's error |
| `Validation.ValidateFormState` | src/hooks/useFormState.ts:54-81 | the `useFormState` validator passes iff the form is complete, and every failure is one of the six non-empty messages |
| `Validation.ValidateAnamnesisForm` | src/hooks/useAnamnesisForm.ts:58-75 | the `useAnamnesisForm` validator passes iff the form is complete, and every failure is one of the six non-empty messages |
| `Validation.QuestionRulesAgree` | src/hooks/useAnamnesisForm.ts:67-71 | the two-check and the membership question tests give the same result, an error exactly for a blank short or long text |
| `Validation.ChoiceAndDateNeverFail` | src/hooks/useFormState.ts:71-78 | a multiple-choice or date/time question never produces an error, whatever its text |
| `Validation.FirstQuestionErrorRulesAgree` | src/hooks/useFormState.ts:71-78 | the question walks of both drafts agree |
| `Validation.FirstSectionErrorRulesAgree` | src/hooks/useAnamnesisForm.ts:63-72 | the section walks of both drafts agree |
| `Validation.ValidatorsAgree` | src/hooks/useAnamnesisForm.ts:58-75 | the two drafts' validators return the same result on every form |
| `Validation.FirstQuestionErrorSpec` | src/hooks/useAnamnesisForm.ts:67-71 | the question walk fails with 'Question cannot be empty.' iff some question is incomplete |
| `Validation.SectionErrorSpec` | src/hooks/useAnamnesisForm.ts:63-72 | a section reports, in this order, a blank title, no questions, then an incomplete question, and passes iff it is complete |
| `Validation.FirstSectionErrorSpec` | src/hooks/useFormState.ts:64-79 | the walk reports message m iff some section fails with m and every earlier section is complete |
| `Validation.FirstSectionErrorNone` | src/hooks/useFormState.ts:64-80 | the section walk passes iff every section is complete |
| `Validation.ValidateSpec` | src/hooks/useFormState.ts:54-81 | validation passes iff the form is complete; blank title wins over all, then blank description, then missing sections, and otherwise the result is the section walk's |
| `Validation.EmptyShortTextScenario` | src/hooks/useFormState.ts:71-74 | a form whose only problem is an empty short-text question fails with 'Question cannot be empty.' |
| `SaveDecision.SaveRequestFor` | src/hooks/useFormState.ts:94-104 | PUT to the item iff the stored id is non-zero, keeping that id; otherwise POST to the collection with the fresh id; the stored non-empty createdAt is kept, else now |
| `SaveDecision.UpdateKeepsIdentity` | src/hooks/useAnamnesisForm.ts:86-95 | saving a stored form sends PUT to its id with its id and original createdAt |
| `SaveDecision.CreateUsesFreshIdentity` | src/hooks/useAnamnesisForm.ts:86-95 | saving a new draft sends POST with the fresh id and the current time |
| `FormState.FormStateHook.constructor` | src/hooks/useFormState.ts:6-10 | the draft starts from the stored form or empty, not saving and without error |
| `FormState.FormStateHook.AddSection` | src/hooks/useFormState.ts:12-19 | only `sections` changes, to the list with one new section appended |
| `FormState.FormStateHook.AddQuestion` | src/hooks/useFormState.ts:21-31 | only `sections` changes, by `AddQuestion` |
| `FormState.FormStateHook.UpdateQuestion` | src/hooks/useFormState.ts:33-42 | only `sections` changes, by `UpdateQuestion` |
| `FormState.FormStateHook.RemoveQuestion` | src/hooks/useFormState.ts:44-51 | only `sections` changes, by `RemoveQuestion` |
| `FormState.FormStateHook.ValidateForm` | src/hooks/useFormState.ts:54-81 | the early-return loops compute the specified first-failure validator |
| `FormState.FormStateHook.HandleSave` | src/hooks/useFormState.ts:83-111 | an invalid draft sets the error and sends nothing; a valid one sets isSaving, clears the error, sends the chosen request, and a thrown request sets 'Failed to save data.' |
| `AnamnesisFormHook.AnamnesisFormController.constructor` | src/hooks/useAnamnesisForm.ts:26-34 | the controller starts from the stored form or empty, with the empty selected form, no pending section, the closed modal and loading |
| `AnamnesisFormHook.AnamnesisFormController.FetchFormData` | src/hooks/useAnamnesisForm.ts:36-47 | any response body becomes the selected form; a thrown request sets the error; loading ends |
| `AnamnesisFormHook.AnamnesisFormController.ValidateForm` | src/hooks/useAnamnesisForm.ts:58-75 | the early-return loops compute the specified first-failure validator |
| `AnamnesisFormHook.AnamnesisFormController.HandleSave` | src/hooks/useAnamnesisForm.ts:78-105 | an invalid draft sets the error and sends nothing; a valid one sends the chosen request, opens the success modal on any response, and on a throw sets the error and leaves isSaving set |
| `AnamnesisFormHook.AnamnesisFormController.CloseModalWith` | src/hooks/useAnamnesisForm.ts:241-250 | the modal closes, the error clears, saving ends; home is navigated to iff saving was set and the error falsy when the handler was made |
| `AnamnesisFormHook.AnamnesisFormController.HandleOnCloseModal` | src/hooks/useAnamnesisForm.ts:241-250 | as `CloseModalWith` with the current `isSaving` and `error` |
| `AnamnesisFormHook.AnamnesisFormController.SaveThenCloseModal` | src/hooks/useAnamnesisForm.ts:78-105 | pressing Save and then closing the modal navigates home iff the draft is valid and the request got a response; a thrown request or an invalid draft stays on the page |
| `AnamnesisFormHook.AnamnesisFormController.HandleDeleteClick` | src/hooks/useAnamnesisForm.ts:253-256 | the section becomes pending and the confirm modal opens |
| `AnamnesisFormHook.AnamnesisFormController.HandleCancelDelete` | src/hooks/useAnamnesisForm.ts:259-262 | the modal closes as by `handleOnCloseModal` and no section is pending |
| `AnamnesisFormHook.AnamnesisFormController.HandleDeleteSectionDetail` | src/hooks/useAnamnesisForm.ts:108-136 | nothing happens with no pending section; otherwise the remaining sections are sent, removed locally only on an ok response, the modal closes, the error ends cleared and nothing is pending |
| `AnamnesisFormHook.AnamnesisFormController.UpdateSectionsOnServer` | src/hooks/useAnamnesisForm.ts:139-157 | an ok response opens the success modal; a failed or thrown one sets the error |
| `AnamnesisFormHook.AnamnesisFormController.AddSection` | src/hooks/useAnamnesisForm.ts:160-167 | only `sections` changes, to the list with one new section appended |
| `AnamnesisFormHook.AnamnesisFormController.AddQuestion` | src/hooks/useAnamnesisForm.ts:170-180 | only `sections` changes, by `AddQuestion` |
| `AnamnesisFormHook.AnamnesisFormController.UpdateQuestion` | src/hooks/useAnamnesisForm.ts:183-192 | only `sections` changes, by `UpdateQuestion` |
| `AnamnesisFormHook.AnamnesisFormController.RemoveQuestion` | src/hooks/useAnamnesisForm.ts:195-202 | only `sections` changes, by `RemoveQuestion` |
| `AnamnesisFormHook.AnamnesisFormController.HandleDeleteSection` | src/hooks/useAnamnesisForm.ts:205-207 | only `sections` changes, by `DeleteSection` |
| `AnamnesisFormHook.AnamnesisFormController.HandleDragEnd` | src/hooks/useAnamnesisForm.ts:210-212 | only `sections` changes, by `reorderItems` |
| `AnamnesisFormHook.AnamnesisFormController.HandleDragEndDetail` | src/hooks/useAnamnesisForm.ts:215-232 | the selected form's sections move only for a drop over another section with both ids found, then by the move between their indices; every other field stays |
| `QuestionEditor.ContentChange` | src/components/AnamnesisForm/QuestionEditor.tsx:12-14 | only the text changes; id, kind and options stay |
| `QuestionEditor.OptionChange` | src/components/AnamnesisForm/QuestionEditor.tsx:16-20 | only the option at the index changes; length, other options, id, kind and text stay |
| `QuestionEditor.RemoveOption` | src/components/AnamnesisForm/QuestionEditor.tsx:22-26 | exactly the option at the index is removed, the rest keep their order; an index past the end removes nothing |
| `QuestionEditor.AddOption` | src/components/AnamnesisForm/QuestionEditor.tsx:88 | one empty option is appended; the earlier options, id, kind and text stay |
| `QuestionEditor.HandleRemoveQuestion` | src/components/AnamnesisForm/QuestionEditor.tsx:28-30 | the removal names the enclosing section id and the question's own id |
| `QuestionEditor.AddThenRemoveOption` | src/components/AnamnesisForm/QuestionEditor.tsx:22-26 | removing the option just added restores the option list |
| `QuestionEditor.AbsentOptionsAreEmpty` | src/components/AnamnesisForm/QuestionEditor.tsx:17 | a question without options is edited exactly as one with an empty option list |
| `QuestionEditor.RemoveRequestRemovesQuestion` | src/pages/AnamnesisForm/Create/index.tsx:126-132 | an editor's removal, passed to `removeQuestion`, takes the question out of its section and leaves other sections alone |
| `QuestionEditor.ContentChangeUpdatesOneQuestion` | src/pages/AnamnesisForm/Create/index.tsx:126-132 | an editor's text change, passed to `updateQuestion`, changes that question's text and no other question |
| `CreatePage.AddSectionButton` | src/pages/AnamnesisForm/Create/index.tsx:91-93 | "Add Section" is enabled iff the title is non-empty |
| `CreatePage.SaveButton` | src/pages/AnamnesisForm/Create/index.tsx:145-149 | "Save" is hidden iff there is no section and enabled iff there is one, no save runs and the title is non-empty |
| `CreatePage.CompleteFormCanBeSaved` | src/pages/AnamnesisForm/Create/index.tsx:145-149 | a form that passes validation, while no save runs, has Save and Add Section enabled |
| `CreatePage.BlankTitlePassesGuard` | src/pages/AnamnesisForm/Create/index.tsx:149 | a one-space title enables Save, and validation then refuses it with the title message |
| `CreatePage.AnamnesisFormCreate.constructor` | src/pages/AnamnesisForm/Create/index.tsx:31-50 | the page starts a fresh draft with the error modal closed |
| `CreatePage.AnamnesisFormCreate.HandleDragEnd` | src/pages/AnamnesisForm/Create/index.tsx:52-54 | the draft's sections change by `reorderItems` only |
| `CreatePage.AnamnesisFormCreate.HandleDeleteSection` | src/pages/AnamnesisForm/Create/index.tsx:61-63 | the draft's sections change by `DeleteSection` only |
| `CreatePage.AnamnesisFormCreate.ChangeSectionTitle` | src/pages/AnamnesisForm/Create/index.tsx:115-120 | the draft's sections change by the title edit only |
| `CreatePage.AnamnesisFormCreate.CloseErrorModal` | src/pages/AnamnesisForm/Create/index.tsx:65-73 | the error modal closes and the error clears; it navigates home, and ends saving, iff a save was marked as running |
| `CreatePage.AnamnesisFormCreate.SaveThenClose` | src/pages/AnamnesisForm/Create/index.tsx:145-178 | pressing Save on a valid draft and closing the modal that follows navigates home whatever the request's outcome |
| `AnamnesisList.FilteredData` | src/hooks/useAnamnesisList.ts:48-55 | every kept form matches the lower-cased term in its lower-cased title or description |
| `AnamnesisList.RemoveId` | src/hooks/useAnamnesisList.ts:67 | no remaining form has the deleted id |
| `AnamnesisList.FilteredDataSpec` | src/hooks/useAnamnesisList.ts:48-55 | a form is kept iff its lower-cased title or description contains the lower-cased term; every copy of a matching form is kept; the result is an order-preserving subsequence |
| `AnamnesisList.EmptyTermKeepsAll` | src/hooks/useAnamnesisList.ts:49-54 | the empty term keeps every form |
| `AnamnesisList.FilterIgnoresCase` | src/hooks/useAnamnesisList.ts:49-53 | terms equal up to letter case filter alike |
| `AnamnesisList.FilterOfLoweredTerm` | src/hooks/useAnamnesisList.ts:49 | lower-casing the term beforehand does not change the result |
| `AnamnesisList.RemoveIdSpec` | src/hooks/useAnamnesisList.ts:63-67 | deletion keeps exactly the forms with another id, with multiplicity and order, and is idempotent |
| `AnamnesisList.FluScenario` | src/hooks/useAnamnesisList.ts:48-55 | the term "flu" keeps the "Flu"/"cold" form and drops the "Diabetes"/"chronic" one |
| `AnamnesisList.AnamnesisListHook.constructor` | src/hooks/useAnamnesisList.ts:18-21 | no data, the error is '', loading, empty search term |
| `AnamnesisList.AnamnesisListHook.FetchData` | src/hooks/useAnamnesisList.ts:23-38 | an ok response replaces the data; a non-ok or thrown one keeps the data and sets the error; loading ends |
| `AnamnesisList.AnamnesisListHook.DeleteItem` | src/hooks/useAnamnesisList.ts:58-73 | only an ok response removes the forms with the id; a non-ok or thrown one keeps the data and sets the error; loading ends |
| `AnamnesisList.AnamnesisListHook.SetSearchTerm` | src/hooks/useAnamnesisList.ts:21 | the search term becomes the typed text |
| `FetchAnamnesis.FilteredData` | src/hooks/useFetchAnamnesis.ts:42-47 | every kept form's lower-cased title or description contains the lower-cased term |
| `FetchAnamnesis.FiltersAgree` | src/hooks/useFetchAnamnesis.ts:42-47 | this filter equals the other list controller's filter on every list and term |
| `FetchAnamnesis.FilteredDataSpec` | src/hooks/useFetchAnamnesis.ts:42-47 | a form is kept iff its lower-cased title or description contains the lower-cased term, every copy of it, in original order; the empty term keeps all |
| `FetchAnamnesis.FetchAnamnesisHook.constructor` | src/hooks/useFetchAnamnesis.ts:15-17 | no data, loading, the error is '' |
| `FetchAnamnesis.FetchAnamnesisHook.FetchData` | src/hooks/useFetchAnamnesis.ts:21-36 | an ok response replaces the data; a non-ok or thrown one keeps the data and sets the error; loading ends |
| `FetchAnamnesis.FetchAnamnesisHook.DeleteItem` | src/hooks/useFetchAnamnesis.ts:49-66 | only an ok response removes the forms with the id; a non-ok or thrown one keeps the data and sets the error; loading ends |

## Left out

- Network access: URLs, headers, `JSON.stringify` bodies and `response.json()` are not modelled; the outcome of each call is a parameter, and an exception's `Error` object is represented by its message string.
- Stored exceptions: the handlers of `useAnamnesisForm`, `useAnamnesisList` and `useFetchAnamnesis` store the caught value, an `Error` object that is always truthy, while `useFormState.handleSave` stores the fixed message 'Failed to save data.'. The model stores the caught value's message and makes that message non-empty (`ErrorMessage`), so `Falsy` never holds of a stored exception. What a thrown non-`Error` value such as `''` would do is not modelled.
- Clocks: `Date.now()` ids and ISO timestamps are parameters; their uniqueness is not modelled.
- Debouncing: `useDebounce` (a 600 ms timer) is not part of this model; the filter works on the already debounced term.
- React scheduling: effects (opening the error modal when `error` becomes set, fetching on mount or when the route id changes), `useCallback`/`useMemo`, batching and responses arriving after unmount. Handlers run one after another to completion.
- `handleDragEndDetail` pushes the reordered form to the server from inside the state updater; that call is not modelled, and `UpdateSectionsOnServer` is modelled on its own.
- DnDUtils.ReorderItems: requires both ids to be present when the drop is a move, because `reorderItems` passes a -1 index to `arrayMove` otherwise and `arrayMove` is library code that is not part of this model.
- QuestionEditor.OptionChange: requires the index to be within the option list; the editor only offers displayed indices, and a write past the end would create a sparse JavaScript array.
- `trim` and `toLowerCase` are ASCII only: other Unicode white space and letters are not modelled.
- useTablePagination.ts and PaginationControls.tsx (a wrapper over react-table's sorting and paging), the drag-and-drop sensors and sortable wiring, and pure rendering components (modal, headers, buttons, search input, navigation, icons, routing, detail and update pages) are not part of this model.
