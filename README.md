# School dashboard: a Dafny model

This project models the front end of a small school administration app. It has three parts.

- **The dashboard page.** It keeps one record form for classes, students and teachers. The page:
  - holds the form's draft;
  - validates the draft against the field list of the chosen form type;
  - cleans the draft into the payload the backend expects;
  - sends that payload as a POST to create a record, or a PUT while a record is being edited;
  - loads a listed record back into the form for editing;
  - sends DELETE requests.
- **The record table** under the form. It filters students by class and sorts them by name or by creation time. It toggles the sort direction, keeps the delete confirmation dialog, and lists the class filter options.
- **Two analytics panels.**
  - Class analytics counts male and female students, for one class or for all classes, and looks up each class's teacher and year.
  - Teacher analytics totals salaries and fees, draws per-teacher salary bars (×12 in the yearly view) and per-class fee bars, and labels the profit or loss.

The model is built by module:

- **`JsValues`** models the JavaScript values the record objects carry: truthiness, `||`, property reads, spread, `String(v)`, `trim()` and ASCII `toLowerCase()`.
- **`Collections`** holds generic filter, first-occurrence dedup (`new Set`) and insertion sort, with their lemmas.
- **`FormValidation`** holds:
  - the three field lists;
  - the email pattern, as a decision procedure proved equal to the regular expression;
  - the ten-digit phone rule;
  - `validateForm`, as an imperative loop proved against `ValidationOf`.
- **`Records`** holds the draft (`initialFormData`), the `handleChange` updater, `cleanData` and the draft `handleEdit` builds.
- **`Dashboard`** holds `handleSubmit` as a step function (`SubmitStep`), lemmas about it, and a `Controller` class. The class has the page's state cells, and one method per handler.
- **`RecordTable`** holds the filter/sort pipeline, what the table renders (the loading message or its rows), and a `TableState` class for the sort toggle and the delete dialog.
- **`ClassAnalytics`** and **`TeacherAnalytics`** each hold the panel's functions and a `Panel` class over the panel's state cells.

How the outside world enters the model:

- **Backend requests** are returned by the handlers as `Request` values.
- **Backend answers** are passed in, as an `Outcome` or a `Fetch`.
- **`localeCompare`** is an abstract collation function. It is only assumed to order every pair consistently.
- **`new Date(...)`** is an abstract integer clock reading.

## Model

| member | source | states |
|---|---|---|
| JsValues.Or | pages/Dashboard.jsx:216-246 | `a \|\| b` is one of its operands, truthy exactly when either operand is, and is `a` when `a` is truthy |
| Records.ChangeDraftFrame | pages/Dashboard.jsx:80-102 | a change adds only `field` to the draft and leaves every other property alone; a plain change stores the value; a nested change stores it under `nestedField` in a fresh object that holds everything spreading the old value copies: an object's properties, an array's or a string's index properties, nothing for any other value |
| JsValues.SpreadMeaning | pages/Dashboard.jsx:86-89 | spreading an object copies its properties; spreading an array or a string gives exactly the properties "0", "1", … holding its elements or its one-character strings; spreading undefined, null, a boolean or a number gives nothing |
| Records.NestedChangeOnString | pages/Dashboard.jsx:83-90 | a nested change on a property holding the string "ab" gives the object `{0: 'a', 1: 'b', email: value}` |
| Records.CleanClassPayload | pages/Dashboard.jsx:217-227 | a class payload has exactly the seven class keys; six are copied from the draft, and `students` is the draft's list when truthy and `[]` otherwise |
| Records.CleanPersonPayload | pages/Dashboard.jsx:230-245 | a person payload has exactly the eleven person keys, none undefined; each field is the draft's value when truthy and otherwise its default (`''` for the texts, `null` for `dob`, `false` for `feesPaid`); email and phone come from the nested contact details and appear both there and at the top level; `assignedClass` is the string of the draft's value |
| Records.CleanDataIdempotent | pages/Dashboard.jsx:216-246 | cleaning a cleaned payload again changes nothing |
| Records.EditDraftThrows | pages/Dashboard.jsx:326-359 | building the edit draft fails exactly for an undefined or null record, or for a person record whose truthy `dob` has no `slice` |
| Records.EditDraftClassifies | pages/Dashboard.jsx:326-355 | the draft has the fifteen form keys and its `class` is `''`; a record with a truthy `class` becomes a class draft: its `class` is the class name, its other class fields are copied with `''` (or `[]` for students) defaults, every person field is empty and `feesPaid` is `true`; any other record becomes a person draft: every class field is empty, its person fields are copied with `''` defaults, `feesPaid` is `x \|\| true`, and a truthy `dob` is cut to its first ten characters |
| Records.EditDraftFeesPaid | pages/Dashboard.jsx:348 | the edit draft's `feesPaid` is always truthy, and is `true` whenever the record's is a boolean or missing |
| Records.EditDraftClassAlwaysEmpty | pages/Dashboard.jsx:330-351 | a person draft only arises when the record's `class` is falsy, so the draft's `class` is always `''` |
| Records.EditStudentWithClassLosesName | pages/Dashboard.jsx:330-346 | a student record carrying a class reference is edited as a class: its name is dropped and its class id becomes the class name |
| FormValidation.FieldListsWellFormed | pages/Dashboard.jsx:105-157 | each field list names every field once; the student and teacher lists hold the email and phone fields, and the class list holds no contact field |
| FormValidation.EmailDecisionMatchesPattern | pages/Dashboard.jsx:179 | the email decision accepts exactly the strings that match `^[\w-]+(\.[\w-]+)*@([\w-]+\.)+[a-zA-Z]{2,7}$` |
| FormValidation.PresenceRule | pages/Dashboard.jsx:191-194 | an ordinary field fails exactly when it is undefined, null or `''`, with "<label> is required."; `false` and `0` pass |
| FormValidation.ContactRule | pages/Dashboard.jsx:173-188 | a falsy email or phone is required; a present email fails exactly when it does not match the pattern; a present phone fails exactly when it is not ten digits |
| FormValidation.ValidationThrows | pages/Dashboard.jsx:168-170 | validation throws exactly when a contact field is read from a draft whose contact details are undefined or null |
| FormValidation.ValidationMeaning | pages/Dashboard.jsx:163-199 | `valid` is false exactly when some error was recorded; an error is recorded under a name exactly when a field of that name fails; every message is non-empty |
| FormValidation.ValidationMessageOf | pages/Dashboard.jsx:163-199 | with distinct field names, the message under a failing field's name is that field's own message |
| FormValidation.ValidateForm | pages/Dashboard.jsx:163-199 | the loop computes `ValidationOf` for the fields, and a result it returns is valid exactly when it has no errors |
| FormValidation.PhoneExamples | pages/Dashboard.jsx:184 | ten digits pass; five digits, eleven digits and a dashed number fail |
| FormValidation.EmailExampleAccepted | pages/Dashboard.jsx:179 | a dotted, dashed local part with a two-label domain is accepted |
| FormValidation.EmailExampleNoAt | pages/Dashboard.jsx:179 | an address without `@` is rejected |
| Dashboard.FailureAlwaysShown | pages/Dashboard.jsx:309-322 | after an answered submit, the shown error is truthy exactly for no response or a refusal with a body; a duplicate email is reworded; any other server message is shown as is; a refusal without an `error` gets the generic message |
| Dashboard.SubmitNeedsFormType | pages/Dashboard.jsx:252-261 | a submit stops at once exactly when no form type is chosen; otherwise it throws exactly when validating that type's fields throws |
| Dashboard.SendOnlyValid | pages/Dashboard.jsx:261-293 | a request is sent only for a draft that passes validation with no errors; it carries the cleaned draft, as a PUT to the edited record while editing and a POST to `/<type>/create` otherwise |
| Dashboard.InvalidReportsErrors | pages/Dashboard.jsx:264-267 | a failed validation reports a non-empty set of non-empty messages, each under the name of a failing field |
| Dashboard.ContactCheckUnreachable | pages/Dashboard.jsx:274-279 | the missing-contact check after cleaning never stops a submission, because validation has already required a truthy email and phone |
| Dashboard.CompleteClassFormIsSent | pages/Dashboard.jsx:261-293 | a class form whose five fields are all truthy is sent, as the cleaned class payload |
| Dashboard.ClassPayloadStudents | pages/Dashboard.jsx:226 | a complete class form without students posts `students: []` |
| Dashboard.PlaceholderFormType | pages/Dashboard.jsx:468 | the placeholder option 'Select' counts as a chosen form type: it validates the student fields and would post to `/Select/create` |
| Dashboard.EmptyStudentFormInvalid | pages/Dashboard.jsx:21-39 | submitting the untouched student form fails validation with "Student Name is required." under `studentName` |
| Dashboard.EditedRecordIsUpdated | pages/Dashboard.jsx:287-293 | while record `s1` is edited, a submission that gets through is a PUT to `/<type>/s1` |
| Dashboard.ErrorsAfterChange | pages/Dashboard.jsx:98-101 | a change clears the error under the changed field and keeps every other error |
| Dashboard.Controller.HandleChange | pages/Dashboard.jsx:80-102 | the draft becomes `ChangeDraft` of the old draft, the errors become `ErrorsAfterChange`, and nothing else changes |
| Dashboard.Controller.HandleSubmit | pages/Dashboard.jsx:248-323 | a request is returned exactly when `SubmitStep` reaches Send, and it is that request; without a form type the error says so; a failed validation stores its errors; other early stops clear the errors and the form error; after a send the form error is `FormErrorAfter(outcome)`; only a successful send resets the draft, drops the edited id and closes the form |
| Dashboard.Controller.Answer | pages/Dashboard.jsx:303-322 | success resets the form and closes it; a refusal with a body, or no response, sets the matching message; a refusal without a body throws and leaves the error as it was |
| Dashboard.Controller.HandleEdit | pages/Dashboard.jsx:326-359 | the form is shown; when the draft can be built it replaces the form data and the record's `_id` is remembered; otherwise the data and id stay |
| Dashboard.Controller.HandleDelete | pages/Dashboard.jsx:363-372 | returns a request exactly when a form type is chosen, and then the DELETE of `/<type>/<id>` given by `DeleteRequest` |
| Dashboard.DeleteTargetsUpdatedRecord | pages/Dashboard.jsx:363-372 | nothing is deleted without a form type; otherwise a record is deleted at the address its update is PUT to |
| Dashboard.Controller.HandleFormTypeChange | pages/Dashboard.jsx:438-441 | the form type is set and the analytics panel closed; the draft, errors, edited id, error and form visibility stay |
| Dashboard.Controller.HandleCreate | pages/Dashboard.jsx:388-390 | only shows the form |
| Dashboard.Controller.HandleClose | pages/Dashboard.jsx:392-394 | only hides the form |
| Dashboard.SubmitWithoutFormType | pages/Dashboard.jsx:252-256 | a submit on a fresh page sends nothing and shows "Form type is not selected" |
| Dashboard.SubmitEmptyStudentForm | pages/Dashboard.jsx:248-267 | submitting the untouched student form sends nothing and reports the missing student name |
| Dashboard.CreateAfterEditScenario | pages/Dashboard.jsx:326-394 | editing, closing and pressing Create keeps the edited record's draft and id |
| RecordTable.FilterRowsSpec | components/Table.jsx:20-24 | with the class filter in force on the student table, the rows kept are exactly those of the chosen class, each as often as in the list; otherwise every row is kept |
| RecordTable.FilterRowsKeepsOrder | components/Table.jsx:23-24 | filtering a concatenation filters each part in turn, so the list's order is kept |
| RecordTable.LeTotalPreorder | components/Table.jsx:25-39 | for a consistent collation, the sort comparator is total and transitive |
| RecordTable.FilteredDataPermutes | components/Table.jsx:20-40 | the sorted rows are a permutation of the filtered rows |
| RecordTable.FilteredDataByName | components/Table.jsx:29-33 | sorting by name orders the rows by the collation of their names, rising for 'asc' and falling otherwise; with two or more rows every name is a string |
| RecordTable.FilteredDataByCreated | components/Table.jsx:34-38 | sorting by creation orders the rows by their creation instants, rising for 'asc' and falling otherwise |
| RecordTable.FilteredDataUnsorted | components/Table.jsx:25-39 | any other sort field leaves the filtered rows in their order |
| RecordTable.NextSortOrder | components/Table.jsx:43-53 | the new order is on the clicked field; a new field starts 'asc'; the same field flips its direction |
| RecordTable.NextSortOrderTwice | components/Table.jsx:43-53 | clicking the sorted column twice restores its direction |
| RecordTable.NextSortOrderNewFieldTwice | components/Table.jsx:43-53 | clicking a new column twice leaves it 'desc' |
| RecordTable.ClassOptionsSpec | components/Table.jsx:92 | the class options hold each record's class exactly once, in order of first occurrence |
| RecordTable.LoadingShowsMessage | components/Table.jsx:75-77 | while loading the table shows only the loading message, and shows it whatever the form type, filter and sort when no list has arrived |
| RecordTable.ClassAndTeacherTablesUnsorted | components/Table.jsx:147-194 | the class and teacher tables show the list as given, whatever the filter and sort, once loading is over; a list that renders has no undefined or null entry |
| RecordTable.NullishEntryBreaksTable | components/Table.jsx:161-194 | an undefined or null entry makes the class and teacher tables' render throw once loading is over, since its `_id` is read |
| RecordTable.NullClassEntryThrows | components/Table.jsx:161-162 | a class list `[null]` does not render |
| RecordTable.StudentTableShowsFilteredData | components/Table.jsx:126 | once loading is over the student table shows exactly the filtered and sorted rows |
| RecordTable.NameSortBreaksClassTable | components/Table.jsx:20-40 | a name sort left over from the student table makes the class table's render throw for two class records, while loading too |
| RecordTable.TableState.HandleSort | components/Table.jsx:43-53 | the sort order becomes `NextSortOrder` of the old one; nothing else changes |
| RecordTable.TableState.SetFilterClass | components/Table.jsx:14-24 | the filter class is set; nothing else changes |
| RecordTable.TableState.OpenDeleteModal | components/Table.jsx:55-58 | remembers the id and opens the dialog |
| RecordTable.TableState.ConfirmDelete | components/Table.jsx:61-64 | hands the remembered id to the delete handler exactly once and closes the dialog |
| RecordTable.TableState.CancelDelete | components/Table.jsx:67-70 | deletes nothing, forgets the id and closes the dialog |
| RecordTable.DeleteDialogScenario | components/Table.jsx:55-70 | confirming deletes the chosen record; cancelling deletes nothing and leaves no id |
| RecordTable.SortToggleScenario | components/Table.jsx:43-53 | name, name, created gives asc, desc, then asc on created |
| ClassAnalytics.CapitalGenderCounts | pages/ClassAnalytics.jsx:61-71 | a stored gender without surrounding white space counts as its lower-case form |
| ClassAnalytics.PaddedGenderCounts | pages/ClassAnalytics.jsx:61-71 | a space on each side of the gender does not change how it counts |
| ClassAnalytics.EmptyGenderUncounted | pages/ClassAnalytics.jsx:61-71 | an empty gender counts as neither male nor female |
| ClassAnalytics.GenderCountsBounded | pages/ClassAnalytics.jsx:61-71 | male plus female never exceeds the number of students |
| ClassAnalytics.CountGenderMeaning | pages/ClassAnalytics.jsx:61-71 | a gender's count is the number of students of that gender, each counted as often as listed |
| ClassAnalytics.InClassSpec | pages/ClassAnalytics.jsx:74-83 | the students of a class are exactly the listed students of that class, and a sub-multiset of all |
| ClassAnalytics.ClassCountBounded | pages/ClassAnalytics.jsx:74-83 | one class never has more students of a gender than all classes together |
| ClassAnalytics.FindClassFirst | pages/ClassAnalytics.jsx:97-103 | `find` returns the first class with the name, and nothing exactly when there is none |
| ClassAnalytics.GetClassDetailsSpec | pages/ClassAnalytics.jsx:97-103 | the details are the teacher and year of the first class with that name, or 'N/A' for both when there is none |
| ClassAnalytics.UniqueClassesSpec | pages/ClassAnalytics.jsx:129 | one button per class present among the students, none repeated, in order of first occurrence |
| ClassAnalytics.Panel.CalculateGenderCounts | pages/ClassAnalytics.jsx:61-71 | the counts become the male and female counts of the list, together at most its length |
| ClassAnalytics.Panel.Load | pages/ClassAnalytics.jsx:30-58 | an array of students replaces the students, lists them all and counts them; anything else leaves the panel as it was; the counts stay those of the listed students |
| ClassAnalytics.Panel.HandleClassFilter | pages/ClassAnalytics.jsx:74-83 | lists exactly the students of the chosen class and counts them; the counts stay within the all-class counts |
| ClassAnalytics.Panel.HandleAllClassesFilter | pages/ClassAnalytics.jsx:86-90 | lists every student again and counts them all |
| ClassAnalytics.FilterScenario | pages/ClassAnalytics.jsx:61-90 | two 7A students and one 7B student: choosing 7B counts one female, choosing all classes counts one male and two female |
| TeacherAnalytics.TotalSalariesAppend | pages/TeacherAnalytics.jsx:34 | the salary total of two lists is the sum of their totals |
| TeacherAnalytics.TotalFeesAppend | pages/TeacherAnalytics.jsx:35 | the fee total of two lists is the sum of their totals |
| TeacherAnalytics.ProfitMeaning | pages/TeacherAnalytics.jsx:56-57 | profit exactly when the fees cover the salaries; the difference is what the fees exceed or fall short of the salaries by |
| TeacherAnalytics.SalaryBarsByMode | pages/TeacherAnalytics.jsx:64-66 | monthly bars are the salaries; yearly bars are twelve times them, and add up to twelve times the salary total |
| TeacherAnalytics.FeeBarsModeIndependent | pages/TeacherAnalytics.jsx:87-89 | the fee bars are each class's fees in both views, and add up to the fee total |
| TeacherAnalytics.SalaryBarLabel | pages/TeacherAnalytics.jsx:74-77 | the text over a salary bar is that teacher's name, and `''` past the list |
| TeacherAnalytics.FeesLabelReadsBack | pages/TeacherAnalytics.jsx:125-132 | the text over the fee bar is "Fees: ₹" followed by a number that reads back as the fee total |
| TeacherAnalytics.SalariesLabelReadsBack | pages/TeacherAnalytics.jsx:125-132 | the text over the salary bar is "Salaries: ₹" followed by the salary total, a newline and the status line |
| TeacherAnalytics.StatusLineReadsBack | pages/TeacherAnalytics.jsx:125-132 | the status line says "Profit: ₹" exactly when the fees cover the salaries, and "Loss: ₹" otherwise, followed by the size of the difference |
| TeacherAnalytics.LossLabelExample | pages/TeacherAnalytics.jsx:125-132 | fees 5 against salaries 7 labels "Fees: ₹5" and "Salaries: ₹7", then "Loss: ₹2" |
| TeacherAnalytics.NextViewMode | pages/TeacherAnalytics.jsx:52-54 | the toggle gives 'yearly' exactly from 'monthly', and 'monthly' otherwise |
| TeacherAnalytics.NextViewModeTwice | pages/TeacherAnalytics.jsx:52-54 | toggling twice restores a monthly or yearly view |
| TeacherAnalytics.Panel.Load | pages/TeacherAnalytics.jsx:19-42 | a fetch stores the teachers and classes with their totals; a failed fetch changes nothing; the view stays |
| TeacherAnalytics.Panel.HandleToggle | pages/TeacherAnalytics.jsx:52-54 | the view toggles; the data and totals stay |
| TeacherAnalytics.ToggleScenario | pages/TeacherAnalytics.jsx:52-66 | salaries of 100 and 200 show as 1200 and 2400 yearly, and as 100 and 200 again after a second toggle |

## Left out

- Network I/O: requests are returned as values and answers passed in. Re-fetching the list after a successful submit or a delete (`fetchData`) is not modelled, nor is the response of the DELETE request.
- These effects are I/O and are not modelled:
  - fetching the record list when the form type changes;
  - fetching the class and teacher lists on mount.
- The effect that re-fetches the edited record does replace the draft with the backend's copy once `editingItemId` is set. It is not modelled, because the backend's answer is unknown. `HandleEdit` stops at the draft `handleEdit` itself builds.
- React scheduling is not modelled:
  - state updates are applied at once;
  - the analytics panels' loading flags and error messages are not modelled;
  - the teacher panel's re-fetch when the view mode changes is not modelled.
- `components/Form.jsx` is not part of this model. Neither is the presentation: the JSX layout, icons and chart options other than the bars and labels above.
- Date formatting (`toLocaleDateString`) is not modelled. `localeCompare` is an abstract collation, `new Date(...)` an abstract integer instant, and invalid dates (NaN comparisons) are not modelled.
- JavaScript numbers are integers. A `reduce` over string salaries or fees, which would concatenate, is not modelled: the analytics records carry integer amounts.
- TeacherAnalytics.Panel.Load: a response that is not an array is not modelled. The fetched teachers and classes are typed lists.
- The class analytics panel's responses are typed student and class records. A non-array student response is modelled only as "the panel is left as it was".
- Object identity: records are compared structurally, not by reference.
- `toLowerCase` folds ASCII letters only.
- These dashboard handlers are not modelled:
  - the component switch and the two analytics close handlers, which only set `activeComponent`;
  - the icon click, which only sets `formType` (the list is then fetched by the form-type effect);
  - the class and teacher icon handlers, which switch the component and fetch the class or teacher list.
- RecordTable.FilteredData: the sort's exception is over-approximated. When a comparison reads a bad row, the whole render is taken to throw, for any two or more rows. The real engine might compare fewer pairs.
- Choosing a form type does not clear the draft, the errors or the edited id. Create after an edit keeps the edited id, so the form then updates that record. The model does the same (`HandleFormTypeChange`, `HandleCreate`).
- String length and indexing count Dafny characters, not UTF-16 code units. A character outside the Basic Multilingual Plane is one element here and two in JavaScript. This affects JsValues.Spread (one index property, not two) and Records.SliceTen (`slice(0, 10)` keeps ten characters, not ten code units).
- Collections.SortBy: stability (JavaScript's `sort` keeps tied elements in their order) is neither stated nor proved. Only sortedness and permutation are.
