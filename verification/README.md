# Change DPI dialog: preset/custom selection and submit validation

A model of the logic inside scantailor-advanced's output-filter dialog
`output::ChangeDpiDialog` (src/core/filters/output/ChangeDpiDialog.cpp). The
dialog lets the user pick a new resolution for one or more pages. It does two
things.

- **The DPI selector.** The requested DPI is the larger of the current
  horizontal and vertical DPI. The selector lists the presets 300, 400 and
  600, followed by a "Custom" item at index 3. If the requested DPI is a
  preset, that preset is selected and the selector is not editable. Otherwise
  the custom item is selected and its editable text shows the requested DPI.
  The dialog remembers the custom text in `customDpiString`. It is updated
  while the custom item is current and restored when the custom item is
  chosen again. Together these form a two-state machine, `PresetSelected` or
  `CustomEditing`; see `ChangeDpiDialog.State`.
- **The submit step.** The selector's current text is rejected in a fixed
  order: as "not set" when empty, then as "too low" below 72, then as
  "too high" above 12800. A valid DPI `d` emits one `accepted(pages, Dpi(d, d))`
  signal and closes the dialog. The pages depend on the checked scope button:
  - this page gives `{curPage}`;
  - all pages gives `selectAll()`;
  - this page and followers gives `selectPagePlusFollowers(curPage)`;
  - selected pages gives the stored selection, even when it is empty or a
    singleton;
  - no checked button gives the empty set.

Files:

- `decimal_text.dfy` (module `DecimalText`) models `QString::number` and
  `QString::toInt`. Text that is not a 32-bit decimal integer converts to 0.
- `page_sequence.dfy` (module `PageSequence`) models the two page-sequence
  queries the dialog makes.
- `change_dpi_dialog.dfy` (module `Output`) models the dialog. The class
  `ChangeDpiDialog` holds the selector state. The pure functions `ValidateDpi`,
  `ResolveScope` and `Submit` hold the submit logic.

The code has no "not a number" error. `toInt` yields 0 for such text, so
non-numeric text is reported as too low (`ValidateNonNumeric`). The same holds
for digit strings too large for an `int`, which are reported as too low
rather than too high (`ValidateOverflow`). The model follows the code here.

Each `emit accepted(...)` is the `Accepted` value returned by `OnSubmit`, and
each warning box is a `Rejected` value. The checked scope radio button is a
parameter of `OnSubmit` (`None` when no button is checked).

## Model

| member | source | states |
|---|---|---|
| `Output.RequestedDpi` | src/core/filters/output/ChangeDpiDialog.cpp:34 | the requested DPI is one of the two dimensions and at least both, i.e. their maximum |
| `Output.ChangeDpiDialog.constructor` | src/core/filters/output/ChangeDpiDialog.cpp:12-58 | builds preset items 300/400/600 in a loop, then the custom item at index 3 = number of presets. The custom string is the decimal text of max(h, v) in every case. A matching preset is selected and the selector is not editable. Otherwise index 3 is selected, the selector is editable and its text equals the custom string |
| `Output.ChangeDpiDialog.CurrentText` | src/core/filters/output/ChangeDpiDialog.cpp:85 | the text submitted is the remembered custom string when the custom item is current, and the preset's decimal text otherwise |
| `Output.ChangeDpiDialog.DpiSelectionChanged` | src/core/filters/output/ChangeDpiDialog.cpp:67-76 | editable exactly when the chosen index is the custom item. Entering the custom item restores the edit text from the remembered string, which stays unchanged. The new state is `CustomEditing(customDpiString)` or `PresetSelected(index)` |
| `Output.ChangeDpiDialog.DpiEditTextChanged` | src/core/filters/output/ChangeDpiDialog.cpp:78-82 | while the custom item is current, both the remembered custom string and the shown edit text become the new text. Otherwise nothing changes |
| `Output.ChangeDpiDialog.OnSubmit` | src/core/filters/output/ChangeDpiDialog.cpp:84-121 | the result is the submit step on the selector's current text. The dialog is accepted (closed) only on success, and nothing else changes |
| `Output.ValidateDpi` | src/core/filters/output/ChangeDpiDialog.cpp:85-100 | "not set" exactly for empty text. An accepted DPI lies in [72, 12800] and is the integer value of the text |
| `Output.ValidateNumber` | src/core/filters/output/ChangeDpiDialog.cpp:91-100 | for every int d, its decimal text gives too low when d < 72, too high when d > 12800, and is accepted as d otherwise. The checks run in that order |
| `Output.ValidateNonNumeric` | src/core/filters/output/ChangeDpiDialog.cpp:91-95 | non-empty text that is not an integer is rejected as too low, because toInt yields 0 |
| `Output.ValidateOverflow` | src/core/filters/output/ChangeDpiDialog.cpp:91-95 | a digit string beyond the int range is rejected as too low, not too high |
| `Output.ResolveScope` | src/core/filters/output/ChangeDpiDialog.cpp:102-114 | the selected-pages scope yields the stored selection verbatim. Every other scope yields pages of the document or the current page |
| `Output.ResolveScopeMembers` | src/core/filters/output/ChangeDpiDialog.cpp:102-116 | membership per scope: no button gives none; this page gives exactly curPage; all pages gives every page of the sequence; this page and followers gives the pages at or after curPage's position; selected pages gives the stored selection |
| `Output.Submit` | src/core/filters/output/ChangeDpiDialog.cpp:84-116 | accepted exactly when validation succeeds. A rejection carries the validation error and emits no pages. An accepted request has DPI (d, d), where d is the integer value of the submitted text and 72 <= d <= 12800 (isotropic even for anisotropic input), and the resolved scope's pages |
| `DecimalText.NumberToString` | src/core/filters/output/ChangeDpiDialog.cpp:35 | QString::number: digits for non-negative values, a minus sign then digits for negative ones |
| `DecimalText.ToInt` | src/core/filters/output/ChangeDpiDialog.cpp:91 | QString::toInt: the result is within the int range. A non-zero result is the text's integer value. Text that is not an integer yields 0 |
| `DecimalText.ToIntOfNumber` | src/core/filters/output/ChangeDpiDialog.cpp:91 | toInt inverts QString::number on every int |
| `DecimalText.ToIntOverflow` | src/core/filters/output/ChangeDpiDialog.cpp:91 | digit text beyond the int range converts to 0 |
| `PageSequence.SelectAll` | src/core/filters/output/ChangeDpiDialog.cpp:107 | every page id of the sequence, and nothing else, as a set |
| `PageSequence.SelectAllSize` | src/core/filters/output/ChangeDpiDialog.cpp:107 | for a sequence of distinct ids, the selection has exactly as many pages as the sequence: none is lost or merged |
| `PageSequence.SelectPagePlusFollowers` | src/core/filters/output/ChangeDpiDialog.cpp:109 | a subset of the document's pages that contains the current page exactly when the document does |
| `PageSequence.PlusFollowersFrom` | src/core/filters/output/ChangeDpiDialog.cpp:109 | for a page found at position k, the result is exactly the pages from position k on, and no earlier page is in it |
| `PageSequence.PlusFollowersMembers` | src/core/filters/output/ChangeDpiDialog.cpp:109 | a page is selected exactly when it occurs at or after the current page's position |

## Left out

- Qt widget mechanics are not modelled: `setupUi`, the button group, `connect`, `tr()` strings, the warning boxes, the highlighting of the edit text and `QComboBox`'s own behaviour. The combo box is assumed to be empty before the constructor adds its items, because the form file is not part of this model.
- The `QIntValidator` keystroke filters (lines 30, 57 and 74) are not modelled. They filter widget input, and the submit step re-checks the bounds itself.
- Disabling the selected-pages option when at most one page is selected (lines 26-28) is not modelled. It is presentation only, and the model accepts that scope with any selection.
- `PageSequence::selectAll`, `PageSequence::selectPagePlusFollowers` and `PageSelectionAccessor` are not part of this model. They are defined over a sequence of distinct page ids. A page missing from the sequence gives the empty follower set. These are assumed definitions, not the library's code.
- `DecimalText.ToInt`: leading and trailing whitespace and locale rules of `QString::toInt` are not modelled. It accepts an optional sign followed by decimal digits.
- The downstream consumer of the `accepted` signal, which changes the DPI and resamples pages, is not part of this model.
