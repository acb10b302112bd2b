# Selection list, expansion panel and grid-list coercions, in Dafny

This project models three small pieces of a web component library and proves
properties of them.

- **Selection list** (`selection_list.dfy`). `<mat-selection-list>` and its
  `<mat-list-option>` children are modelled as a state machine with these parts:
  - the ordered options, each an object with `selected` and `disabled` flags;
  - the list's own `disabled` flag and its `tabIndex`;
  - the selection model `selectedOptions`;
  - the key manager's `activeItemIndex`, where -1 means no active item;
  - the `selectionChange` events emitted so far.

  `MatSelectionList.Valid()` is the invariant every operation keeps:
  - each option appears once;
  - `selectedOptions` is exactly the set of options whose flag is set;
  - the active index is an option's index or -1.

  Every method says what it changes and that the rest stays as it was.
  The implementation of the list is not part of this model. What the model does
  comes from the component's test suite, `src/lib/list/selection-list.spec.ts`.
  `selection_list_scenarios.dfy` replays each of those tests on the model: a
  method builds the test's fixture, performs its steps, and returns what the
  test observes. Its postcondition is the test's expectation.
- **Expansion panel** (`expansion_panel.dfy`). `MatExpansionPanel` defines:
  - `_getHideToggle`, `_hasSpacing` and `_getExpandedState`;
  - the `hideToggle` input, stored in `_hideToggle` and false by default.

  The main proved fact is that a collapsed panel never has spacing. For a
  collapsed panel, `_hasSpacing` compares the state name `'collapsed'` with
  `'default'`, and the two strings differ.
- **Grid-list coercions** (`grid_list_measure.dfy`). `coerceToString` and
  `coerceToNumber` are modelled over integers and strings. JavaScript's
  `parseInt(s, 10)` is a prefix parser. It skips leading white space, reads an
  optional sign, then reads the longest run of decimal digits. Its result is an
  `Option<int>`, where `None` stands for `NaN`. Several lemmas connect it to
  decimal rendering:
  - the characterisation of `parseInt`;
  - the round trip `coerceToNumber(coerceToString(n)) == n` for non-zero `n`;
  - the failure of that round trip at zero.

Behaviour the model fixes where the tests are silent:
- `toggle()`, the `selected` setter, `selectAll()` and `deselectAll()` work on
  disabled options too: option 0 of the fixture is
  disabled (`:567`) and `selectAll()` still makes every option selected
  (`:207-216`). The model follows the tests.
- A click, and SPACE on the active option, do nothing when the option or the
  list is disabled. Otherwise they toggle the option and emit one
  `selectionChange` carrying the new state. Programmatic changes emit nothing.
- UP and DOWN: the list's key manager and its wrap setting are not shown, so
  the model assumes the key manager's default mode. The active item moves to
  the nearest enabled option in that direction, with no wrapping. When there is
  none, it stays. The tests only exercise moves between enabled neighbours;
  the skipping of disabled options and the absence of wrapping are this
  assumption, not something the tests establish.
- When the active option is removed, the option before it becomes active. If it
  was the first option, the next one becomes active. If it was the only one,
  there is no active item. An active option after the removed one keeps pointing
  at the same option. The removed option also leaves `selectedOptions`.

## Model

| member | source | states |
|---|---|---|
| `GridListMeasure.CoerceToString` | src/lib/grid-list/grid-list-measure.ts:9-15 | the result is empty exactly for the falsy inputs `0` and `''`; a string comes back unchanged; a non-zero number becomes its decimal rendering |
| `GridListMeasure.CoerceToNumber` | src/lib/grid-list/grid-list-measure.ts:17-23 | a number comes back unchanged |
| `GridListMeasure.CoerceToStringIdempotent` | src/lib/grid-list/grid-list-measure.ts:14 | converting the result of `coerceToString` again changes nothing |
| `GridListMeasure.IntToDecimal` | src/lib/grid-list/grid-list-measure.ts:14 | the rendering of an integer starts with `-` exactly when it is negative, followed by the digits of its magnitude |
| `GridListMeasure.NatToDecimal` | src/lib/grid-list/grid-list-measure.ts:14 | the rendering of a natural number is a non-empty string of digits with no leading zero |
| `GridListMeasure.DigitsValueOfNatToDecimal` | src/lib/grid-list/grid-list-measure.ts:14 | reading back the digits of a natural number gives that number |
| `GridListMeasure.TrimStart` | src/lib/grid-list/grid-list-measure.ts:22 | `parseInt`'s white-space skipping returns a string no longer than the input that does not start with white space |
| `GridListMeasure.TrimStartRemovesWhiteSpacePrefix` | src/lib/grid-list/grid-list-measure.ts:22 | the result of the white-space skipping is a suffix of the input, and what it removed is all white space |
| `GridListMeasure.TrimStartSkipsWhiteSpace` | src/lib/grid-list/grid-list-measure.ts:22 | all leading white space is skipped, and nothing after it |
| `GridListMeasure.DigitPrefix` | src/lib/grid-list/grid-list-measure.ts:22 | the digits `parseInt` reads are a prefix of digits, and the next character (if any) is not a digit |
| `GridListMeasure.DigitPrefixStops` | src/lib/grid-list/grid-list-measure.ts:22 | the digit run ends exactly where the first non-digit begins |
| `GridListMeasure.ParseSignedOfNumeral` | src/lib/grid-list/grid-list-measure.ts:22 | after the white space, an optional sign and a run of digits parse to the signed value of the digits |
| `GridListMeasure.ParseIntOfNumeral` | src/lib/grid-list/grid-list-measure.ts:22 | `parseInt(ws + sign + digits + rest, 10)` is the signed value of `digits` whenever `rest` does not start with a digit |
| `GridListMeasure.IsJsWhiteSpace` | src/lib/grid-list/grid-list-measure.ts:22 | the white space `parseInt` skips never includes a digit or a sign, so skipping it never consumes part of the number |
| `GridListMeasure.ParseSigned` | src/lib/grid-list/grid-list-measure.ts:22 | after an optional sign, a number is read exactly when a digit follows; its value is non-negative without a `-` and non-positive with one |
| `GridListMeasure.ParseInt` | src/lib/grid-list/grid-list-measure.ts:22 | `parseInt(s, 10)` is a number (not `NaN`) exactly when a digit follows the leading white space and optional sign; a negative result needs a `-` there |
| `GridListMeasure.ParseIntWithoutDigits` | src/lib/grid-list/grid-list-measure.ts:22 | without a digit after the white space and sign, `parseInt` gives `NaN` |
| `GridListMeasure.ParseIntOfDigits` | src/lib/grid-list/grid-list-measure.ts:22 | a bare run of digits parses to its value |
| `GridListMeasure.ParseIntOfNegatedDigits` | src/lib/grid-list/grid-list-measure.ts:22 | a minus sign followed by a run of digits parses to the negated value |
| `GridListMeasure.ParseIntOfNatToDecimal` | src/lib/grid-list/grid-list-measure.ts:14-22 | `parseInt` reads back the rendering of every natural number |
| `GridListMeasure.ParseIntOfNegatedNatToDecimal` | src/lib/grid-list/grid-list-measure.ts:14-22 | `parseInt` reads back a minus sign followed by the rendering of a natural number as its negation |
| `GridListMeasure.ParseIntOfIntToDecimal` | src/lib/grid-list/grid-list-measure.ts:14-22 | `parseInt` reads back the decimal rendering of every integer |
| `GridListMeasure.CoerceRoundTrip` | src/lib/grid-list/grid-list-measure.ts:9-23 | `coerceToNumber(coerceToString(n)) == n` for every non-zero integer `n` |
| `GridListMeasure.ZeroDoesNotRoundTrip` | src/lib/grid-list/grid-list-measure.ts:9-23 | `0` becomes `''`, and `''` becomes `NaN` |
| `ExpansionPanel.MatExpansionPanel.constructor` | src/lib/expansion/expansion-panel.ts:104-117 | a new panel keeps the given accordion, stores `hideToggle` as false, is collapsed, and has no spacing; without an accordion, its toggle is shown |
| `ExpansionPanel.MatExpansionPanel.SetHideToggle` | src/lib/expansion/expansion-panel.ts:96-104 | the setter stores the value; `_getHideToggle` then returns that value without an accordion and is unchanged with one; spacing and `expanded` are unchanged |
| `ExpansionPanel.MatExpansionPanel.SetExpanded` | src/lib/expansion/expansion-panel.ts:75 | the `expanded` input sets the state that `_getExpandedState` reports and leaves the toggle decision alone |
| `ExpansionPanel.MatExpansionPanel.HideToggle` | src/lib/expansion/expansion-panel.ts:97-99 | the `hideToggle` getter returns the stored `_hideToggle` |
| `ExpansionPanel.MatExpansionPanel.GetHideToggle` | src/lib/expansion/expansion-panel.ts:120-125 | `_getHideToggle` is the accordion's `hideToggle` when the panel has an accordion, and the panel's own `hideToggle` otherwise |
| `ExpansionPanel.MatExpansionPanel.HasSpacing` | src/lib/expansion/expansion-panel.ts:127-133 | a panel has spacing exactly when it is in an accordion, expanded, and the accordion's display mode is `'default'` |
| `ExpansionPanel.MatExpansionPanel.GetExpandedState` | src/lib/expansion/expansion-panel.ts:135-138 | the state is `'expanded'` exactly when `expanded` is true, and `'collapsed'` otherwise |
| `ExpansionPanel.DisplayMode.Name` | src/lib/expansion/expansion-panel.ts:130 | the display mode's name is `'default'` exactly for the default mode |
| `ExpansionPanel.PanelState.Name` | src/lib/expansion/expansion-panel.ts:56 | the state names are `'expanded'` and `'collapsed'`, one for each state |
| `ExpansionPanel.AccordionDecidesHideToggle` | src/lib/expansion/expansion-panel.ts:120-123 | in an accordion, `_getHideToggle` is the accordion's `hideToggle`, so two panels of one accordion agree whatever their own values |
| `ExpansionPanel.OwnHideToggleWithoutAccordion` | src/lib/expansion/expansion-panel.ts:120-124 | without an accordion, `_getHideToggle` is the panel's own `hideToggle` |
| `ExpansionPanel.NoSpacingWithoutAccordion` | src/lib/expansion/expansion-panel.ts:128-132 | a panel outside an accordion never has spacing |
| `ExpansionPanel.ExpandedSpacingFollowsDisplayMode` | src/lib/expansion/expansion-panel.ts:130 | an expanded panel in an accordion has spacing exactly when the display mode is `'default'` |
| `ExpansionPanel.CollapsedNeverSpaced` | src/lib/expansion/expansion-panel.ts:130-138 | a collapsed panel never has spacing, because `'collapsed'` is not `'default'` |
| `SelectionList.MatListOption.constructor` | src/lib/list/selection-list.spec.ts:565-580 | an option is created with the given `selected` and `disabled` inputs |
| `SelectionList.MatSelectionList.TabIndex` | src/lib/list/selection-list.spec.ts:299-312 | the tab index reads -1 while the list is disabled, and the bound (or default) value otherwise |
| `SelectionList.MatSelectionList.IsDisabled` | src/lib/list/selection-list.spec.ts:121-143 | a disabled list disables every option; in an enabled list an option is disabled exactly when its own `disabled` is set |
| `SelectionList.MatSelectionList.constructor` | src/lib/list/selection-list.spec.ts:295-300 | a new list is valid, empty and enabled, has tab index 0, no active item and no events |
| `SelectionList.MatSelectionList.AddOption` | src/lib/list/selection-list.spec.ts:266-270 | a projected option is appended; if it was created selected, it is in `selectedOptions` |
| `SelectionList.MatSelectionList.Toggle` | src/lib/list/selection-list.spec.ts:64-78 | `toggle()` flips the flag and adds or removes exactly that option from `selectedOptions`, disabled or not; nothing else changes and no event is emitted |
| `SelectionList.MatSelectionList.SetSelected` | src/lib/list/selection-list.spec.ts:230-242 | `selected = b` sets the flag and puts the option in or takes it out of `selectedOptions`, also when disabled; nothing else changes |
| `SelectionList.MatSelectionList.HandleClick` | src/lib/list/selection-list.spec.ts:121-133 | a click on a disabled option, or in a disabled list, changes nothing; otherwise the option toggles and exactly one event with the new state is emitted |
| `SelectionList.MatSelectionList.HandleFocus` | src/lib/list/selection-list.spec.ts:162-167 | focusing an option makes its index the active one; nothing else changes |
| `SelectionList.MatSelectionList.SetActiveItemByDelta` | src/lib/list/selection-list.spec.ts:175-205 | the active item moves to the nearest enabled option in the given direction, or stays when there is none |
| `SelectionList.MatSelectionList.Keydown` | src/lib/list/selection-list.spec.ts:146-205 | SPACE acts like a click on the active option; UP and DOWN move the active item as above and change no selection; other keys change nothing |
| `SelectionList.MatSelectionList.SelectAll` | src/lib/list/selection-list.spec.ts:207-216 | afterwards every option is selected, disabled ones included, and `selectedOptions` holds all of them; flags and events are unchanged |
| `SelectionList.MatSelectionList.DeselectAll` | src/lib/list/selection-list.spec.ts:218-228 | afterwards no option is selected and `selectedOptions` is empty |
| `SelectionList.MatSelectionList.SetOptionDisabled` | src/lib/list/selection-list.spec.ts:135-144 | an option's `disabled` input sets its flag; it then counts as disabled exactly when it or the list is |
| `SelectionList.MatSelectionList.SetDisabled` | src/lib/list/selection-list.spec.ts:308-312 | the list's `disabled` input makes every option count as disabled and the tab index read -1 |
| `SelectionList.MatSelectionList.SetTabIndex` | src/lib/list/selection-list.spec.ts:295-306 | the bound tab index is stored, an unbound value stands for 0, and the getter reads -1 while the list is disabled |
| `SelectionList.MatSelectionList.RemoveOption` | src/lib/list/selection-list.spec.ts:162-173 | the option leaves the list and `selectedOptions`; a removed active option hands the active index to the option before it |
| `SelectionListScenarios.WithListOptions` | src/lib/list/selection-list.spec.ts:565-583 | the fixture: four options, the first disabled, none selected |
| `SelectionListScenarios.DispatchOneSelectedItem` | src/lib/list/selection-list.spec.ts:64-78 | toggling option 2 takes the selection from 0 to 1 item; the option is selected and enabled |
| `SelectionListScenarios.DispatchMultipleSelectedItems` | src/lib/list/selection-list.spec.ts:80-101 | toggling options 2 and 1 gives a selection of 2 containing both |
| `SelectionListScenarios.DeselectAnOption` | src/lib/list/selection-list.spec.ts:103-119 | toggling option 2 twice takes the selection size through 0, 1, 0 |
| `SelectionListScenarios.DisabledItemsAreNotSelectable` | src/lib/list/selection-list.spec.ts:121-133 | a click on the disabled option 0 leaves the selection empty |
| `SelectionListScenarios.UnDisableDisabledItems` | src/lib/list/selection-list.spec.ts:135-144 | option 0 is disabled before and enabled after `disabled = false` |
| `SelectionListScenarios.KeyboardSelectWithSpace` | src/lib/list/selection-list.spec.ts:146-160 | focusing option 1 and pressing SPACE takes the selection from 0 to 1 item |
| `SelectionListScenarios.RestoreFocusWhenActiveOptionIsDestroyed` | src/lib/list/selection-list.spec.ts:162-173 | with option 3 active, removing it makes option 2 active |
| `SelectionListScenarios.UpArrowFocusesPreviousItem` | src/lib/list/selection-list.spec.ts:175-189 | from active index 2, UP gives 1 |
| `SelectionListScenarios.DownArrowFocusesNextItem` | src/lib/list/selection-list.spec.ts:191-205 | from active index 2, DOWN gives 3 |
| `SelectionListScenarios.SelectAllOptions` | src/lib/list/selection-list.spec.ts:207-216 | not all options are selected before `selectAll()`, all are after, and the disabled option 0 is among them |
| `SelectionListScenarios.DeselectAllOptions` | src/lib/list/selection-list.spec.ts:218-228 | toggling each option selects them all, the disabled one too; `deselectAll()` then leaves none selected |
| `SelectionListScenarios.SelectProgrammatically` | src/lib/list/selection-list.spec.ts:230-242 | setting `selected` on options 0 (disabled) and 2 makes the empty selection non-empty and holds both |
| `SelectionListScenarios.InitialSelectedState` | src/lib/list/selection-list.spec.ts:266-270 | an option created with `[selected]="true"` is in `selectedOptions` |
| `SelectionListScenarios.NativeTabindexAttribute` | src/lib/list/selection-list.spec.ts:287-293 | a list given the tab index 5 reads back 5 |
| `SelectionListScenarios.TabIndexThroughBinding` | src/lib/list/selection-list.spec.ts:295-313 | the tab index is 0 when unbound, 3 once bound to 3, and -1 once the list is disabled |
| `SelectionListScenarios.DisabledListIsNotSelectable` | src/lib/list/selection-list.spec.ts:436-447 | in a disabled list, a click on option 2 leaves the selection empty |
| `SelectionListScenarios.SelectionChangeOnSuccessiveClicks` | src/lib/list/selection-list.spec.ts:543-559 | the first click emits one event with `selected` true; the second click brings the count to two, the last one with `selected` false |
| `SelectionListScenarios.ToggleTwiceRestores` | src/lib/list/selection-list.spec.ts:103-119 | for any list and option, two toggles restore the option's flag and `selectedOptions` |
| `SelectionListScenarios.ToggleTwoDistinctOptions` | src/lib/list/selection-list.spec.ts:80-101 | for any list, toggling two distinct unselected options adds exactly those two, so the selection grows by 2 |

## Left out

- `src/cdk/a11y/live-announcer.ts` is not part of this model. It creates DOM elements, writes attributes, and makes a delayed `setTimeout` write. That is I/O and timing.
- `src/lib/stepper/step-header.ts` is not part of this model. It holds setters over coercion helpers that are not shown, plus focus monitoring.
- `e2e/components/slide-toggle-e2e.spec.ts` is not part of this model. It is browser automation.
- The NgModule files (`expansion-module.ts`, `select-module.ts`, `form-field-module.ts`, `radio-module.ts`) are not part of this model. They hold declaration lists only.
- Expansion panel: the animations, the `_inputChanges` subject with `ngOnChanges`/`ngOnDestroy`, and the `disabled` mixin are left out. They are side effects and framework wiring.
- Expansion panel: `expanded` is inherited from the accordion item, whose code is not shown. The model starts panels collapsed.
- Expansion panel: the accordion is a fixed value holding `hideToggle` and `displayMode`. Its own inputs are not modelled.
- `ExpansionPanel.MatExpansionPanel.SetHideToggle`: takes a boolean. `coerceBooleanProperty`, which the setter applies to attribute strings, is not shown and is not modelled.
- Selection list: the following are left out as view rendering and test machinery:
  - focus and blur CSS classes;
  - ripples;
  - checkbox position;
  - `aria-*` attributes;
  - option values of arbitrary type;
  - the TestBed and dependency-injection fixtures.
- Selection list: how the native `tabindex` attribute (`:287-293`) is read is not shown. The model starts from the attribute's value `5` as a bound tab index (`NativeTabindexAttribute`) and does not model the parsing of the attribute string.
- `SelectionList.MatSelectionList.Keydown`: handles only SPACE, UP and DOWN. Other keys the key manager acts on (such as TAB) change nothing here. How the list configures its key manager is not shown; the model assumes no wrapping, so a list that switched wrapping on would move from the last enabled option to the first (and back) where the model stays.
- Selection list: the single-selection mode of the selection model is not modelled. The selection list always allows several selected options.
- Grid-list coercions: only integer numbers are modelled. Floating point, `NaN` as an input, `-0`, and the exponent notation JavaScript uses from 1e21 up are left out. So is everything above 2^53. There JavaScript renders a number with the shortest digits that read back to the same double (`String(2**60)` is `"1152921504606847000"`), where the model prints the exact integer; `parseInt` rounds to the nearest double, and a digit run of about 309 digits or more reads as `Infinity`, where the model returns the exact value.
