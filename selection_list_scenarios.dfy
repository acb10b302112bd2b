/** The test cases of the selection list, each replayed on the model: a
    method builds the test's fixture, performs the test's steps and returns
    what the test observes; its postcondition is the test's expectation.
    The last two methods state two of the tested facts for any list. */
module SelectionListScenarios {
  import opened Optional
  import opened SelectionList

  /** The fixture `SelectionListWithListOptions`: four options, the first one
      disabled, none selected. */
  method WithListOptions() returns (list: MatSelectionList)
    ensures list.Valid() && fresh(list)
    ensures |list.options| == 4 && forall i :: 0 <= i < 4 ==> fresh(list.options[i])
    ensures list.options[0].disabled
    ensures !list.options[1].disabled && !list.options[2].disabled && !list.options[3].disabled
    ensures forall o :: o in list.options ==> !o.selected
    ensures list.selectedOptions == {} && !list.disabled
    ensures list.activeItemIndex == NO_ACTIVE_ITEM && list.selectionChanges == []
  {
    list := new MatSelectionList();
    var inbox := list.AddOption(false, true);
    var starred := list.AddOption(false, false);
    var sentMail := list.AddOption(false, false);
    var drafts := list.AddOption(false, false);
  }

  /** "should be able to dispatch one selected item" */
  method DispatchOneSelectedItem() returns (before: nat, after: nat, selected: bool, optionDisabled: bool)
    ensures before == 0 && after == 1 && selected && !optionDisabled
  {
    var list := WithListOptions();
    before := |list.selectedOptions|;
    list.Toggle(2);
    after := |list.selectedOptions|;
    selected := list.options[2].selected;
    optionDisabled := list.IsDisabled(list.options[2]);
  }

  /** "should be able to dispatch multiple selected items" */
  method DispatchMultipleSelectedItems() returns (before: nat, after: nat, bothSelected: bool)
    ensures before == 0 && after == 2 && bothSelected
  {
    var list := WithListOptions();
    before := |list.selectedOptions|;
    list.Toggle(2);
    list.Toggle(1);
    assert list.selectedOptions == {list.options[2], list.options[1]};
    after := |list.selectedOptions|;
    bothSelected := list.options[1].selected && list.options[2].selected;
  }

  /** "should be able to deselect an option" */
  method DeselectAnOption() returns (counts: seq<nat>)
    ensures counts == [0, 1, 0]
  {
    var list := WithListOptions();
    counts := [|list.selectedOptions|];
    list.Toggle(2);
    counts := counts + [|list.selectedOptions|];
    list.Toggle(2);
    counts := counts + [|list.selectedOptions|];
  }

  /** "should not allow selection of disabled items" */
  method DisabledItemsAreNotSelectable() returns (before: nat, after: nat)
    ensures before == 0 && after == 0
  {
    var list := WithListOptions();
    before := |list.selectedOptions|;
    list.HandleClick(0);
    after := |list.selectedOptions|;
  }

  /** "should be able to un-disable disabled items" */
  method UnDisableDisabledItems() returns (before: bool, after: bool)
    ensures before && !after
  {
    var list := WithListOptions();
    before := list.IsDisabled(list.options[0]);
    list.SetOptionDisabled(0, false);
    after := list.IsDisabled(list.options[0]);
  }

  /** "should be able to use keyboard select with SPACE" */
  method KeyboardSelectWithSpace() returns (before: nat, after: nat)
    ensures before == 0 && after == 1
  {
    var list := WithListOptions();
    before := |list.selectedOptions|;
    list.HandleFocus(1);
    list.Keydown(SPACE);
    after := |list.selectedOptions|;
  }

  /** "should restore focus if active option is destroyed" */
  method RestoreFocusWhenActiveOptionIsDestroyed() returns (focused: int, afterRemoval: int)
    ensures focused == 3 && afterRemoval == 2
  {
    var list := WithListOptions();
    list.HandleFocus(3);
    focused := list.activeItemIndex;
    list.RemoveOption(3);
    afterRemoval := list.activeItemIndex;
  }

  /** "should focus previous item when press UP ARROW" */
  method UpArrowFocusesPreviousItem() returns (before: int, after: int)
    ensures before == 2 && after == 1
  {
    var list := WithListOptions();
    list.HandleFocus(2);
    before := list.activeItemIndex;
    list.Keydown(UP_ARROW);
    assert list.IsNextEnabled(2, -1, 1);
    after := list.activeItemIndex;
  }

  /** "should focus next item when press DOWN ARROW" */
  method DownArrowFocusesNextItem() returns (before: int, after: int)
    ensures before == 2 && after == 3
  {
    var list := WithListOptions();
    list.HandleFocus(2);
    before := list.activeItemIndex;
    list.Keydown(DOWN_ARROW);
    assert list.IsNextEnabled(2, 1, 3);
    after := list.activeItemIndex;
  }

  /** "should be able to select all options", the disabled first one included */
  method SelectAllOptions() returns (allBefore: bool, allAfter: bool, disabledSelected: bool)
    ensures !allBefore && allAfter && disabledSelected
  {
    var list := WithListOptions();
    allBefore := list.AllSelected();
    list.SelectAll();
    allAfter := list.AllSelected();
    disabledSelected := list.options[0].disabled && list.options[0].selected;
  }

  /** "should be able to deselect all options": every option is toggled one by
      one (the disabled one too), then `deselectAll()` */
  method DeselectAllOptions() returns (allAfterToggling: bool, anyAfterDeselect: bool)
    ensures allAfterToggling && !anyAfterDeselect
  {
    var list := WithListOptions();
    ghost var initial := list.options;
    for k := 0 to |list.options|
      invariant list.Valid() && list.options == initial
      invariant forall j :: 0 <= j < k ==> list.options[j].selected
      invariant forall j :: k <= j < |list.options| ==> !list.options[j].selected
    {
      list.Toggle(k);
    }
    allAfterToggling := list.AllSelected();
    list.DeselectAll();
    anyAfterDeselect := list.selectedOptions != {};
  }

  /** "should update the list value when an item is selected programmatically",
      the disabled first one included */
  method SelectProgrammatically() returns (emptyBefore: bool, emptyAfter: bool, first: bool, third: bool)
    ensures emptyBefore && !emptyAfter && first && third
  {
    var list := WithListOptions();
    emptyBefore := list.selectedOptions == {};
    list.SetSelected(0, true);
    list.SetSelected(2, true);
    emptyAfter := list.selectedOptions == {};
    first := list.options[0] in list.selectedOptions;
    third := list.options[2] in list.selectedOptions;
  }

  /** "should set its initial selected state in the selectedOptions" */
  method InitialSelectedState() returns (isSelected: bool)
    ensures isSelected
  {
    var list := new MatSelectionList();
    var item := list.AddOption(true, false);
    isSelected := item in list.selectedOptions;
  }

  /** "should properly handle native tabindex attribute": the attribute's
      value `5` reaches the list as a bound tab index. */
  method NativeTabindexAttribute() returns (tabIndex: int)
    ensures tabIndex == 5
  {
    var list := new MatSelectionList();
    list.SetTabIndex(Some(5));
    tabIndex := list.TabIndex();
  }

  /** "should support changing the tabIndex through binding" */
  method TabIndexThroughBinding() returns (initial: int, bound: int, whenDisabled: int)
    ensures initial == 0 && bound == 3 && whenDisabled == -1
  {
    var list := new MatSelectionList();
    list.SetTabIndex(None);
    list.SetDisabled(false);
    initial := list.TabIndex();
    list.SetTabIndex(Some(3));
    bound := list.TabIndex();
    list.SetDisabled(true);
    whenDisabled := list.TabIndex();
  }

  /** "should not allow selection on disabled selection-list" */
  method DisabledListIsNotSelectable() returns (before: nat, after: nat)
    ensures before == 0 && after == 0
  {
    var list := new MatSelectionList();
    list.SetDisabled(true);
    var inbox := list.AddOption(false, false);
    var starred := list.AddOption(false, false);
    var sentMail := list.AddOption(false, false);
    var drafts := list.AddOption(false, false);
    before := |list.selectedOptions|;
    list.HandleClick(2);
    after := |list.selectedOptions|;
  }

  /** "should trigger the selected and deselected events when clicked in succession." */
  method SelectionChangeOnSuccessiveClicks() returns (calls1: nat, selected1: bool, calls2: nat, selected2: bool)
    ensures calls1 == 1 && selected1 && calls2 == 2 && !selected2
  {
    var list := new MatSelectionList();
    var inbox := list.AddOption(false, false);
    list.HandleClick(0);
    calls1 := |list.selectionChanges|;
    selected1 := list.selectionChanges[calls1 - 1].selected;
    list.HandleClick(0);
    calls2 := |list.selectionChanges|;
    selected2 := list.selectionChanges[calls2 - 1].selected;
  }

  /** Toggling an option twice restores both its flag and the selection model. */
  method ToggleTwiceRestores(list: MatSelectionList, i: nat)
    requires list.Valid() && i < |list.options|
    modifies list, list.options[i]
    ensures list.Valid() && list.options == old(list.options)
    ensures list.selectedOptions == old(list.selectedOptions)
    ensures list.options[i].selected == old(list.options[i].selected)
  {
    list.Toggle(i);
    list.Toggle(i);
  }

  /** Toggling two distinct unselected options adds exactly those two. */
  method ToggleTwoDistinctOptions(list: MatSelectionList, i: nat, j: nat)
    requires list.Valid() && i < |list.options| && j < |list.options| && i != j
    requires !list.options[i].selected && !list.options[j].selected
    modifies list, list.options[i], list.options[j]
    ensures list.Valid() && list.options == old(list.options)
    ensures list.selectedOptions == old(list.selectedOptions) + {list.options[i], list.options[j]}
    ensures |list.selectedOptions| == |old(list.selectedOptions)| + 2
  {
    list.Toggle(i);
    list.Toggle(j);
  }
}
