/** `<mat-selection-list>` and its `<mat-list-option>` children as a state
    machine: the ordered options with their `selected` and `disabled` flags, the
    list's own `disabled` flag and `tabIndex`, the selection model
    (`selectedOptions`), the key manager's active item and the
    `selectionChange` events emitted so far.

    Programmatic changes (`toggle()`, `selected = b`, `selectAll()`,
    `deselectAll()`) ignore `disabled`; the user-facing handlers (a click,
    SPACE) do nothing on a disabled option or in a disabled list. */
module SelectionList {
  import opened Optional

  /** Key codes of `@angular/cdk/keycodes` that the list handles. */
  const SPACE: int := 32
  const UP_ARROW: int := 38
  const DOWN_ARROW: int := 40

  /** The tab index a list has when none is bound. */
  const DEFAULT_TAB_INDEX: int := 0

  /** The key manager's "no active item". */
  const NO_ACTIVE_ITEM: int := -1

  /** `<mat-list-option>`: the two flags the list reads and writes. */
  class MatListOption {
    var selected: bool
    /** The option's own `disabled` input; the list's is added by `MatSelectionList.IsDisabled`. */
    var disabled: bool

    constructor (selected: bool, disabled: bool)
      ensures this.selected == selected && this.disabled == disabled
    {
      this.selected := selected;
      this.disabled := disabled;
    }
  }

  /** `MatListOptionChange`: the option and its new selected state. */
  datatype MatListOptionChange = MatListOptionChange(source: MatListOption, selected: bool)

  class MatSelectionList {
    /** The projected options, in document order. */
    var options: seq<MatListOption>
    /** The selection model. */
    var selectedOptions: set<MatListOption>
    var disabled: bool
    /** `_tabIndex`, the bound value behind the `tabIndex` getter. */
    var tabIndexValue: int
    /** The key manager's `activeItemIndex`; `NO_ACTIVE_ITEM` when none. */
    var activeItemIndex: int
    /** Every `selectionChange` emitted so far, oldest first. */
    var selectionChanges: seq<MatListOptionChange>

    /** Each option appears once, the selection model holds exactly the options
        whose flag is set, and the active index is an option's or none. */
    ghost predicate Valid()
      reads this, options
    {
      && (forall i, j :: 0 <= i < j < |options| ==> options[i] != options[j])
      && selectedOptions == (set o | o in options && o.selected)
      && NO_ACTIVE_ITEM <= activeItemIndex < |options|
    }

    /** An empty, enabled list with the default tab index and no active item. */
    constructor ()
      ensures Valid()
      ensures options == [] && selectedOptions == {} && !disabled
      ensures TabIndex() == DEFAULT_TAB_INDEX
      ensures activeItemIndex == NO_ACTIVE_ITEM && selectionChanges == []
    {
      options := [];
      selectedOptions := {};
      disabled := false;
      tabIndexValue := DEFAULT_TAB_INDEX;
      activeItemIndex := NO_ACTIVE_ITEM;
      selectionChanges := [];
    }

    /** An option is disabled when it or its list is. */
    predicate IsDisabled(o: MatListOption)
      reads this, o
      ensures disabled ==> IsDisabled(o)
      ensures !disabled ==> (IsDisabled(o) <==> o.disabled)
    {
      disabled || o.disabled
    }

    /** Every option is selected (what the tests read with `every`). */
    predicate AllSelected()
      reads this, options
    {
      forall o :: o in options ==> o.selected
    }

    /** The `tabIndex` getter: -1 while the list is disabled. */
    function TabIndex(): (r: int)
      reads this
      ensures disabled ==> r == -1
      ensures !disabled ==> r == tabIndexValue
    {
      if disabled then -1 else tabIndexValue
    }

    /** A new option is projected at the end of the list; an option created
        selected enters the selection model. */
    method AddOption(selected: bool, disabled: bool) returns (o: MatListOption)
      requires Valid()
      modifies this
      ensures Valid() && fresh(o)
      ensures o.selected == selected && o.disabled == disabled
      ensures options == old(options) + [o]
      ensures selectedOptions == if selected then old(selectedOptions) + {o} else old(selectedOptions)
      ensures this.disabled == old(this.disabled) && tabIndexValue == old(tabIndexValue)
      ensures activeItemIndex == old(activeItemIndex) && selectionChanges == old(selectionChanges)
    {
      o := new MatListOption(selected, disabled);
      options := options + [o];
      if selected {
        selectedOptions := selectedOptions + {o};
      }
    }

    /** `option.toggle()`: flips the flag and the option's membership in the
        selection model, disabled or not; emits nothing. */
    method Toggle(i: nat)
      requires Valid() && i < |options|
      modifies this, options[i]
      ensures Valid()
      ensures options == old(options)
      ensures options[i].selected == !old(options[i].selected)
      ensures options[i].disabled == old(options[i].disabled)
      ensures selectedOptions ==
        if old(options[i].selected) then old(selectedOptions) - {options[i]}
        else old(selectedOptions) + {options[i]}
      ensures disabled == old(disabled) && tabIndexValue == old(tabIndexValue)
      ensures activeItemIndex == old(activeItemIndex) && selectionChanges == old(selectionChanges)
    {
      SetSelected(i, !options[i].selected);
    }

    /** The `selected` setter of an option: sets the flag, disabled or not, and
        keeps the selection model in step; emits nothing. */
    method SetSelected(i: nat, value: bool)
      requires Valid() && i < |options|
      modifies this, options[i]
      ensures Valid()
      ensures options == old(options)
      ensures options[i].selected == value
      ensures options[i].disabled == old(options[i].disabled)
      ensures selectedOptions ==
        if value then old(selectedOptions) + {options[i]} else old(selectedOptions) - {options[i]}
      ensures disabled == old(disabled) && tabIndexValue == old(tabIndexValue)
      ensures activeItemIndex == old(activeItemIndex) && selectionChanges == old(selectionChanges)
    {
      var o := options[i];
      o.selected := value;
      if value {
        selectedOptions := selectedOptions + {o};
      } else {
        selectedOptions := selectedOptions - {o};
      }
    }

    /** `option._handleClick()`: a toggle that emits one `selectionChange`
        with the new state, unless the option or the list is disabled, in which
        case nothing changes. */
    method HandleClick(i: nat)
      requires Valid() && i < |options|
      modifies this, options[i]
      ensures Valid()
      ensures options == old(options)
      ensures options[i].disabled == old(options[i].disabled)
      ensures disabled == old(disabled) && tabIndexValue == old(tabIndexValue)
      ensures activeItemIndex == old(activeItemIndex)
      ensures old(IsDisabled(options[i])) ==>
        options[i].selected == old(options[i].selected)
        && selectedOptions == old(selectedOptions)
        && selectionChanges == old(selectionChanges)
      ensures !old(IsDisabled(options[i])) ==>
        options[i].selected == !old(options[i].selected)
        && selectedOptions ==
          (if old(options[i].selected) then old(selectedOptions) - {options[i]}
           else old(selectedOptions) + {options[i]})
        && selectionChanges == old(selectionChanges) + [MatListOptionChange(options[i], options[i].selected)]
    {
      if !IsDisabled(options[i]) {
        Toggle(i);
        selectionChanges := selectionChanges + [MatListOptionChange(options[i], options[i].selected)];
      }
    }

    /** `option._handleFocus()`: the focused option becomes the active item. */
    method HandleFocus(i: nat)
      requires Valid() && i < |options|
      modifies this
      ensures Valid()
      ensures activeItemIndex == i
      ensures options == old(options) && selectedOptions == old(selectedOptions)
      ensures disabled == old(disabled) && tabIndexValue == old(tabIndexValue)
      ensures selectionChanges == old(selectionChanges)
    {
      activeItemIndex := i;
    }

    /** `k` lies beyond `from` in the direction `delta` and inside the list. */
    ghost predicate Beyond(from: int, delta: int, k: int)
      reads this
    {
      0 <= k < |options| && (if delta > 0 then from < k else k < from)
    }

    /** `j` lies strictly between `from` and `k`. */
    ghost predicate Between(from: int, j: int, k: int) {
      (from < j < k) || (k < j < from)
    }

    /** `k` is the first enabled option after `from` in the direction `delta`. */
    ghost predicate IsNextEnabled(from: int, delta: int, k: int)
      reads this, options
    {
      && Beyond(from, delta, k) && !IsDisabled(options[k])
      && forall j :: 0 <= j < |options| && Between(from, j, k) ==> IsDisabled(options[j])
    }

    /** No enabled option lies after `from` in the direction `delta`. */
    ghost predicate NoneEnabledBeyond(from: int, delta: int)
      reads this, options
    {
      forall k :: 0 <= k < |options| && Beyond(from, delta, k) ==> IsDisabled(options[k])
    }

    /** The key manager's move by one step (`delta` is 1 for DOWN, -1 for UP):
        the first enabled option in that direction becomes active; without one
        (the key manager does not wrap) the active item stays. */
    method SetActiveItemByDelta(delta: int)
      requires Valid() && (delta == 1 || delta == -1)
      modifies this`activeItemIndex
      ensures Valid()
      ensures NoneEnabledBeyond(old(activeItemIndex), delta) ==> activeItemIndex == old(activeItemIndex)
      ensures !NoneEnabledBeyond(old(activeItemIndex), delta) ==> IsNextEnabled(old(activeItemIndex), delta, activeItemIndex)
    {
      var from := activeItemIndex;
      var index := from + delta;
      while 0 <= index < |options| && IsDisabled(options[index])
        invariant -2 <= index <= |options|
        invariant delta > 0 ==> from < index
        invariant delta < 0 ==> index < from
        invariant forall j :: 0 <= j < |options| && Between(from, j, index) ==> IsDisabled(options[j])
        decreases if delta > 0 then |options| - index else index + 2
      {
        index := index + delta;
      }
      if 0 <= index < |options| {
        activeItemIndex := index;
      } else {
        assert forall k :: 0 <= k < |options| && Beyond(from, delta, k) ==> Between(from, k, index);
      }
    }

    /** `_keydown`: SPACE acts like a click on the active option, UP and DOWN
        move the active item, other keys change nothing here. */
    method Keydown(keyCode: int)
      requires Valid()
      modifies this, options
      ensures Valid()
      ensures options == old(options)
      ensures disabled == old(disabled) && tabIndexValue == old(tabIndexValue)
      ensures forall o :: o in options ==> o.disabled == old(o.disabled)
      ensures keyCode == SPACE ==> activeItemIndex == old(activeItemIndex)
      ensures keyCode == SPACE && 0 <= activeItemIndex < |options| && !old(IsDisabled(options[activeItemIndex])) ==>
        var o := options[activeItemIndex];
        o.selected == !old(o.selected)
        && selectedOptions == (if old(o.selected) then old(selectedOptions) - {o} else old(selectedOptions) + {o})
        && selectionChanges == old(selectionChanges) + [MatListOptionChange(o, o.selected)]
      ensures keyCode == SPACE && (activeItemIndex == NO_ACTIVE_ITEM || old(IsDisabled(options[activeItemIndex]))) ==>
        selectedOptions == old(selectedOptions) && selectionChanges == old(selectionChanges)
      ensures keyCode == SPACE ==>
        forall j :: 0 <= j < |options| && j != activeItemIndex ==> options[j].selected == old(options[j].selected)
      ensures keyCode == UP_ARROW || keyCode == DOWN_ARROW ==>
        var delta := if keyCode == DOWN_ARROW then 1 else -1;
        && (NoneEnabledBeyond(old(activeItemIndex), delta) ==> activeItemIndex == old(activeItemIndex))
        && (!NoneEnabledBeyond(old(activeItemIndex), delta) ==> IsNextEnabled(old(activeItemIndex), delta, activeItemIndex))
      ensures keyCode != SPACE ==>
        && selectedOptions == old(selectedOptions) && selectionChanges == old(selectionChanges)
        && forall o :: o in options ==> o.selected == old(o.selected)
      ensures keyCode != SPACE && keyCode != UP_ARROW && keyCode != DOWN_ARROW ==>
        activeItemIndex == old(activeItemIndex)
    {
      if keyCode == SPACE {
        if activeItemIndex != NO_ACTIVE_ITEM {
          HandleClick(activeItemIndex);
        }
      } else if keyCode == UP_ARROW {
        SetActiveItemByDelta(-1);
      } else if keyCode == DOWN_ARROW {
        SetActiveItemByDelta(1);
      }
    }

    /** `selectAll()`: toggles every option that is not selected yet, the
        disabled ones included; emits nothing. */
    method SelectAll()
      requires Valid()
      modifies this, options
      ensures Valid()
      ensures options == old(options)
      ensures forall o :: o in options ==> o.selected
      ensures selectedOptions == set o | o in options
      ensures forall o :: o in options ==> o.disabled == old(o.disabled)
      ensures disabled == old(disabled) && tabIndexValue == old(tabIndexValue)
      ensures activeItemIndex == old(activeItemIndex) && selectionChanges == old(selectionChanges)
    {
      for k := 0 to |options|
        invariant Valid()
        invariant options == old(options)
        invariant forall j :: 0 <= j < k ==> options[j].selected
        invariant forall o :: o in options ==> o.disabled == old(o.disabled)
        invariant disabled == old(disabled) && tabIndexValue == old(tabIndexValue)
        invariant activeItemIndex == old(activeItemIndex) && selectionChanges == old(selectionChanges)
      {
        if !options[k].selected {
          Toggle(k);
        }
      }
    }

    /** `deselectAll()`: toggles every selected option, the disabled ones
        included; emits nothing. */
    method DeselectAll()
      requires Valid()
      modifies this, options
      ensures Valid()
      ensures options == old(options)
      ensures forall o :: o in options ==> !o.selected
      ensures selectedOptions == {}
      ensures forall o :: o in options ==> o.disabled == old(o.disabled)
      ensures disabled == old(disabled) && tabIndexValue == old(tabIndexValue)
      ensures activeItemIndex == old(activeItemIndex) && selectionChanges == old(selectionChanges)
    {
      for k := 0 to |options|
        invariant Valid()
        invariant options == old(options)
        invariant forall j :: 0 <= j < k ==> !options[j].selected
        invariant forall o :: o in options ==> o.disabled == old(o.disabled)
        invariant disabled == old(disabled) && tabIndexValue == old(tabIndexValue)
        invariant activeItemIndex == old(activeItemIndex) && selectionChanges == old(selectionChanges)
      {
        if options[k].selected {
          Toggle(k);
        }
      }
    }

    /** The `disabled` input of an option. */
    method SetOptionDisabled(i: nat, value: bool)
      requires Valid() && i < |options|
      modifies options[i]
      ensures Valid()
      ensures options[i].disabled == value && options[i].selected == old(options[i].selected)
      ensures IsDisabled(options[i]) == (disabled || value)
    {
      options[i].disabled := value;
    }

    /** The list's `disabled` input: every option then counts as disabled and
        the tab index reads -1. */
    method SetDisabled(value: bool)
      requires Valid()
      modifies this`disabled
      ensures Valid()
      ensures disabled == value
      ensures TabIndex() == if value then -1 else tabIndexValue
      ensures value ==> forall o :: o in options ==> IsDisabled(o)
    {
      disabled := value;
    }

    /** The `tabIndex` setter: an unbound value (`undefined` or `null`) means
        the default. */
    method SetTabIndex(value: Option<int>)
      requires Valid()
      modifies this`tabIndexValue
      ensures Valid()
      ensures tabIndexValue == value.GetOr(DEFAULT_TAB_INDEX)
      ensures TabIndex() == if disabled then -1 else value.GetOr(DEFAULT_TAB_INDEX)
    {
      tabIndexValue := value.GetOr(DEFAULT_TAB_INDEX);
    }

    /** An option leaves the view (`*ngIf` turns false): it leaves the list and
        the selection model. If it was the active item, the one before it becomes
        active (the one after it when it was first, none when it was the only
        one); an active item after it keeps pointing at the same option. */
    method RemoveOption(i: nat)
      requires Valid() && i < |options|
      modifies this
      ensures Valid()
      ensures options == old(options[..i] + options[i + 1..])
      ensures selectedOptions == old(selectedOptions) - {old(options[i])}
      ensures old(activeItemIndex) == i ==>
        activeItemIndex == (if i > 0 then i - 1 else if |options| > 0 then 0 else NO_ACTIVE_ITEM)
      ensures old(activeItemIndex) < i ==> activeItemIndex == old(activeItemIndex)
      ensures old(activeItemIndex) > i ==> activeItemIndex == old(activeItemIndex) - 1
      ensures 0 <= activeItemIndex ==> old(activeItemIndex) != i ==>
        options[activeItemIndex] == old(options[activeItemIndex])
      ensures disabled == old(disabled) && tabIndexValue == old(tabIndexValue)
      ensures selectionChanges == old(selectionChanges)
    {
      var removed := options[i];
      options := options[..i] + options[i + 1..];
      selectedOptions := selectedOptions - {removed};
      if activeItemIndex == i {
        activeItemIndex := if i > 0 then i - 1 else if |options| > 0 then 0 else NO_ACTIVE_ITEM;
      } else if activeItemIndex > i {
        activeItemIndex := activeItemIndex - 1;
      }
    }
  }
}
