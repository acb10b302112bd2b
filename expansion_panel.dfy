/** The display decisions of `<mat-expansion-panel>`: whether the toggle
    indicator is hidden, whether the panel is spaced apart from its siblings,
    and the name of its animation state. A panel may belong to an accordion,
    whose settings then take precedence. */
module ExpansionPanel {
  import opened Optional

  /** `MatAccordionDisplayMode`: `'default'` or `'flat'`. */
  datatype DisplayMode = Default | Flat {
    /** The string the source compares against. */
    function Name(): (s: string)
      ensures s == "default" <==> this == Default
    {
      match this
      case Default => "default"
      case Flat => "flat"
    }
  }

  /** `MatExpansionPanelState`: `'expanded'` or `'collapsed'`. */
  datatype PanelState = Expanded | Collapsed {
    function Name(): (s: string)
      ensures s == "expanded" <==> this == Expanded
      ensures s == "collapsed" <==> this == Collapsed
    {
      match this
      case Expanded => "expanded"
      case Collapsed => "collapsed"
    }
  }

  /** The two accordion settings a panel reads. */
  datatype Accordion = Accordion(hideToggle: bool, displayMode: DisplayMode)

  class MatExpansionPanel {
    /** The `expanded` input, inherited from the accordion item. */
    var expanded: bool
    /** `_hideToggle`, behind the `hideToggle` input. */
    var hideToggleValue: bool
    /** The optional host accordion, fixed at construction. */
    const accordion: Option<Accordion>

    /** A new panel is collapsed and shows its toggle unless its accordion hides it. */
    constructor (accordion: Option<Accordion>)
      ensures this.accordion == accordion
      ensures !expanded && !hideToggleValue
      ensures GetExpandedState() == Collapsed
      ensures accordion.None? ==> !GetHideToggle()
      ensures !HasSpacing()
    {
      this.accordion := accordion;
      expanded := false;
      hideToggleValue := false;
    }

    /** The `hideToggle` getter. */
    function HideToggle(): (r: bool)
      reads this
      ensures r == hideToggleValue
    {
      hideToggleValue
    }

    /** The `hideToggle` setter: stores the value; an accordion still overrides it. */
    method SetHideToggle(value: bool)
      modifies this
      ensures hideToggleValue == value && HideToggle() == value
      ensures expanded == old(expanded)
      ensures GetHideToggle() == if accordion.Some? then old(GetHideToggle()) else value
      ensures HasSpacing() == old(HasSpacing())
    {
      hideToggleValue := value;
    }

    /** The `expanded` input. */
    method SetExpanded(value: bool)
      modifies this
      ensures expanded == value && hideToggleValue == old(hideToggleValue)
      ensures GetHideToggle() == old(GetHideToggle())
      ensures GetExpandedState() == if value then Expanded else Collapsed
    {
      expanded := value;
    }

    /** `_getHideToggle`: the accordion's setting when there is one, else the panel's own. */
    function GetHideToggle(): (r: bool)
      reads this
      ensures accordion.Some? ==> r == accordion.value.hideToggle
      ensures accordion.None? ==> r == hideToggleValue
    {
      match accordion
      case Some(a) => a.hideToggle
      case None => HideToggle()
    }

    /** `_hasSpacing`: in an accordion, compares either the accordion's display
        mode (expanded panel) or the panel state's name (collapsed panel) with
        `'default'`; outside an accordion, false. */
    function HasSpacing(): (r: bool)
      reads this
      ensures r <==> accordion.Some? && expanded && accordion.value.displayMode == Default
    {
      match accordion
      case Some(a) => (if expanded then a.displayMode.Name() else GetExpandedState().Name()) == "default"
      case None => false
    }

    /** `_getExpandedState`. */
    function GetExpandedState(): (r: PanelState)
      reads this
      ensures r == Expanded <==> expanded
      ensures r.Name() == (if expanded then "expanded" else "collapsed")
    {
      if expanded then Expanded else Collapsed
    }
  }

  /* ---------- properties ---------- */

  /** Inside an accordion the panel's own `hideToggle` does not matter: two
      panels of the same accordion agree whatever their own settings. */
  lemma AccordionDecidesHideToggle(p: MatExpansionPanel, q: MatExpansionPanel)
    requires p.accordion.Some? && p.accordion == q.accordion
    ensures p.GetHideToggle() == q.GetHideToggle() == p.accordion.value.hideToggle
  {
  }

  /** Outside an accordion the panel's own `hideToggle` is what counts. */
  lemma OwnHideToggleWithoutAccordion(p: MatExpansionPanel)
    requires p.accordion.None?
    ensures p.GetHideToggle() == p.HideToggle()
  {
  }

  /** A panel outside an accordion never has spacing. */
  lemma NoSpacingWithoutAccordion(p: MatExpansionPanel)
    requires p.accordion.None?
    ensures !p.HasSpacing()
  {
  }

  /** An expanded panel in an accordion has spacing exactly in the
      `'default'` display mode. */
  lemma ExpandedSpacingFollowsDisplayMode(p: MatExpansionPanel)
    requires p.accordion.Some? && p.expanded
    ensures p.HasSpacing() <==> p.accordion.value.displayMode.Name() == "default"
  {
  }

  /** A collapsed panel never has spacing, whatever the display mode, because
      `'collapsed'` is never `'default'`. */
  lemma CollapsedNeverSpaced(p: MatExpansionPanel)
    requires !p.expanded
    ensures !p.HasSpacing()
    ensures p.GetExpandedState().Name() != "default"
  {
  }
}
