/**
  One blood vial: a container element (id, module tag, tooltip) holding a
  liquid element (width, class list, bubble children). `VialState` is its
  value; `Vial` is the element the page holds and the module updates in place.
 */
module Vials {
  import opened JsValues
  import opened Health

  /** How many bubbles a vial's liquid holds while bubbles are enabled. */
  const BUBBLE_COUNT: nat := 5

  /** The class every liquid element is created with. */
  const LIQUID_CLASS: string := "blood-liquid"

  /** The four band class names `updateHealthBar` removes before adding one. */
  const BAND_CLASSES: set<string> := {"critical", "wounded", "healthy", "full"}

  function BandClass(b: Band): (name: string)
    ensures name in BAND_CLASSES
  {
    match b
    case Critical => "critical"
    case Wounded => "wounded"
    case Healthy => "healthy"
    case Full => "full"
  }

  lemma BandClassInjective(a: Band, b: Band)
    ensures BandClass(a) == BandClass(b) <==> a == b
  {
  }

  /**
    Everything about a vial the module reads or writes. `hasLiquid` is false
    when the container no longer holds a `.blood-liquid` element; `width` is
    the liquid's width in percent; `classes` is the liquid's class list;
    `bubbles` is how many `.blood-bubble` children the liquid has.
   */
  datatype VialState = VialState(
    elementId: string,
    moduleId: string,
    hasLiquid: bool,
    width: real,
    classes: set<string>,
    title: Option<Tooltip>,
    bubbles: nat)

  /** The state `updateHealthBar(container, current, max)` leaves the vial in. */
  function Updated(s: VialState, current: JsValue, max: JsValue): VialState
  {
    if !s.hasLiquid then s
    else
      var p := Percentage(current, max);
      s.(width := p,
         classes := s.classes - BAND_CLASSES + {BandClass(BandOf(p))},
         title := Some(TooltipFor(current, max)))
  }

  /**
    After an update the liquid carries exactly one band class, the one the
    percentage selects, and keeps every other class; the width is the
    percentage and the tooltip is rewritten. Without a liquid nothing changes.
   */
  lemma UpdateShowsOneBand(s: VialState, current: JsValue, max: JsValue)
    ensures var r, p := Updated(s, current, max), Percentage(current, max);
      && (s.hasLiquid ==>
            && r.classes * BAND_CLASSES == {BandClass(BandOf(p))}
            && r.classes - BAND_CLASSES == s.classes - BAND_CLASSES
            && 0.0 <= r.width <= 100.0 && r.width == p
            && r.title == Some(TooltipFor(current, max))
            && r.elementId == s.elementId && r.moduleId == s.moduleId
            && r.bubbles == s.bubbles && r.hasLiquid)
      && (!s.hasLiquid ==> r == s)
  {
    var p := Percentage(current, max);
    if s.hasLiquid {
      var r := Updated(s, current, max);
      assert r.classes * BAND_CLASSES == {BandClass(BandOf(p))} by {
        forall x | x in r.classes * BAND_CLASSES
          ensures x == BandClass(BandOf(p))
        {
        }
      }
    }
  }

  /** Updating twice with the same arguments leaves the same state as updating once. */
  lemma UpdateIdempotent(s: VialState, current: JsValue, max: JsValue)
    ensures Updated(Updated(s, current, max), current, max) == Updated(s, current, max)
  {
    var r := Updated(s, current, max);
    if s.hasLiquid {
      assert r.classes - BAND_CLASSES + {BandClass(BandOf(Percentage(current, max)))} == r.classes;
    }
  }

  /**
    The band, width and tooltip an update writes do not depend on what the
    vial showed before: two vials that differ only in those come out equal.
   */
  lemma UpdateForgetsPreviousDisplay(s1: VialState, s2: VialState, current: JsValue, max: JsValue)
    requires s1.hasLiquid
    requires s1.(width := 0.0, classes := s1.classes - BAND_CLASSES, title := None)
          == s2.(width := 0.0, classes := s2.classes - BAND_CLASSES, title := None)
    ensures Updated(s1, current, max) == Updated(s2, current, max)
  {
    assert s1.hasLiquid == s2.hasLiquid;
    assert s1.classes - BAND_CLASSES == s2.classes - BAND_CLASSES;
  }

  /** The container id: `"blood-vial-" + id`, or empty for an empty id. */
  function ElementId(id: string): string
  {
    if id != "" then "blood-vial-" + id else ""
  }

  /** Whether `createBloodVial` accepts its two numbers. */
  predicate CreatableHp(current: JsValue, max: JsValue)
  {
    current.Num? && max.Num? && max.x > 0.0
  }

  /**
    The vial `createBloodVial(current, max, id)` builds, given what reading the
    bubbles setting gave (`None` when reading it failed); nothing when the
    numbers are rejected.
   */
  function CreatedOrNull(current: JsValue, max: JsValue, id: string, bubblesSetting: Option<bool>): (r: Option<VialState>)
    ensures r.None? <==> !CreatableHp(current, max)
    ensures r.Some? ==>
      && r.value.moduleId == MODULE_NAME
      && (id == "" ==> r.value.elementId == "")
      && (id != "" ==> r.value.elementId == "blood-vial-" + id)
      && r.value.hasLiquid
      && (r.value.bubbles == BUBBLE_COUNT <==> bubblesSetting == Some(true))
      && (r.value.bubbles == 0 <==> bubblesSetting != Some(true))
      && r.value.classes == {LIQUID_CLASS, BandClass(BandOf(Percentage(current, max)))}
      && r.value.width == Percentage(current, max)
      && r.value.title == Some(TooltipFor(current, max))
  {
    if !CreatableHp(current, max) then None
    else
      var blank := VialState(ElementId(id), MODULE_NAME, true, 0.0, {LIQUID_CLASS},
                             None, if bubblesSetting == Some(true) then BUBBLE_COUNT else 0);
      assert blank.classes - BAND_CLASSES == {LIQUID_CLASS};
      Some(Updated(blank, current, max))
  }

  /**
    A record accepted by `getActorHP` always yields a vial, drawn from its
    sanitised value and max.
   */
  lemma AcceptedHpCreatesVial(actor: Option<Actor>, id: string, bubblesSetting: Option<bool>)
    requires GetActorHP(actor).Some?
    ensures var hp := GetActorHP(actor).value;
      var r := CreatedOrNull(Num(hp.value), Num(hp.max), id, bubblesSetting);
      && r.Some?
      && r.value.width == PercentOf(hp.value, Max(1.0, hp.max))
  {
  }

  /**
    The state `updateBubbleVisibility` leaves one vial in: its liquid's bubbles
    are removed and, when the setting is on, five are added back. A container
    without a liquid is skipped.
   */
  function Rebubbled(s: VialState, enabled: bool): (r: VialState)
    ensures s.hasLiquid ==> r.bubbles == (if enabled then BUBBLE_COUNT else 0)
    ensures r.(bubbles := s.bubbles) == s
    ensures !s.hasLiquid ==> r == s
  {
    if s.hasLiquid then s.(bubbles := if enabled then BUBBLE_COUNT else 0) else s
  }

  /** A vial element on the page. */
  class Vial {
    const elementId: string
    const moduleId: string
    var hasLiquid: bool
    var width: real
    var classes: set<string>
    var title: Option<Tooltip>
    var bubbles: nat

    function State(): VialState
      reads this
    {
      VialState(elementId, moduleId, hasLiquid, width, classes, title, bubbles)
    }

    /** A container with the given id and module tag holding an empty liquid. */
    constructor (elementId: string, moduleId: string)
      ensures State() == VialState(elementId, moduleId, true, 0.0, {LIQUID_CLASS}, None, 0)
    {
      this.elementId := elementId;
      this.moduleId := moduleId;
      hasLiquid := true;
      width := 0.0;
      classes := {LIQUID_CLASS};
      title := None;
      bubbles := 0;
    }

    /** `liquid.appendChild(bubble)` for one new bubble. */
    method AppendBubble()
      modifies this
      ensures State() == old(State()).(bubbles := old(bubbles) + 1)
    {
      bubbles := bubbles + 1;
    }

    /** The loop that appends `BUBBLE_COUNT` bubbles to the liquid. */
    method AppendBubbles()
      modifies this
      ensures State() == old(State()).(bubbles := old(bubbles) + BUBBLE_COUNT)
    {
      for i := 0 to BUBBLE_COUNT
        invariant State() == old(State()).(bubbles := old(bubbles) + i)
      {
        AppendBubble();
      }
    }

    /** Removes the liquid's bubbles one by one. */
    method RemoveBubbles()
      modifies this
      ensures State() == old(State()).(bubbles := 0)
    {
      while bubbles > 0
        invariant State() == old(State()).(bubbles := bubbles)
      {
        bubbles := bubbles - 1;
      }
    }

    /** The body of `updateBubbleVisibility`'s loop for this container. */
    method RefreshBubbles(enabled: bool)
      modifies this
      ensures State() == Rebubbled(old(State()), enabled)
    {
      if !hasLiquid {
        return;
      }
      RemoveBubbles();
      if enabled {
        AppendBubbles();
      }
    }
  }

  /**
    `updateHealthBar`: without a container, or when the container has no
    liquid, nothing changes; otherwise width, band class and tooltip are set.
   */
  method UpdateHealthBar(container: Vial?, current: JsValue, max: JsValue)
    modifies container
    ensures container != null ==> container.State() == Updated(old(container.State()), current, max)
  {
    if container == null {
      return;
    }
    if !container.hasLiquid {
      return;
    }
    var c := SanitizedCurrent(current);
    var m := SanitizedMax(max);
    var p := PercentOf(c, m);
    container.width := p;
    container.classes := container.classes - BAND_CLASSES;
    container.classes := container.classes + {BandClass(BandOf(p))};
    container.title := Some(Tooltip(c, m, Round(p)));
  }

  /**
    `createBloodVial`: rejects non-numeric or non-positive input with null;
    otherwise builds a fresh tagged container, adds the bubbles when the
    setting reads as enabled, and draws the health once.
   */
  method CreateBloodVial(current: JsValue, max: JsValue, id: string, bubblesSetting: Option<bool>)
    returns (v: Vial?)
    ensures v == null <==> CreatedOrNull(current, max, id, bubblesSetting).None?
    ensures v != null ==> fresh(v) && v.State() == CreatedOrNull(current, max, id, bubblesSetting).value
  {
    if !CreatableHp(current, max) {
      return null;
    }
    v := new Vial(ElementId(id), MODULE_NAME);
    if bubblesSetting.Some? && bubblesSetting.value {
      v.AppendBubbles();
    }
    UpdateHealthBar(v, current, max);
  }
}
