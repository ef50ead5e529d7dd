/**
  The pure part of the blood vial health bar: reading a hit-point record off an
  actor, the system check, and the arithmetic and classification that decide
  how full a vial is drawn, which severity band it shows and what its tooltip
  says (`BloodVialHealthBar` in scripts/blood-vial.js).
 */
module Health {
  import opened JsValues

  /** The module id written into every element the module creates. */
  const MODULE_NAME: string := "blood-vial-health"

  /** Game systems whose actors carry `system.attributes.hp`. */
  const SUPPORTED_SYSTEMS: seq<string> := ["dnd5e"]

  /** `isSystemSupported`: membership of the running game system's id. */
  function IsSystemSupported(systemId: string): (r: bool)
    ensures r <==> systemId == "dnd5e"
  {
    systemId in SUPPORTED_SYSTEMS
  }

  /**
    The record found at `actor.system.attributes.hp`; a field the record lacks
    is `Undefined`.
   */
  datatype HpRecord = HpRecord(value: JsValue, max: JsValue, temp: JsValue, tempmax: JsValue)

  /**
    An actor as far as the module reads it. `hp` is `None` when any link of
    `system.attributes.hp` is missing or holds a falsy value.
   */
  datatype Actor = Actor(id: string, hp: Option<HpRecord>)

  /** The sanitised record `getActorHP` hands out. */
  datatype HpData = HpData(value: real, max: real, temp: JsValue, tempmax: JsValue)

  /** The checks `getActorHP` makes before it accepts a record. */
  predicate AcceptableHp(actor: Option<Actor>)
  {
    && actor.Some?
    && actor.value.hp.Some?
    && actor.value.hp.value.value.Num?
    && actor.value.hp.value.max.Num?
    && actor.value.hp.value.max.x > 0.0
  }

  /**
    `getActorHP`: nothing when the actor or its hp record is missing, when
    `value` or `max` is not a number, or when `max` is not positive; otherwise
    the record with `value` raised to at least 0 and the temporary fields
    defaulting to 0 when falsy.
   */
  function GetActorHP(actor: Option<Actor>): (r: Option<HpData>)
    ensures r.Some? <==> AcceptableHp(actor)
    ensures r.Some? ==>
      var hp := actor.value.hp.value;
      && r.value.max == hp.max.x > 0.0
      && r.value.value >= 0.0
      && (hp.value.x >= 0.0 ==> r.value.value == hp.value.x)
      && (hp.value.x < 0.0 ==> r.value.value == 0.0)
      && (Truthy(hp.temp) ==> r.value.temp == hp.temp)
      && (!Truthy(hp.temp) ==> r.value.temp == Num(0.0))
      && (Truthy(hp.tempmax) ==> r.value.tempmax == hp.tempmax)
      && (!Truthy(hp.tempmax) ==> r.value.tempmax == Num(0.0))
  {
    if actor.None? || actor.value.hp.None? then None
    else
      var hp := actor.value.hp.value;
      if !hp.value.Num? || !hp.max.Num? then None
      else if hp.max.x <= 0.0 then None
      else Some(HpData(
        value := Max(0.0, hp.value.x),
        max := hp.max.x,
        temp := Or(hp.temp, Num(0.0)),
        tempmax := Or(hp.tempmax, Num(0.0))))
  }

  function Max(a: real, b: real): real
  {
    if a >= b then a else b
  }

  function Min(a: real, b: real): real
  {
    if a <= b then a else b
  }

  /** `Math.max(0, Number(current) || 0)`. */
  function SanitizedCurrent(current: JsValue): (c: real)
    ensures c >= 0.0
    ensures current.Num? && current.x >= 0.0 ==> c == current.x
    ensures current.Num? && current.x < 0.0 ==> c == 0.0
    ensures !Truthy(current) ==> c == 0.0
    ensures ToNumber(current).None? ==> c == 0.0
  {
    Max(0.0, NumberOr(current, 0.0))
  }

  /** `Math.max(1, Number(max) || 1)`: the floor of 1 keeps the division defined. */
  function SanitizedMax(max: JsValue): (m: real)
    ensures m >= 1.0
    ensures max.Num? && max.x >= 1.0 ==> m == max.x
    ensures max.Num? && max.x < 1.0 ==> m == 1.0
    ensures !Truthy(max) ==> m == 1.0
    ensures ToNumber(max).None? ==> m == 1.0
  {
    Max(1.0, NumberOr(max, 1.0))
  }

  /**
    The fill percentage `updateHealthBar` computes: the sanitised current over
    the sanitised max, times 100, clamped to [0, 100]. It is 100 exactly when
    current reaches max, 0 exactly when current is 0, and otherwise the exact
    ratio.
   */
  function Percentage(current: JsValue, max: JsValue): (p: real)
    ensures 0.0 <= p <= 100.0
    ensures p == 100.0 <==> SanitizedCurrent(current) >= SanitizedMax(max)
    ensures p == 0.0 <==> SanitizedCurrent(current) == 0.0
    ensures SanitizedCurrent(current) <= SanitizedMax(max) ==>
      p == SanitizedCurrent(current) / SanitizedMax(max) * 100.0
  {
    var c, m := SanitizedCurrent(current), SanitizedMax(max);
    PercentOf(c, m)
  }

  /** `Math.max(0, Math.min(100, (c / m) * 100))` on already sanitised operands. */
  function PercentOf(c: real, m: real): (p: real)
    requires c >= 0.0 && m >= 1.0
    ensures 0.0 <= p <= 100.0
    ensures p == 100.0 <==> c >= m
    ensures p == 0.0 <==> c == 0.0
    ensures c <= m ==> p * m == 100.0 * c
    ensures c <= m ==> p == c / m * 100.0
  {
    RatioFacts(c, m);
    Max(0.0, Min(100.0, c / m * 100.0))
  }

  /** What the division in `Percentage` contributes, for c >= 0 and m >= 1. */
  lemma RatioFacts(c: real, m: real)
    requires c >= 0.0 && m >= 1.0
    ensures c / m >= 0.0
    ensures c / m * 100.0 >= 100.0 <==> c >= m
    ensures c / m * 100.0 == 0.0 <==> c == 0.0
    ensures (c / m * 100.0) * m == 100.0 * c
  {
    var ratio := c / m;
    assert ratio * m == c;
    ScaleLe(1.0, ratio, m);
  }

  /** The four severity classes of the liquid. */
  datatype Band = Critical | Wounded | Healthy | Full

  /** The band for a percentage: at most 25, at most 50, below 100, or 100. */
  function BandOf(p: real): Band
  {
    if p <= 25.0 then Critical
    else if p <= 50.0 then Wounded
    else if p < 100.0 then Healthy
    else Full
  }

  /** Orders the bands from worst to best. */
  function Severity(b: Band): nat
  {
    match b
    case Critical => 0
    case Wounded => 1
    case Healthy => 2
    case Full => 3
  }

  lemma ScaleLe(a: real, b: real, m: real)
    requires m > 0.0
    ensures a <= b <==> a * m <= b * m
  {
    if a <= b {
      assert (b - a) * m >= 0.0;
    } else {
      assert (a - b) * m > 0.0;
    }
  }

  /** For a percentage `p` of `c` out of `m`: p <= k exactly when 100c <= km. */
  lemma Threshold(p: real, c: real, m: real, k: real)
    requires m > 0.0 && p * m == 100.0 * c
    ensures p <= k <==> 100.0 * c <= k * m
  {
    if p <= k {
      assert (k - p) * m >= 0.0;
    } else {
      assert (p - k) * m > 0.0;
    }
  }

  /**
    The band as a comparison of sanitised current `c` and max `m`, without a
    division: critical when 4c <= m, wounded when 2c <= m < 4c, healthy when
    c < m < 2c, full when m <= c.
   */
  lemma BandByRatio(current: JsValue, max: JsValue)
    ensures var c, m, b := SanitizedCurrent(current), SanitizedMax(max), BandOf(Percentage(current, max));
      && (b == Critical <==> 4.0 * c <= m)
      && (b == Wounded <==> 2.0 * c <= m < 4.0 * c)
      && (b == Healthy <==> c < m < 2.0 * c)
      && (b == Full <==> m <= c)
  {
    BandOfRatio(SanitizedCurrent(current), SanitizedMax(max));
  }

  lemma BandOfRatio(c: real, m: real)
    requires c >= 0.0 && m >= 1.0
    ensures var b := BandOf(PercentOf(c, m));
      && (b == Critical <==> 4.0 * c <= m)
      && (b == Wounded <==> 2.0 * c <= m < 4.0 * c)
      && (b == Healthy <==> c < m < 2.0 * c)
      && (b == Full <==> m <= c)
  {
    var p := PercentOf(c, m);
    if c < m {
      Threshold(p, c, m, 25.0);
      Threshold(p, c, m, 50.0);
    }
  }

  /** More hit points never give a worse band (no hysteresis, no inversion). */
  lemma BandMonotone(lower: JsValue, higher: JsValue, max: JsValue)
    requires SanitizedCurrent(lower) <= SanitizedCurrent(higher)
    ensures Severity(BandOf(Percentage(lower, max))) <= Severity(BandOf(Percentage(higher, max)))
  {
    BandByRatio(lower, max);
    BandByRatio(higher, max);
  }

  /** `Math.round` for the percentages it is given: the nearest integer, halves up. */
  function Round(p: real): (n: int)
    ensures p - 0.5 < n as real <= p + 0.5
  {
    (p + 0.5).Floor
  }

  /** The tooltip `"{current} / {max} HP ({percent}%)"` as its three numbers. */
  datatype Tooltip = Tooltip(current: real, max: real, percent: int)

  /** The tooltip `updateHealthBar` writes for these arguments. */
  function TooltipFor(current: JsValue, max: JsValue): (t: Tooltip)
    ensures t.current >= 0.0 && t.max >= 1.0 && 0 <= t.percent <= 100
    ensures t.current >= t.max ==> t.percent == 100
    ensures t.current == 0.0 ==> t.percent == 0
  {
    Tooltip(SanitizedCurrent(current), SanitizedMax(max), Round(Percentage(current, max)))
  }

  /** Tooltips whose two numbers are whole and below 2^53, which JavaScript prints digit for digit. */
  predicate Printable(t: Tooltip)
  {
    && IsWhole(t.current) && t.current < EXACT_WHOLE_LIMIT
    && IsWhole(t.max) && t.max < EXACT_WHOLE_LIMIT
    && t.percent >= 0
  }

  /** The text of a printable tooltip. */
  function TooltipText(t: Tooltip): string
    requires Printable(t)
  {
    WholeToString(t.current) + " / " + WholeToString(t.max) + " HP (" + NatToString(t.percent) + "%)"
  }

  /** Whole hit points, as actors carry them, always give a printable tooltip. */
  lemma WholeHpPrintable(current: real, max: real)
    requires current.Floor as real == current && max.Floor as real == max
    requires current < EXACT_WHOLE_LIMIT && max < EXACT_WHOLE_LIMIT
    ensures Printable(TooltipFor(Num(current), Num(max)))
  {
  }

  /** 7 of 40 hit points: 17.5% rounds to 18 and the band is critical. */
  lemma SevenOfForty()
    ensures Percentage(Num(7.0), Num(40.0)) == 17.5
    ensures BandOf(Percentage(Num(7.0), Num(40.0))) == Critical
    ensures TooltipFor(Num(7.0), Num(40.0)) == Tooltip(7.0, 40.0, 18)
  {
  }

  /** `${7}`, `${40}`, `${18}` and `${100}` as JavaScript prints them. */
  lemma PrintsSeven()
    ensures WholeToString(7.0) == "7"
  {
    assert (7.0).Floor == 7;
  }

  lemma PrintsForty()
    ensures WholeToString(40.0) == "40"
  {
    assert (40.0).Floor == 40;
    assert NatToString(40) == NatToString(4) + [DigitChar(0)];
  }

  lemma PrintsEighteen()
    ensures NatToString(18) == "18"
  {
    assert NatToString(18) == NatToString(1) + [DigitChar(8)];
  }

  lemma PrintsHundred()
    ensures NatToString(100) == "100"
  {
    assert NatToString(10) == NatToString(1) + [DigitChar(0)];
    assert NatToString(100) == NatToString(10) + [DigitChar(0)];
  }

  /** The tooltip of 7 of 40 hit points reads `7 / 40 HP (18%)`. */
  lemma SevenOfFortyText()
    ensures TooltipText(Tooltip(7.0, 40.0, 18)) == "7 / 40 HP (18%)"
  {
    PrintsSeven();
    PrintsForty();
    PrintsEighteen();
  }

  /** 40 of 40 hit points: 100% and full. */
  lemma FortyOfForty()
    ensures Percentage(Num(40.0), Num(40.0)) == 100.0
    ensures BandOf(Percentage(Num(40.0), Num(40.0))) == Full
    ensures TooltipFor(Num(40.0), Num(40.0)) == Tooltip(40.0, 40.0, 100)
  {
    assert Round(100.0) == 100;
  }

  /** The tooltip of 40 of 40 hit points reads `40 / 40 HP (100%)`. */
  lemma FortyOfFortyText()
    ensures TooltipText(Tooltip(40.0, 40.0, 100)) == "40 / 40 HP (100%)"
  {
    PrintsForty();
    PrintsHundred();
  }

  /** A max of 0 is read as 1, so 5 of 0 hit points is 100% and full. */
  lemma ZeroMaxReadAsOne()
    ensures SanitizedMax(Num(0.0)) == 1.0
    ensures Percentage(Num(5.0), Num(0.0)) == 100.0
    ensures BandOf(Percentage(Num(5.0), Num(0.0))) == Full
  {
  }

  /** Current at or above max is full; current 0 is critical. */
  lemma Boundaries(current: JsValue, max: JsValue)
    ensures SanitizedCurrent(current) >= SanitizedMax(max) ==> BandOf(Percentage(current, max)) == Full
    ensures SanitizedCurrent(current) == 0.0 ==> BandOf(Percentage(current, max)) == Critical
  {
  }
}
