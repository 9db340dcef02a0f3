/**
 * The static tables of the popup: the units, which targets each source unit
 * may be converted to, the conversion formulas, and the display labels of the
 * US and EU groups.
 */
module Units {
  import opened Wrappers

  /** The eleven units the script knows, one per key of `allowedConversions`. */
  datatype Unit = Lbs | Kg | Grams | Miles | Km | Inches | Feet | Cm | Meters | Fahrenheit | Celsius

  /** The identifier of a unit: the object key and the `value` of its `<option>`. */
  function Name(u: Unit): string {
    match u
    case Lbs => "lbs"
    case Kg => "kg"
    case Grams => "grams"
    case Miles => "miles"
    case Km => "km"
    case Inches => "inches"
    case Feet => "feet"
    case Cm => "cm"
    case Meters => "meters"
    case Fahrenheit => "fahrenheit"
    case Celsius => "celsius"
  }

  /** The unit a select value names, if any. */
  function UnitOf(s: string): (r: Option<Unit>)
    ensures r.Some? ==> Name(r.value) == s
  {
    if s == "lbs" then Some(Lbs)
    else if s == "kg" then Some(Kg)
    else if s == "grams" then Some(Grams)
    else if s == "miles" then Some(Miles)
    else if s == "km" then Some(Km)
    else if s == "inches" then Some(Inches)
    else if s == "feet" then Some(Feet)
    else if s == "cm" then Some(Cm)
    else if s == "meters" then Some(Meters)
    else if s == "fahrenheit" then Some(Fahrenheit)
    else if s == "celsius" then Some(Celsius)
    else None
  }

  /** Every unit is recovered from its identifier, so identifiers are distinct. */
  lemma UnitOfName(u: Unit)
    ensures UnitOf(Name(u)) == Some(u)
  {
  }

  /** `allowedConversions`: the permitted targets of each source unit; the first is the default. */
  const AllowedConversions: map<Unit, seq<Unit>> := map[
    Lbs := [Kg, Grams],
    Kg := [Lbs],
    Grams := [Lbs],
    Miles := [Km],
    Km := [Miles],
    Inches := [Cm, Meters],
    Feet := [Cm, Meters],
    Cm := [Inches, Feet],
    Meters := [Inches, Feet],
    Fahrenheit := [Celsius],
    Celsius := [Fahrenheit]
  ]

  /** A conversion formula, idealised over the reals. */
  datatype Formula = Times(factor: real) | DividedBy(divisor: real) | FahrenheitToCelsius | CelsiusToFahrenheit

  predicate WellDefined(f: Formula) {
    f.DividedBy? ==> f.divisor != 0.0
  }

  /**
   * The value a formula gives: the scaling formulas keep zero at zero, and
   * the temperature formulas take freezing point to freezing point.
   */
  function Apply(f: Formula, v: real): (r: real)
    requires WellDefined(f)
    ensures (f.Times? || f.DividedBy?) && v == 0.0 ==> r == 0.0
    ensures f == FahrenheitToCelsius ==> (r == 0.0 <==> v == 32.0)
    ensures f == CelsiusToFahrenheit ==> (r == 32.0 <==> v == 0.0)
  {
    match f
    case Times(c) => v * c
    case DividedBy(c) => v / c
    case FahrenheitToCelsius => (v - 32.0) * 5.0 / 9.0
    case CelsiusToFahrenheit => (v * 9.0 / 5.0) + 32.0
  }

  /**
   * `conversions`, keyed by the pair `(from, to)` rather than by the string
   * `from + "_to_" + to`; every key of the script contains `_to_` exactly once,
   * so the two keyings name the same entries.
   */
  const Conversions: map<(Unit, Unit), Formula> := map[
    (Lbs, Kg) := DividedBy(2.2046),
    (Kg, Lbs) := Times(2.2046),
    (Lbs, Grams) := Times(453.592),
    (Grams, Lbs) := DividedBy(453.592),
    (Miles, Km) := Times(1.60934),
    (Km, Miles) := DividedBy(1.60934),
    (Inches, Cm) := Times(2.54),
    (Cm, Inches) := DividedBy(2.54),
    (Inches, Meters) := Times(0.0254),
    (Meters, Inches) := DividedBy(0.0254),
    (Fahrenheit, Celsius) := FahrenheitToCelsius,
    (Celsius, Fahrenheit) := CelsiusToFahrenheit
  ]

  /** `unitNamesUS`, in declaration order (the order `Object.entries` yields). */
  const UnitNamesUS: seq<(Unit, string)> := [
    (Lbs, "Фунты (lbs)"),
    (Miles, "Мили (miles)"),
    (Feet, "Футы (feet)"),
    (Inches, "Дюймы (inches)"),
    (Fahrenheit, "Фаренгейты (°F)")
  ]

  /** `unitNamesEU`, in declaration order. */
  const UnitNamesEU: seq<(Unit, string)> := [
    (Kg, "Килограммы (kg)"),
    (Grams, "Граммы (g)"),
    (Km, "Километры (km)"),
    (Cm, "Сантиметры (cm)"),
    (Meters, "Метры (m)"),
    (Celsius, "Цельсии (°C)")
  ]

  /** Object spread `{...m, ...entries}`: later entries override earlier ones. */
  function Spread(m: map<Unit, string>, entries: seq<(Unit, string)>): (r: map<Unit, string>)
    ensures r.Keys == m.Keys + set e | e in entries :: e.0
    decreases |entries|
  {
    if entries == [] then m
    else Spread(m[entries[0].0 := entries[0].1], entries[1..])
  }

  /**
   * The values of a spread: a key no entry names keeps the base object's
   * value, and an entry no later entry overrides gives its key its value.
   */
  lemma {:induction false} SpreadOverrides(m: map<Unit, string>, entries: seq<(Unit, string)>)
    ensures forall k :: k in m && (forall e :: e in entries ==> e.0 != k) ==> Spread(m, entries)[k] == m[k]
    ensures forall i :: 0 <= i < |entries| && (forall j :: i < j < |entries| ==> entries[j].0 != entries[i].0) ==>
      entries[i] in entries && Spread(m, entries)[entries[i].0] == entries[i].1
    decreases |entries|
  {
    if entries != [] {
      var rest := entries[1..];
      SpreadOverrides(m[entries[0].0 := entries[0].1], rest);
      forall k | k in m && (forall e :: e in entries ==> e.0 != k)
        ensures Spread(m, entries)[k] == m[k]
      {
        assert entries[0] in entries;
        forall e | e in rest
          ensures e.0 != k
        {
          assert e in entries;
        }
      }
      forall i | 0 <= i < |entries| && (forall j :: i < j < |entries| ==> entries[j].0 != entries[i].0)
        ensures entries[i] in entries && Spread(m, entries)[entries[i].0] == entries[i].1
      {
        if i == 0 {
          forall e | e in rest
            ensures e.0 != entries[0].0
          {
            var j :| 0 <= j < |rest| && rest[j] == e;
            assert entries[j + 1] == e;
          }
        } else {
          assert rest[i - 1] == entries[i];
          forall j | i - 1 < j < |rest|
            ensures rest[j].0 != rest[i - 1].0
          {
            assert rest[j] == entries[j + 1];
          }
        }
      }
    }
  }

  /** `unitNames`, the labels of both groups; `UnitNamesIsSpread` shows it is `{...unitNamesUS, ...unitNamesEU}`. */
  const UnitNames: map<Unit, string> := map[
    Lbs := "Фунты (lbs)",
    Miles := "Мили (miles)",
    Feet := "Футы (feet)",
    Inches := "Дюймы (inches)",
    Fahrenheit := "Фаренгейты (°F)",
    Kg := "Килограммы (kg)",
    Grams := "Граммы (g)",
    Km := "Километры (km)",
    Cm := "Сантиметры (cm)",
    Meters := "Метры (m)",
    Celsius := "Цельсии (°C)"
  ]

  /** Spreading `unitNamesUS` into an empty object labels the five US units. */
  lemma SpreadUS()
    ensures Spread(map[], UnitNamesUS) == map[
      Lbs := "Фунты (lbs)", Miles := "Мили (miles)", Feet := "Футы (feet)",
      Inches := "Дюймы (inches)", Fahrenheit := "Фаренгейты (°F)"]
  {
    var us := UnitNamesUS;
    var m0: map<Unit, string> := map[];
    assert Spread(m0, us) == Spread(m0[us[0].0 := us[0].1], us[1..]);
    var m1 := m0[us[0].0 := us[0].1];
    assert Spread(m1, us[1..]) == Spread(m1[us[1].0 := us[1].1], us[2..]);
    var m2 := m1[us[1].0 := us[1].1];
    assert Spread(m2, us[2..]) == Spread(m2[us[2].0 := us[2].1], us[3..]);
    var m3 := m2[us[2].0 := us[2].1];
    assert Spread(m3, us[3..]) == Spread(m3[us[3].0 := us[3].1], us[4..]);
    var m4 := m3[us[3].0 := us[3].1];
    assert Spread(m4, us[4..]) == Spread(m4[us[4].0 := us[4].1], us[5..]);
    assert us[5..] == [];
  }

  /**
   * Spreading `unitNamesUS` and then `unitNamesEU` into one object gives each
   * unit the label of its group: the groups are disjoint, so nothing is overridden.
   */
  lemma UnitNamesIsSpread()
    ensures UnitNames == Spread(Spread(map[], UnitNamesUS), UnitNamesEU)
  {
    SpreadUS();
    var m5 := Spread(map[], UnitNamesUS);
    var eu := UnitNamesEU;
    assert Spread(m5, eu) == Spread(m5[eu[0].0 := eu[0].1], eu[1..]);
    var n1 := m5[eu[0].0 := eu[0].1];
    assert Spread(n1, eu[1..]) == Spread(n1[eu[1].0 := eu[1].1], eu[2..]);
    var n2 := n1[eu[1].0 := eu[1].1];
    assert Spread(n2, eu[2..]) == Spread(n2[eu[2].0 := eu[2].1], eu[3..]);
    var n3 := n2[eu[2].0 := eu[2].1];
    assert Spread(n3, eu[3..]) == Spread(n3[eu[3].0 := eu[3].1], eu[4..]);
    var n4 := n3[eu[3].0 := eu[3].1];
    assert Spread(n4, eu[4..]) == Spread(n4[eu[4].0 := eu[4].1], eu[5..]);
    var n5 := n4[eu[4].0 := eu[4].1];
    assert Spread(n5, eu[5..]) == Spread(n5[eu[5].0 := eu[5].1], eu[6..]);
    assert eu[6..] == [];
  }

  /** The unit a target is looked up as: `feet` is converted through `inches`. */
  function Actual(u: Unit): (r: Unit)
    ensures r != Feet
    ensures r == u || (u == Feet && r == Inches)
  {
    if u == Feet then Inches else u
  }

  /**
   * `Object.hasOwn(allowedConversions, name)` followed by the lookup
   * `allowedConversions[name]`: the permitted targets of the unit a select
   * value names, or `None` for a value that names no key.
   */
  function AllowedFor(name: string): (r: Option<seq<Unit>>)
    ensures r.Some? <==> UnitOf(name).Some?
    ensures r.Some? ==> r.value == AllowedConversions[UnitOf(name).value]
    ensures r.Some? ==> r.value != []
    ensures r.Some? ==> forall t :: t in r.value ==> (Actual(UnitOf(name).value), Actual(t)) in Conversions
  {
    match UnitOf(name)
    case None => None
    case Some(u) => if u in AllowedConversions then Some(AllowedConversions[u]) else None
  }

  /** The table of permitted targets covers every unit and offers at least one target for each. */
  lemma AllowedCoversEveryUnit(u: Unit)
    ensures u in AllowedConversions && AllowedConversions[u] != []
  {
  }

  /**
   * Every pair the table offers resolves to a conversion once `feet` is read
   * as `inches` on either side.
   */
  lemma OfferedPairsResolve(u: Unit, t: Unit)
    requires t in AllowedConversions[u]
    ensures (Actual(u), Actual(t)) in Conversions
  {
  }

  /** Without reading `feet` as `inches`, no pair that involves `feet` would resolve. */
  lemma FeetHasNoDirectConversion(u: Unit)
    ensures (Feet, u) !in Conversions && (u, Feet) !in Conversions
  {
  }

  /** Every formula of the table is defined on every input. */
  lemma ConversionsWellDefined(k: (Unit, Unit))
    requires k in Conversions
    ensures WellDefined(Conversions[k])
  {
  }

  /** The formula that undoes `f`: multiplication and division by the same constant, and the two temperature scales. */
  function Reverse(f: Formula): Formula {
    match f
    case Times(c) => DividedBy(c)
    case DividedBy(c) => Times(c)
    case FahrenheitToCelsius => CelsiusToFahrenheit
    case CelsiusToFahrenheit => FahrenheitToCelsius
  }

  /** Every entry of the table has the reverse pair registered with the reverse formula, and a non-zero constant. */
  lemma ConversionsReverse(a: Unit, b: Unit)
    requires (a, b) in Conversions
    ensures (b, a) in Conversions && Conversions[(b, a)] == Reverse(Conversions[(a, b)])
    ensures Conversions[(a, b)].Times? ==> Conversions[(a, b)].factor != 0.0
    ensures Conversions[(a, b)].DividedBy? ==> Conversions[(a, b)].divisor != 0.0
  {
  }

  /** Over the reals the reverse of a formula with a non-zero constant undoes it exactly. */
  lemma ReverseUndoes(f: Formula, v: real)
    requires f.Times? ==> f.factor != 0.0
    requires f.DividedBy? ==> f.divisor != 0.0
    ensures WellDefined(f) && WellDefined(Reverse(f))
    ensures Apply(Reverse(f), Apply(f, v)) == v
  {
  }

  /**
   * Every conversion has its reverse in the table, and over the reals the
   * reverse undoes it exactly.
   */
  lemma ConversionsInvert(a: Unit, b: Unit, v: real)
    requires (a, b) in Conversions
    ensures (b, a) in Conversions
    ensures WellDefined(Conversions[(a, b)]) && WellDefined(Conversions[(b, a)])
    ensures Apply(Conversions[(b, a)], Apply(Conversions[(a, b)], v)) == v
  {
    ConversionsReverse(a, b);
    ReverseUndoes(Conversions[(a, b)], v);
  }

  /**
   * The pound-to-kilogram and pound-to-gram constants disagree: for any
   * non-zero weight, a thousand times the kilograms is not the grams.
   */
  lemma KilogramsAndGramsDisagree(v: real)
    requires v != 0.0
    ensures Apply(Conversions[(Lbs, Kg)], v) * 1000.0 != Apply(Conversions[(Lbs, Grams)], v)
  {
  }

  /** The two display groups share no unit. */
  lemma GroupsDisjoint(i: nat, j: nat)
    requires i < |UnitNamesUS| && j < |UnitNamesEU|
    ensures UnitNamesUS[i].0 != UnitNamesEU[j].0
  {
  }

  /** Every unit shown in a display group is a key of the table of permitted targets. */
  lemma GroupUnitsAreKeys(e: (Unit, string))
    requires e in UnitNamesUS || e in UnitNamesEU
    ensures e.0 in AllowedConversions
  {
  }

  /** `unitNames` gives every unit of a display group the label that group lists for it. */
  lemma UnitNamesLabelGroups(e: (Unit, string))
    requires e in UnitNamesUS || e in UnitNamesEU
    ensures e.0 in UnitNames && UnitNames[e.0] == e.1
  {
  }

  /** Between them the two groups label every unit. */
  lemma UnitNamesCoverEveryUnit(u: Unit)
    ensures u in UnitNames
  {
  }
}
