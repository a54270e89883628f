/**
 * The editable parameter record of the dashboard (`values` in realtor.tsx),
 * the slider bounds that govern it, and the fixed scenario catalogue whose
 * presets replace it.
 */
module DealParams {
  import opened Wrappers

  /** The keys of the `values` record. */
  datatype Key =
    | PurchasePrice
    | InitialRent
    | LeaseTermYears
    | EquitySplitPercent
    | MarketValue
    | InspectionCost
    | ShowingCost

  /**
   * The `values` record. The two cost fields are optional: a scenario preset
   * has no such fields, and the activation handler as written replaces the
   * whole record by it, leaving them absent.
   */
  datatype Params = Params(
    purchasePrice: int,
    initialRent: int,
    leaseTermYears: int,
    equitySplitPercent: int,
    marketValue: int,
    inspectionCost: Option<int>,
    showingCost: Option<int>)

  /** The record the dashboard starts with. */
  const Defaults: Params := Params(600000, 2400, 2, 50, 547000, Some(0), Some(0))

  /** The value stored under key `k`, or None when the record lacks that field. */
  function Get(p: Params, k: Key): Option<int>
  {
    match k
    case PurchasePrice => Some(p.purchasePrice)
    case InitialRent => Some(p.initialRent)
    case LeaseTermYears => Some(p.leaseTermYears)
    case EquitySplitPercent => Some(p.equitySplitPercent)
    case MarketValue => Some(p.marketValue)
    case InspectionCost => p.inspectionCost
    case ShowingCost => p.showingCost
  }

  /** Two records that agree on every key are the same record. */
  lemma FieldwiseEqual(p: Params, q: Params)
    requires forall k :: Get(p, k) == Get(q, k)
    ensures p == q
  {
    assert Get(p, PurchasePrice) == Get(q, PurchasePrice);
    assert Get(p, InitialRent) == Get(q, InitialRent);
    assert Get(p, LeaseTermYears) == Get(q, LeaseTermYears);
    assert Get(p, EquitySplitPercent) == Get(q, EquitySplitPercent);
    assert Get(p, MarketValue) == Get(q, MarketValue);
    assert Get(p, InspectionCost) == Get(q, InspectionCost);
    assert Get(p, ShowingCost) == Get(q, ShowingCost);
  }

  /** The record `{...p, [k]: v}`: field `k` becomes `v`, every other field is kept. */
  function With(p: Params, k: Key, v: int): (q: Params)
    ensures Get(q, k) == Some(v)
    ensures forall j :: j != k ==> Get(q, j) == Get(p, j)
  {
    match k
    case PurchasePrice => p.(purchasePrice := v)
    case InitialRent => p.(initialRent := v)
    case LeaseTermYears => p.(leaseTermYears := v)
    case EquitySplitPercent => p.(equitySplitPercent := v)
    case MarketValue => p.(marketValue := v)
    case InspectionCost => p.(inspectionCost := Some(v))
    case ShowingCost => p.(showingCost := Some(v))
  }

  /** A record that differs from `p` at most in field `k`, where it holds `v`, is `With(p, k, v)`. */
  lemma WithIsTheOnlyOneFieldUpdate(p: Params, k: Key, v: int, q: Params)
    requires Get(q, k) == Some(v)
    requires forall j :: j != k ==> Get(q, j) == Get(p, j)
    ensures q == With(p, k, v)
  {
    var w := With(p, k, v);
    forall j ensures Get(q, j) == Get(w, j) {
      if j != k {
        assert Get(q, j) == Get(p, j);
      }
    }
    FieldwiseEqual(q, w);
  }

  // ---------------------------------------------------------------- sliders

  /** Every key except `marketValue` has a slider. */
  predicate HasSlider(k: Key)
  {
    k != MarketValue
  }

  /** `v` lies between `min` and `max` on the grid of `step` starting at `min`. */
  predicate OnGrid(v: int, min: int, max: int, step: int)
    requires 0 < step
  {
    min <= v <= max && (v - min) % step == 0
  }

  /**
   * The values a slider can deliver, from the `min`, `max` and `step` each
   * slider is configured with.
   */
  predicate SliderAccepts(k: Key, v: int)
    requires HasSlider(k)
  {
    match k
    case PurchasePrice => OnGrid(v, 340000, 600000, 5000)
    case InitialRent => OnGrid(v, 1900, 4500, 100)
    case InspectionCost => OnGrid(v, 0, 50000, 1000)
    case ShowingCost => OnGrid(v, 0, 50000, 1000)
    case LeaseTermYears => OnGrid(v, 1, 5, 1)
    case EquitySplitPercent => OnGrid(v, 0, 100, 5)
  }

  /** A present optional field lies on its slider's grid. */
  predicate OptionalAccepted(k: Key, o: Option<int>)
    requires HasSlider(k)
  {
    o.Some? ==> SliderAccepts(k, o.value)
  }

  /**
   * The invariant of every record the dashboard can hold: each present field
   * that has a slider holds a value that slider can deliver, and `marketValue`
   * (which no slider changes) holds one of the values the code assigns to it.
   */
  predicate InBounds(p: Params)
  {
    PresetFieldsInBounds(p) && CostsInBounds(p)
  }

  /** The bounds on the five fields a scenario preset sets. */
  predicate PresetFieldsInBounds(p: Params)
  {
    && SliderAccepts(PurchasePrice, p.purchasePrice)
    && SliderAccepts(InitialRent, p.initialRent)
    && SliderAccepts(LeaseTermYears, p.leaseTermYears)
    && SliderAccepts(EquitySplitPercent, p.equitySplitPercent)
    && (p.marketValue == 547000 || p.marketValue == 520000)
  }

  /** The bounds on the two optional cost fields. */
  predicate CostsInBounds(p: Params)
  {
    OptionalAccepted(InspectionCost, p.inspectionCost) && OptionalAccepted(ShowingCost, p.showingCost)
  }

  /**
   * Whether the render can format the record. The labels of the two cost
   * sliders call `toLocaleString` on their field, which throws when the
   * field is absent; every other label reads a field every record has.
   */
  predicate Renderable(p: Params)
  {
    Get(p, InspectionCost).Some? && Get(p, ShowingCost).Some?
  }

  /** The starting record lies within bounds and can be rendered. */
  lemma DefaultsInBounds()
    ensures InBounds(Defaults) && Renderable(Defaults)
  {
  }

  /** Moving a slider to a value it can deliver keeps a record within bounds. */
  lemma WithKeepsInBounds(p: Params, k: Key, v: int)
    requires InBounds(p) && HasSlider(k) && SliderAccepts(k, v)
    ensures InBounds(With(p, k, v))
  {
  }

  /** A slider update never removes a field, so a renderable record stays renderable. */
  lemma WithKeepsRenderable(p: Params, k: Key, v: int)
    requires Renderable(p)
    ensures Renderable(With(p, k, v))
  {
    if k != InspectionCost {
      assert Get(With(p, k, v), InspectionCost) == Get(p, InspectionCost);
    }
    if k != ShowingCost {
      assert Get(With(p, k, v), ShowingCost) == Get(p, ShowingCost);
    }
  }

  // ------------------------------------------------------- scenario catalogue

  datatype ScenarioId = SubjectTo | EquityShare

  /** A preset object: only five fields, no inspection or showing cost. */
  datatype Preset = Preset(
    purchasePrice: int,
    initialRent: int,
    leaseTermYears: int,
    equitySplitPercent: int,
    marketValue: int)

  datatype Scenario = Scenario(title: string, description: string, values: Preset)

  /** The fixed scenario catalogue (`scenarios`). */
  function Catalog(id: ScenarioId): Scenario
  {
    Scenario(Title(id), Description(id), PresetOf(id))
  }

  function Title(id: ScenarioId): string
  {
    match id
    case SubjectTo => "Subject-To Purchase with Cash Out"
    case EquityShare => "Equity Share Partnership"
  }

  function Description(id: ScenarioId): string
  {
    match id
    case SubjectTo =>
      "Maintain current loan while receiving immediate equity. Keep payments stable with structured rent increases."
    case EquityShare =>
      "Lower initial investment with shared future appreciation. Reduced monthly payments through partnership structure."
  }

  /** The five values each scenario sets. */
  function PresetOf(id: ScenarioId): Preset
  {
    match id
    case SubjectTo => Preset(520000, 2400, 2, 0, 520000)
    case EquityShare => Preset(340000, 2000, 3, 50, 520000)
  }

  /** The value a preset object holds under key `k`, None for a key it lacks. */
  function PresetGet(pr: Preset, k: Key): Option<int>
  {
    match k
    case PurchasePrice => Some(pr.purchasePrice)
    case InitialRent => Some(pr.initialRent)
    case LeaseTermYears => Some(pr.leaseTermYears)
    case EquitySplitPercent => Some(pr.equitySplitPercent)
    case MarketValue => Some(pr.marketValue)
    case InspectionCost => None
    case ShowingCost => None
  }

  /** Whether the record holds the five values of scenario `id`'s preset. */
  predicate MatchesPreset(p: Params, id: ScenarioId)
  {
    var pr := PresetOf(id);
    && p.purchasePrice == pr.purchasePrice
    && p.initialRent == pr.initialRent
    && p.leaseTermYears == pr.leaseTermYears
    && p.equitySplitPercent == pr.equitySplitPercent
    && p.marketValue == pr.marketValue
  }

  /**
   * The record after `setValues(scenarios[id].values)` as the handler is
   * written: exactly the preset object, so the two cost fields are absent.
   */
  function Activated(id: ScenarioId): (p: Params)
    ensures MatchesPreset(p, id)
    ensures p.inspectionCost == None && p.showingCost == None
  {
    var pr := PresetOf(id);
    Params(pr.purchasePrice, pr.initialRent, pr.leaseTermYears, pr.equitySplitPercent,
           pr.marketValue, None, None)
  }

  /** Field for field, the activated record is the preset object of the catalogue. */
  lemma ActivatedIsPreset(id: ScenarioId, k: Key)
    ensures Get(Activated(id), k) == PresetGet(Catalog(id).values, k)
  {
  }

  /**
   * As written, activation leaves a record the render cannot format: from
   * the renderable starting record, either activation breaks the render.
   */
  lemma ActivationAsWrittenBreaksRender(id: ScenarioId)
    ensures Renderable(Defaults)
    ensures !Renderable(Activated(id))
  {
  }

  /**
   * Activation as intended: the preset's five values laid over the record,
   * as `{...values, ...scenarios[id].values}` would, so the two costs are kept.
   */
  function ActivatedOver(p: Params, id: ScenarioId): (q: Params)
    ensures MatchesPreset(q, id)
    ensures q.inspectionCost == p.inspectionCost && q.showingCost == p.showingCost
  {
    Activated(id).(inspectionCost := p.inspectionCost, showingCost := p.showingCost)
  }

  /** The overlay is the only record with the preset's values and the old costs. */
  lemma ActivatedOverIsTheOverlay(p: Params, id: ScenarioId, q: Params)
    requires MatchesPreset(q, id)
    requires q.inspectionCost == p.inspectionCost && q.showingCost == p.showingCost
    ensures q == ActivatedOver(p, id)
  {
  }

  /** Activation as intended keeps the record within bounds and renderable. */
  lemma ActivatedOverKeepsInvariants(p: Params, id: ScenarioId)
    requires InBounds(p) && Renderable(p)
    ensures InBounds(ActivatedOver(p, id)) && Renderable(ActivatedOver(p, id))
  {
    var q := ActivatedOver(p, id);
    assert CostsInBounds(q);
    assert q.purchasePrice == 520000 || q.purchasePrice == 340000;
    assert (520000 - 340000) % 5000 == 0 && (2000 - 1900) % 100 == 0 && (2400 - 1900) % 100 == 0;
  }

  /** Activating the same scenario again changes nothing. */
  lemma ActivatedOverIdempotent(p: Params, id: ScenarioId)
    ensures ActivatedOver(ActivatedOver(p, id), id) == ActivatedOver(p, id)
  {
  }

  /** A slider edit of one of the five preset fields is erased by the next activation. */
  lemma ActivatedOverErasesPresetEdit(p: Params, k: Key, v: int, id: ScenarioId)
    requires k != InspectionCost && k != ShowingCost
    ensures ActivatedOver(With(p, k, v), id) == ActivatedOver(p, id)
  {
    assert Get(With(p, k, v), InspectionCost) == Get(p, InspectionCost);
    assert Get(With(p, k, v), ShowingCost) == Get(p, ShowingCost);
  }
}
