/**
 * The dashboard component's state and its event handlers. Each handler is
 * one atomic update of the state; the figures on screen are the functions
 * of `Derivations` applied to the current record.
 */
module Dashboard {
  import opened Wrappers
  import opened DealParams
  import opened Derivations
  import opened Notes

  class DealDashboard {
    /** currentPayment and currentLoanBalance: fixed at start-up. */
    const baseline: Baseline := Startup
    /** The scenario last activated, if any; nothing ever clears it. */
    var activeScenario: Option<ScenarioId>
    /** The parameter record. */
    var values: Params
    /** The notes log, oldest first. */
    var comments: seq<Comment>
    /** The text field's pending input. */
    var newComment: string

    /** Every record the dashboard holds lies within the slider bounds and can be rendered. */
    ghost predicate Valid()
      reads this
    {
      InBounds(values) && Renderable(values)
    }

    /** The state on first render. */
    constructor ()
      ensures Valid()
      ensures activeScenario == None && values == Defaults
      ensures comments == [] && newComment == ""
    {
      activeScenario := None;
      values := Defaults;
      comments := [];
      newComment := "";
      DefaultsInBounds();
    }

    /** The text field's `onChange`: the pending input becomes `text`. */
    method EditNewComment(text: string)
      modifies this
      ensures newComment == text
      ensures comments == old(comments)
      ensures values == old(values) && activeScenario == old(activeScenario)
    {
      newComment := text;
    }

    /**
     * `addComment`: when the pending input has a non-whitespace character,
     * append it, untrimmed, with `timestamp` and clear the input; otherwise
     * change nothing, not even the input. The timestamp is the formatted
     * clock reading the handler takes.
     */
    method AddComment(timestamp: string)
      modifies this
      ensures HasContent(old(newComment)) ==>
                comments == old(comments) + [Comment(old(newComment), timestamp)]
                && newComment == ""
      ensures !HasContent(old(newComment)) ==>
                comments == old(comments) && newComment == old(newComment)
      ensures old(comments) <= comments
      ensures values == old(values) && activeScenario == old(activeScenario)
    {
      if HasContent(newComment) {
        comments := comments + [Comment(newComment, timestamp)];
        newComment := "";
      }
    }

    /**
     * `activateScenario`, corrected: mark `id` active and lay its preset over
     * the record, keeping the two costs. The handler as written replaces the
     * record by the preset (`Activated`), which the render cannot format.
     */
    method ActivateScenario(id: ScenarioId)
      modifies this
      ensures activeScenario == Some(id)
      ensures values == ActivatedOver(old(values), id)
      ensures old(Valid()) ==> Valid()
      ensures comments == old(comments) && newComment == old(newComment)
    {
      activeScenario := Some(id);
      values := ActivatedOver(values, id);
      if old(Valid()) {
        ActivatedOverKeepsInvariants(old(values), id);
      }
    }

    /**
     * A slider's `onValueChange`: field `k` becomes `v`, with no range check
     * here; the record stays within bounds when the slider delivers a value
     * it can deliver.
     */
    method SetValue(k: Key, v: int)
      requires HasSlider(k)
      modifies this
      ensures values == With(old(values), k, v)
      ensures old(Valid()) && SliderAccepts(k, v) ==> Valid()
      ensures activeScenario == old(activeScenario)
      ensures comments == old(comments) && newComment == old(newComment)
    {
      values := With(values, k, v);
      if old(Valid()) && SliderAccepts(k, v) {
        WithKeepsInBounds(old(values), k, v);
        WithKeepsRenderable(old(values), k, v);
      }
    }
  }

  /**
   * The future share on a dashboard the handlers can reach is a whole number
   * of dollars: the invariant carries `FutureShareWhole` over to the state.
   */
  method ShareOnScreen(d: DealDashboard) returns (share: real)
    requires d.Valid()
    ensures share == ((d.values.marketValue - d.values.purchasePrice) * d.values.equitySplitPercent / 100) as real
  {
    FutureShareWhole(d.values);
    share := FutureEquityShare(d.values);
  }

  /** Activating the equity-share scenario on a fresh dashboard and reading the three figures. */
  method EquityShareFigures() returns (equity: int, change: int, increase: bool, share: real)
    ensures equity == -3000 && change == -400 && !increase
    ensures share == 90000.0
  {
    var d := new DealDashboard();
    d.ActivateScenario(EquityShare);
    EquitySharePresetMetrics(d.values);
    equity := InitialEquity(d.baseline, d.values);
    change := MonthlyChange(d.baseline, d.values);
    increase := IsIncrease(d.baseline, d.values);
    share := FutureEquityShare(d.values);
  }

  /**
   * Activating a scenario after a slider move gives a record holding the
   * preset, the same as activating it again; a move of a preset field is
   * erased entirely.
   */
  method ActivationIgnoresPriorEdits(id: ScenarioId, k: Key, v: int) returns (once: Params, twice: Params)
    requires HasSlider(k)
    ensures MatchesPreset(once, id) && once == twice
    ensures k != InspectionCost && k != ShowingCost ==> once == ActivatedOver(Defaults, id)
  {
    var d := new DealDashboard();
    d.SetValue(k, v);
    d.ActivateScenario(id);
    once := d.values;
    ActivatedOverIdempotent(once, id);
    if k != InspectionCost && k != ShowingCost {
      ActivatedOverErasesPresetEdit(Defaults, k, v, id);
    }
    d.ActivateScenario(id);
    twice := d.values;
  }

  /** A cost set before activating a scenario survives the activation, so the render can still format it. */
  method CostsSurviveActivation(id: ScenarioId, v: int) returns (after: Params)
    ensures after.inspectionCost == Some(v) && after.showingCost == Some(0)
    ensures MatchesPreset(after, id) && Renderable(after)
  {
    var d := new DealDashboard();
    d.SetValue(InspectionCost, v);
    d.ActivateScenario(id);
    after := d.values;
  }

  /**
   * Moving a slider after activating a scenario leaves that scenario marked
   * active although the record no longer holds its preset.
   */
  method StaleSelectionAfterSlide() returns (active: Option<ScenarioId>, matchesPreset: bool)
    ensures active == Some(SubjectTo) && !matchesPreset
  {
    var d := new DealDashboard();
    d.ActivateScenario(SubjectTo);
    d.SetValue(PurchasePrice, 340000);
    active := d.activeScenario;
    matchesPreset := MatchesPreset(d.values, SubjectTo);
  }

  /** A whitespace-only note is refused: the log stays empty and the text stays in the input. */
  method BlankNoteRefused(blank: string, timestamp: string) returns (log: seq<Comment>, pending: string)
    requires AllWhitespace(blank)
    ensures log == [] && pending == blank
  {
    TrimEmptyIff(blank);
    var d := new DealDashboard();
    d.EditNewComment(blank);
    d.AddComment(timestamp);
    log := d.comments;
    pending := d.newComment;
  }

  /** Two notes with content are appended in order, as typed, and the input ends up empty. */
  method TwoNotesInOrder(first: string, second: string, t1: string, t2: string)
    returns (log: seq<Comment>, pending: string)
    requires exists i :: 0 <= i < |first| && !IsWhitespace(first[i])
    requires exists i :: 0 <= i < |second| && !IsWhitespace(second[i])
    ensures log == [Comment(first, t1), Comment(second, t2)]
    ensures pending == ""
  {
    HasContentIff(first);
    HasContentIff(second);
    var d := new DealDashboard();
    d.EditNewComment(first);
    d.AddComment(t1);
    assert d.comments == [Comment(first, t1)];
    d.EditNewComment(second);
    d.AddComment(t2);
    log := d.comments;
    pending := d.newComment;
  }
}
