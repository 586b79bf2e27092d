/** The line-clear overlay: the stacked labels for a clear event, the
    points line under them, the colour classes of each label, and the
    1.5-second visibility of the latest event. */
module ClearFeedback {
  import opened Wrappers
  import opened Text

  datatype ClearKind = Lines | TSpin | TSpinMini | Perfect

  /** A clear event as the overlay reads it. */
  datatype ClearEvent = ClearEvent(kind: ClearKind, lines: int, combo: int, isBackToBack: bool, points: int)

  /** tspinLabels[lines] || 'T-SPIN': indices outside 0..3 fall back to the plain label. */
  function TSpinLabel(lines: int): string
  {
    if 0 <= lines < 4 then ["T-SPIN", "T-SPIN SINGLE", "T-SPIN DOUBLE", "T-SPIN TRIPLE"][lines] else "T-SPIN"
  }

  /** The labels that name the kind of clear. */
  const KindLabels: set<string> := {"T-SPIN", "T-SPIN SINGLE", "T-SPIN DOUBLE", "T-SPIN TRIPLE", "T-SPIN MINI",
                                    "PERFECT CLEAR", "TETRIS", "TRIPLE", "DOUBLE", "SINGLE"}

  /** The label naming the kind of clear, if any: a plain line clear of
      other than 1 to 4 lines has none. */
  function KindLabel(e: ClearEvent): (l: Option<string>)
    ensures l.None? <==> e.kind == Lines && !(1 <= e.lines <= 4)
    ensures l.Some? ==> l.value in KindLabels
    ensures e.kind == TSpin ==> l == Some(TSpinLabel(e.lines))
  {
    match e.kind
    case TSpin => Some(TSpinLabel(e.lines))
    case TSpinMini => Some("T-SPIN MINI")
    case Perfect => Some("PERFECT CLEAR")
    case Lines =>
      if e.lines == 4 then Some("TETRIS")
      else if e.lines == 3 then Some("TRIPLE")
      else if e.lines == 2 then Some("DOUBLE")
      else if e.lines == 1 then Some("SINGLE")
      else None
  }

  /** `${combo} COMBO` */
  function ComboLabel(combo: int): string
  {
    IntToString(combo) + " COMBO"
  }

  predicate IsComboLabel(l: string)
  {
    |l| >= 6 && l[|l| - 6..] == " COMBO"
  }

  /** The labels getLabel pushes, in order. */
  function Labels(e: ClearEvent): seq<string>
  {
    (if e.isBackToBack then ["BACK-TO-BACK"] else [])
    + (if KindLabel(e).Some? then [KindLabel(e).value] else [])
    + (if e.combo > 0 then [ComboLabel(e.combo)] else [])
  }

  /** getLabel: push the back-to-back label, then the kind label, then the combo label. */
  method GetLabel(e: ClearEvent) returns (labels: seq<string>)
    ensures labels == Labels(e)
  {
    labels := [];
    if e.isBackToBack {
      labels := labels + ["BACK-TO-BACK"];
    }
    if e.kind == TSpin {
      var tspinLabels := ["T-SPIN", "T-SPIN SINGLE", "T-SPIN DOUBLE", "T-SPIN TRIPLE"];
      if 0 <= e.lines < |tspinLabels| {
        labels := labels + [tspinLabels[e.lines]];
      } else {
        labels := labels + ["T-SPIN"];
      }
    } else if e.kind == TSpinMini {
      labels := labels + ["T-SPIN MINI"];
    } else if e.kind == Perfect {
      labels := labels + ["PERFECT CLEAR"];
    } else if e.lines == 4 {
      labels := labels + ["TETRIS"];
    } else if e.lines == 3 {
      labels := labels + ["TRIPLE"];
    } else if e.lines == 2 {
      labels := labels + ["DOUBLE"];
    } else if e.lines == 1 {
      labels := labels + ["SINGLE"];
    }
    if e.combo > 0 {
      labels := labels + [ComboLabel(e.combo)];
    }
  }

  /** No fixed label looks like a combo label. */
  lemma FixedLabelsAreNotCombo()
    ensures forall k :: k in KindLabels ==> !IsComboLabel(k) && k != "BACK-TO-BACK"
    ensures !IsComboLabel("BACK-TO-BACK") && "BACK-TO-BACK" !in KindLabels
  {
  }

  /** The combo label is a combo label and none of the fixed ones. */
  lemma ComboLabelIsCombo(combo: int)
    ensures IsComboLabel(ComboLabel(combo))
    ensures ComboLabel(combo) !in KindLabels && ComboLabel(combo) != "BACK-TO-BACK"
  {
    var c := ComboLabel(combo);
    assert c[|c| - 6..] == " COMBO";
    FixedLabelsAreNotCombo();
  }

  /** At most three labels: back-to-back first exactly when flagged, the
      combo label last exactly when there is a combo, and nothing at all
      when none of the three apply. */
  lemma LabelsShape(e: ClearEvent)
    ensures |Labels(e)| <= 3
    ensures (|Labels(e)| > 0 && Labels(e)[0] == "BACK-TO-BACK") <==> e.isBackToBack
    ensures (|Labels(e)| > 0 && IsComboLabel(Labels(e)[|Labels(e)| - 1])) <==> e.combo > 0
    ensures Labels(e) == [] <==> !e.isBackToBack && KindLabel(e).None? && e.combo <= 0
  {
    FixedLabelsAreNotCombo();
    ComboLabelIsCombo(e.combo);
  }

  /** Every label but the last is the back-to-back or a kind label, so
      only the last can be the combo label. */
  lemma OnlyLastIsCombo(e: ClearEvent)
    ensures forall i :: 0 <= i < |Labels(e)| - 1 ==> !IsComboLabel(Labels(e)[i])
  {
    FixedLabelsAreNotCombo();
    var fixed := (if e.isBackToBack then ["BACK-TO-BACK"] else [])
      + (if KindLabel(e).Some? then [KindLabel(e).value] else []);
    assert forall i :: 0 <= i < |fixed| ==> fixed[i] == "BACK-TO-BACK" || fixed[i] in KindLabels;
    assert Labels(e) == fixed + (if e.combo > 0 then [ComboLabel(e.combo)] else []);
    forall i | 0 <= i < |Labels(e)| - 1 ensures !IsComboLabel(Labels(e)[i]) {
      assert Labels(e)[i] == fixed[i];
    }
  }

  /** "+{points}" under the labels. */
  function PointsText(points: int): (t: string)
    ensures |t| >= 2 && t[0] == '+' && t[1..] == IntToString(points)
  {
    "+" + IntToString(points)
  }

  /** Different point values read differently. */
  lemma PointsTextInjective(a: int, b: int)
    requires PointsText(a) == PointsText(b)
    ensures a == b
  {
    IntToStringInjective(a, b);
  }

  // ----------------------------------------------------------- styling

  datatype Style = TPieceColor | TPieceFaded | IPieceColor | OPieceColor

  /** The colour classes of the label at `index` of `count` labels. */
  function LabelStyles(e: ClearEvent, index: nat, count: nat): set<Style>
  {
    (if e.kind == TSpin then {TPieceColor} else {})
    + (if e.kind == TSpinMini then {TPieceFaded} else {})
    + (if e.kind == Perfect || (e.lines == 4 && e.kind == Lines) then {IPieceColor} else {})
    + (if e.combo > 2 && index == count - 1 then {OPieceColor} else {})
  }

  /** The combo highlight lands on the combo label and no other label. */
  lemma ComboHighlightOnComboLabel(e: ClearEvent, i: nat)
    requires i < |Labels(e)|
    ensures OPieceColor in LabelStyles(e, i, |Labels(e)|) <==> e.combo > 2 && IsComboLabel(Labels(e)[i])
  {
    LabelsShape(e);
    OnlyLastIsCombo(e);
  }

  // --------------------------------------------------------- visibility

  /** The component's state: its visible and currentEvent state, the
      clearEvent prop its effect last ran for, and whether the hide timer
      that run started is still pending. */
  datatype Overlay = Overlay(visible: bool, current: Option<ClearEvent>, prop: Option<ClearEvent>, timerPending: bool)

  /** What every reachable state keeps: a pending timer belongs to the
      shown event, and only an event is ever shown. */
  predicate OverlayValid(o: Overlay)
  {
    && (o.timerPending ==> o.visible && o.prop.Some? && o.current == o.prop)
    && (o.visible ==> o.current.Some?)
  }

  /** The first render: the effect runs once for the initial prop. */
  function Mounted(e: Option<ClearEvent>): (o: Overlay)
    ensures OverlayValid(o)
    ensures o.prop == e && o.timerPending == e.Some?
    ensures e.Some? ==> o.visible && o.current == e
    ensures e.None? ==> !o.visible && o.current.None?
  {
    if e.Some? then Overlay(true, e, e, true) else Overlay(false, None, None, false)
  }

  /** A render with clearEvent prop e. The effect depends only on the
      prop, so an unchanged prop changes nothing. A changed prop first runs
      the previous run's cleanup, which cancels its pending timer; a new
      event is then shown with a fresh 1.5 s timer, and a withdrawn one
      (prop now null) stays on screen as it was. */
  function OnClearEvent(o: Overlay, e: Option<ClearEvent>): (r: Overlay)
    ensures e == o.prop ==> r == o
    ensures e != o.prop && e.Some? ==> r == Overlay(true, e, e, true)
    ensures e != o.prop && e.None? ==> r == o.(prop := None, timerPending := false)
    ensures OverlayValid(o) ==> OverlayValid(r)
  {
    if e == o.prop then o
    else if e.Some? then Overlay(true, e, e, true)
    else o.(prop := None, timerPending := false)
  }

  /** The pending hide timer fires; with none pending nothing happens. */
  function OnTimerElapsed(o: Overlay): (r: Overlay)
    ensures o.timerPending ==> r == o.(visible := false, timerPending := false)
    ensures !o.timerPending ==> r == o
    ensures OverlayValid(o) ==> OverlayValid(r)
  {
    if o.timerPending then o.(visible := false, timerPending := false) else o
  }

  /** What is drawn: the labels and points line of the current event while visible. */
  function View(o: Overlay): (v: Option<(seq<string>, string)>)
    ensures v.Some? <==> o.visible && o.current.Some?
    ensures v.Some? ==> v.value == (Labels(o.current.value), PointsText(o.current.value.points))
  {
    if !o.visible || o.current.None? then None
    else Some((Labels(o.current.value), PointsText(o.current.value.points)))
  }

  /** A new event is drawn, and the timer it starts hides it. */
  lemma NewEventShownThenHidden(o: Overlay, e: ClearEvent)
    requires o.prop != Some(e)
    ensures View(OnClearEvent(o, Some(e))) == Some((Labels(e), PointsText(e.points)))
    ensures View(OnTimerElapsed(OnClearEvent(o, Some(e)))).None?
  {
  }

  /** When the prop turns null before the 1.5 s are up, the cleanup
      cancels the timer and the event stays drawn through any number of
      later timer firings and null renders. */
  lemma WithdrawnEventStaysShown(o: Overlay, e: ClearEvent, n: nat)
    requires o.prop != Some(e)
    ensures View(QuietRounds(OnClearEvent(OnClearEvent(o, Some(e)), None), n)) == Some((Labels(e), PointsText(e.points)))
  {
  }

  /** n further renders with a null prop, each followed by a timer firing. */
  function QuietRounds(o: Overlay, n: nat): (r: Overlay)
    ensures !o.timerPending && o.prop.None? ==> r == o
    decreases n
  {
    if n == 0 then o else OnTimerElapsed(OnClearEvent(QuietRounds(o, n - 1), None))
  }
}
