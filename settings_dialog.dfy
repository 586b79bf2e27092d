/** The handling tab of the settings dialog: four integer sliders and
    the value labels beside them. The soft drop slider encodes "instant"
    as its top position 41; the ARR and SDF labels show "Instant" for
    their instant values. */
module SettingsDialog {
  import opened Text
  import opened Settings

  datatype Slider = DasSlider | ArrSlider | DcdSlider | SdfSlider

  /** The slider's range; every slider steps by 1. */
  function SliderMin(sl: Slider): nat
  {
    if sl == SdfSlider then 1 else 0
  }

  function SliderMax(sl: Slider): nat
  {
    match sl
    case DasSlider => 300
    case ArrSlider => 100
    case DcdSlider => 50
    case SdfSlider => 41
  }

  /** The slider position shown for a soft drop factor. */
  function SdfToSlider(sdf: Sdf): (v: nat)
    ensures v >= 1
    ensures v == 41 <==> sdf.Instant? || (sdf.Factor? && sdf.n == 41)
    ensures sdf.Factor? ==> v == sdf.n
  {
    if sdf.Instant? then 41 else sdf.n
  }

  /** The soft drop factor a slider position stores: 41 and above is instant. */
  function SliderToSdf(v: Multiplier): (sdf: Sdf)
    ensures sdf.Instant? <==> v >= 41
    ensures sdf.Factor? ==> sdf.n == v
  {
    if v >= 41 then Instant else Factor(v)
  }

  /** Every position of the soft drop slider stores the factor it shows. */
  lemma SliderSdfRoundTrip(v: nat)
    requires 1 <= v <= 41
    ensures SdfToSlider(SliderToSdf(v)) == v
  {
  }

  /** Every factor the slider can produce reads back from its position;
      factors above 40 (possible only from stored settings) show as the
      instant position and would be stored as instant. */
  lemma SdfSliderRoundTrip(sdf: Sdf)
    ensures SdfToSlider(sdf) <= 41 ==> SliderToSdf(SdfToSlider(sdf)) == (if SdfToSlider(sdf) == 41 then Instant else sdf)
    ensures sdf.Instant? || sdf.n <= 40 ==> SliderToSdf(SdfToSlider(sdf)) == sdf
  {
  }

  /** The position each slider shows for the current settings. */
  function SliderValue(s: PlayerSettings, sl: Slider): nat
  {
    match sl
    case DasSlider => s.das
    case ArrSlider => s.arr
    case DcdSlider => s.dcd
    case SdfSlider => SdfToSlider(s.sdf)
  }

  /** onValueChange of a slider moved to position v. */
  function MoveSlider(s: PlayerSettings, sl: Slider, v: nat): (r: PlayerSettings)
    requires SliderMin(sl) <= v <= SliderMax(sl)
    ensures r.keyBindings == s.keyBindings && r.primaryRotation == s.primaryRotation
    ensures forall other :: other != sl ==> SliderValue(r, other) == SliderValue(s, other)
  {
    match sl
    case DasSlider => UpdateSetting(s, SetDas(v))
    case ArrSlider => UpdateSetting(s, SetArr(v))
    case DcdSlider => UpdateSetting(s, SetDcd(v))
    case SdfSlider => UpdateSetting(s, SetSdf(SliderToSdf(v)))
  }

  /** After moving a slider it shows the position it was moved to. */
  lemma MovedSliderShowsPosition(s: PlayerSettings, sl: Slider, v: nat)
    requires SliderMin(sl) <= v <= SliderMax(sl)
    ensures SliderValue(MoveSlider(s, sl, v), sl) == v
  {
    if sl == SdfSlider {
      SliderSdfRoundTrip(v);
    }
  }

  /** The defaults and every preset sit inside the slider ranges. */
  lemma PresetsWithinSliders(p: Preset, sl: Slider)
    ensures SliderMin(sl) <= SliderValue(ApplyPreset(DefaultSettings(), p), sl) <= SliderMax(sl)
    ensures SliderMin(sl) <= SliderValue(DefaultSettings(), sl) <= SliderMax(sl)
  {
  }

  // ------------------------------------------------------------ labels

  /** "<n>ms", the label of the DAS and DCD sliders. */
  function MsLabel(n: nat): (l: string)
    ensures |l| >= 3 && l[|l| - 2..] == "ms" && IsDigit(l[0])
    ensures l[..|l| - 2] == NatToString(n)
  {
    NatToString(n) + "ms"
  }

  /** The ARR label: "Instant" for 0, else "<n>ms". */
  function ArrLabel(arr: nat): (l: string)
    ensures l == "Instant" <==> arr == 0
    ensures arr > 0 ==> l == MsLabel(arr)
  {
    if arr == 0 then "Instant" else MsLabel(arr)
  }

  /** The SDF label: "Instant", or "<n>x". */
  function SdfLabel(sdf: Sdf): (l: string)
    ensures l == "Instant" <==> sdf.Instant?
    ensures sdf.Factor? ==> |l| >= 2 && IsDigit(l[0]) && l[|l| - 1] == 'x' && l[..|l| - 1] == NatToString(sdf.n)
  {
    if sdf.Instant? then "Instant"
    else
      var digits := NatToString(sdf.n);
      assert (digits + "x")[0] == digits[0];
      digits + "x"
  }

  /** Different millisecond values get different labels. */
  lemma MsLabelInjective(a: nat, b: nat)
    requires MsLabel(a) == MsLabel(b)
    ensures a == b
  {
    assert MsLabel(a)[..|MsLabel(a)| - 2] == NatToString(a);
    assert MsLabel(b)[..|MsLabel(b)| - 2] == NatToString(b);
    NatToStringReadsBack(a);
    NatToStringReadsBack(b);
  }

  /** The ARR label tells every repeat rate apart. */
  lemma ArrLabelInjective(a: nat, b: nat)
    requires ArrLabel(a) == ArrLabel(b)
    ensures a == b
  {
    if a > 0 && b > 0 {
      MsLabelInjective(a, b);
    }
  }

  /** The SDF label tells every soft drop factor apart. */
  lemma SdfLabelInjective(a: Sdf, b: Sdf)
    requires SdfLabel(a) == SdfLabel(b)
    ensures a == b
  {
    if a.Factor? && b.Factor? {
      NatToStringReadsBack(a.n);
      NatToStringReadsBack(b.n);
    }
  }
}
