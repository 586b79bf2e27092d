/** The player's handling settings and key bindings of the
    `usePlayerSettings` hook: defaults, loading over the defaults, the
    single-field updates, the reset and the three presets.

    Persisting to localStorage and JSON parsing are outside the model;
    what was read back is given as an optional StoredSettings value. */
module Settings {
  import opened Wrappers

  /** A soft drop multiplier; the slider's minimum is 1. */
  type Multiplier = n: nat | n >= 1 witness 1

  /** Soft drop speed: a multiplier, or instant. */
  datatype Sdf = Instant | Factor(n: Multiplier)

  datatype Rotation = Cw | Ccw

  /** The eight bindings of the KeyBindings interface, plus the rotate180
      entry that the key mapper can add to the object; it is absent from
      the defaults. */
  datatype KeyBindings = KeyBindings(
    moveLeft: string,
    moveRight: string,
    softDrop: string,
    hardDrop: string,
    rotateCW: string,
    rotateCCW: string,
    hold: string,
    pause: string,
    rotate180: Option<string>)

  /** das, arr and dcd in milliseconds. primaryRotation is not part of the
      PlayerSettings interface; the input handler reads it anyway, so it is
      None unless stored settings carry one. */
  datatype PlayerSettings = PlayerSettings(
    das: nat,
    arr: nat,
    dcd: nat,
    sdf: Sdf,
    keyBindings: KeyBindings,
    primaryRotation: Option<Rotation>)

  datatype Action = MoveLeft | MoveRight | SoftDrop | HardDrop | RotateCW | RotateCCW | Rotate180 | Hold | Pause

  function DefaultKeyBindings(): KeyBindings
  {
    KeyBindings("ArrowLeft", "ArrowRight", "ArrowDown", " ", "ArrowUp", "z", "c", "p", None)
  }

  function DefaultSettings(): PlayerSettings
  {
    PlayerSettings(133, 10, 0, Factor(20), DefaultKeyBindings(), None)
  }

  /** keyBindings[action]; None for an absent rotate180 entry. */
  function Binding(kb: KeyBindings, a: Action): Option<string>
  {
    match a
    case MoveLeft => Some(kb.moveLeft)
    case MoveRight => Some(kb.moveRight)
    case SoftDrop => Some(kb.softDrop)
    case HardDrop => Some(kb.hardDrop)
    case RotateCW => Some(kb.rotateCW)
    case RotateCCW => Some(kb.rotateCCW)
    case Rotate180 => kb.rotate180
    case Hold => Some(kb.hold)
    case Pause => Some(kb.pause)
  }

  /** { ...keyBindings, [action]: key }: that action is bound to the key
      and every other binding is unchanged. */
  function SetBinding(kb: KeyBindings, a: Action, key: string): (r: KeyBindings)
    ensures Binding(r, a) == Some(key)
    ensures forall b :: b != a ==> Binding(r, b) == Binding(kb, b)
  {
    match a
    case MoveLeft => kb.(moveLeft := key)
    case MoveRight => kb.(moveRight := key)
    case SoftDrop => kb.(softDrop := key)
    case HardDrop => kb.(hardDrop := key)
    case RotateCW => kb.(rotateCW := key)
    case RotateCCW => kb.(rotateCCW := key)
    case Rotate180 => kb.(rotate180 := Some(key))
    case Hold => kb.(hold := key)
    case Pause => kb.(pause := key)
  }

  /** Bindings are determined by what they bind each action to. */
  lemma BindingsExtensional(a: KeyBindings, b: KeyBindings)
    requires forall x :: Binding(a, x) == Binding(b, x)
    ensures a == b
  {
    assert Binding(a, MoveLeft) == Binding(b, MoveLeft);
    assert Binding(a, MoveRight) == Binding(b, MoveRight);
    assert Binding(a, SoftDrop) == Binding(b, SoftDrop);
    assert Binding(a, HardDrop) == Binding(b, HardDrop);
    assert Binding(a, RotateCW) == Binding(b, RotateCW);
    assert Binding(a, RotateCCW) == Binding(b, RotateCCW);
    assert Binding(a, Rotate180) == Binding(b, Rotate180);
    assert Binding(a, Hold) == Binding(b, Hold);
    assert Binding(a, Pause) == Binding(b, Pause);
  }

  /** Rebinding an action to the key it already has changes nothing. */
  lemma SetBindingSame(kb: KeyBindings, a: Action)
    requires Binding(kb, a).Some?
    ensures SetBinding(kb, a, Binding(kb, a).value) == kb
  {
    BindingsExtensional(SetBinding(kb, a, Binding(kb, a).value), kb);
  }

  /** The later of two rebindings of the same action wins. */
  lemma SetBindingTwice(kb: KeyBindings, a: Action, k1: string, k2: string)
    ensures SetBinding(SetBinding(kb, a, k1), a, k2) == SetBinding(kb, a, k2)
  {
    BindingsExtensional(SetBinding(SetBinding(kb, a, k1), a, k2), SetBinding(kb, a, k2));
  }

  // ------------------------------------------------------------- loading

  /** A stored bindings object: each entry may be missing. */
  datatype StoredBindings = StoredBindings(
    moveLeft: Option<string>,
    moveRight: Option<string>,
    softDrop: Option<string>,
    hardDrop: Option<string>,
    rotateCW: Option<string>,
    rotateCCW: Option<string>,
    hold: Option<string>,
    pause: Option<string>,
    rotate180: Option<string>)

  /** A parsed settings object: each key may be missing. */
  datatype StoredSettings = StoredSettings(
    das: Option<nat>,
    arr: Option<nat>,
    dcd: Option<nat>,
    sdf: Option<Sdf>,
    keyBindings: Option<StoredBindings>,
    primaryRotation: Option<Rotation>)

  function Or<T>(o: Option<T>, d: T): T
  {
    if o.Some? then o.value else d
  }

  /** { ...DEFAULT_KEY_BINDINGS, ...parsed.keyBindings } */
  function MergeBindings(sb: Option<StoredBindings>): (kb: KeyBindings)
    ensures sb.None? ==> kb == DefaultKeyBindings()
    ensures sb.Some? ==> forall a :: Binding(kb, a) == if StoredBinding(sb.value, a).Some? then StoredBinding(sb.value, a) else Binding(DefaultKeyBindings(), a)
  {
    var d := DefaultKeyBindings();
    if sb.None? then d
    else
      var b := sb.value;
      KeyBindings(Or(b.moveLeft, d.moveLeft), Or(b.moveRight, d.moveRight), Or(b.softDrop, d.softDrop),
                  Or(b.hardDrop, d.hardDrop), Or(b.rotateCW, d.rotateCW), Or(b.rotateCCW, d.rotateCCW),
                  Or(b.hold, d.hold), Or(b.pause, d.pause), if b.rotate180.Some? then b.rotate180 else d.rotate180)
  }

  function StoredBinding(b: StoredBindings, a: Action): Option<string>
  {
    match a
    case MoveLeft => b.moveLeft
    case MoveRight => b.moveRight
    case SoftDrop => b.softDrop
    case HardDrop => b.hardDrop
    case RotateCW => b.rotateCW
    case RotateCCW => b.rotateCCW
    case Rotate180 => b.rotate180
    case Hold => b.hold
    case Pause => b.pause
  }

  /** The useState initialiser: nothing stored (or unreadable) gives the
      defaults; otherwise every stored key overrides its default, the
      bindings merged entry by entry. */
  function Load(stored: Option<StoredSettings>): (s: PlayerSettings)
    ensures stored.None? ==> s == DefaultSettings()
    ensures stored.Some? ==>
      && s.das == Or(stored.value.das, 133) && s.arr == Or(stored.value.arr, 10)
      && s.dcd == Or(stored.value.dcd, 0) && s.sdf == Or(stored.value.sdf, Factor(20))
      && s.keyBindings == MergeBindings(stored.value.keyBindings)
      && s.primaryRotation == stored.value.primaryRotation
  {
    if stored.None? then DefaultSettings()
    else
      var st := stored.value;
      var d := DefaultSettings();
      PlayerSettings(Or(st.das, d.das), Or(st.arr, d.arr), Or(st.dcd, d.dcd), Or(st.sdf, d.sdf),
                     MergeBindings(st.keyBindings), st.primaryRotation)
  }

  /** What JSON.stringify(settings) writes: every key present. */
  function Store(s: PlayerSettings): StoredSettings
  {
    var kb := s.keyBindings;
    StoredSettings(Some(s.das), Some(s.arr), Some(s.dcd), Some(s.sdf),
      Some(StoredBindings(Some(kb.moveLeft), Some(kb.moveRight), Some(kb.softDrop), Some(kb.hardDrop),
                          Some(kb.rotateCW), Some(kb.rotateCCW), Some(kb.hold), Some(kb.pause), kb.rotate180)),
      s.primaryRotation)
  }

  /** Saving and loading again gives back the same settings. */
  lemma LoadStoreRoundTrip(s: PlayerSettings)
    ensures Load(Some(Store(s))) == s
  {
    var kb := MergeBindings(Store(s).keyBindings);
    BindingsExtensional(kb, s.keyBindings);
  }

  // ------------------------------------------------------------- updates

  /** updateSetting(key, value) for each key of PlayerSettings. */
  datatype SettingUpdate =
    | SetDas(das: nat)
    | SetArr(arr: nat)
    | SetDcd(dcd: nat)
    | SetSdf(sdf: Sdf)
    | SetKeyBindings(keyBindings: KeyBindings)

  function UpdateSetting(s: PlayerSettings, u: SettingUpdate): (r: PlayerSettings)
    ensures r.primaryRotation == s.primaryRotation
    ensures u.SetDas? ==> r.das == u.das && r.(das := s.das) == s
    ensures u.SetArr? ==> r.arr == u.arr && r.(arr := s.arr) == s
    ensures u.SetDcd? ==> r.dcd == u.dcd && r.(dcd := s.dcd) == s
    ensures u.SetSdf? ==> r.sdf == u.sdf && r.(sdf := s.sdf) == s
    ensures u.SetKeyBindings? ==> r.keyBindings == u.keyBindings && r.(keyBindings := s.keyBindings) == s
  {
    match u
    case SetDas(v) => s.(das := v)
    case SetArr(v) => s.(arr := v)
    case SetDcd(v) => s.(dcd := v)
    case SetSdf(v) => s.(sdf := v)
    case SetKeyBindings(v) => s.(keyBindings := v)
  }

  /** updateKeyBinding(action, key): only that binding changes. */
  function UpdateKeyBinding(s: PlayerSettings, a: Action, key: string): (r: PlayerSettings)
    ensures Binding(r.keyBindings, a) == Some(key)
    ensures forall b :: b != a ==> Binding(r.keyBindings, b) == Binding(s.keyBindings, b)
    ensures r.(keyBindings := s.keyBindings) == s
  {
    s.(keyBindings := SetBinding(s.keyBindings, a, key))
  }

  function ResetToDefaults(s: PlayerSettings): (r: PlayerSettings)
    ensures r == Load(None)
  {
    DefaultSettings()
  }

  datatype Preset = DefaultPreset | Competitive | Casual

  /** The handling values (das, arr, dcd, sdf) a preset writes. */
  function PresetHandling(p: Preset): (nat, nat, nat, Sdf)
  {
    match p
    case Competitive => (83, 0, 0, Instant)
    case Casual => (170, 33, 17, Factor(10))
    case DefaultPreset => (133, 10, 0, Factor(20))
  }

  /** applyPreset: the preset's handling values, the bindings and
      rotation preference kept. */
  function ApplyPreset(s: PlayerSettings, p: Preset): (r: PlayerSettings)
    ensures r.keyBindings == s.keyBindings && r.primaryRotation == s.primaryRotation
    ensures (r.das, r.arr, r.dcd, r.sdf) == PresetHandling(p)
  {
    var h := PresetHandling(p);
    s.(das := h.0, arr := h.1, dcd := h.2, sdf := h.3)
  }

  /** The default preset writes exactly the default handling values. */
  lemma DefaultPresetMatchesDefaults(s: PlayerSettings)
    ensures ApplyPreset(s, DefaultPreset) == DefaultSettings().(keyBindings := s.keyBindings, primaryRotation := s.primaryRotation)
    ensures ApplyPreset(DefaultSettings(), DefaultPreset) == DefaultSettings()
  {
  }

  /** Applying a preset twice is applying it once; a later preset
      overrides an earlier one completely. */
  lemma ApplyPresetIdempotent(s: PlayerSettings, p: Preset, q: Preset)
    ensures ApplyPreset(ApplyPreset(s, p), p) == ApplyPreset(s, p)
    ensures ApplyPreset(ApplyPreset(s, p), q) == ApplyPreset(s, q)
  {
  }
}
