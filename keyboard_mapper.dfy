/** The key-binding editor: one row per action with a button showing the
    bound key, and key capture after a click. Each click registers its
    own window keydown listener and its own 5-second timeout; every
    pending listener handles the next non-modifier key. */
module KeyboardMapper {
  import opened Wrappers
  import opened Text
  import opened Settings

  // -------------------------------------------------------- key display

  /** formatKey: names for space and the arrow keys, single characters
      upper-cased, any other key name as it is. */
  function FormatKey(key: string): (shown: string)
    ensures key == " " ==> shown == "Space"
    ensures key == "ArrowUp" ==> shown == "↑"
    ensures key == "ArrowDown" ==> shown == "↓"
    ensures key == "ArrowLeft" ==> shown == "←"
    ensures key == "ArrowRight" ==> shown == "→"
    ensures key != " " && |key| == 1 ==> shown == Upper(key)
    ensures key !in {" ", "ArrowUp", "ArrowDown", "ArrowLeft", "ArrowRight"} && |key| != 1 ==> shown == key
  {
    if key == " " then "Space"
    else if key == "ArrowUp" then "↑"
    else if key == "ArrowDown" then "↓"
    else if key == "ArrowLeft" then "←"
    else if key == "ArrowRight" then "→"
    else if |key| == 1 then Upper(key)
    else key
  }

  /** Formatting a formatted key changes nothing. */
  lemma FormatKeyIdempotent(key: string)
    ensures FormatKey(FormatKey(key)) == FormatKey(key)
  {
    if key != " " && |key| == 1 {
      UpperIdempotent(key);
      assert Upper(key)[0] == UpperChar(key[0]);
    }
  }

  /** A label never becomes empty, and differs from the key only by the
      named keys and single-letter upper-casing. */
  lemma FormatKeyKeepsLength(key: string)
    requires key !in {" ", "ArrowUp", "ArrowDown", "ArrowLeft", "ArrowRight"}
    ensures |FormatKey(key)| == |key|
    ensures Lower(FormatKey(key)) == Lower(key)
  {
    if |key| == 1 {
      assert Upper(key)[0] == UpperChar(key[0]);
      var c := key[0];
      if 'a' <= c <= 'z' {
        assert LowerChar(UpperChar(c)) == c;
      }
      assert Lower(FormatKey(key))[0] == Lower(key)[0];
    }
  }

  // ---------------------------------------------------------- the rows

  /** The rows in ACTION_LABELS order. */
  const RowOrder: seq<Action> := [MoveLeft, MoveRight, SoftDrop, HardDrop, RotateCW, RotateCCW, Rotate180, Hold, Pause]

  function ActionLabel(a: Action): string
  {
    match a
    case MoveLeft => "Move Left"
    case MoveRight => "Move Right"
    case SoftDrop => "Soft Drop"
    case HardDrop => "Hard Drop"
    case RotateCW => "Rotate CW"
    case RotateCCW => "Rotate CCW"
    case Rotate180 => "Rotate 180°"
    case Hold => "Hold"
    case Pause => "Pause"
  }

  /** Every action has exactly one row. */
  lemma RowOrderComplete(a: Action)
    ensures a in RowOrder
    ensures forall i, j :: 0 <= i < j < |RowOrder| ==> RowOrder[i] != RowOrder[j]
  {
  }

  /** The button text as written: "..." while listening for the action,
      else formatKey of its binding, which throws for the unbound
      rotate180 (reading `.length` of undefined). */
  function ButtonLabelAsWritten(kb: KeyBindings, a: Action, listeningFor: Option<Action>): (r: Result<string>)
    ensures r.Err? <==> listeningFor != Some(a) && Binding(kb, a).None?
  {
    if listeningFor == Some(a) then Ok("...")
    else if Binding(kb, a).None? then Err("TypeError: cannot read property 'length' of undefined")
    else Ok(FormatKey(Binding(kb, a).value))
  }

  /** With the default bindings the mapper cannot render its rotate180 row. */
  lemma DefaultMapperFails()
    ensures ButtonLabelAsWritten(DefaultKeyBindings(), Rotate180, None).Err?
    ensures forall a :: a != Rotate180 ==> ButtonLabelAsWritten(DefaultKeyBindings(), a, None).Ok?
  {
  }

  /** The button text with an unbound action shown as an empty label. */
  function ButtonLabel(kb: KeyBindings, a: Action, listeningFor: Option<Action>): (shown: string)
    ensures listeningFor == Some(a) ==> shown == "..."
    ensures listeningFor != Some(a) && Binding(kb, a).Some? ==> shown == FormatKey(Binding(kb, a).value)
    ensures listeningFor != Some(a) && Binding(kb, a).None? ==> shown == ""
  {
    if listeningFor == Some(a) then "..."
    else if Binding(kb, a).None? then ""
    else FormatKey(Binding(kb, a).value)
  }

  /** The corrected label agrees with the written one wherever that one renders. */
  lemma ButtonLabelAgrees(kb: KeyBindings, a: Action, listeningFor: Option<Action>)
    ensures ButtonLabelAsWritten(kb, a, listeningFor).Ok? ==>
      ButtonLabelAsWritten(kb, a, listeningFor).value == ButtonLabel(kb, a, listeningFor)
  {
  }

  /** The rows: action label and button text, in RowOrder. */
  function Rows(kb: KeyBindings, listeningFor: Option<Action>): (rows: seq<(string, string)>)
    ensures |rows| == |RowOrder|
    ensures forall i :: 0 <= i < |rows| ==>
      rows[i] == (ActionLabel(RowOrder[i]), ButtonLabel(kb, RowOrder[i], listeningFor))
  {
    seq(|RowOrder|, i requires 0 <= i < |RowOrder| => (ActionLabel(RowOrder[i]), ButtonLabel(kb, RowOrder[i], listeningFor)))
  }

  // ------------------------------------------------------- key capture

  predicate IsModifier(key: string)
  {
    key in ["Control", "Alt", "Meta", "Shift"]
  }

  /** A pending capture: the click that registered it and its action. */
  datatype Capture = Capture(click: nat, action: Action)

  /** The state of the editor: the highlighted action, the listeners
      still registered in registration order, and the number of clicks. */
  datatype Mapper = Mapper(listeningFor: Option<Action>, listeners: seq<Capture>, clicks: nat)

  const InitialMapper: Mapper := Mapper(None, [], 0)

  /** The highlighted action belongs to the latest listener. */
  predicate MapperValid(m: Mapper)
  {
    && (m.listeningFor.Some? ==> |m.listeners| > 0 && m.listeners[|m.listeners| - 1].action == m.listeningFor.value)
    && forall i :: 0 <= i < |m.listeners| ==> m.listeners[i].click < m.clicks
  }

  /** A click on an action's button: highlight it and register a listener. */
  function Click(m: Mapper, a: Action): (r: Mapper)
    ensures r.listeningFor == Some(a)
    ensures r.listeners == m.listeners + [Capture(m.clicks, a)]
    ensures MapperValid(m) ==> MapperValid(r)
  {
    Mapper(Some(a), m.listeners + [Capture(m.clicks, a)], m.clicks + 1)
  }

  function WithoutClick(ls: seq<Capture>, click: nat): (r: seq<Capture>)
    ensures forall c :: c in r <==> c in ls && c.click != click
    ensures |r| <= |ls|
  {
    if |ls| == 0 then []
    else if ls[0].click == click then WithoutClick(ls[1..], click)
    else [ls[0]] + WithoutClick(ls[1..], click)
  }

  /** The 5-second timeout of a click: clear the highlight, whichever
      action it shows, and remove that click's listener. */
  function Timeout(m: Mapper, click: nat): (r: Mapper)
    ensures r.listeningFor.None?
    ensures forall c :: c in r.listeners <==> c in m.listeners && c.click != click
    ensures MapperValid(m) ==> MapperValid(r)
  {
    Mapper(None, WithoutClick(m.listeners, click), m.clicks)
  }

  /** The actions of the pending listeners. */
  function PendingActions(ls: seq<Capture>): set<Action>
  {
    set c | c in ls :: c.action
  }

  /** Each listener in turn binds the key to its action. */
  function BindAll(s: PlayerSettings, ls: seq<Capture>, key: string): (r: PlayerSettings)
    ensures r.(keyBindings := s.keyBindings) == s
    ensures forall a :: Binding(r.keyBindings, a) == if a in PendingActions(ls) then Some(key) else Binding(s.keyBindings, a)
    decreases |ls|
  {
    if |ls| == 0 then s
    else
      assert PendingActions(ls) == {ls[0].action} + PendingActions(ls[1..]) by {
        assert ls == [ls[0]] + ls[1..];
      }
      BindAll(UpdateKeyBinding(s, ls[0].action, key), ls[1..], key)
  }

  /** A key press while the mapper is open: modifier keys alone are
      ignored and keep every listener; any other key is bound to the
      action of every pending listener, which all unregister. */
  function KeyPressed(m: Mapper, s: PlayerSettings, key: string): (r: (Mapper, PlayerSettings))
    ensures IsModifier(key) ==> r == (m, s)
    ensures !IsModifier(key) ==> r.0.listeners == [] && r.1 == BindAll(s, m.listeners, key)
    ensures MapperValid(m) ==> MapperValid(r.0)
  {
    if IsModifier(key) || |m.listeners| == 0 then (m, s)
    else (m.(listeningFor := None, listeners := []), BindAll(s, m.listeners, key))
  }

  /** A modifier key is never stored as a binding: after any key press,
      each binding is the old one or the pressed non-modifier key. */
  lemma ModifierNeverBound(m: Mapper, s: PlayerSettings, key: string, a: Action)
    ensures Binding(KeyPressed(m, s, key).1.keyBindings, a) == Binding(s.keyBindings, a)
         || (Binding(KeyPressed(m, s, key).1.keyBindings, a) == Some(key) && !IsModifier(key))
  {
  }

  /** One click then a key binds exactly that action. */
  lemma ClickThenKeyBinds(s: PlayerSettings, a: Action, key: string)
    requires !IsModifier(key)
    ensures KeyPressed(Click(InitialMapper, a), s, key).1 == UpdateKeyBinding(s, a, key)
    ensures KeyPressed(Click(InitialMapper, a), s, key).0.listeningFor.None?
  {
    var r := KeyPressed(Click(InitialMapper, a), s, key).1;
    var u := UpdateKeyBinding(s, a, key);
    assert PendingActions([Capture(0, a)]) == {a} by {
      assert Capture(0, a) in [Capture(0, a)];
    }
    forall b ensures Binding(r.keyBindings, b) == Binding(u.keyBindings, b) {
    }
    BindingsExtensional(r.keyBindings, u.keyBindings);
  }

  /** Two clicks before a key press bind the key to both actions. */
  lemma TwoClicksBindBoth(s: PlayerSettings, a: Action, b: Action, key: string)
    requires !IsModifier(key)
    ensures var r := KeyPressed(Click(Click(InitialMapper, a), b), s, key).1;
      Binding(r.keyBindings, a) == Some(key) && Binding(r.keyBindings, b) == Some(key)
  {
    var ls := Click(Click(InitialMapper, a), b).listeners;
    assert ls[0] in ls && ls[1] in ls;
  }

  /** The first click's timeout clears the highlight of a later click,
      while the later click's listener stays registered. */
  lemma EarlyTimeoutClearsLaterHighlight(a: Action, b: Action)
    ensures var m := Timeout(Click(Click(InitialMapper, a), b), 0);
      m.listeningFor.None? && Capture(1, b) in m.listeners
  {
    var m := Click(Click(InitialMapper, a), b);
    assert Capture(1, b) in m.listeners by {
      assert m.listeners[1] == Capture(1, b);
    }
  }
}
