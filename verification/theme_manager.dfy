/** The dark/light theme manager of the desktop client: two fixed palettes, the current
    mode, and the callbacks registered to hear about a change of mode.

    The callbacks are code the manager cannot see: each is named by an id, and what it
    does when called is the `behaviour` parameter. Switching the toolkit's own appearance
    is a call into the toolkit and is not modelled. */
module ThemeManager {
  import opened Wrappers

  datatype Mode = Dark | Light

  /** A palette entry: a colour, or a corner radius in pixels. */
  datatype Value = Colour(hex: string) | Radius(px: nat)

  type Palette = map<string, Value>

  const DarkPalette: Palette := map[
    "BG_MAIN" := Colour("#0a0a0a"), "BG_CARD" := Colour("#1a1a1a"), "BG_HOVER" := Colour("#2a2a2a"),
    "BG_SIDEBAR" := Colour("#141414"), "PRIMARY" := Colour("#00d4aa"), "SECONDARY" := Colour("#6c5ce7"),
    "ACCENT" := Colour("#fd79a8"), "TEXT_PRIMARY" := Colour("#ffffff"), "TEXT_SECONDARY" := Colour("#a0a0a0"),
    "TEXT_DISABLED" := Colour("#606060"), "TEXT_SUCCESS" := Colour("#00d4aa"), "TEXT_WARNING" := Colour("#fdcb6e"),
    "TEXT_ERROR" := Colour("#ff6b6b"), "BORDER_DEFAULT" := Colour("#2a2a2a"), "BORDER_FOCUS" := Colour("#00d4aa"),
    "RADIUS_LARGE" := Radius(15), "RADIUS_MEDIUM" := Radius(10), "RADIUS_SMALL" := Radius(6)]

  const LightPalette: Palette := map[
    "BG_MAIN" := Colour("#ffffff"), "BG_CARD" := Colour("#f5f5f5"), "BG_HOVER" := Colour("#e8e8e8"),
    "BG_SIDEBAR" := Colour("#fafafa"), "PRIMARY" := Colour("#00b894"), "SECONDARY" := Colour("#6c5ce7"),
    "ACCENT" := Colour("#fd79a8"), "TEXT_PRIMARY" := Colour("#1a1a1a"), "TEXT_SECONDARY" := Colour("#606060"),
    "TEXT_DISABLED" := Colour("#a0a0a0"), "TEXT_SUCCESS" := Colour("#00b894"), "TEXT_WARNING" := Colour("#e17055"),
    "TEXT_ERROR" := Colour("#d63031"), "BORDER_DEFAULT" := Colour("#e0e0e0"), "BORDER_FOCUS" := Colour("#00b894"),
    "RADIUS_LARGE" := Radius(15), "RADIUS_MEDIUM" := Radius(10), "RADIUS_SMALL" := Radius(6)]

  /** `THEMES[mode.value]`. */
  function PaletteOf(mode: Mode): Palette {
    match mode
    case Dark => DarkPalette
    case Light => LightPalette
  }

  /** Both palettes name the same entries and share their radii, so a lookup that succeeds
      in one mode succeeds in the other. */
  lemma PalettesAgree()
    ensures DarkPalette.Keys == LightPalette.Keys
    ensures forall key :: key in DarkPalette && DarkPalette[key].Radius? ==> LightPalette[key] == DarkPalette[key]
  {
  }

  /** How a callback ended: it returned, or it raised. */
  datatype Outcome = Returned | Raised(message: string)

  /** One callback invocation: which callback, with which mode, and how it ended. */
  datatype Call = Call(callback: nat, mode: Mode, outcome: Outcome)

  /** The current mode and the ids of the registered callbacks, in registration order. */
  datatype Manager = Manager(current: Mode, callbacks: seq<nat>)

  /** `get`: the current palette's entry, or nothing for a key it does not have. */
  function Get(m: Manager, key: string): (r: Option<Value>)
    ensures r.Some? <==> key in DarkPalette
    ensures r.Some? ==> r.value == PaletteOf(m.current)[key]
  {
    PalettesAgree();
    if key in PaletteOf(m.current) then Some(PaletteOf(m.current)[key]) else None
  }

  /** `get_all`: a copy of the current palette; a value, so changing it cannot reach the
      manager. */
  function GetAll(m: Manager): (r: Palette)
    ensures r.Keys == DarkPalette.Keys
  {
    PalettesAgree();
    PaletteOf(m.current)
  }

  /** `get` and `get_all` agree on every key: each entry of the copy is what `get` returns,
      and `get` finds nothing the copy lacks. */
  lemma GetAgreesWithGetAll(m: Manager, key: string)
    ensures key in GetAll(m) ==> Get(m, key) == Some(GetAll(m)[key])
    ensures key !in GetAll(m) ==> Get(m, key).None?
  {
  }

  /** Calling each callback in turn with the mode; one that raises is reported and the loop
      goes on to the next. */
  function NotifyAll(callbacks: seq<nat>, mode: Mode, behaviour: (nat, Mode) -> Outcome): (calls: seq<Call>)
    ensures |calls| == |callbacks|
    ensures forall k :: 0 <= k < |calls| ==> calls[k].callback == callbacks[k] && calls[k].mode == mode
  {
    if callbacks == [] then []
    else [Call(callbacks[0], mode, behaviour(callbacks[0], mode))] + NotifyAll(callbacks[1..], mode, behaviour)
  }

  /** Every registered callback is called, in order, however many of them raise. */
  lemma {:induction false} EveryCallbackCalled(callbacks: seq<nat>, mode: Mode, behaviour: (nat, Mode) -> Outcome)
    ensures forall k :: 0 <= k < |callbacks| ==>
              NotifyAll(callbacks, mode, behaviour)[k] == Call(callbacks[k], mode, behaviour(callbacks[k], mode))
  {
    if callbacks != [] {
      EveryCallbackCalled(callbacks[1..], mode, behaviour);
    }
  }

  /** `apply_theme`: the mode becomes current, the callbacks stay registered, and every one
      of them hears about it. */
  function ApplyTheme(m: Manager, mode: Mode, behaviour: (nat, Mode) -> Outcome): (r: (Manager, seq<Call>))
    ensures r.0 == Manager(mode, m.callbacks)
    ensures |r.1| == |m.callbacks|
    ensures forall k :: 0 <= k < |r.1| ==> r.1[k] == Call(m.callbacks[k], mode, behaviour(m.callbacks[k], mode))
  {
    EveryCallbackCalled(m.callbacks, mode, behaviour);
    (Manager(mode, m.callbacks), NotifyAll(m.callbacks, mode, behaviour))
  }

  /** A callback that returns without a word. */
  function Silent(callback: nat, mode: Mode): Outcome {
    Returned
  }

  /** A new manager: the initial mode applied with no callback yet to hear it. */
  function Init(initial: Mode): (m: Manager)
    ensures m.current == initial && m.callbacks == []
  {
    ApplyTheme(Manager(initial, []), initial, Silent).0
  }

  /** `on_theme_change`. */
  function OnThemeChange(m: Manager, callback: nat): (r: Manager)
    ensures r.current == m.current && r.callbacks == m.callbacks + [callback]
  {
    m.(callbacks := m.callbacks + [callback])
  }

  /** `toggle`: the other mode, applied. */
  function Toggle(m: Manager, behaviour: (nat, Mode) -> Outcome): (r: (Manager, seq<Call>))
    ensures r.0.current != m.current && r.0.callbacks == m.callbacks
    ensures |r.1| == |m.callbacks|
  {
    ApplyTheme(m, if m.current == Dark then Light else Dark, behaviour)
  }

  /** Toggling twice gives back the manager, and each toggle tells every callback. */
  lemma ToggleTwice(m: Manager, behaviour: (nat, Mode) -> Outcome)
    ensures Toggle(Toggle(m, behaviour).0, behaviour).0 == m
    ensures forall k :: 0 <= k < |m.callbacks| ==> Toggle(m, behaviour).1[k].mode == Toggle(m, behaviour).0.current
  {
  }

  predicate IsDark(m: Manager) { m.current == Dark }
  predicate IsLight(m: Manager) { m.current == Light }

  /** Exactly one of `is_dark` and `is_light` holds, and toggling swaps them. */
  lemma DarkOrLight(m: Manager, behaviour: (nat, Mode) -> Outcome)
    ensures IsDark(m) != IsLight(m)
    ensures IsDark(Toggle(m, behaviour).0) == IsLight(m)
  {
  }
}
