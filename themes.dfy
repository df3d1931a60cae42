/**
 * Theme selection: the `SplineManager` of src/spline-manager.js, which owns
 * the theme table `window.splineThemes`, the registered Spline scenes and the
 * nine Webflow colour variables on the root element, and the `ThemeSwitcher`
 * of src/theme-switcher.js, which wraps the global `switchSplineTheme` so
 * that the light and dark buttons follow the theme.
 */
module Themes {
  import opened JsText

  /** One entry of the theme table: the Spline scene variables and the page colours. */
  datatype Palette = Palette(
    textLightness: int, glassOpacity: int, blobFresnel: int, lightTheme: int, darkTheme: int,
    backgroundColor: string, webflowGreyish: string, webflowGreymain: string,
    webflowGreymainalpha: string, textprimary: string, textdisabled: string,
    surface1: string, surface2: string, textonlight: string, greysecondary: string)

  const LightPalette := Palette(100, 97, 80, 90, 0, "#C2C2C2", "#292929", "#dddddd", "#dddddd00",
                                "#1B1B1B", "#727272", "#F1F1F1", "#FDFDFD", "#FDFDFD", "#282828")
  const DarkPalette := Palette(0, 60, 35, 0, 100, "#181818", "#dfdfdf", "#232323", "#23232300",
                               "#f1f1f1", "#a8a8a8", "#1b1b1b", "#282828", "#141414", "#e2e2e2")

  /** The theme `splineThemes.current` holds when the table is created. */
  const InitialTheme := "dark"

  /**
   * What `splineThemes[name]` reads: a palette, the string under `current`,
   * or a member every object inherits (a function or `Object.prototype`).
   */
  datatype ThemeValue = PaletteValue(palette: Palette) | NameValue(name: string) | InheritedValue

  /** `window.splineThemes[name]` while `current` holds `current`; `None` is `undefined`. */
  function ThemeLookup(current: string, name: string): (r: Option<ThemeValue>)
    ensures name == "light" ==> r == Some(PaletteValue(LightPalette))
    ensures name == "dark" ==> r == Some(PaletteValue(DarkPalette))
    ensures name == "current" ==> r == Some(NameValue(current))
  {
    if name == "light" then Some(PaletteValue(LightPalette))
    else if name == "dark" then Some(PaletteValue(DarkPalette))
    else if name == "current" then Some(NameValue(current))
    else if IsObjectPrototypeMember(name) then Some(InheritedValue)
    else None
  }

  predicate Truthy(v: Option<ThemeValue>) {
    match v
    case None => false
    case Some(NameValue(s)) => s != ""
    case Some(_) => true
  }

  /** The guard of `switchTheme` as written: the looked-up value is truthy. */
  predicate AcceptedAsWritten(current: string, name: string) {
    Truthy(ThemeLookup(current, name))
  }

  /** The guard as intended: the name of one of the two palettes. */
  predicate Accepted(name: string) {
    name == "light" || name == "dark"
  }

  /**
   * The written guard lets through every palette name, the key `current`
   * itself and every inherited member name, and nothing else.
   */
  lemma AcceptedAsWrittenIff(current: string, name: string)
    requires current != ""
    ensures AcceptedAsWritten(current, name) <==> Accepted(name) || name == "current" || IsObjectPrototypeMember(name)
    ensures Accepted(name) ==> AcceptedAsWritten(current, name)
  {
  }

  /** The nine custom properties `updateWebflowVariables` sets, in the order it sets them. */
  const VariableNames: seq<string> := ["--grey-ish", "--greymain", "--greymainalpha", "--textprimary",
                                       "--textdisabled", "--surface1", "--surface2", "--textonlight",
                                       "--greysecondary"]

  /**
   * The property/value pairs `updateWebflowVariables` walks through: the
   * palette's colours, or `undefined` (written as the text "undefined") for
   * a value that is not a palette.
   */
  function Variables(v: ThemeValue): (r: seq<(string, string)>)
    ensures |r| == 9 && forall i :: 0 <= i < 9 ==> r[i].0 == VariableNames[i]
    ensures !v.PaletteValue? ==> forall i :: 0 <= i < 9 ==> r[i].1 == "undefined"
  {
    match v
    case PaletteValue(p) =>
      [("--grey-ish", p.webflowGreyish), ("--greymain", p.webflowGreymain),
       ("--greymainalpha", p.webflowGreymainalpha), ("--textprimary", p.textprimary),
       ("--textdisabled", p.textdisabled), ("--surface1", p.surface1), ("--surface2", p.surface2),
       ("--textonlight", p.textonlight), ("--greysecondary", p.greysecondary)]
    case _ => seq(9, i requires 0 <= i < 9 => (VariableNames[i], "undefined"))
  }

  /** `style.setProperty(key, value)` for each pair in turn. */
  function SetAll(style: map<string, string>, pairs: seq<(string, string)>): map<string, string>
    decreases |pairs|
  {
    if pairs == [] then style else SetAll(style[pairs[0].0 := pairs[0].1], pairs[1..])
  }

  /**
   * Setting distinct properties one after another leaves each with its
   * value, adds exactly those properties and leaves every other one alone.
   */
  lemma {:induction false} SetAllEffect(style: map<string, string>, pairs: seq<(string, string)>)
    requires forall i, j :: 0 <= i < j < |pairs| ==> pairs[i].0 != pairs[j].0
    ensures forall i :: 0 <= i < |pairs| ==> pairs[i].0 in SetAll(style, pairs) && SetAll(style, pairs)[pairs[i].0] == pairs[i].1
    ensures forall k :: k in SetAll(style, pairs) <==> k in style || exists i :: 0 <= i < |pairs| && pairs[i].0 == k
    ensures forall k :: k in style && (forall i :: 0 <= i < |pairs| ==> pairs[i].0 != k) ==> SetAll(style, pairs)[k] == style[k]
    decreases |pairs|
  {
    if pairs != [] {
      var st := style[pairs[0].0 := pairs[0].1];
      SetAllEffect(st, pairs[1..]);
      forall k | k in SetAll(style, pairs) && !(k in style)
        ensures exists i :: 0 <= i < |pairs| && pairs[i].0 == k
      {
        if k != pairs[0].0 {
          assert k !in st;
          var i :| 0 <= i < |pairs[1..]| && pairs[1..][i].0 == k;
          assert pairs[i + 1].0 == k;
        }
      }
      forall k | exists i :: 0 <= i < |pairs| && pairs[i].0 == k
        ensures k in SetAll(style, pairs)
      {
        var i :| 0 <= i < |pairs| && pairs[i].0 == k;
        if i > 0 {
          assert pairs[1..][i - 1].0 == k;
        }
      }
    }
  }

  lemma VariableNamesDistinct()
    ensures forall i, j :: 0 <= i < j < 9 ==> VariableNames[i] != VariableNames[j]
  {
  }

  /** The root style after `updateWebflowVariables(v)`. */
  function ApplyVariables(style: map<string, string>, v: ThemeValue): map<string, string>
  {
    SetAll(style, Variables(v))
  }

  /**
   * `updateWebflowVariables` sets exactly the nine fixed properties, each to
   * the matching colour of a palette (or to "undefined" for any other
   * value), and leaves the rest of the root style as it was.
   */
  lemma NineVariablesSet(style: map<string, string>, v: ThemeValue)
    ensures var r := ApplyVariables(style, v);
            (forall k :: k in r <==> k in style || k in VariableNames)
            && (forall k :: k in style && k !in VariableNames ==> r[k] == style[k])
            && (forall i :: 0 <= i < 9 ==> r[VariableNames[i]] == Variables(v)[i].1)
  {
    var pairs := Variables(v);
    VariableNamesDistinct();
    assert forall i, j :: 0 <= i < j < |pairs| ==> pairs[i].0 != pairs[j].0;
    SetAllEffect(style, pairs);
    forall k ensures k in VariableNames <==> exists i :: 0 <= i < |pairs| && pairs[i].0 == k {
      if k in VariableNames {
        var i :| 0 <= i < 9 && VariableNames[i] == k;
        assert pairs[i].0 == k;
      }
    }
  }

  /** A Spline scene as the manager sees it: whether its app has loaded, and the themes applied to it. */
  datatype Scene = Scene(canvasId: string, splineUrl: string, hasApp: bool, applied: seq<string>)

  /** The scenes after `applyTheme(name)` has run on each one whose `splineApp` is set. */
  function ApplyToScenes(scenes: seq<Scene>, name: string): (r: seq<Scene>)
    ensures |r| == |scenes|
  {
    seq(|scenes|, i requires 0 <= i < |scenes| =>
      if scenes[i].hasApp then scenes[i].(applied := scenes[i].applied + [name]) else scenes[i])
  }

  /** Only loaded scenes receive the theme; every scene keeps its identity and earlier history. */
  lemma ApplyToScenesOnlyLoaded(scenes: seq<Scene>, name: string)
    ensures forall i :: 0 <= i < |scenes| ==>
              var s := ApplyToScenes(scenes, name)[i];
              s.canvasId == scenes[i].canvasId && s.hasApp == scenes[i].hasApp
              && (s.hasApp ==> s.applied == scenes[i].applied + [name])
              && (!s.hasApp ==> s.applied == scenes[i].applied)
  {
  }

  /** The state `switchTheme` works on: `splineThemes.current`, the scenes and the root style. */
  datatype ManagerState = ManagerState(current: string, scenes: seq<Scene>, rootStyle: map<string, string>)

  /** `switchTheme(name)` as written: the guard lets any truthy entry through. */
  function SwitchAsWritten(s: ManagerState, name: string): (r: ManagerState)
    ensures !AcceptedAsWritten(s.current, name) ==> r == s
    ensures AcceptedAsWritten(s.current, name) ==> r.current == name
  {
    var entry := ThemeLookup(s.current, name);
    if !Truthy(entry) then s
    else ManagerState(name, ApplyToScenes(s.scenes, name), ApplyVariables(s.rootStyle, entry.value))
  }

  /** `switchTheme(name)` with the guard restricted to the two palettes. */
  function Switch(s: ManagerState, name: string): (r: ManagerState)
    ensures !Accepted(name) ==> r == s
    ensures Accepted(name) ==> r.current == name && |r.scenes| == |s.scenes|
  {
    if !Accepted(name) then s
    else ManagerState(name, ApplyToScenes(s.scenes, name), ApplyVariables(s.rootStyle, ThemeLookup(s.current, name).value))
  }

  /**
   * The two guards agree on every palette name, so the corrected switch
   * differs from the written one only on the names it refuses.
   */
  lemma SwitchAgreesOnPalettes(s: ManagerState, name: string)
    requires Accepted(name)
    ensures Switch(s, name) == SwitchAsWritten(s, name)
  {
  }

  /** Switching to `light` or `dark` gives the page that palette's colours. */
  lemma SwitchSetsPalette(s: ManagerState, name: string)
    requires Accepted(name)
    ensures var p := if name == "light" then LightPalette else DarkPalette;
            var r := Switch(s, name).rootStyle;
            r == ApplyVariables(s.rootStyle, PaletteValue(p))
            && "--textprimary" in r && r["--textprimary"] == p.textprimary
            && "--surface1" in r && r["--surface1"] == p.surface1
  {
    var p := if name == "light" then LightPalette else DarkPalette;
    NineVariablesSet(s.rootStyle, PaletteValue(p));
    assert VariableNames[3] == "--textprimary" && VariableNames[5] == "--surface1";
  }

  /** Updating the variables a second time with the same value changes nothing. */
  lemma ApplyVariablesIdempotent(style: map<string, string>, v: ThemeValue)
    ensures ApplyVariables(ApplyVariables(style, v), v) == ApplyVariables(style, v)
  {
    var r := ApplyVariables(style, v);
    var r2 := ApplyVariables(r, v);
    NineVariablesSet(style, v);
    NineVariablesSet(r, v);
    forall k | k in r2
      ensures k in r && r2[k] == r[k]
    {
      if k in VariableNames {
        var i :| 0 <= i < 9 && VariableNames[i] == k;
      }
    }
  }

  /** Switching to the theme already shown changes no colour variable. */
  lemma SwitchTwiceKeepsStyle(s: ManagerState, name: string)
    ensures Switch(Switch(s, name), name).rootStyle == Switch(s, name).rootStyle
  {
    if Accepted(name) {
      ApplyVariablesIdempotent(Switch(s, name).rootStyle, ThemeLookup(s.current, name).value);
      ApplyVariablesIdempotent(s.rootStyle, ThemeLookup(s.current, name).value);
    }
  }

  /**
   * The written guard accepts the key `current`: `current` then holds the
   * word "current" and all nine colour variables become "undefined".
   */
  lemma CurrentNameBlanksVariables(s: ManagerState)
    requires s.current != ""
    ensures AcceptedAsWritten(s.current, "current") && !Accepted("current")
    ensures var r := SwitchAsWritten(s, "current");
            r.current == "current"
            && forall i :: 0 <= i < 9 ==> VariableNames[i] in r.rootStyle && r.rootStyle[VariableNames[i]] == "undefined"
  {
    NineVariablesSet(s.rootStyle, NameValue(s.current));
  }

  /**
   * What `calculateDesiredRatio` reads from the browser: the outcome of the
   * three user-agent tests, and `navigator.deviceMemory` and
   * `navigator.hardwareConcurrency` (`None` when undefined).
   */
  datatype Navigator = Navigator(isSafari: bool, isMobile: bool, isIOS: bool,
                                 deviceMemory: Option<real>, hardwareConcurrency: Option<int>)

  predicate IsLowRAM(n: Navigator) {
    n.deviceMemory.Some? && n.deviceMemory.value < 4.0
  }

  predicate IsLowCPU(n: Navigator) {
    n.hardwareConcurrency.Some? && n.hardwareConcurrency.value <= 4
  }

  /** `calculateDesiredRatio`: the device pixel ratio the scenes render at. */
  function DesiredRatio(n: Navigator): (r: real)
    ensures 0.85 <= r <= 1.2
  {
    var lowResources := IsLowRAM(n) || IsLowCPU(n);
    if n.isSafari then (if n.isMobile || n.isIOS then 1.2 else 0.85)
    else if n.isMobile && (lowResources || n.isIOS) then 1.0
    else if n.isMobile then 1.2
    else if lowResources then 0.9
    else 1.15
  }

  /**
   * Safari takes precedence: its ratio depends only on whether the device is
   * mobile or iOS, never on memory or cores.
   */
  lemma SafariTakesPrecedence(n: Navigator, m: Navigator)
    requires n.isSafari && m.isSafari && (n.isMobile || n.isIOS) == (m.isMobile || m.isIOS)
    ensures DesiredRatio(n) == DesiredRatio(m)
    ensures DesiredRatio(n) == 1.2 <==> n.isMobile || n.isIOS
    ensures !(n.isMobile || n.isIOS) ==> DesiredRatio(n) == 0.85
  {
  }

  /**
   * Outside Safari: a mobile device renders at 1 when it is short of memory
   * or cores or runs iOS, else at 1.2; a desktop at 0.9 when short of
   * memory or cores, else at 1.15; unknown memory and cores count as enough.
   */
  lemma RatioOutsideSafari(n: Navigator)
    requires !n.isSafari
    ensures n.isMobile ==> (DesiredRatio(n) == 1.0 <==> IsLowRAM(n) || IsLowCPU(n) || n.isIOS)
    ensures n.isMobile ==> (DesiredRatio(n) == 1.2 <==> !(IsLowRAM(n) || IsLowCPU(n) || n.isIOS))
    ensures !n.isMobile ==> (DesiredRatio(n) == 0.9 <==> IsLowRAM(n) || IsLowCPU(n))
    ensures !n.isMobile ==> (DesiredRatio(n) == 1.15 <==> !(IsLowRAM(n) || IsLowCPU(n)))
    ensures !n.isMobile && n.deviceMemory.None? && n.hardwareConcurrency.None? ==> DesiredRatio(n) == 1.15
  {
  }

  /**
   * What `window.switchSplineTheme` is: the manager's bound `switchTheme`,
   * possibly wrapped by theme switchers.
   */
  datatype SwitchFn = ManagerSwitch | Wrapper(inner: SwitchFn)

  /** The calls one invocation of `window.switchSplineTheme(name)` makes, in order. */
  datatype Call = ManagerCalled(name: string) | ButtonsUpdated(name: string)

  function Depth(f: SwitchFn): nat {
    match f
    case ManagerSwitch => 0
    case Wrapper(inner) => 1 + Depth(inner)
  }

  function Calls(f: SwitchFn, name: string): seq<Call> {
    match f
    case ManagerSwitch => [ManagerCalled(name)]
    case Wrapper(inner) => Calls(inner, name) + [ButtonsUpdated(name)]
  }

  /**
   * Each wrapper calls the function it wrapped first and updates the buttons
   * after: the manager switches the theme exactly once, before every
   * button update.
   */
  lemma {:induction false} ManagerCalledFirst(f: SwitchFn, name: string)
    ensures Calls(f, name) == [ManagerCalled(name)] + seq(Depth(f), _ => ButtonsUpdated(name))
  {
    match f
    case ManagerSwitch =>
    case Wrapper(inner) =>
      ManagerCalledFirst(inner, name);
  }

  /** `extendSplineTheme`: a global function is wrapped; without one there is nothing to wrap. */
  function Extend(f: Option<SwitchFn>): (r: Option<SwitchFn>)
    ensures f.None? <==> r.None?
    ensures f.Some? ==> r.value.Wrapper? && r.value.inner == f.value
  {
    if f.Some? then Some(Wrapper(f.value)) else None
  }

  /** The selected-button classes `updateButtonStyles(name)` leaves: (light, dark). */
  function ButtonSelection(name: string): (r: (bool, bool))
    ensures !(r.0 && r.1)
    ensures r.0 <==> name == "light"
    ensures r.1 <==> name == "dark"
  {
    (name == "light", name == "dark")
  }

  /** The window globals the two scripts share. */
  class Window {
    /** `window.splineRuntimePromise` exists, and how many runtime imports were started. */
    var runtimePromise: bool
    var runtimeImports: nat
    /** The manager behind `window.splineThemes`, once one exists. */
    var manager: SplineManager?
    var switchFn: Option<SwitchFn>

    constructor ()
      ensures !runtimePromise && runtimeImports == 0 && manager == null && switchFn == None
    {
      runtimePromise, runtimeImports, manager, switchFn := false, 0, null, None;
    }

    /** `window.switchSplineTheme`, when set, leads to a manager. */
    ghost predicate Valid()
      reads this
    {
      switchFn.Some? ==> manager != null
    }
  }

  class SplineManager {
    var current: string
    var scenes: seq<Scene>
    var rootStyle: map<string, string>
    /** `DESIRED_RATIO`, which `window.devicePixelRatio` returns from now on. */
    const desiredRatio: real

    ghost function State(): ManagerState
      reads this
    {
      ManagerState(current, scenes, rootStyle)
    }

    /**
     * `new SplineManager()`: starts the runtime import unless a promise
     * already exists, publishes the theme table with `current` at `dark`
     * and the bound `switchTheme`, and fixes the pixel ratio.
     */
    constructor (w: Window, n: Navigator, style: map<string, string>)
      modifies w
      ensures current == InitialTheme && scenes == [] && rootStyle == style && desiredRatio == DesiredRatio(n)
      ensures w.runtimePromise
      ensures w.runtimeImports == old(w.runtimeImports) + (if old(w.runtimePromise) then 0 else 1)
      ensures w.manager == this && w.switchFn == Some(ManagerSwitch) && w.Valid()
    {
      current := "dark";
      scenes := [];
      rootStyle := style;
      desiredRatio := DesiredRatio(n);
      new;
      if !w.runtimePromise {
        w.runtimePromise := true;
        w.runtimeImports := w.runtimeImports + 1;
      }
      w.manager := this;
      w.switchFn := Some(ManagerSwitch);
    }

    /** `switchTheme(name)` with the written guard. */
    method SwitchThemeAsWritten(name: string)
      modifies this
      ensures State() == SwitchAsWritten(old(State()), name)
    {
      var entry := ThemeLookup(current, name);
      if !Truthy(entry) {
        return;
      }
      current := name;
      ApplyThemeToScenes(name);
      UpdateWebflowVariables(entry.value);
    }

    /** `switchTheme(name)`, accepting only the two palette names. */
    method SwitchTheme(name: string) returns (accepted: bool)
      modifies this
      ensures accepted == Accepted(name)
      ensures State() == Switch(old(State()), name)
    {
      accepted := name == "light" || name == "dark";
      if !accepted {
        return;
      }
      var themeVars := ThemeLookup(current, name).value;
      current := name;
      ApplyThemeToScenes(name);
      UpdateWebflowVariables(themeVars);
    }

    /** The `forEach` over the scenes inside `switchTheme`. */
    method ApplyThemeToScenes(name: string)
      modifies this
      ensures scenes == ApplyToScenes(old(scenes), name)
      ensures current == old(current) && rootStyle == old(rootStyle)
    {
      var updated: seq<Scene> := [];
      var i := 0;
      while i < |scenes|
        invariant 0 <= i <= |scenes| && |updated| == i
        invariant forall k :: 0 <= k < i ==> updated[k] == ApplyToScenes(scenes, name)[k]
      {
        var scene := scenes[i];
        if scene.hasApp {
          scene := scene.(applied := scene.applied + [name]);
        }
        updated := updated + [scene];
        i := i + 1;
      }
      scenes := updated;
    }

    /** `updateWebflowVariables(themeVars)`: one `setProperty` per pair. */
    method UpdateWebflowVariables(themeVars: ThemeValue)
      modifies this
      ensures rootStyle == ApplyVariables(old(rootStyle), themeVars)
      ensures current == old(current) && scenes == old(scenes)
    {
      var pairs := Variables(themeVars);
      var style := rootStyle;
      var i := 0;
      while i < |pairs|
        invariant 0 <= i <= |pairs|
        invariant SetAll(style, pairs[i..]) == SetAll(rootStyle, pairs)
      {
        assert pairs[i..][1..] == pairs[i + 1..];
        style := style[pairs[i].0 := pairs[i].1];
        i := i + 1;
      }
      rootStyle := style;
    }

    /** `createScene`: the new scene, not yet loaded, is appended and returned. */
    method CreateScene(canvasId: string, splineUrl: string) returns (scene: Scene)
      modifies this
      ensures scene == Scene(canvasId, splineUrl, false, [])
      ensures scenes == old(scenes) + [scene] && |scenes| == |old(scenes)| + 1
      ensures current == old(current) && rootStyle == old(rootStyle)
    {
      scene := Scene(canvasId, splineUrl, false, []);
      scenes := scenes + [scene];
    }
  }

  /** A second manager finds the runtime promise and starts no second import. */
  method TwoManagers(n: Navigator) returns (w: Window)
    ensures w.runtimeImports == 1
  {
    w := new Window();
    var first := new SplineManager(w, n, map[]);
    var second := new SplineManager(w, n, map[]);
  }

  class ThemeSwitcher {
    const lightPresent: bool
    const darkPresent: bool
    /** Whether each button carries `theme-btn-selected`. */
    var lightSelected: bool
    var darkSelected: bool
    /** The click listeners are attached. */
    var listening: bool

    ghost predicate Active()
      reads this
    {
      lightPresent && darkPresent
    }

    /**
     * `new ThemeSwitcher()`: inert when either button is missing. Otherwise
     * it wraps `window.switchSplineTheme` if there is one, attaches the two
     * click listeners, and marks the button of `splineThemes.current` when
     * the table exists.
     */
    constructor (w: Window, light: bool, dark: bool, lightSel: bool, darkSel: bool)
      requires w.Valid()
      modifies w
      ensures lightPresent == light && darkPresent == dark && w.Valid()
      ensures !(light && dark) ==> !listening && lightSelected == lightSel && darkSelected == darkSel
                                   && w.switchFn == old(w.switchFn)
      ensures light && dark ==> listening && w.switchFn == Extend(old(w.switchFn))
      ensures light && dark && w.manager != null ==>
                (lightSelected, darkSelected) == ButtonSelection(w.manager.current)
      ensures light && dark && w.manager == null ==> lightSelected == lightSel && darkSelected == darkSel
      ensures w.manager == old(w.manager) && w.runtimePromise == old(w.runtimePromise)
      ensures w.runtimeImports == old(w.runtimeImports)
    {
      lightPresent, darkPresent := light, dark;
      lightSelected, darkSelected := lightSel, darkSel;
      listening := false;
      new;
      if !light || !dark {
        return;
      }
      if w.switchFn.Some? {
        w.switchFn := Some(Wrapper(w.switchFn.value));
      }
      listening := true;
      if w.manager != null {
        UpdateButtonStyles(w.manager.current);
      }
    }

    /** `updateButtonStyles(name)`: clears both buttons, then marks the one named, if any. */
    method UpdateButtonStyles(name: string)
      requires Active()
      modifies this
      ensures (lightSelected, darkSelected) == ButtonSelection(name)
      ensures listening == old(listening)
    {
      lightSelected := false;
      darkSelected := false;
      if name == "light" {
        lightSelected := true;
      } else if name == "dark" {
        darkSelected := true;
      }
    }

    /**
     * `window.switchSplineTheme(name)` with this switcher's wrapper around
     * the manager: the manager switches first, then the buttons follow.
     */
    method CallGlobal(w: Window, name: string)
      requires Active() && w.Valid() && w.switchFn == Some(Wrapper(ManagerSwitch))
      modifies this, w.manager
      ensures w.manager.State() == SwitchAsWritten(old(w.manager.State()), name)
      ensures (lightSelected, darkSelected) == ButtonSelection(name)
      ensures listening == old(listening)
    {
      w.manager.SwitchThemeAsWritten(name);
      UpdateButtonStyles(name);
    }

    /**
     * `switchTheme(name)`: delegates to `window.switchSplineTheme` only when
     * it exists; the unwrapped function leaves the buttons alone.
     */
    method SwitchTheme(w: Window, name: string)
      requires Active() && w.Valid()
      requires w.switchFn.None? || w.switchFn == Some(ManagerSwitch) || w.switchFn == Some(Wrapper(ManagerSwitch))
      modifies this, w.manager
      ensures w.switchFn.None? ==> lightSelected == old(lightSelected) && darkSelected == old(darkSelected)
      ensures w.switchFn.None? && w.manager != null ==> w.manager.State() == old(w.manager.State())
      ensures w.switchFn.Some? ==> w.manager.State() == SwitchAsWritten(old(w.manager.State()), name)
      ensures w.switchFn == Some(ManagerSwitch) ==> lightSelected == old(lightSelected) && darkSelected == old(darkSelected)
      ensures w.switchFn == Some(Wrapper(ManagerSwitch)) ==> (lightSelected, darkSelected) == ButtonSelection(name)
      ensures listening == old(listening)
    {
      if w.switchFn.Some? {
        w.manager.SwitchThemeAsWritten(name);
        if w.switchFn.value.Wrapper? {
          UpdateButtonStyles(name);
        }
      }
    }
  }

  /**
   * The page with a manager and a switcher: a click on the light button
   * selects the light theme, marks only the light button and gives the
   * page the light palette.
   */
  method LightClick(n: Navigator, style: map<string, string>) returns (w: Window, m: SplineManager, t: ThemeSwitcher)
    ensures m.current == "light" && t.lightSelected && !t.darkSelected
    ensures m.rootStyle == ApplyVariables(style, PaletteValue(LightPalette))
  {
    w := new Window();
    m := new SplineManager(w, n, style);
    t := new ThemeSwitcher(w, true, true, false, false);
    assert t.darkSelected;
    ghost var before := m.State();
    t.CallGlobal(w, "light");
    SwitchAgreesOnPalettes(before, "light");
  }
}
