/** Accessibility support (`pyword/features/accessibility.py`): screen-reader
    announcements and landmarks, keyboard shortcuts, high-contrast themes,
    text-to-speech state, and the manager that switches these features on
    and off by level. Signals are recorded as the announcements they carry;
    Qt widgets, palettes and the speech engine are not modelled. */
module Accessibility {
  import opened Common

  datatype AccessibilityLevel = NoneLevel | Basic | Full

  // ---------------------------------------------------------------------
  // Screen reader

  datatype Landmark = Landmark(name: string, elementType: string, position: int)

  /** One `announcement_requested` emission: message and priority. */
  datatype Announcement = Announcement(message: string, priority: int)

  const EnabledMessage: string := "Screen reader support enabled"

  /** `get_landmarks`: the landmarks of one type, in registration order. */
  function LandmarksOfType(ls: seq<Landmark>, t: string): (r: seq<Landmark>)
    ensures |r| <= |ls|
    ensures forall l :: l in r <==> l in ls && l.elementType == t
  {
    Filter(ls, (l: Landmark) => l.elementType == t)
  }

  /** Registering a landmark extends the filtered list at its end exactly
      when the landmark has the requested type. */
  lemma LandmarksOfTypeSnoc(ls: seq<Landmark>, l: Landmark, t: string)
    ensures LandmarksOfType(ls + [l], t)
         == LandmarksOfType(ls, t) + (if l.elementType == t then [l] else [])
  {
    var p := (x: Landmark) => x.elementType == t;
    FilterAppend(ls, [l], p);
    assert Filter([l], p) == (if p(l) then [l] else []) + Filter([l][1..], p);
    assert [l][1..] == [];
  }

  /** `announce_document_position`. */
  function PositionMessage(line: int, column: int, totalLines: int): (m: string)
    ensures StartsWith(m, "Line " + IntToString(line))
  {
    "Line " + IntToString(line) + " of " + IntToString(totalLines) + ", column " + IntToString(column)
  }

  /** The selection preview: at most 50 characters, marked when cut. */
  function Preview(text: string): (p: string)
    ensures |text| <= 50 ==> p == text
    ensures |text| > 50 ==> |p| == 53 && StartsWith(p, text[..50]) && p[50..] == "..."
  {
    if |text| > 50 then text[..50] + "..." else text
  }

  /** `announce_selection`: message and priority. */
  function SelectionAnnouncement(text: string, charCount: int): (a: Announcement)
    ensures charCount == 0 ==> a == Announcement("Selection cleared", 0)
    ensures charCount != 0 ==> a.priority == 1 && StartsWith(a.message, "Selected " + IntToString(charCount))
  {
    if charCount == 0 then Announcement("Selection cleared", 0)
    else Announcement("Selected " + IntToString(charCount) + " characters: " + Preview(text), 1)
  }

  function FormattingParts(bold: bool, italic: bool, underline: bool): (ps: seq<string>)
    ensures |ps| == (if bold then 1 else 0) + (if italic then 1 else 0) + (if underline then 1 else 0)
    ensures "bold" in ps <==> bold
    ensures "italic" in ps <==> italic
    ensures "underlined" in ps <==> underline
  {
    (if bold then ["bold"] else []) + (if italic then ["italic"] else []) + (if underline then ["underlined"] else [])
  }

  /** `announce_formatting`, with the truthiness of the three keys given. */
  function FormattingMessage(bold: bool, italic: bool, underline: bool): (m: string)
    ensures !bold && !italic && !underline ==> m == "No formatting"
    ensures bold || italic || underline ==> StartsWith(m, "Formatting: ")
  {
    var parts := FormattingParts(bold, italic, underline);
    if parts == [] then "No formatting" else "Formatting: " + Join(", ", parts)
  }

  class ScreenReaderSupport {
    var enabled: bool
    var landmarks: seq<Landmark>
    /** Every announcement emitted so far, oldest first. */
    var announced: seq<Announcement>

    constructor ()
      ensures enabled && landmarks == [] && announced == []
    {
      enabled := true;
      landmarks := [];
      announced := [];
    }

    /** `announce`: emitted only while enabled. */
    method Announce(message: string, priority: int)
      modifies this`announced
      ensures enabled ==> announced == old(announced) + [Announcement(message, priority)]
      ensures !enabled ==> announced == old(announced)
    {
      if enabled {
        announced := announced + [Announcement(message, priority)];
      }
    }

    method Enable()
      modifies this`enabled, this`announced
      ensures enabled
      ensures announced == old(announced) + [Announcement(EnabledMessage, 1)]
    {
      enabled := true;
      Announce(EnabledMessage, 1);
    }

    method Disable()
      modifies this`enabled
      ensures !enabled
    {
      enabled := false;
    }

    method AnnounceDocumentPosition(line: int, column: int, totalLines: int)
      modifies this`announced
      ensures enabled ==> announced == old(announced) + [Announcement(PositionMessage(line, column, totalLines), 0)]
      ensures !enabled ==> announced == old(announced)
    {
      Announce(PositionMessage(line, column, totalLines), 0);
    }

    method AnnounceSelection(text: string, charCount: int)
      modifies this`announced
      ensures enabled ==> announced == old(announced) + [SelectionAnnouncement(text, charCount)]
      ensures !enabled ==> announced == old(announced)
    {
      var a := SelectionAnnouncement(text, charCount);
      Announce(a.message, a.priority);
    }

    method AnnounceFormatting(bold: bool, italic: bool, underline: bool)
      modifies this`announced
      ensures enabled ==> announced == old(announced) + [Announcement(FormattingMessage(bold, italic, underline), 0)]
      ensures !enabled ==> announced == old(announced)
    {
      Announce(FormattingMessage(bold, italic, underline), 0);
    }

    method RegisterLandmark(name: string, elementType: string, position: int)
      modifies this`landmarks
      ensures landmarks == old(landmarks) + [Landmark(name, elementType, position)]
    {
      landmarks := landmarks + [Landmark(name, elementType, position)];
    }

    /** `get_landmarks`: filtered by type when one is given and non-empty. */
    function GetLandmarks(elementType: Option<string>): (r: seq<Landmark>)
      reads this
      ensures !Truthy(elementType) ==> r == landmarks
      ensures Truthy(elementType) ==> forall l :: l in r <==> l in landmarks && l.elementType == elementType.value
    {
      if Truthy(elementType) then LandmarksOfType(landmarks, elementType.value) else landmarks
    }

    method ClearLandmarks()
      modifies this`landmarks
      ensures landmarks == []
    {
      landmarks := [];
    }
  }

  // ---------------------------------------------------------------------
  // Keyboard navigation

  /** The shortcuts `_setup_navigation_shortcuts` registers, with their
      descriptions. */
  /** The eleven key sequences navigation mode registers. */
  const NavigationKeys: set<string> := {"Ctrl+Up", "Ctrl+Down", "Alt+Up", "Alt+Down", "Ctrl+Alt+T", "Ctrl+Alt+I",
                                        "Ctrl+Alt+L", "F6", "Shift+F6", "Ctrl+Shift+A", "F1"}

  function NavigationShortcuts(): (m: map<string, string>)
    ensures m.Keys == NavigationKeys
    ensures "F1" in m && m["F1"] == "Show keyboard shortcuts"
    ensures "Ctrl+Up" in m && m["Ctrl+Up"] == "Move to previous paragraph"
  {
    map["Ctrl+Up" := "Move to previous paragraph", "Ctrl+Down" := "Move to next paragraph",
        "Alt+Up" := "Move to previous heading", "Alt+Down" := "Move to next heading",
        "Ctrl+Alt+T" := "Move to next table", "Ctrl+Alt+I" := "Move to next image",
        "Ctrl+Alt+L" := "Move to next list", "F6" := "Cycle through panels",
        "Shift+F6" := "Cycle through panels (reverse)",
        "Ctrl+Shift+A" := "Toggle accessibility panel", "F1" := "Show keyboard shortcuts"]
  }

  class KeyboardNavigation {
    /** Whether the object has a parent widget; without one no shortcut is
        ever registered. */
    const hasParent: bool
    /** Registered key sequences and their descriptions. */
    var shortcuts: map<string, string>
    var navigationMode: bool

    constructor (hasParent: bool)
      ensures this.hasParent == hasParent && shortcuts == map[] && !navigationMode
    {
      this.hasParent := hasParent;
      shortcuts := map[];
      navigationMode := false;
    }

    /** `register_shortcut`: a later registration replaces the earlier one. */
    method RegisterShortcut(keySequence: string, description: string)
      modifies this`shortcuts
      ensures hasParent ==> shortcuts == old(shortcuts)[keySequence := description]
      ensures !hasParent ==> shortcuts == old(shortcuts)
    {
      if hasParent {
        shortcuts := shortcuts[keySequence := description];
      }
    }

    /** `enable_navigation_mode` with `_setup_navigation_shortcuts`. */
    method EnableNavigationMode()
      modifies this`shortcuts, this`navigationMode
      ensures navigationMode
      ensures hasParent ==> shortcuts == old(shortcuts) + NavigationShortcuts()
      ensures !hasParent ==> shortcuts == old(shortcuts)
    {
      navigationMode := true;
      if hasParent {
        shortcuts := shortcuts + NavigationShortcuts();
      }
    }

    method DisableNavigationMode()
      modifies this`navigationMode
      ensures !navigationMode
    {
      navigationMode := false;
    }

    method UnregisterShortcut(keySequence: string)
      modifies this`shortcuts
      ensures shortcuts == old(shortcuts) - {keySequence}
    {
      if keySequence in shortcuts {
        shortcuts := shortcuts - {keySequence};
      }
    }

    /** `get_all_shortcuts`: key sequence to description. */
    function GetAllShortcuts(): (m: map<string, string>)
      reads this
      ensures m.Keys == shortcuts.Keys
      ensures forall k :: k in m ==> m[k] == shortcuts[k]
    {
      shortcuts
    }
  }

  /** With a parent, every navigation shortcut is listed after navigation
      mode is enabled, whatever was registered before. */
  lemma NavigationShortcutsListed(old_: map<string, string>, k: string)
    requires k in NavigationShortcuts()
    ensures k in old_ + NavigationShortcuts()
    ensures (old_ + NavigationShortcuts())[k] == NavigationShortcuts()[k]
  {
  }

  // ---------------------------------------------------------------------
  // High contrast

  type Palette = map<string, string>

  const PaletteRoles: set<string> := {"name", "background", "foreground", "selection_bg", "selection_fg"}

  function BasePalette(name: string, background: string, foreground: string, selectionBg: string, selectionFg: string): (p: Palette)
    ensures p.Keys == PaletteRoles
  {
    map["name" := name, "background" := background, "foreground" := foreground,
        "selection_bg" := selectionBg, "selection_fg" := selectionFg]
  }

  /** The built-in theme names, in definition order. */
  const BuiltinOrder: seq<string> := ["default", "high_contrast_black", "high_contrast_white", "high_contrast_green", "yellow_black"]

  /** `_define_themes`: every built-in theme has the five colours the
      palette needs. */
  function BuiltinThemes(): (m: map<string, Palette>)
    ensures forall k :: k in m <==> k in BuiltinOrder
    ensures forall k :: k in m ==> PaletteRoles <= m[k].Keys
  {
    map["default" := BasePalette("Default", "#FFFFFF", "#000000", "#0078D7", "#FFFFFF"),
        "high_contrast_black" := BasePalette("High Contrast Black", "#000000", "#FFFFFF", "#00FF00", "#000000")["link" := "#00FFFF"]["button" := "#FFFF00"],
        "high_contrast_white" := BasePalette("High Contrast White", "#FFFFFF", "#000000", "#FF0000", "#FFFFFF")["link" := "#0000FF"]["button" := "#000080"],
        "high_contrast_green" := BasePalette("High Contrast Green", "#000000", "#00FF00", "#FFFF00", "#000000")["link" := "#00FFFF"],
        "yellow_black" := BasePalette("Yellow on Black", "#000000", "#FFFF00", "#FF00FF", "#000000")]
  }

  /** The built-in order names each built-in theme once. */
  lemma BuiltinOrderDistinct()
    ensures Distinct(BuiltinOrder)
  {
  }

  class HighContrastMode {
    var currentTheme: string
    var themes: map<string, Palette>
    /** Built-in theme names in definition order. */
    var themeOrder: seq<string>
    var customThemes: map<string, Palette>
    /** Custom theme names in first-insertion order. */
    var customOrder: seq<string>

    /** Each order lists its dictionary's keys once. */
    predicate Valid()
      reads this
    {
      Distinct(themeOrder) && (forall k :: k in themes ==> k in themeOrder) && (forall k :: k in themeOrder ==> k in themes) &&
      Distinct(customOrder) && (forall k :: k in customThemes ==> k in customOrder) && (forall k :: k in customOrder ==> k in customThemes)
    }

    constructor ()
      ensures Valid()
      ensures currentTheme == "default" && themes == BuiltinThemes() && themeOrder == BuiltinOrder
      ensures customThemes == map[] && customOrder == []
    {
      BuiltinOrderDistinct();
      currentTheme := "default";
      themes := BuiltinThemes();
      themeOrder := BuiltinOrder;
      customThemes := map[];
      customOrder := [];
    }

    /** `set_theme`: only a built-in or custom name is accepted. */
    method SetTheme(name: string) returns (ok: bool)
      modifies this`currentTheme
      ensures ok <==> name in themes || name in customThemes
      ensures ok ==> currentTheme == name
      ensures !ok ==> currentTheme == old(currentTheme)
    {
      if name !in themes && name !in customThemes {
        return false;
      }
      currentTheme := name;
      return true;
    }

    /** `add_custom_theme`: a new name goes at the end of the order, a
        known one keeps its place and gets the new colours. */
    method AddCustomTheme(name: string, colors: Palette)
      requires Valid()
      modifies this`customThemes, this`customOrder
      ensures Valid()
      ensures customThemes == old(customThemes)[name := colors]
      ensures name in old(customThemes) ==> customOrder == old(customOrder)
      ensures name !in old(customThemes) ==> customOrder == old(customOrder) + [name]
    {
      if name !in customThemes {
        DistinctSnoc(customOrder, name);
        customOrder := customOrder + [name];
      }
      customThemes := customThemes[name := colors];
    }

    /** `get_available_themes`: built-in names, then custom names. */
    function GetAvailableThemes(): (r: seq<string>)
      requires Valid()
      reads this
      ensures |r| == |themeOrder| + |customOrder|
      ensures r[..|themeOrder|] == themeOrder && r[|themeOrder|..] == customOrder
      ensures forall k :: k in r <==> k in themes || k in customThemes
    {
      assert forall k :: k in themeOrder + customOrder <==> k in themeOrder || k in customOrder;
      themeOrder + customOrder
    }

    function GetCurrentTheme(): (r: string)
      reads this
      ensures r == currentTheme
    {
      currentTheme
    }
  }

  // ---------------------------------------------------------------------
  // Text to speech

  const MinRate: real := 0.5
  const MaxRate: real := 2.0

  /** `max(0.5, min(2.0, rate))`. */
  function ClampRate(rate: real): (r: real)
    ensures MinRate <= r <= MaxRate
    ensures MinRate <= rate <= MaxRate ==> r == rate
    ensures rate < MinRate ==> r == MinRate
    ensures rate > MaxRate ==> r == MaxRate
  {
    if rate < MinRate then MinRate else if rate > MaxRate then MaxRate else rate
  }

  lemma ClampRateIdempotent(rate: real)
    ensures ClampRate(ClampRate(rate)) == ClampRate(rate)
  {
  }

  class TextToSpeech {
    /** Whether a speech engine could be initialised. */
    const engine: bool
    var isSpeaking: bool
    var isPaused: bool
    var currentText: string
    var speechRate: real
    var voice: string

    /** Speech is only ever paused while speaking. */
    predicate Valid()
      reads this
    {
      isPaused ==> isSpeaking
    }

    constructor (engine: bool)
      ensures this.engine == engine && Valid()
      ensures !isSpeaking && !isPaused && currentText == "" && speechRate == 1.0 && voice == "default"
    {
      this.engine := engine;
      isSpeaking := false;
      isPaused := false;
      currentText := "";
      speechRate := 1.0;
      voice := "default";
    }

    /** `speak`: empty text is ignored. */
    method Speak(text: string)
      modifies this`currentText, this`isSpeaking, this`isPaused
      ensures Valid()
      ensures text != "" ==> currentText == text && isSpeaking && !isPaused
      ensures text == "" ==> currentText == old(currentText) && isSpeaking == old(isSpeaking) && isPaused == old(isPaused)
      requires Valid()
    {
      if text == "" {
        return;
      }
      currentText := text;
      isSpeaking := true;
      isPaused := false;
    }

    method Stop()
      modifies this`isSpeaking, this`isPaused
      ensures Valid() && !isSpeaking && !isPaused
    {
      isSpeaking := false;
      isPaused := false;
    }

    /** `pause`: only a running, unpaused speech is paused. */
    method Pause()
      requires Valid()
      modifies this`isPaused
      ensures Valid()
      ensures old(isSpeaking) ==> isPaused
      ensures !old(isSpeaking) ==> isPaused == old(isPaused)
    {
      if isSpeaking && !isPaused {
        isPaused := true;
      }
    }

    /** `resume`: unpauses, and with an engine speaks the current text
        again. */
    method Resume()
      requires Valid()
      modifies this`isPaused, this`isSpeaking, this`currentText
      ensures Valid() && currentText == old(currentText)
      ensures old(isPaused) ==> !isPaused
      ensures old(isPaused) ==> isSpeaking
      ensures !old(isPaused) ==> isPaused == old(isPaused) && isSpeaking == old(isSpeaking)
    {
      if isPaused {
        isPaused := false;
        if engine && currentText != "" {
          Speak(currentText);
        }
      }
    }

    method SetRate(rate: real)
      modifies this`speechRate
      ensures speechRate == ClampRate(rate)
      ensures MinRate <= speechRate <= MaxRate
    {
      speechRate := ClampRate(rate);
    }

    /** `set_voice`, without the engine's voice lookup. */
    method SetVoice(voiceId: string)
      modifies this`voice
      ensures voice == voiceId
    {
      voice := voiceId;
    }
  }

  // ---------------------------------------------------------------------
  // Manager

  /** The feature names in the dictionary's insertion order. */
  const FeatureOrder: seq<string> := ["screen_reader", "keyboard_nav", "high_contrast", "tts"]

  const FeatureNames: set<string> := {"screen_reader", "keyboard_nav", "high_contrast", "tts"}

  function DefaultFeatures(): (f: map<string, bool>)
    ensures f.Keys == FeatureNames
    ensures f["screen_reader"] && f["keyboard_nav"] && !f["high_contrast"] && f["tts"]
  {
    map["screen_reader" := true, "keyboard_nav" := true, "high_contrast" := false, "tts" := true]
  }

  /** Setting one known flag; an unknown name changes nothing. */
  function SetFlag(f: map<string, bool>, name: string, v: bool): (g: map<string, bool>)
    ensures g.Keys == f.Keys
    ensures name in f ==> g[name] == v
    ensures forall k :: k in f && k != name ==> g[k] == f[k]
  {
    if name in f then f[name := v] else f
  }

  /** Every flag set to `v`. */
  function AllFlags(f: map<string, bool>, v: bool): (g: map<string, bool>)
    ensures g.Keys == f.Keys
    ensures forall k :: k in g ==> g[k] == v
  {
    map k | k in f :: v
  }

  /** The flags `set_accessibility_level` leaves. */
  function WithLevel(f: map<string, bool>, level: AccessibilityLevel): (g: map<string, bool>)
  {
    match level
    case NoneLevel => AllFlags(f, false)
    case Basic => SetFlag(SetFlag(f, "screen_reader", true), "keyboard_nav", true)
    case Full => AllFlags(f, true)
  }

  /** `is_feature_enabled`: an unknown feature is off. */
  function FeatureEnabled(f: map<string, bool>, name: string): (b: bool)
    ensures b <==> name in f && f[name]
  {
    if name in f then f[name] else false
  }

  /** NONE switches every feature off, FULL every one on, and BASIC only
      the screen reader and keyboard navigation, keeping the rest. */
  lemma {:induction false} WithLevelFlags(f: map<string, bool>, k: string)
    requires f.Keys == FeatureNames
    ensures !FeatureEnabled(WithLevel(f, NoneLevel), k)
    ensures FeatureEnabled(WithLevel(f, Full), k) <==> k in FeatureNames
    ensures k == "screen_reader" || k == "keyboard_nav" ==> FeatureEnabled(WithLevel(f, Basic), k)
    ensures k != "screen_reader" && k != "keyboard_nav" ==> FeatureEnabled(WithLevel(f, Basic), k) == FeatureEnabled(f, k)
    ensures WithLevel(f, NoneLevel).Keys == WithLevel(f, Basic).Keys == WithLevel(f, Full).Keys == FeatureNames
  {
    var b1 := SetFlag(f, "screen_reader", true);
    var b2 := SetFlag(b1, "keyboard_nav", true);
    assert WithLevel(f, Basic) == b2;
  }

  /** Setting a level is idempotent. */
  lemma WithLevelIdempotent(f: map<string, bool>, level: AccessibilityLevel)
    ensures WithLevel(WithLevel(f, level), level) == WithLevel(f, level)
  {
    var g := WithLevel(f, level);
    match level {
      case NoneLevel =>
        assert AllFlags(g, false) == g;
      case Full =>
        assert AllFlags(g, true) == g;
      case Basic =>
        var h := SetFlag(SetFlag(g, "screen_reader", true), "keyboard_nav", true);
        assert h.Keys == g.Keys;
        assert forall k :: k in h ==> h[k] == g[k];
    }
  }

  class AccessibilityManager {
    const screenReader: ScreenReaderSupport
    const keyboardNav: KeyboardNavigation
    const highContrast: HighContrastMode
    const tts: TextToSpeech
    var level: AccessibilityLevel
    var features: map<string, bool>

    predicate Valid()
      reads this
    {
      features.Keys == FeatureNames
    }

    constructor (hasParent: bool, engine: bool)
      ensures Valid() && level == Basic && features == DefaultFeatures()
      ensures fresh(screenReader) && fresh(keyboardNav) && fresh(highContrast) && fresh(tts)
      ensures screenReader.enabled && screenReader.landmarks == [] && screenReader.announced == []
      ensures keyboardNav.hasParent == hasParent && keyboardNav.shortcuts == map[] && !keyboardNav.navigationMode
      ensures tts.engine == engine && !tts.isSpeaking && !tts.isPaused
    {
      screenReader := new ScreenReaderSupport();
      keyboardNav := new KeyboardNavigation(hasParent);
      highContrast := new HighContrastMode();
      tts := new TextToSpeech(engine);
      level := Basic;
      features := DefaultFeatures();
    }

    /** `enable_feature`: sets a known flag and switches its component on. */
    method EnableFeature(name: string)
      modifies this`features, screenReader, keyboardNav
      ensures features == SetFlag(old(features), name, true)
      ensures name == "screen_reader" && name in old(features) ==>
        screenReader.enabled && screenReader.announced == old(screenReader.announced) + [Announcement(EnabledMessage, 1)]
      ensures !(name == "screen_reader" && name in old(features)) ==>
        screenReader.enabled == old(screenReader.enabled) && screenReader.announced == old(screenReader.announced)
      ensures screenReader.landmarks == old(screenReader.landmarks)
      ensures name == "keyboard_nav" && name in old(features) ==> keyboardNav.navigationMode
      ensures name == "keyboard_nav" && name in old(features) ==>
        keyboardNav.shortcuts == old(keyboardNav.shortcuts) + (if keyboardNav.hasParent then NavigationShortcuts() else map[])
      ensures !(name == "keyboard_nav" && name in old(features)) ==>
        keyboardNav.navigationMode == old(keyboardNav.navigationMode) && keyboardNav.shortcuts == old(keyboardNav.shortcuts)
    {
      if name !in features {
        return;
      }
      features := features[name := true];
      if name == "screen_reader" {
        screenReader.Enable();
      } else if name == "keyboard_nav" {
        keyboardNav.EnableNavigationMode();
      }
    }

    /** `disable_feature`: clears a known flag and switches its component
        off; disabling speech stops it. */
    method DisableFeature(name: string)
      modifies this`features, screenReader, keyboardNav, tts
      ensures features == SetFlag(old(features), name, false)
      ensures name == "screen_reader" && name in old(features) ==> !screenReader.enabled
      ensures !(name == "screen_reader" && name in old(features)) ==> screenReader.enabled == old(screenReader.enabled)
      ensures screenReader.announced == old(screenReader.announced) && screenReader.landmarks == old(screenReader.landmarks)
      ensures name == "keyboard_nav" && name in old(features) ==> !keyboardNav.navigationMode
      ensures !(name == "keyboard_nav" && name in old(features)) ==> keyboardNav.navigationMode == old(keyboardNav.navigationMode)
      ensures keyboardNav.shortcuts == old(keyboardNav.shortcuts)
      ensures name == "tts" && name in old(features) ==> !tts.isSpeaking && !tts.isPaused
      ensures !(name == "tts" && name in old(features)) ==> tts.isSpeaking == old(tts.isSpeaking) && tts.isPaused == old(tts.isPaused)
      ensures tts.currentText == old(tts.currentText) && tts.speechRate == old(tts.speechRate) && tts.voice == old(tts.voice)
    {
      if name !in features {
        return;
      }
      features := features[name := false];
      if name == "screen_reader" {
        screenReader.Disable();
      } else if name == "keyboard_nav" {
        keyboardNav.DisableNavigationMode();
      } else if name == "tts" {
        tts.Stop();
      }
    }

    /** `enable_all_features`: each feature in turn. */
    method EnableAllFeatures()
      requires Valid()
      modifies this`features, screenReader, keyboardNav
      ensures Valid() && features == AllFlags(old(features), true)
      ensures screenReader.enabled && screenReader.announced == old(screenReader.announced) + [Announcement(EnabledMessage, 1)]
      ensures screenReader.landmarks == old(screenReader.landmarks)
      ensures keyboardNav.navigationMode
      ensures keyboardNav.shortcuts == old(keyboardNav.shortcuts) + (if keyboardNav.hasParent then NavigationShortcuts() else map[])
    {
      var i := 0;
      while i < |FeatureOrder|
        invariant 0 <= i <= |FeatureOrder|
        invariant features.Keys == FeatureNames
        invariant forall k :: k in features ==> features[k] == (k in FeatureOrder[..i] || old(features)[k])
        invariant screenReader.landmarks == old(screenReader.landmarks)
        invariant i >= 1 ==> screenReader.enabled && screenReader.announced == old(screenReader.announced) + [Announcement(EnabledMessage, 1)]
        invariant i < 1 ==> screenReader.announced == old(screenReader.announced)
        invariant i >= 2 ==> keyboardNav.navigationMode
        invariant i >= 2 ==> keyboardNav.shortcuts == old(keyboardNav.shortcuts) + (if keyboardNav.hasParent then NavigationShortcuts() else map[])
        invariant i < 2 ==> keyboardNav.shortcuts == old(keyboardNav.shortcuts)
      {
        assert FeatureOrder[..i + 1] == FeatureOrder[..i] + [FeatureOrder[i]];
        EnableFeature(FeatureOrder[i]);
        i := i + 1;
      }
      assert FeatureOrder[..i] == FeatureOrder;
    }

    /** `disable_all_features`: each feature in turn. */
    method DisableAllFeatures()
      requires Valid()
      modifies this`features, screenReader, keyboardNav, tts
      ensures Valid() && features == AllFlags(old(features), false)
      ensures !screenReader.enabled && screenReader.announced == old(screenReader.announced)
      ensures screenReader.landmarks == old(screenReader.landmarks)
      ensures !keyboardNav.navigationMode && keyboardNav.shortcuts == old(keyboardNav.shortcuts)
      ensures !tts.isSpeaking && !tts.isPaused
      ensures tts.currentText == old(tts.currentText) && tts.speechRate == old(tts.speechRate)
    {
      var i := 0;
      while i < |FeatureOrder|
        invariant 0 <= i <= |FeatureOrder|
        invariant features.Keys == FeatureNames
        invariant forall k :: k in features ==> features[k] == (k !in FeatureOrder[..i] && old(features)[k])
        invariant screenReader.landmarks == old(screenReader.landmarks) && screenReader.announced == old(screenReader.announced)
        invariant keyboardNav.shortcuts == old(keyboardNav.shortcuts)
        invariant tts.currentText == old(tts.currentText) && tts.speechRate == old(tts.speechRate)
        invariant i >= 1 ==> !screenReader.enabled
        invariant i >= 2 ==> !keyboardNav.navigationMode
        invariant i >= 4 ==> !tts.isSpeaking && !tts.isPaused
      {
        assert FeatureOrder[..i + 1] == FeatureOrder[..i] + [FeatureOrder[i]];
        DisableFeature(FeatureOrder[i]);
        i := i + 1;
      }
      assert FeatureOrder[..i] == FeatureOrder;
    }

    /** `set_accessibility_level`. */
    method SetAccessibilityLevel(newLevel: AccessibilityLevel)
      requires Valid()
      modifies this`level, this`features, screenReader, keyboardNav, tts
      ensures Valid() && level == newLevel
      ensures features == WithLevel(old(features), newLevel)
      ensures newLevel == NoneLevel ==> !screenReader.enabled && !keyboardNav.navigationMode && !tts.isSpeaking
      ensures newLevel != NoneLevel ==> screenReader.enabled && keyboardNav.navigationMode
      ensures screenReader.landmarks == old(screenReader.landmarks)
    {
      level := newLevel;
      match newLevel {
        case NoneLevel =>
          DisableAllFeatures();
        case Basic =>
          EnableFeature("screen_reader");
          EnableFeature("keyboard_nav");
        case Full =>
          EnableAllFeatures();
      }
    }

    function IsFeatureEnabled(name: string): (b: bool)
      reads this
      ensures b <==> name in features && features[name]
    {
      FeatureEnabled(features, name)
    }

    /** `get_feature_status`: a copy of the flags (a map value, so later
        changes to the manager do not reach it). */
    function GetFeatureStatus(): (f: map<string, bool>)
      reads this
      ensures f.Keys == features.Keys
      ensures forall k :: k in f ==> f[k] == IsFeatureEnabled(k)
    {
      features
    }
  }
}
