/** Macros, add-ins and add-in hooks (`pyword/features/automation.py`).
    Macros and add-ins are objects that the manager's dictionaries point
    at: the macro being recorded is the same object as the one stored
    under its id, so actions recorded into it show through the dictionary.
    Clocks and identifiers are parameters; running a script (`exec`) and
    executing recorded actions against the editor are abstract outcomes. */
module Automation {
  import opened Common
  import opened Json

  datatype MacroType = Recorded | Scripted | KeyboardShortcut

  function MacroTypeValue(t: MacroType): string
  {
    match t
    case Recorded => "recorded"
    case Scripted => "scripted"
    case KeyboardShortcut => "keyboard_shortcut"
  }

  /** `MacroType(value)`: `None` where the enum raises ValueError. */
  function MacroTypeFromValue(v: string): (r: Option<MacroType>)
    ensures r.Some? ==> MacroTypeValue(r.value) == v
  {
    if v == "recorded" then Some(Recorded)
    else if v == "scripted" then Some(Scripted)
    else if v == "keyboard_shortcut" then Some(KeyboardShortcut)
    else None
  }

  lemma MacroTypeRoundTrip(t: MacroType)
    ensures MacroTypeFromValue(MacroTypeValue(t)) == Some(t)
  {
  }

  datatype ActionType =
    | InsertText | DeleteText | FormatBold | FormatItalic | FormatUnderline | ChangeFont
    | ChangeSize | ChangeColor | InsertParagraph | MoveCursor | SelectText | Custom

  function ActionTypeValue(t: ActionType): string
  {
    match t
    case InsertText => "insert_text"
    case DeleteText => "delete_text"
    case FormatBold => "format_bold"
    case FormatItalic => "format_italic"
    case FormatUnderline => "format_underline"
    case ChangeFont => "change_font"
    case ChangeSize => "change_size"
    case ChangeColor => "change_color"
    case InsertParagraph => "insert_paragraph"
    case MoveCursor => "move_cursor"
    case SelectText => "select_text"
    case Custom => "custom"
  }

  /** `ActionType(value)`: `None` where the enum raises ValueError. */
  function ActionTypeFromValue(v: string): (r: Option<ActionType>)
    ensures r.Some? ==> ActionTypeValue(r.value) == v
  {
    if v == "insert_text" then Some(InsertText)
    else if v == "delete_text" then Some(DeleteText)
    else if v == "format_bold" then Some(FormatBold)
    else if v == "format_italic" then Some(FormatItalic)
    else if v == "format_underline" then Some(FormatUnderline)
    else if v == "change_font" then Some(ChangeFont)
    else if v == "change_size" then Some(ChangeSize)
    else if v == "change_color" then Some(ChangeColor)
    else if v == "insert_paragraph" then Some(InsertParagraph)
    else if v == "move_cursor" then Some(MoveCursor)
    else if v == "select_text" then Some(SelectText)
    else if v == "custom" then Some(Custom)
    else None
  }

  lemma ActionTypeRoundTrip(t: ActionType)
    ensures ActionTypeFromValue(ActionTypeValue(t)) == Some(t)
  {
  }

  // ---------------------------------------------------------------------
  // Recorded actions

  /** A value Python treats as false in `parameters or {}`. */
  predicate Falsy(v: Value)
  {
    v == Null || v == Bool(false) || v == Int(0) || v == Real(0.0) || v == Str("") ||
    v == Arr([]) || v == Obj(map[]) || v == Pairs([])
  }

  /** `parameters or {}`. */
  function Parameters(v: Value): (r: Value)
    ensures !Falsy(v) ==> r == v
    ensures Falsy(v) ==> r == Obj(map[])
  {
    if Falsy(v) then Obj(map[]) else v
  }

  /** Parameters as the action constructor leaves them. */
  predicate NormalParameters(v: Value) { Parameters(v) == v }

  datatype MacroAction = MacroAction(actionType: ActionType, parameters: Value, timestamp: string)

  /** `MacroAction(action_type, parameters)` at time `now`. */
  function NewAction(t: ActionType, parameters: Value, now: string): (a: MacroAction)
    ensures a.actionType == t && a.timestamp == now
    ensures NormalParameters(a.parameters)
    ensures !Falsy(parameters) ==> a.parameters == parameters
  {
    MacroAction(t, Parameters(parameters), now)
  }

  function ActionToDict(a: MacroAction): (d: Dict)
    ensures d.Keys == {"action_type", "parameters", "timestamp"}
  {
    map["action_type" := Str(ActionTypeValue(a.actionType)), "parameters" := a.parameters,
        "timestamp" := Str(a.timestamp)]
  }

  /** `MacroAction.from_dict`: all three keys required, a known action type
      and a string timestamp; the parameters go through the constructor. */
  function ActionFromDict(d: Dict): (r: Option<MacroAction>)
    ensures r.Some? ==> "action_type" in d && "parameters" in d && "timestamp" in d
    ensures r.Some? ==> NormalParameters(r.value.parameters)
  {
    if "action_type" !in d || !d["action_type"].Str? || "parameters" !in d ||
       "timestamp" !in d || !d["timestamp"].Str? then None
    else match ActionTypeFromValue(d["action_type"].s)
      case None => None
      case Some(t) => Some(NewAction(t, d["parameters"], d["timestamp"].s))
  }

  lemma ActionRoundTrip(a: MacroAction)
    requires NormalParameters(a.parameters)
    ensures ActionFromDict(ActionToDict(a)) == Some(a)
  {
    ActionTypeRoundTrip(a.actionType);
  }

  function ActionsValue(acts: seq<MacroAction>): (v: Value)
    ensures v.Arr? && |v.items| == |acts|
  {
    Arr(seq(|acts|, i requires 0 <= i < |acts| => Obj(ActionToDict(acts[i]))))
  }

  function ActionsFrom(items: seq<Value>): (r: Option<seq<MacroAction>>)
    ensures r.Some? ==> |r.value| == |items|
  {
    if items == [] then Some([])
    else if !items[0].Obj? then None
    else match (ActionFromDict(items[0].fields), ActionsFrom(items[1..]))
      case (Some(a), Some(rest)) => Some([a] + rest)
      case _ => None
  }

  predicate NormalActions(acts: seq<MacroAction>)
  {
    forall i :: 0 <= i < |acts| ==> NormalParameters(acts[i].parameters)
  }

  lemma {:induction false} ActionsRoundTrip(acts: seq<MacroAction>)
    requires NormalActions(acts)
    ensures ActionsFrom(ActionsValue(acts).items) == Some(acts)
  {
    if acts != [] {
      var items := ActionsValue(acts).items;
      ActionsValueCons(acts);
      ActionRoundTrip(acts[0]);
      NormalActionsTail(acts);
      ActionsRoundTrip(acts[1..]);
      ActionsFromCons(items, acts);
    }
  }

  lemma ActionsValueCons(acts: seq<MacroAction>)
    requires acts != []
    ensures ActionsValue(acts).items[0] == Obj(ActionToDict(acts[0]))
    ensures ActionsValue(acts).items[1..] == ActionsValue(acts[1..]).items
  {
    assert ActionsValue(acts).items[1..] == ActionsValue(acts[1..]).items;
  }

  lemma NormalActionsTail(acts: seq<MacroAction>)
    requires acts != [] && NormalActions(acts)
    ensures NormalParameters(acts[0].parameters) && NormalActions(acts[1..])
  {
    forall i | 0 <= i < |acts[1..]| ensures NormalParameters(acts[1..][i].parameters) {
      assert acts[1..][i] == acts[i + 1];
    }
  }

  lemma ActionsFromCons(items: seq<Value>, acts: seq<MacroAction>)
    requires items != [] && items[0].Obj? && acts != []
    requires ActionFromDict(items[0].fields) == Some(acts[0])
    requires ActionsFrom(items[1..]) == Some(acts[1..])
    ensures ActionsFrom(items) == Some(acts)
  {
    assert acts == [acts[0]] + acts[1..];
  }

  // ---------------------------------------------------------------------
  // Macros

  /** The attributes of a `Macro`, as `to_dict` lists them. */
  datatype MacroData = MacroData(id: string, name: string, macroType: MacroType, description: string,
                                 actions: seq<MacroAction>, script: string, createdDate: string,
                                 modifiedDate: string, runCount: int, keyboardShortcut: string,
                                 enabled: bool, autoRunOnOpen: bool, autoRunOnSave: bool)

  /** `Macro(name, macro_type)` with identifier `id` at time `now`. */
  function NewMacro(id: string, name: string, t: MacroType, now: string): (m: MacroData)
    ensures m.id == id && m.name == name && m.macroType == t && m.actions == [] && m.runCount == 0
    ensures m.enabled && !m.autoRunOnOpen && !m.autoRunOnSave
    ensures m.createdDate == now && m.modifiedDate == now
  {
    MacroData(id, name, t, "", [], "", now, now, 0, "", true, false, false)
  }

  function MacroToDict(m: MacroData): (d: Dict)
    ensures "id" in d && "name" in d && "macro_type" in d && "created_date" in d && "modified_date" in d
  {
    map["id" := Str(m.id), "name" := Str(m.name), "macro_type" := Str(MacroTypeValue(m.macroType)),
        "description" := Str(m.description), "actions" := ActionsValue(m.actions),
        "script" := Str(m.script), "created_date" := Str(m.createdDate),
        "modified_date" := Str(m.modifiedDate), "run_count" := Int(m.runCount),
        "keyboard_shortcut" := Str(m.keyboardShortcut), "enabled" := Bool(m.enabled),
        "auto_run_on_open" := Bool(m.autoRunOnOpen), "auto_run_on_save" := Bool(m.autoRunOnSave)]
  }

  /** The actions a stored macro lists; a missing list is empty. */
  function StoredActions(d: Dict): (r: Option<seq<MacroAction>>)
    ensures "actions" !in d ==> r == Some([])
  {
    if "actions" !in d then Some([])
    else if !d["actions"].Arr? then None
    else ActionsFrom(d["actions"].items)
  }

  /** `Macro.from_dict`: name, a known macro type, id and both dates are
      required, every stored action must load, and the rest default. */
  function MacroFromDict(d: Dict): (r: Option<MacroData>)
    ensures r.Some? ==> "name" in d && "macro_type" in d && "id" in d && "created_date" in d && "modified_date" in d
    ensures r.Some? && "actions" !in d ==> r.value.actions == []
    ensures r.Some? && "run_count" !in d ==> r.value.runCount == 0
    ensures r.Some? && "enabled" !in d ==> r.value.enabled
  {
    if "name" !in d || "macro_type" !in d || !d["macro_type"].Str? || "id" !in d ||
       "created_date" !in d || !d["created_date"].Str? ||
       "modified_date" !in d || !d["modified_date"].Str? then None
    else match (MacroTypeFromValue(d["macro_type"].s), StoredActions(d))
      case (Some(t), Some(acts)) =>
        Some(MacroData(GetStr(d, "id", ""), GetStr(d, "name", ""), t, GetStr(d, "description", ""),
                       acts, GetStr(d, "script", ""), d["created_date"].s, d["modified_date"].s,
                       GetInt(d, "run_count", 0), GetStr(d, "keyboard_shortcut", ""),
                       GetBool(d, "enabled", true), GetBool(d, "auto_run_on_open", false),
                       GetBool(d, "auto_run_on_save", false)))
      case _ => None
  }

  lemma MacroLookupsA(m: MacroData)
    ensures var d := MacroToDict(m);
      d["id"] == Str(m.id) && d["name"] == Str(m.name) && d["macro_type"] == Str(MacroTypeValue(m.macroType)) &&
      d["created_date"] == Str(m.createdDate) && d["modified_date"] == Str(m.modifiedDate)
  {
  }

  lemma MacroLookupsB(m: MacroData)
    ensures var d := MacroToDict(m);
      GetStr(d, "description", "") == m.description && GetStr(d, "script", "") == m.script &&
      GetInt(d, "run_count", 0) == m.runCount && GetStr(d, "keyboard_shortcut", "") == m.keyboardShortcut
  {
  }

  lemma MacroLookupsC(m: MacroData)
    ensures var d := MacroToDict(m);
      GetBool(d, "enabled", true) == m.enabled && GetBool(d, "auto_run_on_open", false) == m.autoRunOnOpen &&
      GetBool(d, "auto_run_on_save", false) == m.autoRunOnSave && d["actions"] == ActionsValue(m.actions)
  {
  }

  /** A macro whose actions came from the action constructor survives
      `to_dict`/`from_dict`. */
  lemma MacroRoundTrip(m: MacroData)
    requires NormalActions(m.actions)
    ensures MacroFromDict(MacroToDict(m)) == Some(m)
  {
    var d := MacroToDict(m);
    MacroLookupsA(m);
    MacroLookupsB(m);
    MacroLookupsC(m);
    MacroTypeRoundTrip(m.macroType);
    ActionsRoundTrip(m.actions);
    assert StoredActions(d) == Some(m.actions);
  }

  class Macro {
    var id: string
    var name: string
    var macroType: MacroType
    var description: string
    var actions: seq<MacroAction>
    var script: string
    var createdDate: string
    var modifiedDate: string
    var runCount: int
    var keyboardShortcut: string
    var enabled: bool
    var autoRunOnOpen: bool
    var autoRunOnSave: bool

    function Data(): MacroData
      reads this
    {
      MacroData(id, name, macroType, description, actions, script, createdDate, modifiedDate,
                runCount, keyboardShortcut, enabled, autoRunOnOpen, autoRunOnSave)
    }

    /** A macro holding the given attributes (the constructor, followed
        by the attribute assignments of `from_dict`). */
    constructor (m: MacroData)
      ensures Data() == m
    {
      id, name, macroType, description := m.id, m.name, m.macroType, m.description;
      actions, script, createdDate, modifiedDate := m.actions, m.script, m.createdDate, m.modifiedDate;
      runCount, keyboardShortcut, enabled := m.runCount, m.keyboardShortcut, m.enabled;
      autoRunOnOpen, autoRunOnSave := m.autoRunOnOpen, m.autoRunOnSave;
    }

    /** `add_action`: appends and stamps the modification date. */
    method AddAction(a: MacroAction, now: string)
      modifies this`actions, this`modifiedDate
      ensures Data() == old(Data()).(actions := old(actions) + [a], modifiedDate := now)
    {
      actions := actions + [a];
      modifiedDate := now;
    }
  }

  // ---------------------------------------------------------------------
  // Add-ins

  /** The attributes of an `AddIn`. The dependency, permission and setting
      values are kept as stored, whatever their type. */
  datatype AddInData = AddInData(id: string, name: string, version: string, description: string,
                                 author: string, enabled: bool, loaded: bool, installDate: string,
                                 filePath: string, entryPoint: string, dependencies: Value,
                                 permissions: Value, settings: Value)

  /** `AddIn(name, version)` with identifier `id` at time `now`. */
  function NewAddIn(id: string, name: string, version: string, now: string): (a: AddInData)
    ensures a.id == id && a.name == name && a.version == version && a.installDate == now
    ensures a.enabled && !a.loaded
    ensures a.dependencies == Arr([]) && a.permissions == Arr([]) && a.settings == Obj(map[])
  {
    AddInData(id, name, version, "", "", true, false, now, "", "", Arr([]), Arr([]), Obj(map[]))
  }

  function AddInToDict(a: AddInData): (d: Dict)
    ensures "id" in d && "name" in d && "version" in d && "install_date" in d
  {
    map["id" := Str(a.id), "name" := Str(a.name), "version" := Str(a.version),
        "description" := Str(a.description), "author" := Str(a.author), "enabled" := Bool(a.enabled),
        "loaded" := Bool(a.loaded), "install_date" := Str(a.installDate),
        "file_path" := Str(a.filePath), "entry_point" := Str(a.entryPoint),
        "dependencies" := a.dependencies, "permissions" := a.permissions, "settings" := a.settings]
  }

  /** A stored value or its default. */
  function GetValue(d: Dict, k: string, default: Value): (r: Value)
    ensures k in d ==> r == d[k]
    ensures k !in d ==> r == default
  {
    if k in d then d[k] else default
  }

  /** `AddIn.from_dict`: name, version, id and a string install date are
      required; the rest default. */
  function AddInFromDict(d: Dict): (r: Option<AddInData>)
    ensures r.Some? ==> "name" in d && "version" in d && "id" in d && "install_date" in d
    ensures r.Some? && "enabled" !in d ==> r.value.enabled
    ensures r.Some? && "loaded" !in d ==> !r.value.loaded
  {
    if "name" !in d || "version" !in d || "id" !in d || "install_date" !in d || !d["install_date"].Str? then None
    else
      Some(AddInData(GetStr(d, "id", ""), GetStr(d, "name", ""), GetStr(d, "version", "1.0.0"),
                     GetStr(d, "description", ""), GetStr(d, "author", ""), GetBool(d, "enabled", true),
                     GetBool(d, "loaded", false), d["install_date"].s, GetStr(d, "file_path", ""),
                     GetStr(d, "entry_point", ""), GetValue(d, "dependencies", Arr([])),
                     GetValue(d, "permissions", Arr([])), GetValue(d, "settings", Obj(map[]))))
  }

  lemma AddInRoundTrip(a: AddInData)
    ensures AddInFromDict(AddInToDict(a)) == Some(a)
  {
    AddInDictEntries(a);
  }

  /** The entries of a written add-in, one per attribute. */
  lemma AddInDictEntries(a: AddInData)
    ensures var d := AddInToDict(a);
      && d["id"] == Str(a.id) && d["name"] == Str(a.name) && d["version"] == Str(a.version)
      && d["description"] == Str(a.description) && d["author"] == Str(a.author)
      && "enabled" in d && d["enabled"] == Bool(a.enabled) && "loaded" in d && d["loaded"] == Bool(a.loaded)
      && d["install_date"] == Str(a.installDate)
      && "file_path" in d && d["file_path"] == Str(a.filePath)
      && "entry_point" in d && d["entry_point"] == Str(a.entryPoint)
      && "dependencies" in d && d["dependencies"] == a.dependencies
      && "permissions" in d && d["permissions"] == a.permissions
      && "settings" in d && d["settings"] == a.settings
  {
  }

  class AddIn {
    var id: string
    var name: string
    var version: string
    var description: string
    var author: string
    var enabled: bool
    var loaded: bool
    var installDate: string
    var filePath: string
    var entryPoint: string
    var dependencies: Value
    var permissions: Value
    var settings: Value

    function Data(): AddInData
      reads this
    {
      AddInData(id, name, version, description, author, enabled, loaded, installDate,
                filePath, entryPoint, dependencies, permissions, settings)
    }

    constructor (a: AddInData)
      ensures Data() == a
    {
      id, name, version, description, author := a.id, a.name, a.version, a.description, a.author;
      enabled, loaded, installDate := a.enabled, a.loaded, a.installDate;
      filePath, entryPoint := a.filePath, a.entryPoint;
      dependencies, permissions, settings := a.dependencies, a.permissions, a.settings;
    }
  }

  // ---------------------------------------------------------------------
  // Serialisation of the manager

  /** A callback registered on a hook, by name. */
  type Callback = string

  const HookNames: seq<string> :=
    ["on_document_open", "on_document_save", "on_document_close",
     "on_text_insert", "on_text_delete", "on_format_change"]

  function MacrosValue(ms: map<string, MacroData>): (v: Value)
    ensures v.Obj? && v.fields.Keys == ms.Keys
  {
    Obj(map k | k in ms :: Obj(MacroToDict(ms[k])))
  }

  function AddInsValue(as_: map<string, AddInData>): (v: Value)
    ensures v.Obj? && v.fields.Keys == as_.Keys
  {
    Obj(map k | k in as_ :: Obj(AddInToDict(as_[k])))
  }

  /** The `macros` and `addins` parts of `to_dict`. */
  function AutomationToDict(ms: map<string, MacroData>, as_: map<string, AddInData>): (d: Dict)
    ensures d.Keys == {"macros", "addins"}
  {
    map["macros" := MacrosValue(ms), "addins" := AddInsValue(as_)]
  }

  /** Every stored value is a dictionary that `load` accepts. */
  predicate AllLoad<T>(fields: map<string, Value>, load: Dict -> Option<T>)
  {
    forall k :: k in fields ==> fields[k].Obj? && load(fields[k].fields).Some?
  }

  /** The objects `load` builds from a stored dictionary of dictionaries,
      under the same keys, or `None` when one of them fails to load. */
  function LoadEach<T>(fields: map<string, Value>, load: Dict -> Option<T>): (r: Option<map<string, T>>)
    ensures r.Some? <==> AllLoad(fields, load)
    ensures r.Some? ==> r.value.Keys == fields.Keys
    ensures r.Some? ==> forall k :: k in fields ==> r.value[k] == load(fields[k].fields).value
  {
    if AllLoad(fields, load) then Some(map k | k in fields :: load(fields[k].fields).value)
    else None
  }

  /** A stored map whose every entry loads as the object under its key
      loads as that map. */
  lemma LoadEachEntries<T>(fields: map<string, Value>, load: Dict -> Option<T>, objs: map<string, T>)
    requires fields.Keys == objs.Keys
    requires forall k :: k in fields ==> fields[k].Obj? && load(fields[k].fields) == Some(objs[k])
    ensures LoadEach(fields, load) == Some(objs)
  {
    assert AllLoad(fields, load);
    var r := LoadEach(fields, load).value;
    forall k | k in r ensures r[k] == objs[k] {
      assert r[k] == load(fields[k].fields).value;
    }
    assert r == objs;
  }

  predicate LoadableMacros(fields: map<string, Value>)
  {
    AllLoad(fields, MacroFromDict)
  }

  /** The macros a stored `macros` dictionary holds, or `None` when one of
      them fails to load. */
  function MacroMapFrom(fields: map<string, Value>): (r: Option<map<string, MacroData>>)
    ensures r.Some? <==> forall k :: k in fields ==> fields[k].Obj? && MacroFromDict(fields[k].fields).Some?
    ensures r.Some? ==> r.value.Keys == fields.Keys
  {
    LoadEach(fields, MacroFromDict)
  }

  /** The macros `from_dict` builds, keyed as stored; a missing entry
      means none, anything but a dictionary raises. */
  function MacrosFrom(d: Dict): (r: Option<map<string, MacroData>>)
    ensures "macros" !in d ==> r == Some(map[])
    ensures "macros" in d && !d["macros"].Obj? ==> r == None
    ensures "macros" in d && d["macros"].Obj? ==> r == MacroMapFrom(d["macros"].fields)
  {
    if "macros" !in d then Some(map[])
    else if !d["macros"].Obj? then None
    else MacroMapFrom(d["macros"].fields)
  }

  /** The add-ins a stored `addins` dictionary holds, or `None` when one
      of them fails to load. */
  function AddInMapFrom(fields: map<string, Value>): (r: Option<map<string, AddInData>>)
    ensures r.Some? <==> forall k :: k in fields ==> fields[k].Obj? && AddInFromDict(fields[k].fields).Some?
    ensures r.Some? ==> r.value.Keys == fields.Keys
  {
    LoadEach(fields, AddInFromDict)
  }

  function AddInsFrom(d: Dict): (r: Option<map<string, AddInData>>)
    ensures "addins" !in d ==> r == Some(map[])
    ensures "addins" in d && !d["addins"].Obj? ==> r == None
    ensures "addins" in d && d["addins"].Obj? ==> r == AddInMapFrom(d["addins"].fields)
  {
    if "addins" !in d then Some(map[])
    else if !d["addins"].Obj? then None
    else AddInMapFrom(d["addins"].fields)
  }

  lemma MacroEntryRoundTrip(ms: map<string, MacroData>, k: string)
    requires k in ms && NormalActions(ms[k].actions)
    ensures k in MacrosValue(ms).fields && MacrosValue(ms).fields[k] == Obj(MacroToDict(ms[k]))
    ensures MacroFromDict(MacroToDict(ms[k])) == Some(ms[k])
  {
    MacroRoundTrip(ms[k]);
  }

  /** Every saved macro loads back as itself. */
  lemma MacroEntriesLoad(ms: map<string, MacroData>)
    requires forall k :: k in ms ==> NormalActions(ms[k].actions)
    ensures LoadableMacros(MacrosValue(ms).fields)
    ensures forall k :: k in ms ==> MacroFromDict(MacrosValue(ms).fields[k].fields) == Some(ms[k])
  {
    var mf := MacrosValue(ms).fields;
    forall k | k in mf ensures mf[k].Obj? && MacroFromDict(mf[k].fields) == Some(ms[k]) {
      MacroEntryRoundTrip(ms, k);
    }
  }

  /** Saved macros load back unchanged, under the same keys. */
  lemma MacroMapRoundTrip(ms: map<string, MacroData>)
    requires forall k :: k in ms ==> NormalActions(ms[k].actions)
    ensures MacroMapFrom(MacrosValue(ms).fields) == Some(ms)
  {
    MacroEntriesLoad(ms);
    LoadEachEntries(MacrosValue(ms).fields, MacroFromDict, ms);
  }

  lemma AddInsEachRoundTrip(as_: map<string, AddInData>)
    ensures forall k :: k in as_ ==> AddInFromDict(AddInToDict(as_[k])) == Some(as_[k])
  {
    forall k | k in as_ ensures AddInFromDict(AddInToDict(as_[k])) == Some(as_[k]) {
      AddInRoundTrip(as_[k]);
    }
  }

  /** Saved add-ins load back unchanged, under the same keys. */
  lemma AddInMapRoundTrip(as_: map<string, AddInData>)
    ensures AddInMapFrom(AddInsValue(as_).fields) == Some(as_)
  {
    var af := AddInsValue(as_).fields;
    AddInsEachRoundTrip(as_);
    assert forall k :: k in af ==> af[k] == Obj(AddInToDict(as_[k]));
    LoadEachEntries(af, AddInFromDict, as_);
  }

  /** What `to_dict` saves, `from_dict` loads back. */
  lemma AutomationRoundTrip(ms: map<string, MacroData>, as_: map<string, AddInData>)
    requires forall k :: k in ms ==> NormalActions(ms[k].actions)
    ensures MacrosFrom(AutomationToDict(ms, as_)) == Some(ms)
    ensures AddInsFrom(AutomationToDict(ms, as_)) == Some(as_)
  {
    MacroMapRoundTrip(ms);
    AddInMapRoundTrip(as_);
  }

  /** The dictionary `get_automation_info` returns, without the XML part
      count. */
  datatype AutomationInfo = AutomationInfo(macroCount: nat, enabledMacroCount: nat, addonCount: nat,
                                           loadedAddonCount: nat, isRecording: bool)

  // ---------------------------------------------------------------------
  // The manager

  class AutomationManager {
    var macros: map<string, Macro>
    var addins: map<string, AddIn>
    var isRecording: bool
    var currentRecording: Macro?
    var hooks: map<string, seq<Callback>>

    /** The recording flag and the macro being recorded go together. */
    predicate Recording()
      reads this
    {
      isRecording <==> currentRecording != null
    }

    predicate HooksFixed()
      reads this
    {
      hooks.Keys == set n | n in HookNames
    }

    constructor ()
      ensures macros == map[] && addins == map[] && !isRecording && currentRecording == null
      ensures HooksFixed() && forall n :: n in hooks ==> hooks[n] == []
      ensures Recording()
    {
      macros := map[];
      addins := map[];
      isRecording := false;
      currentRecording := null;
      hooks := map n | n in HookNames :: [];
    }

    /** The stored macros' attributes, by key. */
    function MacroSnapshot(): (r: map<string, MacroData>)
      reads this`macros, macros.Values
      ensures r.Keys == macros.Keys
    {
      map k | k in macros :: macros[k].Data()
    }

    function AddInSnapshot(): (r: map<string, AddInData>)
      reads this`addins, addins.Values
      ensures r.Keys == addins.Keys
    {
      map k | k in addins :: addins[k].Data()
    }

    /** `create_macro`: a new macro, stored under its id. */
    method CreateMacro(name: string, t: MacroType, newId: string, now: string) returns (m: Macro)
      modifies this`macros
      ensures fresh(m) && m.Data() == NewMacro(newId, name, t, now)
      ensures macros == old(macros)[newId := m]
    {
      m := new Macro(NewMacro(newId, name, t, now));
      macros := macros[newId := m];
    }

    /** `delete_macro`: True exactly when the id was stored. A macro that
        is being recorded stays the recording target. */
    method DeleteMacro(macroId: string) returns (ok: bool)
      modifies this`macros
      ensures ok <==> macroId in old(macros)
      ensures macros == old(macros) - {macroId}
    {
      ok := macroId in macros;
      macros := macros - {macroId};
    }

    /** `get_macro`: the stored macro, or null for an unknown id. */
    function GetMacro(macroId: string): (m: Macro?)
      reads this
      ensures m != null <==> macroId in macros
      ensures m != null ==> m == macros[macroId]
    {
      if macroId in macros then macros[macroId] else null
    }

    /** `start_recording`: a new RECORDED macro, stored and made the
        recording target. */
    method StartRecording(name: string, newId: string, now: string) returns (m: Macro)
      modifies this`macros, this`currentRecording, this`isRecording
      ensures fresh(m) && m.Data() == NewMacro(newId, name, Recorded, now)
      ensures macros == old(macros)[newId := m]
      ensures isRecording && currentRecording == m && Recording()
    {
      m := CreateMacro(name, Recorded, newId, now);
      currentRecording := m;
      isRecording := true;
    }

    /** `stop_recording`: clears the recording state and hands back the
        macro that was being recorded, or null. */
    method StopRecording() returns (m: Macro?)
      modifies this`currentRecording, this`isRecording
      ensures m == old(currentRecording)
      ensures !isRecording && currentRecording == null && Recording()
    {
      isRecording := false;
      m := currentRecording;
      currentRecording := null;
    }

    /** `record_action`: while recording, appends the action to the
        recording target (and so to the stored macro it is); otherwise
        nothing changes. */
    method RecordAction(t: ActionType, parameters: Value, now: string)
      modifies currentRecording
      ensures isRecording && currentRecording != null ==>
        currentRecording.Data() == old(currentRecording.Data()).(
          actions := old(currentRecording.actions) + [NewAction(t, parameters, now)], modifiedDate := now)
      ensures !isRecording && currentRecording != null ==> currentRecording.Data() == old(currentRecording.Data())
    {
      if isRecording && currentRecording != null {
        currentRecording.AddAction(NewAction(t, parameters, now), now);
      }
    }

    /** `run_macro`: False for an unknown or disabled macro. Otherwise the
        script (for a SCRIPTED macro) or the recorded actions run, with
        `scriptOk` and `actionsOk` standing for whether that raised; a run
        that succeeds counts once and stamps the date. */
    method RunMacro(macroId: string, scriptOk: bool, actionsOk: bool, now: string) returns (ok: bool)
      modifies if macroId in macros then {macros[macroId]} else {}
      ensures macroId !in macros || !old(macros[macroId].enabled) ==> !ok
      ensures ok <==> macroId in macros && old(macros[macroId].enabled) &&
                      (if old(macros[macroId].macroType) == Scripted then scriptOk else actionsOk)
      ensures ok ==> macros[macroId].Data() == old(macros[macroId].Data()).(
                       runCount := old(macros[macroId].runCount) + 1, modifiedDate := now)
      ensures !ok && macroId in macros ==> macros[macroId].Data() == old(macros[macroId].Data())
    {
      var m := GetMacro(macroId);
      if m == null || !m.enabled {
        return false;
      }
      var succeeded := if m.macroType == Scripted then scriptOk else actionsOk;
      if succeeded {
        m.runCount := m.runCount + 1;
        m.modifiedDate := now;
      }
      ok := succeeded;
    }

    /** `install_addon`: always True, stored under the add-in's id. */
    method InstallAddon(a: AddIn) returns (ok: bool)
      modifies this`addins
      ensures ok
      ensures addins == old(addins)[a.id := a]
    {
      addins := addins[a.id := a];
      ok := true;
    }

    /** `disable_addon`: clears both flags; False for an unknown id. */
    method DisableAddon(addonId: string) returns (ok: bool)
      modifies if addonId in addins then {addins[addonId]} else {}
      ensures ok <==> addonId in addins
      ensures ok ==> addins[addonId].Data() == old(addins[addonId].Data()).(enabled := false, loaded := false)
    {
      if addonId !in addins {
        return false;
      }
      var a := addins[addonId];
      a.enabled := false;
      a.loaded := false;
      ok := true;
    }

    /** `enable_addon`: sets both flags; False for an unknown id. */
    method EnableAddon(addonId: string) returns (ok: bool)
      modifies if addonId in addins then {addins[addonId]} else {}
      ensures ok <==> addonId in addins
      ensures ok ==> addins[addonId].Data() == old(addins[addonId].Data()).(enabled := true, loaded := true)
    {
      if addonId !in addins {
        return false;
      }
      var a := addins[addonId];
      a.enabled := true;
      a.loaded := true;
      ok := true;
    }

    /** `uninstall_addon`: a loaded add-in is disabled first (the object
        keeps that change), then the entry goes; False for an unknown id. */
    method UninstallAddon(addonId: string) returns (ok: bool)
      modifies this`addins, if addonId in addins then {addins[addonId]} else {}
      ensures ok <==> addonId in old(addins)
      ensures addins == old(addins) - {addonId}
      ensures ok && old(addins[addonId].loaded) ==>
        old(addins[addonId]).Data() == old(addins[addonId].Data()).(enabled := false, loaded := false)
      ensures ok && !old(addins[addonId].loaded) ==> old(addins[addonId]).Data() == old(addins[addonId].Data())
    {
      if addonId !in addins {
        return false;
      }
      var a := addins[addonId];
      if a.loaded {
        ok := DisableAddon(addonId);
      }
      addins := addins - {addonId};
      ok := true;
    }

    /** `get_addon`. */
    function GetAddon(addonId: string): (a: AddIn?)
      reads this
      ensures a != null <==> addonId in addins
      ensures a != null ==> a == addins[addonId]
    {
      if addonId in addins then addins[addonId] else null
    }

    /** `register_hook`: appends the callback to a known hook; False for
        any other name, which adds no hook. */
    method RegisterHook(hookName: string, cb: Callback) returns (ok: bool)
      modifies this`hooks
      ensures ok <==> hookName in old(hooks)
      ensures ok ==> hooks == old(hooks)[hookName := old(hooks)[hookName] + [cb]]
      ensures !ok ==> hooks == old(hooks)
      ensures hooks.Keys == old(hooks).Keys
      ensures old(HooksFixed()) ==> HooksFixed() && (ok <==> hookName in HookNames)
    {
      if hookName in hooks {
        hooks := hooks[hookName := hooks[hookName] + [cb]];
        ok := true;
      } else {
        ok := false;
      }
    }

    /** `trigger_hook`: every callback of a known hook is called in the
        order of registration (one that raises does not stop the rest); the
        result lists the calls. An unknown hook calls nothing. */
    method TriggerHook(hookName: string) returns (called: seq<Callback>)
      ensures hookName in hooks ==> called == hooks[hookName]
      ensures hookName !in hooks ==> called == []
    {
      called := [];
      if hookName in hooks {
        var cbs := hooks[hookName];
        var i := 0;
        while i < |cbs|
          invariant 0 <= i <= |cbs|
          invariant called == cbs[..i]
        {
          called := called + [cbs[i]];
          i := i + 1;
        }
        assert cbs[..|cbs|] == cbs;
      }
    }

    /** The `macros` and `addins` parts of `to_dict`. */
    function ToDict(): (d: Dict)
      reads this, macros.Values, addins.Values
      ensures d == AutomationToDict(MacroSnapshot(), AddInSnapshot())
    {
      AutomationToDict(MacroSnapshot(), AddInSnapshot())
    }

    /** Fresh macro objects for the loaded attributes. */
    static method BuildMacros(data: map<string, MacroData>) returns (built: map<string, Macro>)
      ensures built.Keys == data.Keys
      ensures forall k :: k in built ==> fresh(built[k]) && built[k].Data() == data[k]
    {
      built := map[];
      var keys := data.Keys;
      while keys != {}
        invariant keys <= data.Keys
        invariant built.Keys == data.Keys - keys
        invariant forall k :: k in built ==> fresh(built[k]) && built[k].Data() == data[k]
        decreases |keys|
      {
        var k :| k in keys;
        var m := new Macro(data[k]);
        built := built[k := m];
        keys := keys - {k};
      }
    }

    static method BuildAddIns(data: map<string, AddInData>) returns (built: map<string, AddIn>)
      ensures built.Keys == data.Keys
      ensures forall k :: k in built ==> fresh(built[k]) && built[k].Data() == data[k]
    {
      built := map[];
      var keys := data.Keys;
      while keys != {}
        invariant keys <= data.Keys
        invariant built.Keys == data.Keys - keys
        invariant forall k :: k in built ==> fresh(built[k]) && built[k].Data() == data[k]
        decreases |keys|
      {
        var k :| k in keys;
        var a := new AddIn(data[k]);
        built := built[k := a];
        keys := keys - {k};
      }
    }

    /** Replaces the macros with fresh objects holding `ms`. */
    method LoadMacros(ms: map<string, MacroData>)
      modifies this`macros
      ensures MacroSnapshot() == ms
    {
      var built := BuildMacros(ms);
      macros := built;
      assert MacroSnapshot() == ms;
    }

    /** Replaces the add-ins with fresh objects holding `as_`. */
    method LoadAddIns(as_: map<string, AddInData>)
      modifies this`addins
      ensures AddInSnapshot() == as_
    {
      var built := BuildAddIns(as_);
      addins := built;
      assert AddInSnapshot() == as_;
    }

    /** `from_dict`: the macros are replaced first and the add-ins second,
        so an add-in that fails to load leaves the new macros in place;
        a macro that fails to load changes nothing. */
    method FromDict(d: Dict) returns (ok: bool)
      modifies this`macros, this`addins
      ensures ok <==> MacrosFrom(d).Some? && AddInsFrom(d).Some?
      ensures MacrosFrom(d).None? ==> macros == old(macros) && addins == old(addins)
      ensures MacrosFrom(d).Some? ==> MacroSnapshot() == MacrosFrom(d).value
      ensures MacrosFrom(d).Some? && AddInsFrom(d).None? ==> addins == old(addins)
      ensures ok ==> AddInSnapshot() == AddInsFrom(d).value
    {
      var ms := MacrosFrom(d);
      if ms.None? {
        return false;
      }
      LoadMacros(ms.value);
      var as_ := AddInsFrom(d);
      if as_.None? {
        return false;
      }
      LoadAddIns(as_.value);
      ok := true;
    }

    /** `get_automation_info`: the sizes of the two dictionaries and of
        their enabled and loaded parts. */
    function GetAutomationInfo(): (info: AutomationInfo)
      reads this, macros.Values, addins.Values
      ensures info.macroCount == |macros| && info.addonCount == |addins| && info.isRecording == isRecording
      ensures info.enabledMacroCount == |set k | k in macros && macros[k].enabled|
      ensures info.loadedAddonCount == |set k | k in addins && addins[k].loaded|
      ensures info.enabledMacroCount <= info.macroCount && info.loadedAddonCount <= info.addonCount
      ensures info.enabledMacroCount == info.macroCount <==> forall k :: k in macros ==> macros[k].enabled
      ensures info.loadedAddonCount == 0 <==> forall k :: k in addins ==> !addins[k].loaded
    {
      var enabledKeys := set k | k in macros && macros[k].enabled;
      var loadedKeys := set k | k in addins && addins[k].loaded;
      SubsetCount(enabledKeys, macros.Keys);
      SubsetCount(loadedKeys, addins.Keys);
      NoneLoaded(addins);
      AutomationInfo(|macros|, |enabledKeys|, |addins|, |loadedKeys|, isRecording)
    }
  }

  /** No add-in is loaded exactly when the loaded keys are none. */
  lemma NoneLoaded(m: map<string, AddIn>)
    ensures (set k | k in m && m[k].loaded) == {} <==> forall k :: k in m ==> !m[k].loaded
  {
    var s := set k | k in m && m[k].loaded;
    forall k | k in m && m[k].loaded ensures k in s { }
  }

  /** A subset is no larger, and as large only when it is the whole set. */
  lemma SubsetCount<T>(a: set<T>, b: set<T>)
    requires a <= b
    ensures |a| <= |b|
    ensures |a| == |b| <==> a == b
    decreases b
  {
    if a != b {
      var x :| x in b && x !in a;
      SubsetCount(a, b - {x});
    }
  }
}
