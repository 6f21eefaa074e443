/** Drawing shapes (`pyword/features/shapes.py`): the shape kinds, the
    geometry and naming properties and the text of text boxes with their
    dictionary form, and the shape manager, which stacks shapes by z value
    and keeps a selection. */
module Shapes {
  import opened Common
  import opened Json

  datatype ShapeType = Rectangle | Ellipse | Line | Arrow | TextBox | CallOut | Star | Cloud

  function TypeName(t: ShapeType): string
  {
    match t
    case Rectangle => "RECTANGLE"
    case Ellipse => "ELLIPSE"
    case Line => "LINE"
    case Arrow => "ARROW"
    case TextBox => "TEXT_BOX"
    case CallOut => "CALL_OUT"
    case Star => "STAR"
    case Cloud => "CLOUD"
  }

  /** `ShapeType[name]`: `None` where the lookup raises KeyError. */
  function TypeFromName(name: string): (r: Option<ShapeType>)
    ensures r.Some? ==> TypeName(r.value) == name
  {
    if name == "RECTANGLE" then Some(Rectangle)
    else if name == "ELLIPSE" then Some(Ellipse)
    else if name == "LINE" then Some(Line)
    else if name == "ARROW" then Some(Arrow)
    else if name == "TEXT_BOX" then Some(TextBox)
    else if name == "CALL_OUT" then Some(CallOut)
    else if name == "STAR" then Some(Star)
    else if name == "CLOUD" then Some(Cloud)
    else None
  }

  lemma TypeNameRoundTrip(t: ShapeType)
    ensures TypeFromName(TypeName(t)) == Some(t)
  {
  }

  /** The name each shape class gives its properties on creation. */
  function DefaultName(t: ShapeType): string
  {
    match t
    case Rectangle => "Rectangle"
    case Ellipse => "Ellipse"
    case Line => "Line"
    case Arrow => "Arrow"
    case TextBox => "Text Box"
    case CallOut => "Call Out"
    case Star => "Star"
    case Cloud => "Cloud"
  }

  /** The kinds whose class is `TextBoxShape` or its subclass
      `CallOutShape`, which carry a text. */
  predicate HasText(t: ShapeType)
  {
    t == TextBox || t == CallOut
  }

  /** The text a new text box shows. */
  const DefaultText: string := "Double-click to edit"

  /** The text a shape of kind `t` has when its class creates it. */
  function ClassText(t: ShapeType): (r: Option<string>)
    ensures r.Some? <==> HasText(t)
  {
    if HasText(t) then Some(DefaultText) else None
  }

  datatype ShapeProperties = ShapeProperties(x: real, y: real, width: real, height: real, rotation: real,
                                             zValue: int, locked: bool, visible: bool, name: string)

  /** `ShapeProperties()`: at the origin, 100 by 100, visible, named "Shape". */
  const DefaultProperties: ShapeProperties := ShapeProperties(0.0, 0.0, 100.0, 100.0, 0.0, 0, false, true, "Shape")

  function PropertiesToDict(p: ShapeProperties): (d: Dict)
    ensures d.Keys == {"x", "y", "width", "height", "rotation", "z_value", "locked", "visible", "name"}
  {
    map["x" := Real(p.x), "y" := Real(p.y), "width" := Real(p.width), "height" := Real(p.height),
        "rotation" := Real(p.rotation), "z_value" := Int(p.zValue), "locked" := Bool(p.locked),
        "visible" := Bool(p.visible), "name" := Str(p.name)]
  }

  /** `ShapeProperties.from_dict`: every key is optional. */
  function PropertiesFromDict(d: Dict): (p: ShapeProperties)
    ensures d == map[] ==> p == DefaultProperties
  {
    ShapeProperties(GetReal(d, "x", 0.0), GetReal(d, "y", 0.0), GetReal(d, "width", 100.0),
                    GetReal(d, "height", 100.0), GetReal(d, "rotation", 0.0), GetInt(d, "z_value", 0),
                    GetBool(d, "locked", false), GetBool(d, "visible", true), GetStr(d, "name", "Shape"))
  }

  lemma PropertiesRoundTrip(p: ShapeProperties)
    ensures PropertiesFromDict(PropertiesToDict(p)) == p
  {
  }

  /** What a shape's dictionary records: its kind, its properties and, for
      a text box or a call-out, its text. */
  datatype ShapeData = ShapeData(kind: ShapeType, properties: ShapeProperties, text: Option<string>)

  /** A shape as its class builds it: a text exactly for the text kinds. */
  predicate WellFormed(s: ShapeData)
  {
    s.text.Some? <==> HasText(s.kind)
  }

  /** `to_dict`, with the `text` entry that `TextBoxShape.to_dict` adds. */
  function ShapeToDict(s: ShapeData): (v: Value)
    ensures v.Obj? && v.fields.Keys == {"type", "properties"} + (if s.text.Some? then {"text"} else {})
    ensures s.text.Some? ==> v.fields["text"] == Str(s.text.value)
  {
    var base := map["type" := Str(TypeName(s.kind)), "properties" := Obj(PropertiesToDict(s.properties))];
    Obj(if s.text.Some? then base["text" := Str(s.text.value)] else base)
  }

  /** `Shape.from_dict`: a rectangle when no type is stored; `None` where
      Python raises (an unknown type name, an entry or properties that are
      not dictionaries). Without stored properties a shape keeps those of
      its class. The stored text is not read: the shape keeps the text its
      class gives it. */
  function ShapeFromDict(v: Value): (r: Option<ShapeData>)
    ensures v.Obj? && "type" !in v.fields && "properties" !in v.fields ==>
              r == Some(ShapeData(Rectangle, DefaultProperties.(name := "Rectangle"), None))
    ensures r.Some? ==> v.Obj? && TypeName(r.value.kind) == GetStr(v.fields, "type", "RECTANGLE")
    ensures r.Some? ==> r.value.text == ClassText(r.value.kind)
  {
    if !v.Obj? then None
    else
      match TypeFromName(GetStr(v.fields, "type", "RECTANGLE"))
      case None => None
      case Some(kind) =>
        if "properties" !in v.fields then Some(ShapeData(kind, DefaultProperties.(name := DefaultName(kind)), ClassText(kind)))
        else if v.fields["properties"].Obj? then Some(ShapeData(kind, PropertiesFromDict(v.fields["properties"].fields), ClassText(kind)))
        else None
  }

  /** A shape as `Shape.from_dict` gives it back: its text is the one its
      class starts with. */
  function Reloaded(s: ShapeData): ShapeData
  {
    s.(text := ClassText(s.kind))
  }

  /** Reading a saved shape gives back its kind and properties; a text box
      or call-out comes back with the text of a new one. */
  lemma ShapeRoundTrip(s: ShapeData)
    ensures ShapeFromDict(ShapeToDict(s)) == Some(Reloaded(s))
  {
    TypeNameRoundTrip(s.kind);
    PropertiesRoundTrip(s.properties);
  }

  /** The text a user typed into a text box does not survive saving and
      loading through `Shape.from_dict`. */
  lemma ShapeReloadLosesText(s: ShapeData)
    requires HasText(s.kind) && s.text.Some? && s.text.value != DefaultText
    ensures ShapeFromDict(ShapeToDict(s)) != Some(s)
    ensures ShapeFromDict(ShapeToDict(s)).value.text == Some(DefaultText)
  {
    ShapeRoundTrip(s);
  }

  /** `TextBoxShape.from_dict`, which the load evidently means to reach for
      the text kinds: `Shape.from_dict`, then the stored text (empty when
      missing) for a text box or call-out. */
  function TextShapeFromDict(v: Value): (r: Option<ShapeData>)
    ensures r.Some? <==> ShapeFromDict(v).Some?
    ensures r.Some? ==> r.value.kind == ShapeFromDict(v).value.kind && r.value.properties == ShapeFromDict(v).value.properties
    ensures r.Some? && HasText(r.value.kind) ==> r.value.text == Some(GetStr(v.fields, "text", ""))
    ensures r.Some? ==> WellFormed(r.value)
  {
    match ShapeFromDict(v)
    case None => None
    case Some(s) => Some(if HasText(s.kind) then s.(text := Some(GetStr(v.fields, "text", ""))) else s)
  }

  /** With `TextBoxShape.from_dict` every saved shape, its text included,
      reads back as itself. */
  lemma TextShapeRoundTrip(s: ShapeData)
    requires WellFormed(s)
    ensures TextShapeFromDict(ShapeToDict(s)) == Some(s)
  {
    ShapeRoundTrip(s);
  }

  function ShapesValue(ss: seq<ShapeData>): (v: Value)
    ensures v.Arr? && |v.items| == |ss|
    ensures forall i :: 0 <= i < |ss| ==> v.items[i] == ShapeToDict(ss[i])
  {
    Arr(seq(|ss|, i requires 0 <= i < |ss| => ShapeToDict(ss[i])))
  }

  /** A stored shape list decodes when every entry does. */
  function ShapesFrom(items: seq<Value>): (r: Option<seq<ShapeData>>)
    ensures r.Some? <==> forall i :: 0 <= i < |items| ==> ShapeFromDict(items[i]).Some?
    ensures r.Some? ==> |r.value| == |items| && forall i :: 0 <= i < |items| ==> ShapeFromDict(items[i]) == Some(r.value[i])
  {
    if items == [] then Some([])
    else
      match ShapeFromDict(items[0])
      case None => None
      case Some(s) =>
        match ShapesFrom(items[1..])
        case None =>
          assert forall i :: 1 <= i < |items| ==> items[i] == items[1..][i - 1];
          None
        case Some(rest) =>
          assert forall i :: 1 <= i < |items| ==> items[i] == items[1..][i - 1];
          Some([s] + rest)
  }

  function AllReloaded(ss: seq<ShapeData>): (r: seq<ShapeData>)
    ensures |r| == |ss| && forall i :: 0 <= i < |ss| ==> r[i] == Reloaded(ss[i])
  {
    seq(|ss|, i requires 0 <= i < |ss| => Reloaded(ss[i]))
  }

  /** Reading a saved shape list gives back every shape in order, each as
      `ShapeRoundTrip` says. */
  lemma ShapesRoundTrip(ss: seq<ShapeData>)
    ensures ShapesFrom(ShapesValue(ss).items) == Some(AllReloaded(ss))
  {
    var items := ShapesValue(ss).items;
    forall i | 0 <= i < |items| ensures ShapeFromDict(items[i]) == Some(Reloaded(ss[i])) {
      ShapeRoundTrip(ss[i]);
    }
    var r := ShapesFrom(items);
    assert r.value == AllReloaded(ss);
  }

  /** `max(zs, default=0)`. */
  function MaxOf(zs: seq<int>): (m: int)
    ensures forall i :: 0 <= i < |zs| ==> zs[i] <= m
    ensures zs != [] ==> m in zs
    ensures zs == [] ==> m == 0
  {
    if |zs| <= 1 then (if zs == [] then 0 else zs[0])
    else
      var rest := MaxOf(zs[1..]);
      assert forall i :: 1 <= i < |zs| ==> zs[i] == zs[1..][i - 1];
      if zs[0] >= rest then zs[0] else rest
  }

  /** `min(zs, default=0)`. */
  function MinOf(zs: seq<int>): (m: int)
    ensures forall i :: 0 <= i < |zs| ==> m <= zs[i]
    ensures zs != [] ==> m in zs
    ensures zs == [] ==> m == 0
  {
    if |zs| <= 1 then (if zs == [] then 0 else zs[0])
    else
      var rest := MinOf(zs[1..]);
      assert forall i :: 1 <= i < |zs| ==> zs[i] == zs[1..][i - 1];
      if zs[0] <= rest then zs[0] else rest
  }

  class Shape {
    const kind: ShapeType
    var properties: ShapeProperties
    /** The text of a text box or call-out; `None` for the other kinds. */
    var text: Option<string>
    /** The graphics item's z value, which stacks the shapes; it is not the
        `z_value` of the properties. */
    var z: int

    /** A new shape of the given kind, under its class's name and, for a
        text box or call-out, with the text it starts with. */
    constructor (kind: ShapeType)
      ensures this.kind == kind && properties == DefaultProperties.(name := DefaultName(kind)) && z == 0
      ensures text == ClassText(kind)
    {
      this.kind := kind;
      properties := DefaultProperties.(name := DefaultName(kind));
      text := ClassText(kind);
      z := 0;
    }

    function Data(): (d: ShapeData)
      reads this
      ensures d.kind == kind && d.properties == properties && d.text == text
    {
      ShapeData(kind, properties, text)
    }

    /** The properties dialog's accept: a text box or call-out takes the
        edited text; other kinds have none. */
    method SetText(t: string)
      modifies this`text
      ensures text == (if HasText(kind) then Some(t) else old(text))
      ensures old(WellFormed(Data())) ==> WellFormed(Data())
    {
      if HasText(kind) {
        text := Some(t);
      }
    }
  }

  /** `Shape.create_shape`: every type yields a shape of that type. */
  method CreateShape(t: ShapeType) returns (s: Shape)
    ensures fresh(s) && s.kind == t && s.properties.name == DefaultName(t) && s.z == 0
    ensures s.text == ClassText(t) && WellFormed(s.Data())
  {
    s := new Shape(t);
  }

  function DataOf(ss: seq<Shape>): (r: seq<ShapeData>)
    reads ss
    ensures |r| == |ss|
    ensures forall i :: 0 <= i < |ss| ==> r[i] == ss[i].Data()
  {
    seq(|ss|, i reads ss requires 0 <= i < |ss| => ss[i].Data())
  }

  /** The shapes of a stored list, created in turn until the first entry
      that cannot be read. */
  method LoadShapes(items: seq<Value>) returns (ss: seq<Shape>, ok: bool)
    ensures forall i :: 0 <= i < |ss| ==> fresh(ss[i]) && ss[i].z == 0
    ensures |ss| <= |items|
    ensures forall i :: 0 <= i < |ss| ==> ShapeFromDict(items[i]) == Some(ss[i].Data())
    ensures ok <==> |ss| == |items|
    ensures !ok ==> ShapeFromDict(items[|ss|]).None?
  {
    ss := [];
    var i := 0;
    while i < |items|
      invariant 0 <= i <= |items| && |ss| == i
      invariant forall k :: 0 <= k < i ==> fresh(ss[k]) && ss[k].z == 0
      invariant forall k :: 0 <= k < i ==> ShapeFromDict(items[k]) == Some(ss[k].Data())
    {
      var sd := ShapeFromDict(items[i]);
      if sd.None? {
        return ss, false;
      }
      var s := new Shape(sd.value.kind);
      s.properties := sd.value.properties;
      s.text := sd.value.text;
      ss := ss + [s];
      i := i + 1;
    }
    ok := true;
  }

  function ZValues(ss: seq<Shape>): (r: seq<int>)
    reads ss
    ensures |r| == |ss|
    ensures forall i :: 0 <= i < |ss| ==> r[i] == ss[i].z
  {
    seq(|ss|, i reads ss requires 0 <= i < |ss| => ss[i].z)
  }

  /** The dictionary `ShapeManager.to_dict` writes for the shapes `ss` and
      the next z value `nextZ`. */
  function ManagerDict(ss: seq<ShapeData>, nextZ: int): (d: Dict)
    ensures GetArr(d, "shapes") == ShapesValue(ss).items
    ensures ShapesFrom(GetArr(d, "shapes")) == Some(AllReloaded(ss))
    ensures GetInt(d, "next_z", 0) == nextZ
  {
    ShapesRoundTrip(ss);
    map["shapes" := ShapesValue(ss), "next_z" := Int(nextZ)]
  }

  class ShapeManager {
    var shapes: seq<Shape>
    var selected: seq<Shape>
    var nextZ: int

    /** The selection never holds a shape twice. */
    predicate Valid()
      reads this
    {
      Distinct(selected)
    }

    /** A manager for a document (the document itself is not modelled). */
    constructor ()
      ensures shapes == [] && selected == [] && nextZ == 1 && Valid()
    {
      shapes := [];
      selected := [];
      nextZ := 1;
    }

    /** `add_shape`: the shape takes the next z value, so each addition
        lies above the previous one. */
    method AddShape(shape: Shape)
      modifies this, shape`z
      ensures shape.z == old(nextZ) && nextZ == old(nextZ) + 1 && nextZ > shape.z
      ensures shapes == old(shapes) + [shape] && selected == old(selected)
    {
      shape.z := nextZ;
      nextZ := nextZ + 1;
      shapes := shapes + [shape];
    }

    /** `deselect_shape`. */
    method DeselectShape(shape: Shape)
      requires Valid()
      modifies this`selected
      ensures selected == RemoveFirst(old(selected), shape) && shape !in selected
      ensures Valid()
    {
      RemoveFirstDistinct(selected, shape);
      if shape in selected {
        selected := RemoveFirst(selected, shape);
      }
    }

    /** `remove_shape`: the shape leaves the list and the selection; an
        absent shape changes nothing. */
    method RemoveShape(shape: Shape)
      requires Valid()
      modifies this`shapes, this`selected
      ensures old(shape in shapes) ==> shapes == RemoveFirst(old(shapes), shape) && selected == RemoveFirst(old(selected), shape)
      ensures old(shape in shapes) ==> shape !in selected
      ensures old(shape !in shapes) ==> shapes == old(shapes) && selected == old(selected)
      ensures Valid()
    {
      if shape in shapes {
        shapes := RemoveFirst(shapes, shape);
        DeselectShape(shape);
      }
    }

    /** `clear_selection`. */
    method ClearSelection()
      modifies this`selected
      ensures selected == [] && Valid()
    {
      selected := [];
    }

    /** `select_shape`: a single selection replaces the selection by the
        shape; a multiple one appends it unless it is already selected. */
    method SelectShape(shape: Shape, multiSelect: bool)
      requires Valid()
      modifies this`selected
      ensures !multiSelect ==> selected == [shape]
      ensures multiSelect && shape in old(selected) ==> selected == old(selected)
      ensures multiSelect && shape !in old(selected) ==> selected == old(selected) + [shape]
      ensures Valid()
    {
      if !multiSelect {
        ClearSelection();
      }
      if shape !in selected {
        DistinctSnoc(selected, shape);
        selected := selected + [shape];
      }
    }

    /** `bring_to_front`: a member shape rises above every shape's previous
        z value; any other shape changes nothing. */
    method BringToFront(shape: Shape)
      modifies shape`z
      ensures shape in shapes ==> shape.z == MaxOf(old(ZValues(shapes))) + 1
      ensures shape in shapes ==> forall i :: 0 <= i < |shapes| ==> old(shapes[i].z) < shape.z
      ensures shape in shapes ==> forall i :: 0 <= i < |shapes| && shapes[i] != shape ==> shapes[i].z < shape.z
      ensures shape !in shapes ==> shape.z == old(shape.z)
    {
      if shape in shapes {
        var zs := ZValues(shapes);
        shape.z := MaxOf(zs) + 1;
      }
    }

    /** `send_to_back`: a member shape sinks below every shape's previous
        z value. */
    method SendToBack(shape: Shape)
      modifies shape`z
      ensures shape in shapes ==> shape.z == MinOf(old(ZValues(shapes))) - 1
      ensures shape in shapes ==> forall i :: 0 <= i < |shapes| ==> shape.z < old(shapes[i].z)
      ensures shape in shapes ==> forall i :: 0 <= i < |shapes| && shapes[i] != shape ==> shape.z < shapes[i].z
      ensures shape !in shapes ==> shape.z == old(shape.z)
    {
      if shape in shapes {
        var zs := ZValues(shapes);
        shape.z := MinOf(zs) - 1;
      }
    }

    /** `to_dict`: the shapes in order, with their texts, and the next z
        value. Read back by `from_dict`, each shape returns as
        `ShapeRoundTrip` says. */
    function ToDict(): (d: Dict)
      reads this, shapes
      ensures GetArr(d, "shapes") == ShapesValue(DataOf(shapes)).items
      ensures ShapesFrom(GetArr(d, "shapes")) == Some(AllReloaded(DataOf(shapes)))
      ensures GetInt(d, "next_z", 0) == nextZ
    {
      ManagerDict(DataOf(shapes), nextZ)
    }

    /** `from_dict`: the selection and the shapes are cleared, then each
        stored shape is created in turn; the first entry Python cannot read
        stops the load there, leaving the shapes read so far and the old
        next z value. Otherwise the next z value is the stored one, or one
        past the number of shapes. Loaded shapes have z value 0. */
    method FromDict(data: Dict) returns (ok: bool)
      modifies this
      ensures selected == [] && Valid()
      ensures forall i :: 0 <= i < |shapes| ==> fresh(shapes[i]) && shapes[i].z == 0
      ensures ok <==> ShapesFrom(GetArr(data, "shapes")).Some?
      ensures ok ==> Some(DataOf(shapes)) == ShapesFrom(GetArr(data, "shapes"))
      ensures ok ==> nextZ == GetInt(data, "next_z", |shapes| + 1)
      ensures !ok ==> nextZ == old(nextZ) && |shapes| < |GetArr(data, "shapes")|
      ensures !ok ==> forall i :: 0 <= i < |shapes| ==> ShapeFromDict(GetArr(data, "shapes")[i]) == Some(shapes[i].Data())
      ensures !ok ==> ShapeFromDict(GetArr(data, "shapes")[|shapes|]).None?
    {
      selected := [];
      var items := GetArr(data, "shapes");
      shapes, ok := LoadShapes(items);
      if !ok {
        return;
      }
      var r := ShapesFrom(items);
      assert r.value == DataOf(shapes);
      nextZ := GetInt(data, "next_z", |shapes| + 1);
      ok := true;
    }
  }
}
