/** The plug server's data shaping: the export records built from the
    `PQs` variable set, the `Name:Label/Prop` paths written back on import,
    the expression guard, the clean-units table, and endpoint routing. The
    CAD document is reached only through the oracles held in `Doc` and
    `VarSet`; sockets, threads and headers are left out. */
module PlugServer {

  import opened Wrappers
  import opened Text
  import opened Seqs
  import opened Json

  // ---------------------------------------------------------------------
  // Paths

  const NoneNotIterable: string := "argument of type 'NoneType' is not iterable"
  const UnpackError: string := "not enough values to unpack (expected 2, got 1)"

  /** The object and property a write path names: `Obj:Label/Prop` or
      `Obj/Prop`. The object is the first `/`-segment up to any `:`, the
      property everything after the first `/`; without a `/` the unpacking
      in the source raises. */
  function ParsePath(path: string): (r: Result<(string, string), string>)
    ensures r.Err? <==> '/' !in path
    ensures r.Err? ==> r.error == UnpackError
    ensures r.Ok? ==>
      var (obj, prop) := r.value;
      && '/' !in obj && ':' !in obj
      && path == BeforeFirst(path, '/') + "/" + prop
      && obj == BeforeFirst(BeforeFirst(path, '/'), ':')
  {
    if '/' !in path then Err(UnpackError)
    else
      var segment := BeforeFirst(path, '/');
      var prop := AfterFirst(path, '/');
      assert path == segment + "/" + prop by {
        assert |segment| == FirstIndex(path, '/') by {
          assert path[|segment|] == '/';
          assert path[..|segment|] == segment;
        }
      }
      if ':' in path then Ok((BeforeFirst(segment, ':'), prop))
      else
        assert ':' !in segment;
        assert BeforeFirst(segment, ':') == segment by { BeforeFirstAbsent(segment, ':'); }
        Ok((segment, prop))
  }

  lemma {:induction false} BeforeFirstAbsent(s: string, sep: char)
    requires sep !in s
    ensures BeforeFirst(s, sep) == s
    decreases |s|
  {
    if s != [] {
      BeforeFirstAbsent(s[1..], sep);
    }
  }

  /** The path an exported record carries. */
  function PathOf(varsetName: string, varsetLabel: string, propName: string): string {
    varsetName + ":" + varsetLabel + "/" + propName
  }

  /** Export and import agree on paths: parsing a record's path names the
      variable set object and the property it came from. */
  lemma ParseExportedPath(varsetName: string, varsetLabel: string, propName: string)
    requires ':' !in varsetName && '/' !in varsetName && '/' !in varsetLabel
    ensures ParsePath(PathOf(varsetName, varsetLabel, propName)) == Ok((varsetName, propName))
  {
    var segment := varsetName + ":" + varsetLabel;
    var path := PathOf(varsetName, varsetLabel, propName);
    assert path == segment + ['/'] + propName;
    SplitFirstConcat(segment, '/', propName);
    assert segment == varsetName + [':'] + varsetLabel;
    SplitFirstConcat(varsetName, ':', varsetLabel);
  }

  /** The short form `Obj/Prop` names the same object and property. */
  lemma ParseSimplePath(obj: string, propName: string)
    requires ':' !in obj && '/' !in obj && ':' !in propName
    ensures ParsePath(obj + "/" + propName) == Ok((obj, propName))
  {
    SplitFirstConcat(obj, '/', propName);
    BeforeFirstAbsent(obj, ':');
  }

  // ---------------------------------------------------------------------
  // Writing values back

  /** The document as the import sees it: the object names, whether a
      property is driven by an expression, and the outcome of building the
      quantity and assigning it (`None` on success, else the message). */
  datatype Doc = Doc(
    objects: set<string>,
    hasExpression: (string, string) -> bool,
    store: (string, string, Json, Option<string>, string) -> Option<string>)

  /** `write_path`. */
  function WritePath(doc: Doc, path: Option<string>, value: Json, unit: Option<string>, kind: string,
                     allowOverrideExpression: bool): (r: Result<(), string>)
    ensures path.None? ==> r == Err(NoneNotIterable)
    ensures r.Ok? ==>
      && path.Some? && ParsePath(path.value).Ok?
      && var (obj, prop) := ParsePath(path.value).value;
      && obj in doc.objects
      && (allowOverrideExpression || !doc.hasExpression(obj, prop))
      && doc.store(obj, prop, value, unit, kind).None?
    ensures path.Some? && ParsePath(path.value).Ok? && !allowOverrideExpression ==>
      var (obj, prop) := ParsePath(path.value).value;
      obj in doc.objects && doc.hasExpression(obj, prop) ==>
        r == Err(path.value + " is expression-driven; refusing to overwrite.")
  {
    match path
    case None => Err(NoneNotIterable)
    case Some(p) =>
      match ParsePath(p)
      case Err(e) => Err(e)
      case Ok((obj, prop)) =>
        if obj !in doc.objects then Err("Object not found: " + obj)
        else if doc.hasExpression(obj, prop) && !allowOverrideExpression then
          Err(p + " is expression-driven; refusing to overwrite.")
        else match doc.store(obj, prop, value, unit, kind)
          case Some(e) => Err(e)
          case None => Ok(())
  }

  /** One entry of an import request. */
  datatype Update = Update(name: Option<string>, path: Option<string>, value: Json, unit: Option<string>,
                           pqKind: Option<string>)

  /** `upd.get("name") or upd.get("path")`: an empty name falls through. */
  function Target(u: Update): (r: Option<string>)
    ensures u.name.Some? && u.name.value != [] ==> r == u.name
    ensures !(u.name.Some? && u.name.value != []) ==> r == u.path
  {
    if u.name.Some? && u.name.value != [] then u.name else u.path
  }

  datatype Applied = Applied(name: Option<string>, value: Json, unit: Option<string>)

  datatype Failure = Failure(name: Option<string>, error: string)

  datatype ImportReport = ImportReport(applied: seq<Applied>, errors: seq<Failure>)

  function WriteUpdate(doc: Doc, u: Update, allowOverrideExpression: bool): Result<(), string> {
    WritePath(doc, Target(u), u.value, u.unit, u.pqKind.GetOr("Length"), allowOverrideExpression)
  }

  /** The outcome of one update. */
  function ApplyOne(doc: Doc, u: Update, allowOverrideExpression: bool): (r: ImportReport)
    ensures |r.applied| + |r.errors| == 1
    ensures r.applied != [] <==> WriteUpdate(doc, u, allowOverrideExpression).Ok?
    ensures r.applied != [] ==> r.applied[0] == Applied(Target(u), u.value, u.unit)
    ensures r.errors != [] ==> r.errors[0] == Failure(Target(u), WriteUpdate(doc, u, allowOverrideExpression).error)
  {
    match WriteUpdate(doc, u, allowOverrideExpression)
    case Ok(_) => ImportReport([Applied(Target(u), u.value, u.unit)], [])
    case Err(e) => ImportReport([], [Failure(Target(u), e)])
  }

  function Both(x: ImportReport, y: ImportReport): ImportReport {
    ImportReport(x.applied + y.applied, x.errors + y.errors)
  }

  /** `apply_updates`: each update lands in `applied` or in `errors`, in
      input order. */
  function ApplyUpdates(doc: Doc, updates: seq<Update>, allowOverrideExpression: bool): (r: ImportReport)
    ensures |r.applied| + |r.errors| == |updates|
    ensures updates == [] ==> r == ImportReport([], [])
  {
    if updates == [] then ImportReport([], [])
    else Both(ApplyOne(doc, updates[0], allowOverrideExpression), ApplyUpdates(doc, updates[1..], allowOverrideExpression))
  }

  /** Applying a batch is applying its parts one after the other: both lists
      keep the order of the input. */
  lemma {:induction false} ApplyUpdatesAppend(doc: Doc, a: seq<Update>, b: seq<Update>, allow: bool)
    ensures ApplyUpdates(doc, a + b, allow) == Both(ApplyUpdates(doc, a, allow), ApplyUpdates(doc, b, allow))
  {
    if a == [] {
      assert a + b == b;
    } else {
      assert (a + b)[0] == a[0] && (a + b)[1..] == a[1..] + b;
      ApplyUpdatesAppend(doc, a[1..], b, allow);
      BothAssociative(ApplyOne(doc, a[0], allow), ApplyUpdates(doc, a[1..], allow), ApplyUpdates(doc, b, allow));
    }
  }

  lemma BothAssociative(x: ImportReport, y: ImportReport, z: ImportReport)
    ensures Both(x, Both(y, z)) == Both(Both(x, y), z)
  {
    assert x.applied + (y.applied + z.applied) == (x.applied + y.applied) + z.applied;
    assert x.errors + (y.errors + z.errors) == (x.errors + y.errors) + z.errors;
  }

  /** A single update is applied exactly when its write succeeds, and
      otherwise reported with the write's message. */
  lemma ApplySingle(doc: Doc, u: Update, allow: bool)
    ensures var r := ApplyUpdates(doc, [u], allow);
      match WriteUpdate(doc, u, allow)
      case Ok(_) => r == ImportReport([Applied(Target(u), u.value, u.unit)], [])
      case Err(e) => r == ImportReport([], [Failure(Target(u), e)])
  {
    assert [u][1..] == [];
    assert [u][0] == u;
  }

  /** Without the override flag no applied update targets an
      expression-driven property. */
  lemma {:induction false} GuardHolds(doc: Doc, updates: seq<Update>)
    ensures forall i :: 0 <= i < |ApplyUpdates(doc, updates, false).applied| ==>
      var name := ApplyUpdates(doc, updates, false).applied[i].name;
      && name.Some? && ParsePath(name.value).Ok?
      && !doc.hasExpression(ParsePath(name.value).value.0, ParsePath(name.value).value.1)
  {
    if updates != [] {
      GuardHolds(doc, updates[1..]);
      var x := ApplyOne(doc, updates[0], false);
      var y := ApplyUpdates(doc, updates[1..], false);
      assert ApplyUpdates(doc, updates, false).applied == x.applied + y.applied;
    }
  }

  // ---------------------------------------------------------------------
  // Export records

  /** Properties of the variable set that are never exported. */
  const SkipProps: set<string> := {
    "Label", "Label2", "Name", "Visibility", "Content", "ExpressionEngine",
    "Document", "Module", "TypeId", "ID", "State", "ViewObject", "FullName",
    "InList", "OutList", "Parents", "MemSize", "MustExecute", "Removing",
    "NoTouch", "OldLabel", "ExportVars"
  }

  /** A property's value as `getattr` returns it. `Quantity` holds the SI
      value, `str(Unit)` when the value has a unit, and the text the unit
      schema translates it to (`None` when translating raises).
      `Unreadable` stands for every exception on the way to a record. */
  datatype PropValue =
    | Quantity(valueSi: real, unitText: Option<string>, translated: Option<string>)
    | TextValue(text: string)
    | NumberValue(number: real)
    | Unreadable(message: string)

  datatype VarSet = VarSet(
    name: string,
    objLabel: string,
    properties: seq<(string, PropValue)>,
    expressions: map<string, string>,
    typeOf: string -> Option<string>)

  datatype Display = Display(value: real, unit: string)

  datatype Param =
    | QuantityParam(path: string, labelText: string, name: string, expr: string, readonly: bool,
                    valueSi: real, unitSi: string, kind: Option<string>, display: Display)
    | StringParam(path: string, labelText: string, name: string, value: string)
    | NumberParam(path: string, labelText: string, name: string, expr: string, readonly: bool,
                  valueSi: real, unitSi: string, display: Display)
    | ErrorParam(path: string, labelText: string, name: string, error: string)

  /** `prop_name.split("_", 1)[-1]`. */
  function LabelOf(propName: string): (r: string)
    ensures '_' !in propName ==> r == propName
    ensures '_' in propName ==> propName == BeforeFirst(propName, '_') + "_" + r
  {
    if '_' in propName then
      var i := FirstIndex(propName, '_');
      assert BeforeFirst(propName, '_') == propName[..i] by {
        SplitFirstConcat(propName[..i], '_', propName[i + 1..]);
        assert propName == propName[..i] + ['_'] + propName[i + 1..];
      }
      AfterFirst(propName, '_')
    else AfterFirst(propName, '_')
  }

  /** A prefixed name's label is the text after the prefix. */
  lemma LabelOfPrefixed(prefix: string, suffix: string)
    requires '_' !in prefix
    ensures LabelOf(prefix + "_" + suffix) == suffix
  {
    SplitFirstConcat(prefix, '_', suffix);
  }

  /** The SI unit: the second word of `str(Unit)` when it has a blank, else
      `?`. A blank without a second word makes the index raise. */
  function UnitSi(unitText: Option<string>): (r: Result<string, string>)
    ensures unitText.None? ==> r == Ok("?")
    ensures r.Ok? && r.value != "?" ==> unitText.Some? && |Words(unitText.value)| >= 2 && r.value == Words(unitText.value)[1]
    ensures unitText.Some? && ' ' in unitText.value ==> (r.Ok? <==> |Words(unitText.value)| >= 2)
  {
    match unitText
    case None => Ok("?")
    case Some(t) =>
      if Count(t, ' ') >= 1 then
        var ws := Words(t);
        if |ws| >= 2 then Ok(ws[1]) else Err("list index out of range")
      else Ok("?")
  }

  /** The display split: the last of several words is the unit and the rest
      the number; a single word is a number without unit; `None` sends the
      record to the fallback. */
  function SplitDisplay(s: string, parseFloat: string -> Option<real>): (r: Option<Display>)
    ensures Words(Strip(s)) == [] ==> r.None?
    ensures |Words(Strip(s))| == 1 && r.Some? ==> r.value.unit == "?"
    ensures |Words(Strip(s))| >= 2 && r.Some? ==> r.value.unit == Words(Strip(s))[|Words(Strip(s))| - 1]
  {
    var d := Strip(s);
    var parts := Words(d);
    if |parts| >= 2 then
      match parseFloat(Join(parts[..|parts| - 1], " "))
      case Some(v) => Some(Display(v, parts[|parts| - 1]))
      case None => None
    else if |parts| == 1 then
      match parseFloat(d)
      case Some(v) => Some(Display(v, "?"))
      case None => None
    else None
  }

  /** `number unit` reads as the two words `number` and `unit`. */
  lemma WordsOfPair(number: string, unit: string)
    requires IsToken(number) && IsToken(unit)
    ensures Words(Strip(number + " " + unit)) == [number, unit]
  {
    var s := number + " " + unit;
    assert s == number + [' '] + unit;
    StripTrimmed(s);
    WordsPair(number, unit);
  }

  /** A display string `number unit` splits back into its number and unit. */
  lemma SplitDisplayOfPair(number: string, unit: string, parseFloat: string -> Option<real>)
    requires IsToken(number) && IsToken(unit)
    ensures SplitDisplay(number + " " + unit, parseFloat) ==
      match parseFloat(number)
      case Some(v) => Some(Display(v, unit))
      case None => None
  {
    WordsOfPair(number, unit);
    var parts := [number, unit];
    assert parts[..1] == [number];
    assert Join([number], " ") == number;
  }

  /** A lone number has no unit. */
  lemma SplitDisplayOfNumber(number: string, parseFloat: string -> Option<real>)
    requires IsToken(number)
    ensures SplitDisplay(number, parseFloat) ==
      match parseFloat(number)
      case Some(v) => Some(Display(v, "?"))
      case None => None
  {
    StripTrimmed(number);
    WordsOfToken(number);
  }

  /** The unit shown when the display cannot be split: the first word of
      `str(Unit)`, or `?`. */
  function FallbackUnit(unitText: Option<string>): (r: string)
    ensures r != []
    ensures r == "?" || (unitText.Some? && Words(unitText.value) != [] && r == Words(unitText.value)[0])
    ensures unitText.Some? && Words(unitText.value) != [] ==> r == Words(unitText.value)[0]
  {
    match unitText
    case None => "?"
    case Some(t) => if Words(t) == [] then "?" else Words(t)[0]
  }

  /** The display of a quantity: the split when it succeeds, else the SI
      value with the fallback unit. */
  function DisplayOf(valueSi: real, unitText: Option<string>, translated: Option<string>,
                     parseFloat: string -> Option<real>): (r: Display)
    ensures translated.Some? && SplitDisplay(translated.value, parseFloat).Some? ==>
      r == SplitDisplay(translated.value, parseFloat).value
    ensures translated.None? || SplitDisplay(translated.value, parseFloat).None? ==>
      r == Display(valueSi, FallbackUnit(unitText))
  {
    if translated.Some? && SplitDisplay(translated.value, parseFloat).Some? then
      SplitDisplay(translated.value, parseFloat).value
    else Display(valueSi, FallbackUnit(unitText))
  }

  const PropertyWord: string := "Property"

  /** `t.split("Property")[1]`: the text between the first and the second
      `Property`, or to the end. */
  function SecondField(t: string): (r: string)
    requires Contains(t, PropertyWord)
    ensures !Contains(r, PropertyWord)
  {
    var i := IndexOf(t, PropertyWord).value;
    var rest := t[i + |PropertyWord|..];
    match IndexOf(rest, PropertyWord)
    case None => rest
    case Some(j) =>
      BeforeIndexLacks(rest, PropertyWord);
      rest[..j]
  }

  /** The kind of a property type: defined only for type ids with `::` and
      `Property`. */
  function KindOf(propType: Option<string>): (r: Option<string>)
    ensures r.Some? <==> propType.Some? && Contains(propType.value, "::") && Contains(propType.value, PropertyWord)
    ensures r.Some? ==> !Contains(r.value, PropertyWord)
  {
    match propType
    case Some(t) =>
      if t != [] && Contains(t, "::") && Contains(t, PropertyWord) then Some(SecondField(t)) else None
    case None => None
  }

  /** `App::Property<Kind>` has kind `<Kind>`. */
  lemma KindOfAppProperty(kind: string)
    requires !Contains(kind, PropertyWord)
    ensures KindOf(Some("App::Property" + kind)) == Some(kind)
  {
    var t := "App::Property" + kind;
    assert t[5..13] == PropertyWord;
    assert IsPrefix(PropertyWord, t[5..]);
    IndexOfSkip(t, PropertyWord, 5);
    ContainsAt(t, PropertyWord, 5);
    assert t[3..5] == "::";
    ContainsAt(t, "::", 3);
    assert t[13..] == kind;
  }

  /** `fileName`: the last path segment after turning `\` into `/`, or
      `Untitled`. */
  function FileName(filePath: Option<string>): (r: string)
    ensures r != [] && '/' !in r && '\\' !in r
  {
    match filePath
    case Some(p) =>
      if p == [] then "Untitled"
      else
        var unified := ReplaceAll(p, "\\", "/");
        var name := AfterLast(unified, '/');
        ReplaceRemoves(p, '\\', "/");
        if name == [] then "Untitled" else name
    case None => "Untitled"
  }

  /** The file name of `dir/name` or `dir\name` is `name`. */
  lemma FileNameOfPath(dir: string, sep: char, name: string)
    requires sep == '/' || sep == '\\'
    requires name != [] && '/' !in name && '\\' !in name
    ensures FileName(Some(dir + [sep] + name)) == name
  {
    var p := dir + [sep] + name;
    var u := ReplaceAll(p, "\\", "/");
    ReplaceCharSpec(p, '\\', '/');
    assert u == u[..|dir|] + ['/'] + u[|dir| + 1..];
    assert u[|dir| + 1..] == name by {
      forall i | 0 <= i < |name| ensures u[|dir| + 1 + i] == name[i] {
        assert p[|dir| + 1 + i] == name[i];
      }
    }
    AfterLastConcat(u[..|dir|], '/', name);
  }

  function ExprOf(vs: VarSet, propName: string): string {
    if propName in vs.expressions then vs.expressions[propName] else ""
  }

  /** The record exported for one property. */
  function Record(vs: VarSet, propName: string, value: PropValue, parseFloat: string -> Option<real>): (r: Param)
    ensures r.name == propName && r.labelText == LabelOf(propName) && r.path == PathOf(vs.name, vs.objLabel, propName)
    ensures r.QuantityParam? || r.NumberParam? ==> r.expr == ExprOf(vs, propName) && (r.readonly <==> r.expr != [])
    ensures value.TextValue? <==> r.StringParam?
    ensures value.NumberValue? <==> r.NumberParam?
    ensures r.QuantityParam? <==> value.Quantity? && UnitSi(value.unitText).Ok?
    ensures r.NumberParam? ==> r.unitSi == "?" && r.display == Display(value.number, "?")
    ensures r.QuantityParam? ==> r.kind == KindOf(vs.typeOf(propName)) && r.valueSi == value.valueSi
  {
    var path := PathOf(vs.name, vs.objLabel, propName);
    var labelText := LabelOf(propName);
    var expr := ExprOf(vs, propName);
    match value
    case Quantity(valueSi, unitText, translated) =>
      (match UnitSi(unitText)
       case Err(e) => ErrorParam(path, labelText, propName, e)
       case Ok(unitSi) =>
         QuantityParam(path, labelText, propName, expr, expr != [], valueSi, unitSi,
                       KindOf(vs.typeOf(propName)), DisplayOf(valueSi, unitText, translated, parseFloat)))
    case TextValue(s) => StringParam(path, labelText, propName, s)
    case NumberValue(x) => NumberParam(path, labelText, propName, expr, expr != [], x, "?", Display(x, "?"))
    case Unreadable(e) => ErrorParam(path, labelText, propName, e)
  }

  /** The properties that are exported, in order. */
  function Kept(properties: seq<(string, PropValue)>): (r: seq<(string, PropValue)>)
    ensures |r| <= |properties|
    ensures forall i :: 0 <= i < |r| ==> r[i].0 !in SkipProps && r[i] in properties
    ensures forall p :: p in properties && p.0 !in SkipProps ==> p in r
  {
    if properties == [] then []
    else (if properties[0].0 in SkipProps then [] else [properties[0]]) + Kept(properties[1..])
  }

  /** The `params` of `export_payload`: one record per kept property. */
  function ExportParams(vs: VarSet, parseFloat: string -> Option<real>): (r: seq<Param>)
    ensures |r| == |Kept(vs.properties)|
    ensures forall i :: 0 <= i < |r| ==>
      r[i] == Record(vs, Kept(vs.properties)[i].0, Kept(vs.properties)[i].1, parseFloat)
  {
    var kept := Kept(vs.properties);
    seq(|kept|, i requires 0 <= i < |kept| => Record(vs, kept[i].0, kept[i].1, parseFloat))
  }

  /** No skipped property produces a record, and every record's path leads
      back to its property. */
  lemma ExportedRecords(vs: VarSet, parseFloat: string -> Option<real>)
    requires ':' !in vs.name && '/' !in vs.name && '/' !in vs.objLabel
    ensures forall i :: 0 <= i < |ExportParams(vs, parseFloat)| ==>
      var p := ExportParams(vs, parseFloat)[i];
      && p.name !in SkipProps
      && ParsePath(p.path) == Ok((vs.name, p.name))
  {
    var r := ExportParams(vs, parseFloat);
    forall i | 0 <= i < |r| ensures r[i].name !in SkipProps && ParsePath(r[i].path) == Ok((vs.name, r[i].name)) {
      ParseExportedPath(vs.name, vs.objLabel, r[i].name);
    }
  }

  datatype Payload =
    | ExportFailed(error: string)
    | Exported(fileName: string, params: seq<Param>)

  /** `export_payload`: a missing variable set gives the error payload. */
  function ExportPayload(filePath: Option<string>, varset: Result<VarSet, string>,
                         parseFloat: string -> Option<real>): (r: Payload)
    ensures r.ExportFailed? <==> varset.Err?
    ensures r.Exported? ==> r.fileName == FileName(filePath) && r.params == ExportParams(varset.value, parseFloat)
  {
    match varset
    case Err(e) => ExportFailed(e)
    case Ok(vs) => Exported(FileName(filePath), ExportParams(vs, parseFloat))
  }

  // ---------------------------------------------------------------------
  // Clean units

  datatype CleanType = CleanType(category: string, baseUnit: string, exampleUnits: seq<string>)

  /** The clean property types the server knows, in table order. */
  const CleanPropertyData: seq<(string, CleanType)> := [
    ("App::PropertyLength", CleanType("Length", "mm", ["mm", "cm", "m", "in", "ft"])),
    ("App::PropertyDistance", CleanType("Length", "mm", ["mm", "cm", "m", "in", "ft"])),
    ("App::PropertyArea", CleanType("Area", "mm²", ["mm²", "cm²", "m²", "in²", "ft²"])),
    ("App::PropertyVolume", CleanType("Volume", "mm³", ["mm³", "cm³", "m³", "in³", "ft³", "l"])),
    ("App::PropertyMass", CleanType("Mass", "kg", ["g", "kg", "lb", "oz"])),
    ("App::PropertyAngle", CleanType("Angle", "rad", ["rad", "deg", "°"])),
    ("App::PropertySpeed", CleanType("Velocity", "mm/s", ["mm/s", "m/s", "km/h", "mph", "ft/s"])),
    ("App::PropertyAcceleration", CleanType("Acceleration", "mm/s²", ["mm/s²", "m/s²", "ft/s²"])),
    ("App::PropertyForce", CleanType("Force", "N", ["N", "kN", "lbf", "kgf"])),
    ("App::PropertyPressure", CleanType("Pressure", "Pa", ["Pa", "kPa", "MPa", "bar", "psi"])),
    ("App::PropertyDensity", CleanType("Density", "kg/mm³", ["kg/m³", "g/cm³", "kg/mm³", "lb/ft³"])),
    ("App::PropertyTemperature", CleanType("Temperature", "K", ["K", "°C", "°F"])),
    ("App::PropertyTime", CleanType("Time", "s", ["s"])),
    ("App::PropertyFrequency", CleanType("Frequency", "Hz", ["Hz"])),
    ("App::PropertyPower", CleanType("Power", "W", ["W"]))
  ]

  /** All example units of a table, in table order. */
  function ExampleUnits(table: seq<(string, CleanType)>): (r: seq<string>)
    ensures forall u :: u in r <==> exists i :: 0 <= i < |table| && u in table[i].1.exampleUnits
  {
    if table == [] then []
    else
      var rest := ExampleUnits(table[1..]);
      assert forall i :: 1 <= i < |table| ==> table[i] == table[1..][i - 1];
      table[0].1.exampleUnits + rest
  }

  /** Whether entry `i` is the last one with base unit `u`. */
  predicate LastWithBase(table: seq<(string, CleanType)>, i: int, u: string) {
    0 <= i < |table| && table[i].1.baseUnit == u &&
    forall j :: i < j < |table| ==> table[j].1.baseUnit != u
  }

  /** `unit_si_to_kind`: each non-empty base unit mapped to its category,
      a later entry overwriting an earlier one. */
  function UnitSiToKind(table: seq<(string, CleanType)>): (r: map<string, string>)
    ensures forall u :: u in r <==> u != [] && exists i :: 0 <= i < |table| && table[i].1.baseUnit == u
    decreases |table|
  {
    if table == [] then map[]
    else
      var last := table[|table| - 1].1;
      var prefix := table[..|table| - 1];
      assert forall i :: 0 <= i < |prefix| ==> prefix[i] == table[i];
      if last.baseUnit != [] then UnitSiToKind(prefix)[last.baseUnit := last.category] else UnitSiToKind(prefix)
  }

  /** The category a base unit maps to is the one of its last entry. */
  lemma {:induction false} UnitSiToKindLastWins(table: seq<(string, CleanType)>, i: int)
    requires 0 <= i < |table| && LastWithBase(table, i, table[i].1.baseUnit) && table[i].1.baseUnit != []
    ensures UnitSiToKind(table)[table[i].1.baseUnit] == table[i].1.category
    decreases |table|
  {
    var prefix := table[..|table| - 1];
    if i < |table| - 1 {
      assert prefix[i] == table[i];
      assert LastWithBase(prefix, i, prefix[i].1.baseUnit);
      UnitSiToKindLastWins(prefix, i);
    }
  }

  /** The last entry at or after `i` with the base unit of entry `i`. */
  function LastIndexOfBase(table: seq<(string, CleanType)>, u: string, i: nat): (k: nat)
    requires i < |table| && table[i].1.baseUnit == u
    ensures i <= k && LastWithBase(table, k, u)
    decreases |table| - i
  {
    if exists j :: i < j < |table| && table[j].1.baseUnit == u then
      var j :| i < j < |table| && table[j].1.baseUnit == u;
      LastIndexOfBase(table, u, j)
    else i
  }

  /** Entries that share a base unit share a category. */
  predicate Consistent(table: seq<(string, CleanType)>) {
    forall i, j :: 0 <= i < |table| && 0 <= j < |table| && table[i].1.baseUnit == table[j].1.baseUnit ==>
      table[i].1.category == table[j].1.category
  }

  /** In a consistent table the overwriting does not matter: every base
      unit maps to the category of any of its entries. */
  lemma UnitSiToKindOfConsistent(table: seq<(string, CleanType)>)
    requires Consistent(table)
    ensures forall i :: 0 <= i < |table| && table[i].1.baseUnit != [] ==>
      UnitSiToKind(table)[table[i].1.baseUnit] == table[i].1.category
  {
    var m := UnitSiToKind(table);
    forall i | 0 <= i < |table| && table[i].1.baseUnit != []
      ensures m[table[i].1.baseUnit] == table[i].1.category
    {
      var u := table[i].1.baseUnit;
      var k := LastIndexOfBase(table, u, i);
      UnitSiToKindLastWins(table, k);
    }
  }

  /** The kind each base unit of the server's table stands for. */
  function KindOfBase(u: string): Option<string> {
    match u
    case "mm" => Some("Length")
    case "mm²" => Some("Area")
    case "mm³" => Some("Volume")
    case "kg" => Some("Mass")
    case "rad" => Some("Angle")
    case "mm/s" => Some("Velocity")
    case "mm/s²" => Some("Acceleration")
    case "N" => Some("Force")
    case "Pa" => Some("Pressure")
    case "kg/mm³" => Some("Density")
    case "K" => Some("Temperature")
    case "s" => Some("Time")
    case "Hz" => Some("Frequency")
    case "W" => Some("Power")
    case _ => None
  }

  /** Every entry of the server's table has a base unit whose kind is the
      entry's category. */
  lemma CleanEntryKind(i: nat)
    requires i < |CleanPropertyData|
    ensures CleanPropertyData[i].1.baseUnit != []
    ensures KindOfBase(CleanPropertyData[i].1.baseUnit) == Some(CleanPropertyData[i].1.category)
  {
    if i < 5 {
      assert i in {0, 1, 2, 3, 4};
    } else if i < 10 {
      assert i in {5, 6, 7, 8, 9};
    } else {
      assert i in {10, 11, 12, 13, 14};
    }
  }

  /** The two length entries share `mm` and `Length`, and no other entries
      share a base unit: the server's table is consistent. */
  lemma CleanPropertyDataConsistent()
    ensures Consistent(CleanPropertyData)
  {
    forall i, j | 0 <= i < |CleanPropertyData| && 0 <= j < |CleanPropertyData|
                  && CleanPropertyData[i].1.baseUnit == CleanPropertyData[j].1.baseUnit
      ensures CleanPropertyData[i].1.category == CleanPropertyData[j].1.category
    {
      CleanEntryKind(i);
      CleanEntryKind(j);
    }
  }

  /** A table whose every entry has a base unit of its own kind maps each
      base unit to that kind. */
  lemma {:induction false} UnitSiToKindOfKinds(table: seq<(string, CleanType)>)
    requires forall i :: 0 <= i < |table| ==> KindOfBase(table[i].1.baseUnit) == Some(table[i].1.category)
    ensures forall u :: u in UnitSiToKind(table) ==> KindOfBase(u).Some? && UnitSiToKind(table)[u] == KindOfBase(u).value
    decreases |table|
  {
    if table != [] {
      var prefix := table[..|table| - 1];
      assert forall i :: 0 <= i < |prefix| ==> prefix[i] == table[i];
      UnitSiToKindOfKinds(prefix);
    }
  }

  /** The mapping the server ships sends each base unit of its table to
      that unit's kind, and holds no other unit. */
  lemma ServerUnitSiToKind(u: string)
    ensures u in UnitSiToKind(CleanPropertyData) <==> exists i :: 0 <= i < |CleanPropertyData| && CleanPropertyData[i].1.baseUnit == u
    ensures u in UnitSiToKind(CleanPropertyData) ==> UnitSiToKind(CleanPropertyData)[u] == KindOfBase(u).value
  {
    forall i | 0 <= i < |CleanPropertyData|
      ensures CleanPropertyData[i].1.baseUnit != []
      ensures KindOfBase(CleanPropertyData[i].1.baseUnit) == Some(CleanPropertyData[i].1.category)
    {
      CleanEntryKind(i);
    }
    UnitSiToKindOfKinds(CleanPropertyData);
  }

  datatype CleanUnits = CleanUnits(unitSiToKind: map<string, string>, cleanUnitsList: seq<string>)

  /** `analyze_clean_property_types` over a table. */
  function AnalyzeCleanPropertyTypes(table: seq<(string, CleanType)>): (r: CleanUnits)
    ensures StrictlySorted(r.cleanUnitsList)
    ensures forall u :: u in r.cleanUnitsList <==> exists i :: 0 <= i < |table| && u in table[i].1.exampleUnits
  {
    CleanUnits(UnitSiToKind(table), SortedUnique(ExampleUnits(table)))
  }

  /** The units list is the one sorted, duplicate-free list of the example
      units: any other such list equals it. */
  lemma CleanUnitsListUnique(table: seq<(string, CleanType)>, other: seq<string>)
    requires StrictlySorted(other)
    requires forall u :: u in other <==> exists i :: 0 <= i < |table| && u in table[i].1.exampleUnits
    ensures AnalyzeCleanPropertyTypes(table).cleanUnitsList == other
  {
    SortedUniqueIsUnique(AnalyzeCleanPropertyTypes(table).cleanUnitsList, other);
  }

  // ---------------------------------------------------------------------
  // Routing

  datatype Verb = Get | Post | Options | OtherMethod

  datatype Endpoint =
    | ExportEndpoint | MappingRead | CleanUnitsEndpoint | StatusEndpoint
    | ImportEndpoint | MappingWrite | Preflight | NotFound | Unsupported

  const GetPaths: seq<string> := ["/calcslive/export", "/calcslive/mapping", "/calcslive/clean-units", "/calcslive/status"]
  const PostPaths: seq<string> := ["/calcslive/import", "/calcslive/mapping"]

  /** `do_GET`, `do_POST` and `do_OPTIONS` dispatch. */
  function Route(verb: Verb, path: string): (r: Endpoint)
    ensures verb == Get ==> (r == NotFound <==> path !in GetPaths)
    ensures verb == Post ==> (r == NotFound <==> path !in PostPaths)
    ensures verb == Get ==> r in {ExportEndpoint, MappingRead, CleanUnitsEndpoint, StatusEndpoint, NotFound}
    ensures verb == Post ==> r in {ImportEndpoint, MappingWrite, NotFound}
    ensures verb == Options ==> r == Preflight
    ensures verb == OtherMethod ==> r == Unsupported
  {
    match verb
    case Get =>
      if path == "/calcslive/export" then ExportEndpoint
      else if path == "/calcslive/mapping" then MappingRead
      else if path == "/calcslive/clean-units" then CleanUnitsEndpoint
      else if path == "/calcslive/status" then StatusEndpoint
      else NotFound
    case Post =>
      if path == "/calcslive/import" then ImportEndpoint
      else if path == "/calcslive/mapping" then MappingWrite
      else NotFound
    case Options => Preflight
    case OtherMethod => Unsupported
  }

  /** The status code sent: the handlers answer 500 when their work raises,
      except status, which answers 200 either way. */
  function StatusCode(verb: Verb, path: string, handlerRaises: bool): (code: int)
    ensures code == 404 <==> Route(verb, path) == NotFound
    ensures Route(verb, path) == StatusEndpoint ==> code == 200
    ensures code == 500 <==> handlerRaises && Route(verb, path) in {ExportEndpoint, MappingRead, CleanUnitsEndpoint, ImportEndpoint, MappingWrite}
  {
    match Route(verb, path)
    case NotFound => 404
    case Unsupported => 501
    case StatusEndpoint => 200
    case Preflight => 200
    case _ => if handlerRaises then 500 else 200
  }
}
