/** The standalone VarSet extraction macro: one record per variable of a
    variable set, with label, expression, SI value and unit, and display
    value. It shares the path, label and display rules of the plug
    server's export; unlike the export it skips, rather than reports, a
    property it cannot read. */
module VarsetExtractor {

  import opened Wrappers
  import opened Text
  import opened Seqs
  import opened PlugServer

  /** The internal properties the macro never reports. */
  const ExtractorSkip: set<string> := {
    "Label", "Label2", "Name", "Visibility", "Content", "ExpressionEngine",
    "Document", "Module", "TypeId", "ID", "State", "ViewObject", "FullName",
    "InList", "OutList", "Parents", "MemSize", "MustExecute", "Removing",
    "NoTouch", "OldLabel", "ArticleID", "ArticleTitle", "ArticleURL",
    "Base__ArticleID", "Base__ArticleTitle", "ExportVars"
  }

  datatype VarRecord = VarRecord(path: string, labelText: string, name: string, expr: string,
                                 readonly: bool, valueSi: real, unitSi: string, display: Display)

  /** The record of a property once its SI value and unit are known. */
  function MakeRecord(vs: VarSet, propName: string, valueSi: real, unitSi: string, display: Display): (r: VarRecord)
    ensures r.name == propName && r.labelText == LabelOf(propName) && r.path == PathOf(vs.name, vs.objLabel, propName)
    ensures r.expr == ExprOf(vs, propName) && (r.readonly <==> r.expr != [])
    ensures r.valueSi == valueSi && r.unitSi == unitSi && r.display == display
  {
    var expr := ExprOf(vs, propName);
    VarRecord(PathOf(vs.name, vs.objLabel, propName), LabelOf(propName), propName, expr, expr != [],
              valueSi, unitSi, display)
  }

  /** The numeric value of a property that is not a quantity: `float()` of
      what `getattr` returned, `None` when that raises. */
  function PlainNumber(value: PropValue, parseFloat: string -> Option<real>): (r: Option<real>)
    ensures value.NumberValue? ==> r == Some(value.number)
    ensures value.Quantity? || value.Unreadable? ==> r.None?
  {
    match value
    case NumberValue(x) => Some(x)
    case TextValue(s) => parseFloat(s)
    case _ => None
  }

  /** The properties the loop visits, in order. */
  function Visited(properties: seq<(string, PropValue)>): (r: seq<(string, PropValue)>)
    ensures |r| <= |properties|
    ensures forall i :: 0 <= i < |r| ==> r[i].0 !in ExtractorSkip && r[i] in properties
    ensures forall p :: p in properties && p.0 !in ExtractorSkip ==> p in r
  {
    if properties == [] then []
    else (if properties[0].0 in ExtractorSkip then [] else [properties[0]]) + Visited(properties[1..])
  }

  // ---------------------------------------------------------------------
  // The loop as written

  /** One iteration as written. `carried` is the local `unit_si` left by
      earlier iterations (`None` while it is unbound). A quantity assigns
      it; a plain number reads it without assigning it, and is skipped
      with a `NameError` while it is unbound. Returns the record, if any,
      and the local afterwards. */
  function StepAsWritten(vs: VarSet, propName: string, value: PropValue, carried: Option<string>,
                         parseFloat: string -> Option<real>): (r: (Option<VarRecord>, Option<string>))
    ensures !value.Quantity? ==> r.1 == carried
    ensures r.0.Some? && !value.Quantity? ==> carried.Some? && r.0.value.unitSi == carried.value
  {
    if vs.typeOf(propName).None? then (None, carried)
    else match value
      case Quantity(valueSi, unitText, translated) =>
        if unitText.None? then (None, carried)
        else
          (match UnitSi(unitText)
           case Err(_) => (None, carried)
           case Ok(unitSi) =>
             (Some(MakeRecord(vs, propName, valueSi, unitSi, DisplayOf(valueSi, unitText, translated, parseFloat))),
              Some(unitSi)))
      case _ =>
        (match PlainNumber(value, parseFloat)
         case None => (None, carried)
         case Some(x) =>
           (match carried
            case None => (None, carried)
            case Some(unitSi) => (Some(MakeRecord(vs, propName, x, unitSi, Display(x, "?"))), carried)))
  }

  function LoopAsWritten(vs: VarSet, props: seq<(string, PropValue)>, carried: Option<string>,
                         parseFloat: string -> Option<real>): (r: seq<VarRecord>)
    ensures |r| <= |props|
  {
    if props == [] then []
    else
      var step := StepAsWritten(vs, props[0].0, props[0].1, carried, parseFloat);
      (if step.0.Some? then [step.0.value] else []) + LoopAsWritten(vs, props[1..], step.1, parseFloat)
  }

  /** `extract_varset_data` as written. */
  function ExtractAsWritten(vs: VarSet, parseFloat: string -> Option<real>): (r: seq<VarRecord>)
    ensures |r| <= |Visited(vs.properties)|
  {
    LoopAsWritten(vs, Visited(vs.properties), None, parseFloat)
  }

  // ---------------------------------------------------------------------
  // The loop as intended

  /** One property's record as intended: a plain number has no unit, so its
      SI unit is `?`, as the plug server's export writes it. */
  function RecordOf(vs: VarSet, propName: string, value: PropValue, parseFloat: string -> Option<real>): (r: Option<VarRecord>)
    ensures r.Some? ==> r.value == MakeRecord(vs, propName, r.value.valueSi, r.value.unitSi, r.value.display)
  {
    if vs.typeOf(propName).None? then None
    else match value
      case Quantity(valueSi, unitText, translated) =>
        if unitText.None? then None
        else
          (match UnitSi(unitText)
           case Err(_) => None
           case Ok(unitSi) => Some(MakeRecord(vs, propName, valueSi, unitSi, DisplayOf(valueSi, unitText, translated, parseFloat))))
      case _ =>
        (match PlainNumber(value, parseFloat)
         case None => None
         case Some(x) => Some(MakeRecord(vs, propName, x, "?", Display(x, "?"))))
  }

  /** When a property yields a record and when it does not: a quantity
      carries its SI value, the unit word of `str(Unit)` and its display;
      a plain number has no unit and is displayed as it is. */
  lemma RecordOfSpec(vs: VarSet, propName: string, value: PropValue, parseFloat: string -> Option<real>)
    ensures var r := RecordOf(vs, propName, value, parseFloat);
      && (r.Some? ==> vs.typeOf(propName).Some? && !value.Unreadable?)
      && (r.Some? && !value.Quantity? ==>
            r.value.unitSi == "?" && r.value.display == Display(r.value.valueSi, "?")
            && PlainNumber(value, parseFloat) == Some(r.value.valueSi))
      && (r.Some? && value.Quantity? ==>
            value.unitText.Some? && UnitSi(value.unitText) == Ok(r.value.unitSi) && r.value.valueSi == value.valueSi
            && r.value.display == DisplayOf(value.valueSi, value.unitText, value.translated, parseFloat))
      && (r.None? <==> vs.typeOf(propName).None? || value.Unreadable?
                       || (value.Quantity? && (value.unitText.None? || UnitSi(value.unitText).Err?))
                       || (!value.Quantity? && PlainNumber(value, parseFloat).None?))
  {}

  function Loop(vs: VarSet, props: seq<(string, PropValue)>, parseFloat: string -> Option<real>): (r: seq<VarRecord>)
    ensures |r| <= |props|
    ensures forall k :: 0 <= k < |r| ==> exists i :: 0 <= i < |props| && RecordOf(vs, props[i].0, props[i].1, parseFloat) == Some(r[k])
    ensures forall i :: 0 <= i < |props| && RecordOf(vs, props[i].0, props[i].1, parseFloat).Some? ==>
      RecordOf(vs, props[i].0, props[i].1, parseFloat).value in r
  {
    FilterMap(props, (p: (string, PropValue)) => RecordOf(vs, p.0, p.1, parseFloat))
  }

  /** The record of a visited property, if it yields one. */
  ghost predicate FromProperty(vs: VarSet, rec: VarRecord, parseFloat: string -> Option<real>) {
    rec.name !in ExtractorSkip && exists v :: (rec.name, v) in vs.properties && RecordOf(vs, rec.name, v, parseFloat) == Some(rec)
  }

  /** `extract_varset_data` as intended: a record for every visited
      property that can be read, and nothing else. */
  function Extract(vs: VarSet, parseFloat: string -> Option<real>): (r: seq<VarRecord>)
    ensures |r| <= |Visited(vs.properties)|
    ensures forall k :: 0 <= k < |r| ==> FromProperty(vs, r[k], parseFloat)
    ensures forall name, v :: (name, v) in vs.properties && name !in ExtractorSkip && RecordOf(vs, name, v, parseFloat).Some? ==>
      RecordOf(vs, name, v, parseFloat).value in r
  {
    var props := Visited(vs.properties);
    var r := Loop(vs, props, parseFloat);
    forall k | 0 <= k < |r| ensures FromProperty(vs, r[k], parseFloat) {
      var i :| 0 <= i < |props| && RecordOf(vs, props[i].0, props[i].1, parseFloat) == Some(r[k]);
      assert props[i] in vs.properties;
    }
    forall name, v | (name, v) in vs.properties && name !in ExtractorSkip && RecordOf(vs, name, v, parseFloat).Some?
      ensures RecordOf(vs, name, v, parseFloat).value in r
    {
      assert (name, v) in props;
      var i :| 0 <= i < |props| && props[i] == (name, v);
    }
    r
  }

  /** Every extracted record carries its property's label, path and
      expression, and is read-only exactly when it has an expression. */
  lemma ExtractedRecordsShape(vs: VarSet, parseFloat: string -> Option<real>)
    ensures forall k :: 0 <= k < |Extract(vs, parseFloat)| ==>
      var rec := Extract(vs, parseFloat)[k];
      && rec.name !in ExtractorSkip
      && rec.labelText == LabelOf(rec.name)
      && rec.path == PathOf(vs.name, vs.objLabel, rec.name)
      && rec.expr == ExprOf(vs, rec.name)
      && (rec.readonly <==> rec.expr != [])
  {
    var r := Extract(vs, parseFloat);
    forall k | 0 <= k < |r|
      ensures r[k].labelText == LabelOf(r[k].name) && r[k].path == PathOf(vs.name, vs.objLabel, r[k].name)
              && r[k].expr == ExprOf(vs, r[k].name) && (r[k].readonly <==> r[k].expr != [])
    {
      assert FromProperty(vs, r[k], parseFloat);
      var v :| (r[k].name, v) in vs.properties && RecordOf(vs, r[k].name, v, parseFloat) == Some(r[k]);
    }
  }

  // ---------------------------------------------------------------------
  // Where the two differ

  /** Without plain numbers the carried unit is never read, and the loop
      as written produces exactly the intended records. */
  lemma {:induction false} LoopAgreesWithoutNumbers(vs: VarSet, props: seq<(string, PropValue)>, carried: Option<string>,
                                                    parseFloat: string -> Option<real>)
    requires forall i :: 0 <= i < |props| ==> props[i].1.Quantity? || props[i].1.Unreadable?
    ensures LoopAsWritten(vs, props, carried, parseFloat) == Loop(vs, props, parseFloat)
  {
    if props != [] {
      var step := StepAsWritten(vs, props[0].0, props[0].1, carried, parseFloat);
      assert step.0 == RecordOf(vs, props[0].0, props[0].1, parseFloat);
      LoopAgreesWithoutNumbers(vs, props[1..], step.1, parseFloat);
    }
  }

  lemma ExtractAgreesWithoutNumbers(vs: VarSet, parseFloat: string -> Option<real>)
    requires forall i :: 0 <= i < |vs.properties| ==> vs.properties[i].1.Quantity? || vs.properties[i].1.Unreadable?
    ensures ExtractAsWritten(vs, parseFloat) == Extract(vs, parseFloat)
  {
    var props := Visited(vs.properties);
    forall i | 0 <= i < |props| ensures props[i].1.Quantity? || props[i].1.Unreadable? {
      assert props[i] in vs.properties;
    }
    LoopAgreesWithoutNumbers(vs, props, None, parseFloat);
  }

  /** The SI unit of such a text is its second word. */
  lemma UnitSiOfUnitText(head: string, unitWord: string)
    requires IsToken(head) && IsToken(unitWord)
    ensures UnitSi(Some(head + [' '] + unitWord)) == Ok(unitWord)
  {
    WordsPair(head, unitWord);
    SidesOfBlank(head, ' ', unitWord);
  }

  /** As written, a quantity with a readable unit sets the carried unit. */
  lemma QuantitySetsCarriedUnit(vs: VarSet, propName: string, valueSi: real, text: string, translated: Option<string>,
                                carried: Option<string>, parseFloat: string -> Option<real>)
    requires vs.typeOf(propName).Some? && UnitSi(Some(text)).Ok?
    ensures var step := StepAsWritten(vs, propName, Quantity(valueSi, Some(text), translated), carried, parseFloat);
      step.0.Some? && step.1 == Some(UnitSi(Some(text)).value)
  {}

  /** As written, a plain number takes the carried unit as its SI unit. */
  lemma NumberTakesCarriedUnit(vs: VarSet, propName: string, x: real, unitSi: string, parseFloat: string -> Option<real>)
    requires vs.typeOf(propName).Some?
    ensures StepAsWritten(vs, propName, NumberValue(x), Some(unitSi), parseFloat)
         == (Some(MakeRecord(vs, propName, x, unitSi, Display(x, "?"))), Some(unitSi))
  {}

  /** A quantity followed by a plain number: as written, the number is
      reported with the SI unit of the quantity before it (for a length
      whose unit text is `Unit: mm`, in millimetres); as intended it has
      no unit. */
  lemma StaleUnitCounterexample(vs: VarSet, quantity: string, number: string, text: string, unitWord: string,
                                valueSi: real, x: real, translated: Option<string>, parseFloat: string -> Option<real>)
    requires UnitSi(Some(text)) == Ok(unitWord) && unitWord != "?"
    requires vs.properties == [(quantity, Quantity(valueSi, Some(text), translated)), (number, NumberValue(x))]
    requires quantity !in ExtractorSkip && number !in ExtractorSkip
    requires vs.typeOf(quantity).Some? && vs.typeOf(number).Some?
    ensures |ExtractAsWritten(vs, parseFloat)| == 2
    ensures ExtractAsWritten(vs, parseFloat)[1] == MakeRecord(vs, number, x, unitWord, Display(x, "?"))
  {
    var props := vs.properties;
    var rest := props[1..];
    assert rest == [(number, NumberValue(x))] && rest[1..] == [];
    assert Visited(props) == props by {
      assert Visited(rest[1..]) == [];
      assert Visited(rest) == rest;
    }
    var step1 := StepAsWritten(vs, quantity, Quantity(valueSi, Some(text), translated), None, parseFloat);
    QuantitySetsCarriedUnit(vs, quantity, valueSi, text, translated, None, parseFloat);
    var rec2 := MakeRecord(vs, number, x, unitWord, Display(x, "?"));
    assert LoopAsWritten(vs, rest, Some(unitWord), parseFloat) == [rec2] by {
      NumberTakesCarriedUnit(vs, number, x, unitWord, parseFloat);
    }
    assert LoopAsWritten(vs, props, None, parseFloat) == [step1.0.value, rec2];
  }

  /** As intended, a plain number is reported without a unit wherever it
      stands. */
  lemma NumberHasNoUnit(vs: VarSet, number: string, x: real, parseFloat: string -> Option<real>)
    requires (number, NumberValue(x)) in vs.properties && number !in ExtractorSkip && vs.typeOf(number).Some?
    ensures MakeRecord(vs, number, x, "?", Display(x, "?")) in Extract(vs, parseFloat)
  {
    assert RecordOf(vs, number, NumberValue(x), parseFloat) == Some(MakeRecord(vs, number, x, "?", Display(x, "?")));
  }

  /** As written, a plain number met before any quantity is dropped (the
      unit local is still unbound); as intended it is reported. */
  lemma UnboundUnitCounterexample(vs: VarSet, number: string, x: real, parseFloat: string -> Option<real>)
    requires vs.properties == [(number, NumberValue(x))] && number !in ExtractorSkip && vs.typeOf(number).Some?
    ensures ExtractAsWritten(vs, parseFloat) == []
    ensures Extract(vs, parseFloat) == [MakeRecord(vs, number, x, "?", Display(x, "?"))]
  {
    assert Visited(vs.properties) == vs.properties;
    assert (number, NumberValue(x)) in vs.properties;
    assert RecordOf(vs, number, NumberValue(x), parseFloat) == Some(MakeRecord(vs, number, x, "?", Display(x, "?")));
  }
}
