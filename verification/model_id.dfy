/** The identifier the connect and dashboard commands give the active
    document: its file name (or its name, while unsaved) and its object
    count, joined with `_`, with spaces and both kinds of slash turned into
    `_`. Both commands carry the same helper; it is defined once here. */
module ModelId {

  import opened Wrappers
  import opened Text

  /** What the helper reads from the active document. */
  datatype ActiveDocument = ActiveDocument(fileName: string, name: string, objectCount: nat)

  /** The characters the identifier never contains. */
  predicate IsSeparator(c: char) {
    c == ' ' || c == '/' || c == '\\'
  }

  /** The second part of the identifier. */
  function ObjectsTag(count: nat): (r: string)
    ensures forall c :: c in r ==> !IsSeparator(c)
  {
    "objects_" + NatToString(count)
  }

  /** The first part: the file name when there is one, else the name. */
  function SourceName(d: ActiveDocument): string {
    if d.fileName != [] then d.fileName else d.name
  }

  /** Reference definition of the three replacements, one character at a
      time. */
  function Sanitized(s: string): (r: string)
    ensures |r| == |s|
    ensures forall i :: 0 <= i < |s| ==> r[i] == (if IsSeparator(s[i]) then '_' else s[i])
  {
    seq(|s|, i requires 0 <= i < |s| => if IsSeparator(s[i]) then '_' else s[i])
  }

  /** `_get_current_model_id`: `None` without an active document. */
  function GetCurrentModelId(doc: Option<ActiveDocument>): (r: Option<string>)
    ensures r.None? <==> doc.None?
  {
    match doc
    case None => None
    case Some(d) =>
      var joined := Join([SourceName(d), ObjectsTag(d.objectCount)], "_");
      Some(ReplaceAll(ReplaceAll(ReplaceAll(joined, " ", "_"), "/", "_"), "\\", "_"))
  }

  /** The chain of `replace` calls is the character-wise rewrite. */
  lemma ReplaceChainIsSanitized(s: string)
    ensures ReplaceAll(ReplaceAll(ReplaceAll(s, " ", "_"), "/", "_"), "\\", "_") == Sanitized(s)
  {
    var a := ReplaceAll(s, " ", "_");
    ReplaceCharSpec(s, ' ', '_');
    var b := ReplaceAll(a, "/", "_");
    ReplaceCharSpec(a, '/', '_');
    var c := ReplaceAll(b, "\\", "_");
    ReplaceCharSpec(b, '\\', '_');
    assert c == Sanitized(s);
  }

  /** Sanitizing leaves a text without separators as it is. */
  lemma SanitizedKeepsClean(s: string)
    requires forall c :: c in s ==> !IsSeparator(c)
    ensures Sanitized(s) == s
  {
    forall i | 0 <= i < |s| ensures Sanitized(s)[i] == s[i] {
      assert s[i] in s;
    }
  }

  /** The identifier is the sanitized source name, `_`, and the object tag. */
  lemma {:induction false} ModelIdShape(d: ActiveDocument)
    ensures GetCurrentModelId(Some(d)) == Some(Sanitized(SourceName(d)) + "_" + ObjectsTag(d.objectCount))
  {
    var tag := ObjectsTag(d.objectCount);
    var joined := SourceName(d) + "_" + tag;
    assert Join([SourceName(d), tag], "_") == joined;
    ReplaceChainIsSanitized(joined);
    SanitizedKeepsClean(tag);
    assert Sanitized(joined) == Sanitized(SourceName(d)) + "_" + tag;
  }

  /** No space, `/` or `\` survives in the identifier. */
  lemma ModelIdHasNoSeparators(doc: Option<ActiveDocument>)
    ensures var r := GetCurrentModelId(doc);
      r.Some? ==> forall i :: 0 <= i < |r.value| ==> !IsSeparator(r.value[i])
  {
    if doc.Some? {
      ModelIdShape(doc.value);
    }
  }

  /** The identifier ends with `objects_` and the object count. */
  lemma ModelIdEndsWithCount(d: ActiveDocument)
    ensures IsSuffix("objects_" + NatToString(d.objectCount), GetCurrentModelId(Some(d)).value)
  {
    ModelIdShape(d);
  }

  /** The file name is used when it is non-empty, the document name
      otherwise, and the two parts are separated by `_`. */
  lemma ModelIdSource(d: ActiveDocument)
    ensures var r := GetCurrentModelId(Some(d)).value;
      var src := if d.fileName != [] then d.fileName else d.name;
      |r| > |src| && r[..|src|] == Sanitized(src) && r[|src|] == '_'
  {
    ModelIdShape(d);
  }

  /** Two saved documents whose file names differ only in separators get
      the same identifier when their object counts agree. */
  lemma SeparatorsCollide(d: ActiveDocument, e: ActiveDocument)
    requires d.fileName != [] && e.fileName != [] && d.objectCount == e.objectCount
    requires Sanitized(d.fileName) == Sanitized(e.fileName)
    ensures GetCurrentModelId(Some(d)) == GetCurrentModelId(Some(e))
  {
    ModelIdShape(d);
    ModelIdShape(e);
  }
}
