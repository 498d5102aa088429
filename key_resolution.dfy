/**
 * `ParameterUtils.GetParameter`: resolving a loosely typed parameter key to
 * the one parameter it denotes on an element, with a Warning when the key is
 * well formed but the element lacks the parameter and an Error when the key
 * cannot denote a parameter of this element at all.
 */
module KeyResolution {
  import opened Wrappers
  import opened Revit

  /**
   * A Grasshopper datum used as a key: a `Types.ParameterKey` (a document and
   * an id), or any other datum together with the object it unwraps to.
   * This is the value of `key as Types.ParameterKey ?? key.ScriptVariable()`.
   */
  datatype Goo =
    | ParameterKeyGoo(typeName: string, doc: DocId, id: int)
    | ScriptGoo(typeName: string, value: ScriptValue)

  /** What `Document.GetElement(id)` yields, as far as key resolution cares. */
  datatype DocElement = NoElement | ParameterElement(name: string, definition: Definition) | OtherElement

  /** The Revit lookups key resolution calls, taken as given functions. */
  datatype Host = Host(
    isBuiltIn: int -> bool,                          // Enum.IsDefined(typeof(BuiltInParameter), id)
    byBuiltIn: (Element, int) -> Option<Handle>,     // element.get_Parameter(BuiltInParameter)
    byDefinition: (Element, Definition) -> Option<Handle>,  // element.get_Parameter(Definition)
    byName: (Element, string) -> Option<Handle>,     // element.GetParameter(name, ParameterSet.Any)
    byGuid: (Element, Guid) -> Option<Handle>,       // element.get_Parameter(Guid)
    getElement: (DocId, int) -> DocElement)          // document.GetElement(ElementId)

  /** The parameter found (null when none) and the message posted, if any. */
  datatype Resolution = Resolution(parameter: Option<Handle>, message: Option<Message>)

  function Found(h: Handle): Resolution { Resolution(Some(h), None) }
  function Warn(d: Diagnostic): Resolution { Resolution(None, Some(Message(Warning, d))) }
  function Fail(d: Diagnostic): Resolution { Resolution(None, Some(Message(Error, d))) }

  /** A lookup result: the parameter, or a Warning naming what is missing. */
  function FoundOrWarn(lookup: Option<Handle>, missing: Diagnostic): Resolution {
    match lookup
    case Some(h) => Found(h)
    case None => Warn(missing)
  }

  /**
   * An integer id (from an `int`, an `ElementId` or an in-document
   * `ParameterKey`): a built-in parameter id first; otherwise the id of a
   * `ParameterElement` in the element's document; otherwise an Error.
   */
  function ByNumericId(host: Host, element: Element, id: int, typeName: string): (r: Resolution)
    ensures r.parameter.Some? <==> r.message.None?
    ensures r.message.Some? ==>
              (r.message.value.level == Error <==>
                 !host.isBuiltIn(id) && !host.getElement(element.doc, id).ParameterElement?)
    ensures host.isBuiltIn(id) ==>
              r.parameter == host.byBuiltIn(element, id)
              && (r.parameter.None? ==> r.message == Some(Message(Warning, BuiltInNotDefined(id))))
  {
    if host.isBuiltIn(id) then
      FoundOrWarn(host.byBuiltIn(element, id), BuiltInNotDefined(id))
    else match host.getElement(element.doc, id)
      case ParameterElement(name, definition) =>
        FoundOrWarn(host.byDefinition(element, definition), NamedNotDefined(name))
      case _ => Fail(ConversionFailed(typeName))
  }

  /** The key is `int`, `ElementId` or a `ParameterKey` of the element's document. */
  predicate IsNumericKey(element: Element, key: Goo) {
    match key
    case ParameterKeyGoo(_, doc, _) => doc == element.doc
    case ScriptGoo(_, v) => v.Integer? || v.ElementIdRef?
  }

  /** The integer id a numeric key carries. */
  function NumericId(element: Element, key: Goo): int
    requires IsNumericKey(element, key)
  {
    match key
    case ParameterKeyGoo(_, _, id) => id
    case ScriptGoo(_, v) => if v.Integer? then v.n else v.elementId
  }

  /**
   * The keys that cannot denote a parameter of `element`: a `ParameterKey` of
   * another document, a parameter owned by another element, a numeric id that
   * is neither built-in nor a `ParameterElement` of the element's document,
   * and every shape that is not a key.
   */
  predicate Rejected(host: Host, element: Element, key: Goo) {
    if IsNumericKey(element, key) then
      var id := NumericId(element, key);
      !host.isBuiltIn(id) && !host.getElement(element.doc, id).ParameterElement?
    else match key
      case ParameterKeyGoo(_, _, _) => true
      case ScriptGoo(_, v) => !(v.Text? || v.GuidRef? || (v.ParameterRef? && v.parameter.owner == element))
  }

  /**
   * `ParameterUtils.GetParameter(obj, element, key)`: exactly one of a
   * parameter or a message; the message is an Error exactly when the key is
   * rejected; a live parameter comes back unchanged exactly when it belongs
   * to `element`.
   */
  function GetParameter(host: Host, element: Element, key: Goo): (r: Resolution)
    ensures r.parameter.Some? <==> r.message.None?
    ensures r.message.Some? ==> (r.message.value.level == Error <==> Rejected(host, element, key))
    ensures r.parameter.None? && !Rejected(host, element, key) ==> r.message.value.level == Warning
    ensures key.ScriptGoo? && key.value.ParameterRef? ==>
              (r.parameter == Some(key.value.parameter) <==> key.value.parameter.owner == element)
  {
    match key
    case ParameterKeyGoo(typeName, doc, id) =>
      if doc == element.doc then ByNumericId(host, element, id, typeName)
      else Fail(ForeignDocument)
    case ScriptGoo(typeName, value) =>
      match value
      case ParameterRef(p) =>
        if p.owner.doc == element.doc && p.owner.id == element.id then Found(p)
        else Fail(ForeignParameter(p))
      case Text(name) => FoundOrWarn(host.byName(element, name), NamedNotDefined(name))
      case Integer(n) => ByNumericId(host, element, n, typeName)
      case ElementIdRef(n) => ByNumericId(host, element, n, typeName)
      case GuidRef(g) => FoundOrWarn(host.byGuid(element, g), GuidNotDefined(g))
      case _ => Fail(ConversionFailed(typeName))
  }

  /** Every lookup the host offers returns parameters of the element it was asked about. */
  ghost predicate LookupsStayOnElement(host: Host) {
    && (forall e, id :: host.byBuiltIn(e, id).Some? ==> host.byBuiltIn(e, id).value.owner == e)
    && (forall e, d :: host.byDefinition(e, d).Some? ==> host.byDefinition(e, d).value.owner == e)
    && (forall e, s :: host.byName(e, s).Some? ==> host.byName(e, s).value.owner == e)
    && (forall e, g :: host.byGuid(e, g).Some? ==> host.byGuid(e, g).value.owner == e)
  }

  /** Whatever the key, a parameter that comes back belongs to the element asked about. */
  lemma ResolvedBelongsToElement(host: Host, element: Element, key: Goo)
    requires LookupsStayOnElement(host)
    ensures GetParameter(host, element, key).parameter.Some? ==>
              GetParameter(host, element, key).parameter.value.owner == element
  {
  }

  /** `int`, `ElementId` and in-document `ParameterKey` keys with the same id resolve alike. */
  lemma NumericKeysAgree(host: Host, element: Element, typeName: string, n: Int32)
    ensures GetParameter(host, element, ScriptGoo(typeName, Integer(n)))
         == GetParameter(host, element, ScriptGoo(typeName, ElementIdRef(n)))
         == GetParameter(host, element, ParameterKeyGoo(typeName, element.doc, n))
  {
  }

  /**
   * A numeric id that is a built-in parameter id is looked up as that
   * built-in parameter, with a Warning naming it when the element lacks it,
   * and never reaches the document-local lookup: the result is the same
   * whatever the document holds under that id and whatever the definition
   * lookup answers.
   */
  lemma BuiltInIdsComeFirst(host: Host, element: Element, key: Goo,
                            getElement: (DocId, int) -> DocElement,
                            byDefinition: (Element, Definition) -> Option<Handle>)
    requires IsNumericKey(element, key) && host.isBuiltIn(NumericId(element, key))
    ensures var id := NumericId(element, key);
            var r := GetParameter(host, element, key);
            && r.parameter == host.byBuiltIn(element, id)
            && (r.parameter.None? ==> r.message == Some(Message(Warning, BuiltInNotDefined(id))))
    ensures GetParameter(host.(getElement := getElement, byDefinition := byDefinition), element, key)
         == GetParameter(host, element, key)
  {
  }

  /** A `ParameterKey` of another document is an Error and finds nothing. */
  lemma ForeignKeyIsError(host: Host, element: Element, typeName: string, doc: DocId, id: int)
    requires doc != element.doc
    ensures GetParameter(host, element, ParameterKeyGoo(typeName, doc, id))
         == Resolution(None, Some(Message(Error, ForeignDocument)))
  {
  }

  /**
   * A numeric id that is not built-in resolves through the `ParameterElement`
   * the document holds under it, with a Warning naming it when the element
   * lacks that parameter; anything else under that id is an Error.
   */
  lemma DocumentLocalIds(host: Host, element: Element, key: Goo)
    requires IsNumericKey(element, key) && !host.isBuiltIn(NumericId(element, key))
    ensures var r := GetParameter(host, element, key);
            match host.getElement(element.doc, NumericId(element, key))
            case ParameterElement(name, d) =>
              r.parameter == host.byDefinition(element, d)
              && (r.parameter.None? ==> r.message == Some(Message(Warning, NamedNotDefined(name))))
            case _ => r == Resolution(None, Some(Message(Error, ConversionFailed(key.typeName))))
  {
  }

  /**
   * Names and Guids never draw an Error: the lookup result, or a Warning
   * naming the missing name or Guid.
   */
  lemma NamesAndGuidsOnlyWarn(host: Host, element: Element, key: Goo)
    requires key.ScriptGoo? && (key.value.Text? || key.value.GuidRef?)
    ensures var r := GetParameter(host, element, key);
            && r.parameter == (if key.value.Text? then host.byName(element, key.value.s)
                               else host.byGuid(element, key.value.guid))
            && (r.message.Some? ==> r.message.value.level == Warning)
            && r.message == (if r.parameter.Some? then None
                             else if key.value.Text? then Some(Message(Warning, NamedNotDefined(key.value.s)))
                             else Some(Message(Warning, GuidNotDefined(key.value.guid))))
  {
  }

  /** A parameter owned by another element is an Error naming it, and finds nothing. */
  lemma ForeignParameterIsError(host: Host, element: Element, typeName: string, p: Handle)
    requires p.owner != element
    ensures GetParameter(host, element, ScriptGoo(typeName, ParameterRef(p)))
         == Resolution(None, Some(Message(Error, ForeignParameter(p))))
  {
  }
}
