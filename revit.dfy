/**
 * The host (Revit) values that the element components read: elements,
 * parameter definitions, parameters bound to an element, the .NET values a
 * Grasshopper datum unwraps to, and the classified runtime messages a
 * component posts.
 */
module Revit {
  import opened Wrappers

  /** C#'s `int`. */
  type Int32 = x: int | -0x8000_0000 <= x < 0x8000_0000

  /** C#'s `byte`, the type of a colour channel. */
  type Byte = x: int | 0 <= x < 0x100

  /** `DB.BuiltInParameterGroup.INVALID`, the group of a parameter without a definition. */
  const InvalidGroup: int := -1

  /** A document, compared with `Document.Equals`. */
  type DocId = int

  /** A `System.Guid`. */
  datatype Guid = Guid(bits: nat)

  /** An element: its document and its `ElementId.IntegerValue`. */
  datatype Element = Element(doc: DocId, id: int)

  /** `DB.StorageType`. */
  datatype StorageKind = NoStorage | IntegerStorage | DoubleStorage | StringStorage | ElementIdStorage

  /** `DB.ParameterType`: the three unit-scaled kinds and every other one. */
  datatype ParameterType = Length | Area | Volume | OtherType(code: int)

  /** `DB.Definition`: name, `ParameterGroup` and `ParameterType`. */
  datatype Definition = Definition(name: string, group: int, parameterType: ParameterType)

  /**
   * A `DB.Parameter`: the element that owns it, its `Id.IntegerValue`, its
   * definition (which may be missing), its storage type and whether it is
   * read-only.
   */
  datatype Handle = Handle(owner: Element, id: int, definition: Option<Definition>,
                           storage: StorageKind, readOnly: bool)

  /** `param.Definition?.ParameterGroup ?? DB.BuiltInParameterGroup.INVALID`. */
  function GroupOf(h: Handle): int {
    match h.definition
    case Some(d) => d.group
    case None => InvalidGroup
  }

  /** `param.Definition?.Name`, where `None` is C#'s null. */
  function NameOf(h: Handle): Option<string> {
    match h.definition
    case Some(d) => Some(d.name)
    case None => None
  }

  /**
   * The runtime shape of the .NET object a Grasshopper datum unwraps to
   * (`IGH_Goo.ScriptVariable()`), for the shapes the element components
   * switch on; `OtherValue` is every other object.
   */
  datatype ScriptValue =
    | Boolean(flag: bool)
    | Integer(n: Int32)
    | Real(x: real)
    | Colour(r: Byte, g: Byte, b: Byte)
    | Text(s: string)
    | ElementRef(element: Element)
    | CategoryRef(categoryId: int)
    | ElementIdRef(elementId: int)
    | GuidRef(guid: Guid)
    | ParameterRef(parameter: Handle)
    | OtherValue

  /** `GH_RuntimeMessageLevel`, for the two levels these components post. */
  datatype Level = Warning | Error

  /** What a runtime message reports; the message text is formatted from these fields. */
  datatype Diagnostic =
    | BuiltInNotDefined(builtInId: int)          // "Parameter '<label>' not defined in 'Element'"
    | NamedNotDefined(name: string)              // "Parameter '<name>' not defined in 'Element'"
    | GuidNotDefined(guid: Guid)                 // "Parameter '<guid>' not defined in 'Element'"
    | ConversionFailed(typeName: string)         // "Data conversion failed from <type> to Revit Parameter element"
    | ForeignDocument                            // "'ParameterKey' doesn't belong same document as 'Element'"
    | ForeignParameter(parameter: Handle)        // "Parameter '<name>' doesn't belong to 'Element'"
    | CastFailed(value: ScriptValue, storage: StorageKind)  // "Unable to cast 'Value' from <type> to <storage>."

  datatype Message = Message(level: Level, diagnostic: Diagnostic)

  /** The runtime messages a component has posted (`AddRuntimeMessage`), oldest first. */
  class RuntimeLog {
    var messages: seq<Message>

    constructor ()
      ensures messages == []
    {
      messages := [];
    }

    method Add(m: Message)
      modifies this
      ensures messages == old(messages) + [m]
    {
      messages := messages + [m];
    }
  }
}
