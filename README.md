# Element parameter components, modelled in Dafny

This project models the parameter logic of the Rhino.Inside.Revit element
components in `src/RhinoInside.Revit/GH/Components/Element/Element.cs`. It
covers four pieces:

- **Key resolution** (`ParameterUtils.GetParameter`, module `KeyResolution`).
  A loosely typed Grasshopper key becomes the one Revit parameter it denotes
  on an element. The key may be a `ParameterKey`, a `DB.Parameter`, a name,
  an `int`, an `ElementId` or a `Guid`. A well-formed key whose parameter the
  element lacks draws a Warning. A key that cannot denote a parameter of this
  element draws an Error.
- **Value coercion** (`ParameterUtils.SetParameter` and `ToHost`, module
  `ValueCoercion`). A value is written into a parameter according to the pair
  (storage type, value shape):
  - booleans become 0/1;
  - colours are packed as `R | G << 8 | B << 16`;
  - reals are scaled from model units to internal units; for integer storage
    they are then rounded and clamped to `int`;
  - elements and categories are written by their id.

  Any other pair draws a cast Error.
- **Parameter listing** (`ElementParameters.TrySolveInstance`, module
  `ParameterListing`). The parameters of an element are filtered by optional
  name, group and read-only inputs. They are ordered by group, then by id
  within a group.
- **Output schema** (`ElementDecompose`, module `OutputSchema`). The component
  rebuilds its outputs from the common or the full parameter set of its
  input elements, reattaching downstream recipients to ports whose parameter
  survives. On request it prunes outputs that have no recipients.

Module `Revit` holds the host values: elements, definitions, parameters,
unwrapped script values and runtime messages. Module `Ordering` holds the
stable two-level sort that the source's LINQ `GroupBy(..).OrderBy(..)`
followed by `OrderBy(..)` performs. Module `Wrappers` holds `Option`.

Revit's own lookups take part in key resolution but are outside this file:

- `Enum.IsDefined` on `BuiltInParameter`;
- `get_Parameter` by built-in id, by definition and by `Guid`;
- `GetParameter` by name;
- `Document.GetElement`.

They are parameters of the model: the fields of the `Host` record. The same
goes for `Revit.ModelUnits` (a positive `Scale`) and `Math.Round` (a
`round: real -> int` argument).

The undo points are recorded unconditionally (`Element.cs` lines 369, 387
and 430), even when no port changes:

- "Remove Unconnected Outputs" is recorded before the loop, even when no
  output is removed;
- "Get Common Parameters" and "Get All Parameters" are recorded after the
  aggregation and before the rebuild, even when the rebuild replaces no port.

The layout of the rebuilt outputs is fixed by the parameter set only when no
two parameters share both group and built-in id
(`OutputSchema.LayoutIsDeterministic`). Parameters that share both group and
built-in id are laid out in the `HashSet`'s enumeration order, because the
sort is stable. User-defined parameters are one such case: they all share
the `INVALID` built-in id.

## Model

| member | source | states |
|---|---|---|
| KeyResolution.GetParameter | src/RhinoInside.Revit/GH/Components/Element/Element.cs:497-585 | a parameter is returned exactly when no message is posted; the message is an Error exactly when the key cannot denote a parameter of the element, otherwise a Warning; a `DB.Parameter` key comes back unchanged exactly when the element owns it |
| KeyResolution.ResolvedBelongsToElement | src/RhinoInside.Revit/GH/Components/Element/Element.cs:525-531 | when every host lookup returns parameters of the element it was asked about, any parameter resolved belongs to that element |
| KeyResolution.ByNumericId | src/RhinoInside.Revit/GH/Components/Element/Element.cs:505-518 | a numeric id yields a parameter exactly when no message is posted; a built-in id is looked up as that built-in parameter, with a Warning naming it when absent; the message is an Error exactly when the id is neither built-in nor a `ParameterElement` of the document |
| KeyResolution.NumericKeysAgree | src/RhinoInside.Revit/GH/Components/Element/Element.cs:502-571 | an `int`, an `ElementId` and an in-document `ParameterKey` with the same id, given the same type name, resolve to the same parameter and the same message |
| KeyResolution.BuiltInIdsComeFirst | src/RhinoInside.Revit/GH/Components/Element/Element.cs:505-510 | a built-in id is looked up as that built-in parameter, with a Warning naming the id when the element lacks it; what the document holds under that id, and the definition lookup, do not affect the result |
| KeyResolution.ForeignKeyIsError | src/RhinoInside.Revit/GH/Components/Element/Element.cs:503-521 | a `ParameterKey` from another document yields no parameter and a single Error |
| KeyResolution.DocumentLocalIds | src/RhinoInside.Revit/GH/Components/Element/Element.cs:546-553 | a non-built-in id resolves through the `ParameterElement` the document holds under it, with a Warning naming it when missing; anything else under that id is a conversion Error |
| KeyResolution.NamesAndGuidsOnlyWarn | src/RhinoInside.Revit/GH/Components/Element/Element.cs:533-577 | name and Guid keys return exactly the host lookup's answer; when it finds nothing the only message is a Warning naming the missing name or Guid, and there is never an Error |
| KeyResolution.ForeignParameterIsError | src/RhinoInside.Revit/GH/Components/Element/Element.cs:525-529 | a `DB.Parameter` owned by another element yields no parameter and a single Error naming that parameter |
| ValueCoercion.ToHost | src/RhinoInside.Revit/GH/Components/Element/Element.cs:656-666 | converting to internal units keeps the sign of the value, and keeps zero as zero |
| ValueCoercion.ToHostScales | src/RhinoInside.Revit/GH/Components/Element/Element.cs:656-666 | `ToHost` divides lengths, areas and volumes by the model unit to the power 1, 2, 3, and leaves every other type unchanged |
| ValueCoercion.UnitRoundTrip | src/RhinoInside.Revit/GH/Components/Element/Element.cs:656-666 | converting to internal units and back gives the original value for every positive model unit |
| ValueCoercion.PowerPositive | src/RhinoInside.Revit/GH/Components/Element/Element.cs:660-662 | every power of a positive model unit is positive, so the divisions are defined |
| ValueCoercion.OrDisjoint | src/RhinoInside.Revit/GH/Components/Element/Element.cs:601 | or-ing in a value shifted above every bit of the other operand adds it |
| ValueCoercion.PackColour | src/RhinoInside.Revit/GH/Components/Element/Element.cs:601 | or-ing R with G shifted by 8 and B shifted by 16 gives the weighted sum `R + 256 G + 65536 B`, because the channels occupy disjoint bytes |
| ValueCoercion.PackColourChannels | src/RhinoInside.Revit/GH/Components/Element/Element.cs:601 | the packed colour lies in [0, 2^24), and each channel is recoverable from its byte |
| ValueCoercion.Coerce | src/RhinoInside.Revit/GH/Components/Element/Element.cs:592-641 | a value is written exactly for the supported (storage type, value shape) pairs, and always with the parameter's storage kind |
| ValueCoercion.ColourRoundTrip | src/RhinoInside.Revit/GH/Components/Element/Element.cs:601 | a colour written to an integer parameter is a 24-bit value whose bytes are its R, G and B |
| ValueCoercion.RealToIntegerClamps | src/RhinoInside.Revit/GH/Components/Element/Element.cs:600 | a real written to an integer parameter is the rounded internal-unit value when it fits an `int`, and the nearest `int` bound otherwise |
| ValueCoercion.RealToDoubleRoundTrip | src/RhinoInside.Revit/GH/Components/Element/Element.cs:611 | a real written to a double parameter reads back, in model units, as itself |
| ValueCoercion.UnscaledWrites | src/RhinoInside.Revit/GH/Components/Element/Element.cs:598-631 | booleans become 0/1; integers, text, elements and categories are written as themselves or their ids, without scaling |
| Revit.RuntimeLog.Add | src/RhinoInside.Revit/GH/Components/Element/Element.cs:509 | posting a runtime message appends it after the messages already posted, and changes nothing else |
| ValueCoercion.ParameterStore.Set | src/RhinoInside.Revit/GH/Components/Element/Element.cs:598-631 | writing a parameter changes that parameter's value only |
| ValueCoercion.SetParameter | src/RhinoInside.Revit/GH/Components/Element/Element.cs:587-646 | always returns true; a null parameter changes nothing; otherwise the coerced value is stored exactly when the pair is supported, and a single cast Error is posted when it is not or when the element argument is null |
| ParameterListing.FilterOf | src/RhinoInside.Revit/GH/Components/Element/Element.cs:256-263 | an input sets no filter exactly when it retrieved nothing and has no sources; otherwise it filters by the retrieved datum, or by the variable's initial value when a wired input retrieved nothing |
| ParameterListing.Passes | src/RhinoInside.Revit/GH/Components/Element/Element.cs:273-280 | a parameter passes when each set filter matches its definition's name, its group (`INVALID` without a definition) and its read-only flag |
| ParameterListing.FilteredAppend | src/RhinoInside.Revit/GH/Components/Element/Element.cs:271-282 | each parameter is kept or skipped on its own, so the loop's filtering builds up one parameter at a time |
| ParameterListing.FilteredMembership | src/RhinoInside.Revit/GH/Components/Element/Element.cs:273-282 | filtering keeps exactly the parameters that pass the filters |
| ParameterListing.FilteredCount | src/RhinoInside.Revit/GH/Components/Element/Element.cs:273-282 | filtering keeps every occurrence of a parameter that passes and none of one that does not |
| ParameterListing.FilteredSorted | src/RhinoInside.Revit/GH/Components/Element/Element.cs:269-282 | filtering a listing sorted by group then id leaves it sorted |
| ParameterListing.FilteredWithRank | src/RhinoInside.Revit/GH/Components/Element/Element.cs:269-282 | filtering commutes with picking out the parameters of one (group, id) |
| ParameterListing.ListingKeepsTies | src/RhinoInside.Revit/GH/Components/Element/Element.cs:269-282 | parameters that tie on group and id are listed in the order the element enumerates them |
| ParameterListing.ListParameters | src/RhinoInside.Revit/GH/Components/Element/Element.cs:266-282 | the listing is the element's parameters sorted stably by group then id, then filtered; it is sorted, and holds each parameter that passes the filters exactly as often as the element does, and no other |
| ParameterListing.TrySolveInstance | src/RhinoInside.Revit/GH/Components/Element/Element.cs:250-287 | null exactly for a null element; otherwise the stably sorted, filtered listing, with the filters the three inputs set up; it is sorted and holds exactly the passing parameters, counted as in the element |
| Ordering.SortByCorrect | src/RhinoInside.Revit/GH/Components/Element/Element.cs:269-271 | the two-level sort yields a permutation of its input, sorted by group then minor key |
| Ordering.SortByStable | src/RhinoInside.Revit/GH/Components/Element/Element.cs:269-271 | elements with equal keys keep their enumeration order |
| Ordering.SortedUnique | src/RhinoInside.Revit/GH/Components/Element/Element.cs:409-411 | two sorted permutations of the same elements are equal when no two elements share a key |
| Ordering.SortByDeterministic | src/RhinoInside.Revit/GH/Components/Element/Element.cs:409-411 | with distinct keys, any two enumerations of the same elements sort to the same sequence |
| OutputSchema.CommonMembership | src/RhinoInside.Revit/GH/Components/Element/Element.cs:352-367 | the common set is null exactly when no input element is non-null, and otherwise holds exactly the parameters every non-null element has |
| OutputSchema.AllMembership | src/RhinoInside.Revit/GH/Components/Element/Element.cs:376-385 | the full set holds exactly the parameters some non-null element has |
| OutputSchema.CommonWithinAll | src/RhinoInside.Revit/GH/Components/Element/Element.cs:350-390 | every common parameter is among all parameters |
| OutputSchema.SingleElementModesAgree | src/RhinoInside.Revit/GH/Components/Element/Element.cs:350-390 | with a single non-null element, both menus compute that element's parameter set |
| OutputSchema.Enumerate | src/RhinoInside.Revit/GH/Components/Element/Element.cs:409 | enumerating a set yields each of its members exactly once |
| OutputSchema.CommonParameters | src/RhinoInside.Revit/GH/Components/Element/Element.cs:352-367 | the intersection loop computes the common set: null when every element is null, else exactly the parameters every non-null element has |
| OutputSchema.AllParameters | src/RhinoInside.Revit/GH/Components/Element/Element.cs:376-385 | the union loop computes exactly the parameters some non-null element has |
| OutputSchema.ConnectedRecords | src/RhinoInside.Revit/GH/Components/Element/Element.cs:394-405 | with distinct output keys, the dictionary records a key exactly when a wired output has it, with that output's recipients |
| OutputSchema.ReattachKeepsWiring | src/RhinoInside.Revit/GH/Components/Element/Element.cs:394-419 | a new port whose key a wired old output had gets exactly that output's recipients |
| OutputSchema.ReattachOnlyRecorded | src/RhinoInside.Revit/GH/Components/Element/Element.cs:394-419 | a new port has recipients only when a wired old output had its key, and then exactly that output's recipients |
| OutputSchema.KeysOfRewire | src/RhinoInside.Revit/GH/Components/Element/Element.cs:411-419 | the rebuilt ports carry the keys they were laid out from, in order |
| OutputSchema.LayoutIsDeterministic | src/RhinoInside.Revit/GH/Components/Element/Element.cs:409-411 | two well-formed layouts of the same parameter set are equal when no two parameters share group and built-in id |
| OutputSchema.Layout | src/RhinoInside.Revit/GH/Components/Element/Element.cs:409-411 | the registration order holds each parameter of the set exactly once, sorted by group then built-in id |
| OutputSchema.WiredMembership | src/RhinoInside.Revit/GH/Components/Element/Element.cs:432-438 | pruning keeps exactly the outputs that have recipients |
| OutputSchema.WiredConcat | src/RhinoInside.Revit/GH/Components/Element/Element.cs:432-438 | pruning works output by output: pruning a concatenation concatenates the prunings |
| OutputSchema.WiredIdempotent | src/RhinoInside.Revit/GH/Components/Element/Element.cs:428-442 | pruning twice is pruning once |
| OutputSchema.WiredSubsequence | src/RhinoInside.Revit/GH/Components/Element/Element.cs:432-438 | the kept outputs sit at increasing positions of the original outputs |
| OutputSchema.WiredWellFormed | src/RhinoInside.Revit/GH/Components/Element/Element.cs:428-442 | pruning keeps the output keys distinct and sorted |
| OutputSchema.PruneStep | src/RhinoInside.Revit/GH/Components/Element/Element.cs:432-438 | one pruning step leaves a wired output in place, and removing an unwired one yields the next state and its unregistration |
| OutputSchema.RecordedOnce | src/RhinoInside.Revit/GH/Components/Element/Element.cs:402 | with distinct output keys, `connected.Add` never meets a key already added |
| OutputSchema.ElementDecompose.constructor | src/RhinoInside.Revit/GH/Components/Element/Element.cs:294 | a new component has no outputs and has made no calls |
| OutputSchema.ElementDecompose.PopulateOutputParameters | src/RhinoInside.Revit/GH/Components/Element/Element.cs:392-426 | the new outputs are one port per parameter (none for null), sorted by group then built-in id, each with the recipients its key had when wired; the calls are: every old output unregistered, every new one registered, parameters changed, solution expired |
| OutputSchema.ElementDecompose.UnregisterAll | src/RhinoInside.Revit/GH/Components/Element/Element.cs:394-405 | every output is unregistered in order, and the dictionary returned records the wired ones |
| OutputSchema.ElementDecompose.RegisterAll | src/RhinoInside.Revit/GH/Components/Element/Element.cs:407-422 | one port per laid-out key is registered in order, with its recorded recipients |
| OutputSchema.ElementDecompose.AddRecipients | src/RhinoInside.Revit/GH/Components/Element/Element.cs:415-419 | the port just registered gets the recorded recipients, in order; nothing else changes |
| OutputSchema.ElementDecompose.PopulateOutputsWithCommonParameters | src/RhinoInside.Revit/GH/Components/Element/Element.cs:350-372 | the undo point "Get Common Parameters" is recorded and the outputs become the common parameter set, with the rebuild's guarantees |
| OutputSchema.ElementDecompose.PopulateOutputsWithAllParameters | src/RhinoInside.Revit/GH/Components/Element/Element.cs:374-390 | the undo point "Get All Parameters" is recorded and the outputs become the full parameter set, with the rebuild's guarantees |
| OutputSchema.ElementDecompose.RemoveUnconnectedParameters | src/RhinoInside.Revit/GH/Components/Element/Element.cs:428-442 | with the undo point "Remove Unconnected Outputs" recorded first, exactly the unwired outputs are unregistered, in order; the rest keep their order and wiring and stay well formed; then parameters changed and display expired |
| OutputSchema.ElementDecompose.PruneUnwired | src/RhinoInside.Revit/GH/Components/Element/Element.cs:432-438 | the loop over a copy of the outputs leaves exactly the wired ones and unregisters the others in order |

## Left out

- The rest of `Element.cs` is not modelled: UI and menu layout, component metadata, `ElementIdentity`, `ElementGeometry`, `ElementPreview`, `ElementDelete`, materials and help text.
- `ElementDecompose.TrySolveInstance` (lines 451-462) is not modelled. It fills each output through `ParameterParam.GetParameter`, which is defined in a file that is not part of this model.
- The `TrySolveInstance` bodies of `ElementParameterGet` and `ElementParameterSet` (the wrappers that call `GetParameter`/`SetParameter` inside a transaction) are not modelled. Transactions and document regeneration are host I/O.
- SetParameter: the `catch` path (lines 648-653) is not modelled. When `Parameter.Set` throws (for example on a read-only parameter), the handler posts "Unable to set 'Value'" and returns false. The handler itself reads `parameter.Definition.Name`, so when the parameter or its definition is null (a null `goo` with a null parameter, or a real written to a parameter without a definition) it throws again and the exception leaves `SetParameter`. The model therefore requires a definition whenever a real is written to an integer or double parameter.
- SetParameter: the `bool` that `Parameter.Set` returns is ignored, as it is in the source.
- Coerce: `Math.Round` and the `Clamp` extension (defined in a file that is not part of this model) are modelled as an abstract rounding function followed by an exact clamp to the `int` range. IEEE doubles are modelled as exact reals.
- Coerce: for a real written to an integer parameter (line 600), the model assumes that `Clamp` returns an `int`, so that `Parameter.Set(int)` stores an integer value. `Math.Round` returns a `double`; if `Clamp` kept that type, the call would resolve to the `Set(double)` overload on an integer parameter, and this model does not capture that.
- GetParameter: messages are modelled by their kind and data, not their formatted text or `LabelUtils` labels. The conversion Error's type name is the key's `TypeName`, which is an argument of the model. A null key and a `DB.Parameter` without a definition (both null-reference paths in the source) are not modelled.
- OutputSchema: `ParameterParam` identity is taken to be structural over (group, built-in id, name). Its `Equals` is defined in a file that is not part of this model. Every output is taken to be a `ParameterParam`, so the `is Parameters.ParameterParam` test on line 400 always holds.
- OutputSchema.ElementDecompose.Valid: outputs are assumed to have distinct, sorted keys. Every rebuild produces such outputs, and the component lets users remove outputs but never insert them (lines 464-465). Output lists edited in other ways are not modelled; with a repeated key, `connected.Add` would throw.
- Element ids, document identity and `Guid`s are modelled as unbounded integers; only the `int` values a parameter stores are bounded to 32 bits.
