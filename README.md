# Echo property synchronization peers, modelled in Dafny

This project models the property-synchronization layer of the Echo web
application framework. A peer turns a typed server-side property value into
an XML-like wire element and back. Two peers are modelled:

- `IntegerPeer` writes `t="i"` and the decimal text of the value in `v`, and
  parses `v` back.
- `FillImageBorderPeer` writes `t="FillImageBorder"` and appends one `fib`
  child. That child carries the optional `bi`, `ci` and `bc` attributes and
  one image child per slot, eight in all. Its decode direction is a stub that
  returns null.

Two pieces of component state are modelled beside them:

- the typed accessors of `Panel` over the component's name-keyed property bag;
- the positioning state that the `Positionable` interface documents.

Modules, one per concern:

- `Wrappers`: `Option` (a Java reference that may be null) and `Result` (a call that may throw).
- `JavaInt`: Java's `int`, `Integer.toString` and `Integer.parseInt`, with the print/parse round trip in both directions.
- `Wire`: the wire element. `Element` is a class changed in place by `SetAttribute` and `AppendChild`. A finished child is stored as a `Node` value.
- `Values`: the property value types. `FillImageBorder` has three optional fields and eight image slots.
- `IntegerPeer`, `FillImageBorderPeer`: the two peers.
- `PanelComponent`: the `Panel` class over a `map` property bag.
- `PositionableComponent`: the `Positionable` reference class and its constants.

The peers call three collaborators whose code is not part of this model:
`InsetsPeer.toString`, `ColorPeer.toString` and
`FillImagePeer.createFillImageElement`. They are passed in as the function
fields of `FillImageBorderPeer.Delegates`, and the contracts state only where
their results are placed.

A symmetric decoder would invert the encoder or fail loudly. The
`FillImageBorder` decoder returns null instead, and the model follows the code.
So the round trip `decode(encode(v)) == v` holds for the integer peer only.

## Model

| member | source | states |
|---|---|---|
| JavaInt.NaturalText | src/webcontainer/java/nextapp/echo/webcontainer/sync/property/IntegerPeer.java:25 | the decimal digits of a natural number are non-empty, all digits, and begin with '0' exactly when the number is 0 |
| JavaInt.ToString | src/webcontainer/java/nextapp/echo/webcontainer/sync/property/IntegerPeer.java:25 | `Integer.toString` gives canonical decimal text that starts with '-' exactly when the value is negative |
| JavaInt.Parse | src/webcontainer/java/nextapp/echo/webcontainer/sync/property/IntegerPeer.java:17 | `new Integer(text)` throws `NumberFormatException(text)` for empty text, for a non-digit after the first character, and for a first character that is neither a digit nor a sign, and for a sign alone; a negative result comes only from text starting with '-' |
| JavaInt.DigitsValueOfNaturalText | src/webcontainer/java/nextapp/echo/webcontainer/sync/property/IntegerPeer.java:25 | reading back the printed digits of n gives n |
| JavaInt.NaturalTextOfDigitsValue | src/webcontainer/java/nextapp/echo/webcontainer/sync/property/IntegerPeer.java:17 | printing the value of a digit string with no leading zero gives that string back |
| JavaInt.ParseToString | src/webcontainer/java/nextapp/echo/webcontainer/sync/property/IntegerPeer.java:15-26 | round trip: parsing the printed form of every 32-bit n gives n |
| JavaInt.ToStringOfParse | src/webcontainer/java/nextapp/echo/webcontainer/sync/property/IntegerPeer.java:17 | converse round trip: canonical text that parses is exactly the printed form of its value |
| JavaInt.NonNumeralFails | src/webcontainer/java/nextapp/echo/webcontainer/sync/property/IntegerPeer.java:17 | "abc", "" and "-" are format errors, not a default value |
| JavaInt.ParseSound | src/webcontainer/java/nextapp/echo/webcontainer/sync/property/IntegerPeer.java:17 | whatever `new Integer(text)` accepts is a numeral for the returned value: an optional sign, any number of leading '0's, then the printed digits of its magnitude, with '-' for a negative value |
| JavaInt.ParseComplete | src/webcontainer/java/nextapp/echo/webcontainer/sync/property/IntegerPeer.java:17 | every numeral for an `int` value, padded or signed, is accepted with that value |
| JavaInt.ParseNumeralOf | src/webcontainer/java/nextapp/echo/webcontainer/sync/property/IntegerPeer.java:17 | on every input, `new Integer(text)` returns n exactly when the text is a numeral for n, so a numeral outside the `int` range never parses |
| JavaInt.ParseOutOfRange | src/webcontainer/java/nextapp/echo/webcontainer/sync/property/IntegerPeer.java:17 | digits after an optional sign whose signed value lies outside the `int` range throw |
| JavaInt.LoneSignFails | src/webcontainer/java/nextapp/echo/webcontainer/sync/property/IntegerPeer.java:17 | "+" and "-" alone throw |
| JavaInt.LeadingZerosAccepted | src/webcontainer/java/nextapp/echo/webcontainer/sync/property/IntegerPeer.java:17 | "007" parses as 7 |
| JavaInt.PlusAccepted | src/webcontainer/java/nextapp/echo/webcontainer/sync/property/IntegerPeer.java:17 | "+5" parses as 5 |
| JavaInt.MinusZeroAccepted | src/webcontainer/java/nextapp/echo/webcontainer/sync/property/IntegerPeer.java:17 | "-0" parses as 0 |
| JavaInt.TwoToThe31Digits | src/webcontainer/java/nextapp/echo/webcontainer/sync/property/IntegerPeer.java:17 | "2147483648" is a digit string whose value is 2^31, one past the largest `int` |
| JavaInt.OnePastMaxFails | src/webcontainer/java/nextapp/echo/webcontainer/sync/property/IntegerPeer.java:17 | "2147483648" throws |
| JavaInt.SignedOnePastMaxFails | src/webcontainer/java/nextapp/echo/webcontainer/sync/property/IntegerPeer.java:17 | "+2147483648" throws |
| JavaInt.MinParses | src/webcontainer/java/nextapp/echo/webcontainer/sync/property/IntegerPeer.java:17 | "-2147483648" parses as the smallest `int` |
| Wire.Element.constructor | src/webcontainer/java/nextapp/echo/webcontainer/sync/property/FillImageBorderPeer.java:29 | a created element has the given tag, no attributes and no children |
| Wire.Element.GetAttribute | src/webcontainer/java/nextapp/echo/webcontainer/sync/property/IntegerPeer.java:16 | an attribute reads as a value exactly when it is present, and as null otherwise |
| Wire.Element.SetAttribute | src/webcontainer/java/nextapp/echo/webcontainer/sync/property/IntegerPeer.java:24-25 | sets one attribute and leaves the others and all children unchanged |
| Wire.Element.AppendChild | src/webcontainer/java/nextapp/echo/webcontainer/sync/property/FillImageBorderPeer.java:43-46 | adds the child after the existing children and leaves the attributes unchanged |
| IntegerPeer.ToProperty | src/webcontainer/java/nextapp/echo/webcontainer/sync/property/IntegerPeer.java:15-18 | returns null exactly when `v` is absent; fails exactly when `v` is present and does not parse, with `NumberFormatException` for the text of `v`; otherwise returns the parsed value of `v` |
| IntegerPeer.ToXml | src/webcontainer/java/nextapp/echo/webcontainer/sync/property/IntegerPeer.java:23-26 | sets `t` to "i" and `v` to the decimal text of the value, changes no other attribute and no child, and leaves an element that decodes back to the value |
| IntegerPeer.DecodeEncoded | src/webcontainer/java/nextapp/echo/webcontainer/sync/property/IntegerPeer.java:15-26 | an element whose `v` is the printed form of n decodes to n |
| IntegerPeer.MalformedValueFails | src/webcontainer/java/nextapp/echo/webcontainer/sync/property/IntegerPeer.java:16-17 | `v="abc"` gives a format error |
| FillImageBorderPeer.ToProperty | src/webcontainer/java/nextapp/echo/webcontainer/sync/property/FillImageBorderPeer.java:16-19 | always returns null, whatever the element |
| FillImageBorderPeer.FibAttributes | src/webcontainer/java/nextapp/echo/webcontainer/sync/property/FillImageBorderPeer.java:31-39 | `bi`, `ci` and `bc` are present exactly when the border insets, content insets and color are non-null; each holds its delegate's string form; no other attribute; none at all when all three are null |
| Values.FillImageBorder.GetFillImage | src/webcontainer/java/nextapp/echo/webcontainer/sync/property/FillImageBorderPeer.java:43 | `getFillImage(i)` is the image held in slot i of the eight, `None` for an empty slot |
| FillImageBorderPeer.FibChildren | src/webcontainer/java/nextapp/echo/webcontainer/sync/property/FillImageBorderPeer.java:42-44 | exactly eight children, child i being the image element for `getFillImage(i)` |
| FillImageBorderPeer.ToXml | src/webcontainer/java/nextapp/echo/webcontainer/sync/property/FillImageBorderPeer.java:25-47 | sets `t` to "FillImageBorder", changes no other attribute, and appends exactly one `fib` child with those attributes and children after the existing, unchanged children |
| FillImageBorderPeer.NewFibElement | src/webcontainer/java/nextapp/echo/webcontainer/sync/property/FillImageBorderPeer.java:29-44 | the new `fib` element carries exactly `FibAttributes` and, in slot order, the eight `FibChildren` |
| PanelComponent.Store | src/server-java/app/nextapp/echo/app/Panel.java:103-147 | after a write, the written name holds the new value, or is unset when the value is null; every other name is as before |
| PanelComponent.StoreTwice | src/server-java/app/nextapp/echo/app/Panel.java:103-147 | writing the same property twice keeps only the last value |
| PanelComponent.StoreCommutes | src/server-java/app/nextapp/echo/app/Panel.java:103-147 | writes to two different properties commute |
| PanelComponent.PropertyNamesDistinct | src/server-java/app/nextapp/echo/app/Panel.java:41-45 | the five property names are pairwise distinct |
| PanelComponent.Panel.constructor | src/server-java/app/nextapp/echo/app/Panel.java:65-96 | a new panel has an empty bag, and every getter reads null (unset) |
| PanelComponent.Panel.GetBackgroundImage | src/server-java/app/nextapp/echo/app/Panel.java:52-54 | non-null exactly when `backgroundImage` is in the bag, and then it is the stored image |
| PanelComponent.Panel.GetBorder | src/server-java/app/nextapp/echo/app/Panel.java:61-63 | non-null exactly when `border` is in the bag, and then it is the stored border |
| PanelComponent.Panel.GetHeight | src/server-java/app/nextapp/echo/app/Panel.java:73-75 | non-null exactly when `height` is in the bag, and then it is the stored extent |
| PanelComponent.Panel.GetInsets | src/server-java/app/nextapp/echo/app/Panel.java:84-86 | non-null exactly when `insets` is in the bag, and then it is the stored insets |
| PanelComponent.Panel.GetWidth | src/server-java/app/nextapp/echo/app/Panel.java:94-96 | non-null exactly when `width` is in the bag, and then it is the stored extent |
| PanelComponent.Panel.SetBackgroundImage | src/server-java/app/nextapp/echo/app/Panel.java:103-105 | writes only `backgroundImage`; `GetBackgroundImage` returns the new value; the other four getters are unchanged |
| PanelComponent.Panel.SetBorder | src/server-java/app/nextapp/echo/app/Panel.java:112-114 | writes only `border`; `GetBorder` returns the new value; the other four getters are unchanged |
| PanelComponent.Panel.SetHeight | src/server-java/app/nextapp/echo/app/Panel.java:124-126 | writes only `height`; `GetHeight` returns the new value; the other four getters are unchanged |
| PanelComponent.Panel.SetInsets | src/server-java/app/nextapp/echo/app/Panel.java:135-137 | writes only `insets`; `GetInsets` returns the new value; the other four getters are unchanged |
| PanelComponent.Panel.SetWidth | src/server-java/app/nextapp/echo/app/Panel.java:145-147 | writes only `width`; `GetWidth` returns the new value; the other four getters are unchanged |
| PositionableComponent.UndefinedNotEffective | src/server-java/webcontainer/nextapp/echo/webcontainer/sync/component/Positionable.java:38 | `UNDEFINED` is `Integer.MAX_VALUE`, and a coordinate equal to it never takes effect |
| PositionableComponent.PositioningCases | src/server-java/webcontainer/nextapp/echo/webcontainer/sync/component/Positionable.java:43 | the positioning enumeration has exactly the cases FLOW, ABSOLUTE, RELATIVE and FIXED |
| PositionableComponent.StyleKeysDistinct | src/server-java/webcontainer/nextapp/echo/webcontainer/sync/component/Positionable.java:48-68 | the style keys `bottom`, `left`, `positioning`, `right` and `top` are pairwise distinct |
| PositionableComponent.Positionable.EffectiveSides | src/server-java/webcontainer/nextapp/echo/webcontainer/sync/component/Positionable.java:20 | a side takes effect exactly when its coordinate is neither `Integer.MAX_VALUE` nor `Integer.MIN_VALUE` |
| PositionableComponent.Positionable.constructor | src/server-java/webcontainer/nextapp/echo/webcontainer/sync/component/Positionable.java:6-25 | initially the positioning is FLOW, every coordinate is `UNDEFINED`, and no side takes effect |
| PositionableComponent.Positionable.ClearPositioning | src/server-java/webcontainer/nextapp/echo/webcontainer/sync/component/Positionable.java:75-78 | left, top, right and bottom all become `UNDEFINED` (`Integer.MAX_VALUE`), so no side takes effect, the flow-like state lines 25-26 describe; the positioning rule is not promised |
| PositionableComponent.Positionable.GetBottom | src/server-java/webcontainer/nextapp/echo/webcontainer/sync/component/Positionable.java:80-83 | the bottom coordinate is the `Bottom` side's coordinate, and it takes effect exactly when `Bottom` is among the effective sides |
| PositionableComponent.Positionable.GetLeft | src/server-java/webcontainer/nextapp/echo/webcontainer/sync/component/Positionable.java:85-88 | the left coordinate is the `Left` side's coordinate, and it takes effect exactly when `Left` is among the effective sides |
| PositionableComponent.Positionable.GetPositioning | src/server-java/webcontainer/nextapp/echo/webcontainer/sync/component/Positionable.java:90-98 | the positioning rule is the one last set by the constructor or `SetPositioning` |
| PositionableComponent.Positionable.GetRight | src/server-java/webcontainer/nextapp/echo/webcontainer/sync/component/Positionable.java:100-103 | the right coordinate is the `Right` side's coordinate, and it takes effect exactly when `Right` is among the effective sides |
| PositionableComponent.Positionable.GetTop | src/server-java/webcontainer/nextapp/echo/webcontainer/sync/component/Positionable.java:105-108 | the top coordinate is the `Top` side's coordinate, and it takes effect exactly when `Top` is among the effective sides |
| PositionableComponent.Positionable.SetBottom | src/server-java/webcontainer/nextapp/echo/webcontainer/sync/component/Positionable.java:110-113 | `GetBottom` returns the new value; the other coordinates and the positioning are unchanged |
| PositionableComponent.Positionable.SetLeft | src/server-java/webcontainer/nextapp/echo/webcontainer/sync/component/Positionable.java:115-118 | `GetLeft` returns the new value; the other coordinates and the positioning are unchanged |
| PositionableComponent.Positionable.SetPositioning | src/server-java/webcontainer/nextapp/echo/webcontainer/sync/component/Positionable.java:120-130 | `GetPositioning` returns the new rule; all coordinates are unchanged |
| PositionableComponent.Positionable.SetRight | src/server-java/webcontainer/nextapp/echo/webcontainer/sync/component/Positionable.java:132-135 | `GetRight` returns the new value; the other coordinates and the positioning are unchanged |
| PositionableComponent.Positionable.SetTop | src/server-java/webcontainer/nextapp/echo/webcontainer/sync/component/Positionable.java:137-140 | `GetTop` returns the new value; the other coordinates and the positioning are unchanged |

The `Positionable` getters read the fields directly. What they return over time
is given by the setter, constructor and `ClearPositioning` contracts above. The getters
of `Panel` do not change the bag: they are functions that only read it.

## Left out

- The W3C DOM, `XmlContext`, `OutputContext` and the unused `Class objectClass` parameters are not modelled. Creating an element is `new Wire.Element(tag)`.
- Wire.Element.GetAttribute: the DOM returns "" for a missing attribute. The code tests for null, so absence is modelled as `None`.
- Wire.Element.AppendChild: a child is stored as a value snapshot, so a child changed after it was appended is not modelled (aliasing). Neither peer touches a child after appending it.
- JavaInt.Parse: only the ASCII digits '0'..'9' are digits. `Integer.parseInt` also accepts other Unicode decimal digits.
- JavaInt.Parse: a leading '+' is accepted, as the `parseInt` of Java 7 and later does. Earlier versions reject it.
- A null `propertyValue` is not modelled. Both peers would set `t` and then throw `NullPointerException` (IntegerPeer.java:24-25, FillImageBorderPeer.java:27-31). The model assumes a non-null value.
- `InsetsPeer.toString`, `ColorPeer.toString` and `FillImagePeer.createFillImageElement` are not part of this model. They are parameters, and only where their results are placed is stated.
- FillImageBorderPeer.ToXml: a null image slot passes to the image delegate unchanged. What that delegate makes of it is unspecified (the FIXME at FillImageBorderPeer.java:41).
- FillImageBorderPeer.ToProperty: the source has no decoder, so none is modelled. It returns null, as the stub does.
- The `(FillImageBorder)` cast and `propertyValue.toString()` on a plain object become typed parameters (`FillImageBorder`, `Int32`). A wrong runtime type is not modelled.
- `FillImageBorder.java` is not part of this model. Its value is a datatype with three optional fields and eight image slots.
- `Component.get`/`set` internals are not modelled: property-change events, style resolution, `Composite` and `PaneContainer`. The bag is a `map`, and `set(name, null)` leaves the name unset.
- PanelComponent.Panel.GetWidth and the other four getters, and the five setters, require every bag entry of the five properties to have its declared type (`Valid`). The setters keep `Valid`. The `ClassCastException` that a wrongly typed entry would raise is not modelled.
- PositionableComponent.Positionable.ClearPositioning: the contract does not say what becomes of the positioning rule. Line 76 lists only the coordinates and z-index, while lines 25-26 say the component then acts like a normal flow component; the contract promises the part both agree on, that no coordinate takes effect.
- Positionable: a null `POSITIONING` passed to `setPositioning` is not modelled. The interface does not say what null means.
- Positionable: z-index is not modelled (lines 30 and 77). It has no accessor.
- Positionable: `POSITIONING.NONE` (line 93) is not modelled. No such case exists in the enumeration.
- Positionable: firing `POSITION_CHANGED_PROPERTY` is not modelled. It is only a constant.
- Positionable: a null `Integer` coordinate is not modelled. The interface does not say what null means.
- The codec registry and the dispatch from property type to peer are not part of this model.
