/**
  The string-returning Avalonia builders: `BuildAvaloniaProperty` (a
  StyledProperty) and `BuildAvaloniaDirectProperty` (a DirectProperty with a
  backing field), one element per generated line.
 */
module AvaloniaProperty {
  import opened Text

  /** The text after the registration's `nameof(...)`: `,{defVal}` when a default was supplied. */
  function StyledDefaultArgument(defVal: NullableString): (r: string)
    ensures r == "" <==> IsNullOrEmpty(defVal)
  {
    if IsNullOrEmpty(defVal) then "" else "," + defVal.value
  }

  /** The styled registration up to its optional default value. */
  function StyledRegistration(p: string, t: string, o: string): string {
    "    = " + "AvaloniaProperty." + "Register<" + o + ", " + t + ">(nameof(" + p + ")"
  }

  /**
    `BuildAvaloniaProperty(propName, typeName, ownerName, defVal)`: the C#
    property, a blank line, the XML comment, the styled property field and its
    registration.
   */
  function BuildAvaloniaProperty(p: string, t: string, o: string, defVal: NullableString): (r: seq<string>)
    ensures |r| == 5 && r[1] == ""
  {
    [ "public " + t + " " + p + " { get => GetValue(" + p + "Property); " + "set => " + "SetValue(" + p + "Property, value); }",
      "",
      "/// <summary>The backing " + "styled property " + "for <see cref=\"" + p
      + "\"/>. See the related " + "property for details." + "</summary>",
      "public static " + "readonly " + "StyledProperty<" + t + "> " + p + "Property",
      StyledRegistration(p, t, o) + StyledDefaultArgument(defVal) + ");" ]
  }

  predicate IsUpperAscii(c: char) {
    'A' <= c <= 'Z'
  }

  /** `ToLowerInvariant` on one character, for ASCII; other characters are left as they are. */
  function LowerAscii(c: char): (r: char)
    ensures !IsUpperAscii(r)
    ensures !IsUpperAscii(c) ==> r == c
    ensures IsUpperAscii(c) ==> r as int == c as int + 32
  {
    if IsUpperAscii(c) then (c as int + 32) as char else c
  }

  /**
    The backing field's name, before the `_` prefix: `propertyField` when the
    property name is empty, whatever was supplied; otherwise the supplied name
    (even an empty one), or else the property name with its first character
    lower-cased.
   */
  function FieldName(p: string, fieldName: NullableString): (r: string)
    ensures |p| == 0 ==> r == "propertyField"
    ensures |p| > 0 && fieldName.NonNull? ==> r == fieldName.value
    ensures |p| > 0 && fieldName.Null? ==>
              |r| == |p| && r[0] == LowerAscii(p[0]) && r[1..] == p[1..]
  {
    if |p| == 0 then "propertyField"
    else if fieldName.NonNull? then fieldName.value
    else [LowerAscii(p[0])] + p[1..]
  }

  /** What follows the field's name: an initializer when a default was supplied. */
  function FieldInitializer(defVal: NullableString): (r: string)
    ensures r == ";" <==> IsNullOrEmpty(defVal)
  {
    if IsNullOrEmpty(defVal) then ";" else " = " + defVal.value + ";"
  }

  /** The direct property's getter, which reads the field `_{f}`; the setter follows it. */
  function DirectGetter(p: string, t: string, f: string): string {
    "public " + t + " " + p + " { get => _" + f + "; "
  }

  /**
    The direct registration up to its closing text: the getter lambda, then a
    setter lambda unless the property is read-only. The writer twin emits this
    with `Write`, and the closing text with `WriteLine`.
   */
  function DirectRegistration(p: string, t: string, o: string, readOnly: bool): string {
    if readOnly then RegisterWithGetter(p, t, o)
    else RegisterWithGetter(p, t, o) + ", (s, v) => s." + p + " = v"
  }

  /** The direct registration's type arguments, name and getter lambda. */
  function RegisterWithGetter(p: string, t: string, o: string): string {
    "    = " + "AvaloniaProperty." + "RegisterDirect<" + o + ", " + t + ">(nameof(" + p + "), (s) => s." + p
  }

  /** The text that closes the direct registration: an `unsetValue` argument when a default was supplied. */
  function DirectClose(defVal: NullableString): (r: string)
    ensures r == ");" <==> IsNullOrEmpty(defVal)
  {
    if IsNullOrEmpty(defVal) then ");" else ", unsetValue: " + defVal.value + ");"
  }

  /** The backing field `_{f}`, initialized when a default was supplied. */
  function DirectField(t: string, f: string, defVal: NullableString): string {
    "private " + t + " _" + f + FieldInitializer(defVal)
  }

  /**
    The C# property over the field `_{f}`; its setter is private when
    `readOnly`. A read-write property's line has two spaces between `;` and
    `set`.
   */
  function DirectAccessor(p: string, t: string, f: string, readOnly: bool): string {
    DirectGetter(p, t, f) + (if readOnly then "private" else "") + " set => "
    + "SetAndRaise(" + p + "Property, ref _" + f + ", value); }"
  }

  /** The XML comment above the direct property field. */
  function DirectDocComment(p: string): string {
    "/// <summary>The backing " + "direct property " + "for <see cref=\"" + p
    + "\"/>. See the related " + "property for details." + "</summary>"
  }

  /** The declaration of the direct property field. */
  function DirectPropertyField(p: string, t: string, o: string): string {
    "public static " + "readonly " + "DirectProperty<" + o + "," + t + "> " + p + "Property"
  }

  /**
    `BuildAvaloniaDirectProperty(propName, typeName, ownerName, defVal,
    fieldName, readOnly)`: the backing field, the C# property, the XML comment,
    the direct property field and its registration.
   */
  function BuildAvaloniaDirectProperty(p: string, t: string, o: string, defVal: NullableString,
                                       fieldName: NullableString, readOnly: bool): (r: seq<string>)
    ensures |r| == 7 && r[1] == "" && r[3] == ""
  {
    var f := FieldName(p, fieldName);
    [ DirectField(t, f, defVal),
      "",
      DirectAccessor(p, t, f, readOnly),
      "",
      DirectDocComment(p),
      DirectPropertyField(p, t, o),
      DirectRegistration(p, t, o, readOnly) + DirectClose(defVal) ]
  }
}
