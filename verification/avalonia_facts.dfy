/** What the Avalonia builders promise about their output. */
module AvaloniaFacts {
  import opened Text
  import opened AvaloniaProperty

  /**
    The default value of a styled property only affects the registration line,
    which gets `,{defVal}` before its `);` exactly when a default was supplied.
   */
  lemma StyledDefault(p: string, t: string, o: string, defVal: NullableString)
    ensures var r := BuildAvaloniaProperty(p, t, o, defVal);
            var plain := BuildAvaloniaProperty(p, t, o, Null);
            r[0] == plain[0] && r[2] == plain[2] && r[3] == plain[3]
    ensures var r := BuildAvaloniaProperty(p, t, o, defVal);
            IsNullOrEmpty(defVal) ==> r[4] == StyledRegistration(p, t, o) + ");"
    ensures var r := BuildAvaloniaProperty(p, t, o, defVal);
            !IsNullOrEmpty(defVal) ==> r[4] == StyledRegistration(p, t, o) + "," + defVal.value + ");"
  {
  }

  /**
    A generated field name is the property name exactly when the property
    name does not start with an upper-case letter; it never does itself.
   */
  lemma GeneratedFieldName(p: string)
    requires |p| > 0
    ensures !IsUpperAscii(FieldName(p, Null)[0])
    ensures FieldName(p, Null) == p <==> !IsUpperAscii(p[0])
  {
    if !IsUpperAscii(p[0]) {
      assert [p[0]] + p[1..] == p;
    }
  }

  /** The direct property line reads the field in its getter and passes it to `SetAndRaise`. */
  lemma DirectAccessorField(p: string, t: string, f: string, readOnly: bool)
    ensures StartsWith(DirectAccessor(p, t, f, readOnly), DirectGetter(p, t, f))
    ensures EndsWith(DirectAccessor(p, t, f, readOnly), f + ", value); }")
  {
    var visibility := if readOnly then "private" else "";
    PrefixOfConcat(DirectGetter(p, t, f), visibility, " set => " + "SetAndRaise(" + p + "Property, ref _" + f + ", value); }");
    SuffixOfConcat(DirectGetter(p, t, f) + visibility + " set => " + "SetAndRaise(" + p + "Property, ref _", f, ", value); }");
  }

  /** The backing field `_{f}` is declared on the first line, read by the getter and passed to `SetAndRaise`. */
  lemma DirectFieldUse(p: string, t: string, o: string, defVal: NullableString, fieldName: NullableString,
                       readOnly: bool)
    ensures var r := BuildAvaloniaDirectProperty(p, t, o, defVal, fieldName, readOnly);
            var f := FieldName(p, fieldName);
            StartsWith(r[0], "private " + t + " _" + f)
            && StartsWith(r[2], DirectGetter(p, t, f))
            && EndsWith(r[2], f + ", value); }")
  {
    var f := FieldName(p, fieldName);
    var r := BuildAvaloniaDirectProperty(p, t, o, defVal, fieldName, readOnly);
    var field := "private " + t + " _" + f;
    assert r[0] == field + FieldInitializer(defVal);
    PrefixOfConcat(field, FieldInitializer(defVal), "");
    assert r[2] == DirectAccessor(p, t, f, readOnly);
    DirectAccessorField(p, t, f, readOnly);
  }

  /** The setter of a read-only direct property is private; a read-write one has none of that text. */
  lemma DirectSetterVisibility(p: string, t: string, f: string, readOnly: bool)
    ensures readOnly ==> StartsWith(DirectAccessor(p, t, f, true), DirectGetter(p, t, f) + "private" + " set => ")
    ensures !readOnly ==> StartsWith(DirectAccessor(p, t, f, false), DirectGetter(p, t, f) + " set => ")
  {
    var tail := "SetAndRaise(" + p + "Property, ref _" + f + ", value); }";
    if readOnly {
      PrefixOfConcat(DirectGetter(p, t, f) + "private" + " set => ", tail, "");
    } else {
      assert DirectAccessor(p, t, f, false) == DirectGetter(p, t, f) + " set => " + tail + "";
      PrefixOfConcat(DirectGetter(p, t, f) + " set => ", tail, "");
    }
  }

  /** `readOnly` leaves the field, the comment and the property field as they are. */
  lemma DirectReadOnlyKeeps(p: string, t: string, o: string, defVal: NullableString, fieldName: NullableString,
                            readOnly: bool)
    ensures var r := BuildAvaloniaDirectProperty(p, t, o, defVal, fieldName, readOnly);
            var s := BuildAvaloniaDirectProperty(p, t, o, defVal, fieldName, !readOnly);
            r[0] == s[0] && r[4] == s[4] && r[5] == s[5]
  {
  }

  /** `readOnly` makes the setter private. */
  lemma DirectReadOnlySetter(p: string, t: string, o: string, defVal: NullableString, fieldName: NullableString,
                             readOnly: bool)
    ensures var r := BuildAvaloniaDirectProperty(p, t, o, defVal, fieldName, readOnly);
            var f := FieldName(p, fieldName);
            (readOnly ==> StartsWith(r[2], DirectGetter(p, t, f) + "private" + " set => "))
            && (!readOnly ==> StartsWith(r[2], DirectGetter(p, t, f) + " set => "))
  {
    DirectSetterVisibility(p, t, FieldName(p, fieldName), readOnly);
  }

  /** A read-only direct property is registered with a getter lambda only. */
  lemma DirectReadOnlyRegistration(p: string, t: string, o: string, defVal: NullableString, fieldName: NullableString,
                                   readOnly: bool)
    ensures var r := BuildAvaloniaDirectProperty(p, t, o, defVal, fieldName, readOnly);
            (readOnly ==> r[6] == RegisterWithGetter(p, t, o) + DirectClose(defVal))
            && (!readOnly ==> r[6] == RegisterWithGetter(p, t, o) + ", (s, v) => s." + p + " = v" + DirectClose(defVal))
  {
  }

  /** A default value leaves the property line, the comment and the property field as they are. */
  lemma DirectDefaultKeeps(p: string, t: string, o: string, defVal: NullableString, fieldName: NullableString,
                           readOnly: bool)
    ensures var r := BuildAvaloniaDirectProperty(p, t, o, defVal, fieldName, readOnly);
            var plain := BuildAvaloniaDirectProperty(p, t, o, Null, fieldName, readOnly);
            r[2] == plain[2] && r[4] == plain[4] && r[5] == plain[5]
  {
    var f := FieldName(p, fieldName);
    var r := BuildAvaloniaDirectProperty(p, t, o, defVal, fieldName, readOnly);
    var plain := BuildAvaloniaDirectProperty(p, t, o, Null, fieldName, readOnly);
    assert r[2] == DirectAccessor(p, t, f, readOnly) == plain[2];
    assert r[4] == DirectDocComment(p) == plain[4];
    assert r[5] == DirectPropertyField(p, t, o) == plain[5];
  }

  /** Without a default value the field is not initialized and the registration closes at once. */
  lemma DirectWithoutDefault(p: string, t: string, o: string, defVal: NullableString, fieldName: NullableString,
                             readOnly: bool)
    requires IsNullOrEmpty(defVal)
    ensures var r := BuildAvaloniaDirectProperty(p, t, o, defVal, fieldName, readOnly);
            r[0] == "private " + t + " _" + FieldName(p, fieldName) + ";"
            && r[6] == DirectRegistration(p, t, o, readOnly) + ");"
  {
    var f := FieldName(p, fieldName);
    var r := BuildAvaloniaDirectProperty(p, t, o, defVal, fieldName, readOnly);
    assert r[0] == DirectField(t, f, defVal);
    assert r[6] == DirectRegistration(p, t, o, readOnly) + DirectClose(defVal);
  }

  /** A default value initializes the field and becomes the registration's `unsetValue`. */
  lemma DirectWithDefault(p: string, t: string, o: string, defVal: NullableString, fieldName: NullableString,
                          readOnly: bool)
    requires !IsNullOrEmpty(defVal)
    ensures var r := BuildAvaloniaDirectProperty(p, t, o, defVal, fieldName, readOnly);
            StartsWith(r[0], "private " + t + " _" + FieldName(p, fieldName))
            && EndsWith(r[0], " = " + defVal.value + ";")
            && StartsWith(r[6], DirectRegistration(p, t, o, readOnly))
            && EndsWith(r[6], ", unsetValue: " + defVal.value + ");")
  {
    var f := FieldName(p, fieldName);
    var r := BuildAvaloniaDirectProperty(p, t, o, defVal, fieldName, readOnly);
    var field := "private " + t + " _" + f;
    assert r[0] == field + FieldInitializer(defVal);
    PrefixOfConcat(field, FieldInitializer(defVal), "");
    EndsWithConcat(field, FieldInitializer(defVal));
    assert r[6] == DirectRegistration(p, t, o, readOnly) + DirectClose(defVal);
    PrefixOfConcat(DirectRegistration(p, t, o, readOnly), DirectClose(defVal), "");
    EndsWithConcat(DirectRegistration(p, t, o, readOnly), DirectClose(defVal));
  }
}
