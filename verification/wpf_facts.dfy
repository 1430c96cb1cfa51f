/**
  What `BuildWpfProperty` promises about the text it generates: where the
  registration, metadata and key lines sit, how `readOnly` and the handler
  style change them, and that every name the generated code refers to is
  declared by the same output.
 */
module WpfFacts {
  import opened Text
  import opened ChangeHandlers
  import opened WpfProperty

  /** Index of the line that ends the registration statement. */
  function RegistrationIndex(readOnly: bool): nat {
    if readOnly then 3 else 4
  }

  /** The number of lines the handler fragments of style `h` add. */
  function FragmentLines(h: WpfPropertyChangeHandler): nat {
    match h
    case None => 0
    case Standard => 8
    case StandardEventCall => 17
    case StandardRoutedEventCall => 26
    case PerformAs => 0
    case PerformAsEventCall => 9
    case PerformAsRoutedEventCall => 23
  }

  /** The header of the static callback that `, On{p}Changed` names. */
  function StaticCallbackHeader(p: string): string {
    "private static " + "void On" + p + "Changed(" + "DependencyObject d, " + "DependencyPropertyChangedEventArgs e)"
  }

  /** The header of the instance method the `PerformAsRoutedEventCall` lambda calls. */
  function InstanceCallbackHeader(p: string): string {
    "private void On" + p + "Changed(" + "DependencyPropertyChangedEventArgs e)"
  }

  /** The nullable declaration of the plain `{p}Changed` event (the `NETCOREAPP` branch). */
  function NullableEventDeclaration(p: string): string {
    "    public event " + "DependencyPropertyChangedEventHandler? " + p + "Changed;"
  }

  /** The declaration of the plain `{p}Changed` event for .NET Framework. */
  function EventDeclaration(p: string): string {
    "    public event " + "DependencyPropertyChangedEventHandler " + p + "Changed;"
  }

  /** The field holding the routed `{p}ChangedEvent`. */
  function RoutedEventField(p: string): string {
    "public static " + "readonly RoutedEvent " + p + "ChangedEvent = " + "EventManager." + "RegisterRoutedEvent("
  }

  /**
    The handler fragments agree with what each handler style stands for: a
    static callback exactly for the `Standard` styles (with the body of that
    style), a plain event exactly for the two `EventCall` styles, a routed
    event exactly for the two `RoutedEventCall` styles, an instance callback
    only for `PerformAsRoutedEventCall`, nothing for `None` and `PerformAs`,
    and no fragment twice.
   */
  lemma FragmentsPerStyle(h: WpfPropertyChangeHandler)
    ensures StaticCallback(Blank) in Fragments(h) <==> h == Standard
    ensures StaticCallback(InvokeEvent) in Fragments(h) <==> h == StandardEventCall
    ensures StaticCallback(RaiseRoutedEvent) in Fragments(h) <==> h == StandardRoutedEventCall
    ensures (forall i | 0 <= i < |Fragments(h)| :: !Fragments(h)[i].StaticCallback?) <==> !h.IsStandardStyle()
    ensures PlainEvent in Fragments(h) <==> h.DeclaresPlainEvent()
    ensures RoutedEvent in Fragments(h) <==> h.DeclaresRoutedEvent()
    ensures InstanceCallback in Fragments(h) <==> h == PerformAsRoutedEventCall
    ensures |Fragments(h)| == 0 <==> h == None || h == PerformAs
    ensures forall i, j | 0 <= i < j < |Fragments(h)| :: Fragments(h)[i] != Fragments(h)[j]
  {
  }

  /** The output is the declaration followed by the rendered fragments. */
  lemma BuildSplit(p: string, t: string, o: string, defVal: NullableString, readOnly: bool,
                   h: WpfPropertyChangeHandler)
    ensures BuildWpfProperty(p, t, o, defVal, readOnly, h)
            == Declaration(p, t, o, defVal, readOnly, h) + RenderFragments(Fragments(h), p, t, o)
  {
  }

  /** The output begins with the declaration lines. */
  lemma DeclarationPrefix(p: string, t: string, o: string, defVal: NullableString, readOnly: bool,
                          h: WpfPropertyChangeHandler)
    ensures var r := BuildWpfProperty(p, t, o, defVal, readOnly, h);
            var d := Declaration(p, t, o, defVal, readOnly, h);
            |d| <= |r| && forall i | 0 <= i < |d| :: r[i] == d[i]
  {
    BuildSplit(p, t, o, defVal, readOnly, h);
  }

  /** Where the registration, metadata and key-derived lines sit in the declaration. */
  lemma DeclarationLines(p: string, t: string, o: string, defVal: NullableString, readOnly: bool,
                         h: WpfPropertyChangeHandler)
    ensures var d := Declaration(p, t, o, defVal, readOnly, h);
            var reg := Registration(p, t, o, readOnly, NeedsMetadata(defVal, h));
            forall i | 0 <= i < |reg| :: d[i] == reg[i]
    ensures NeedsMetadata(defVal, h) ==>
              Declaration(p, t, o, defVal, readOnly, h)[RegistrationIndex(readOnly) + 1] == MetadataLine(p, o, defVal, h)
    ensures readOnly ==>
              Declaration(p, t, o, defVal, readOnly, h)[if NeedsMetadata(defVal, h) then 7 else 6] == PublicFromKey(p)[2]
  {
  }

  /** The `Standard` style adds the static callback with a blank body. */
  lemma StandardFragments(p: string, t: string, o: string)
    ensures var fr := RenderFragments(Fragments(Standard), p, t, o);
            |fr| == 8 && fr[1] == StaticCallbackHeader(p)
  {
    assert Fragments(Standard)[1..] == [];
    assert RenderFragments(Fragments(Standard), p, t, o)[1] == StaticCallbackHeader(p);
  }

  /** The `StandardEventCall` style adds the static callback, then both variants of the plain event. */
  lemma StandardEventCallFragments(p: string, t: string, o: string)
    ensures var fr := RenderFragments(Fragments(StandardEventCall), p, t, o);
            |fr| == 17 && fr[1] == StaticCallbackHeader(p)
            && fr[13] == NullableEventDeclaration(p) && fr[15] == EventDeclaration(p)
  {
    assert Fragments(StandardEventCall)[1..] == [PlainEvent];
    assert Fragments(StandardEventCall)[1..][1..] == [];
    var fr := RenderFragments(Fragments(StandardEventCall), p, t, o);
    assert fr == StaticHandler(p, o, EventCallBody(p)) + PropertyChangedEvent(p);
    assert fr[1] == StaticCallbackHeader(p);
    assert fr[13] == NullableEventDeclaration(p);
    assert fr[15] == EventDeclaration(p);
  }

  /** The `StandardRoutedEventCall` style adds the static callback, then the routed event. */
  lemma StandardRoutedEventCallFragments(p: string, t: string, o: string)
    ensures var fr := RenderFragments(Fragments(StandardRoutedEventCall), p, t, o);
            |fr| == 26 && fr[1] == StaticCallbackHeader(p) && fr[15] == RoutedEventField(p)
  {
    assert Fragments(StandardRoutedEventCall)[1..] == [RoutedEvent];
    assert Fragments(StandardRoutedEventCall)[1..][1..] == [];
    var fr := RenderFragments(Fragments(StandardRoutedEventCall), p, t, o);
    assert fr == StaticHandler(p, o, RoutedEventCallBody(p, t)) + RoutedPropertyChangedEvent(p, t, o);
    assert fr[1] == StaticCallbackHeader(p);
    assert fr[15] == RoutedEventField(p);
  }

  /** The `PerformAsEventCall` style adds only the plain event, in both variants. */
  lemma PerformAsEventCallFragments(p: string, t: string, o: string)
    ensures var fr := RenderFragments(Fragments(PerformAsEventCall), p, t, o);
            |fr| == 9 && fr[5] == NullableEventDeclaration(p) && fr[7] == EventDeclaration(p)
  {
    assert Fragments(PerformAsEventCall)[1..] == [];
    var fr := RenderFragments(Fragments(PerformAsEventCall), p, t, o);
    assert fr[5] == NullableEventDeclaration(p);
    assert fr[7] == EventDeclaration(p);
  }

  /** The `PerformAsRoutedEventCall` style adds the routed event, then the instance callback. */
  lemma PerformAsRoutedEventCallFragments(p: string, t: string, o: string)
    ensures var fr := RenderFragments(Fragments(PerformAsRoutedEventCall), p, t, o);
            |fr| == 23 && fr[4] == RoutedEventField(p) && fr[16] == InstanceCallbackHeader(p)
  {
    assert Fragments(PerformAsRoutedEventCall)[1..] == [InstanceCallback];
    assert Fragments(PerformAsRoutedEventCall)[1..][1..] == [];
    var fr := RenderFragments(Fragments(PerformAsRoutedEventCall), p, t, o);
    assert fr == RoutedPropertyChangedEvent(p, t, o) + InstanceRoutedHandler(p, t);
    assert fr[4] == RoutedEventField(p);
    assert fr[16] == InstanceCallbackHeader(p);
  }

  /** The handler fragments of each style: their length and the declarations they hold. */
  lemma FragmentDeclarations(h: WpfPropertyChangeHandler, p: string, t: string, o: string)
    ensures |RenderFragments(Fragments(h), p, t, o)| == FragmentLines(h)
    ensures h.IsStandardStyle() ==> StaticCallbackHeader(p) in RenderFragments(Fragments(h), p, t, o)
    ensures h.DeclaresPlainEvent() ==>
              NullableEventDeclaration(p) in RenderFragments(Fragments(h), p, t, o)
              && EventDeclaration(p) in RenderFragments(Fragments(h), p, t, o)
    ensures h.DeclaresRoutedEvent() ==> RoutedEventField(p) in RenderFragments(Fragments(h), p, t, o)
    ensures h == PerformAsRoutedEventCall ==> InstanceCallbackHeader(p) in RenderFragments(Fragments(h), p, t, o)
  {
    match h
    case None =>
    case Standard => StandardFragments(p, t, o);
    case StandardEventCall => StandardEventCallFragments(p, t, o);
    case StandardRoutedEventCall => StandardRoutedEventCallFragments(p, t, o);
    case PerformAs =>
    case PerformAsEventCall => PerformAsEventCallFragments(p, t, o);
    case PerformAsRoutedEventCall => PerformAsRoutedEventCallFragments(p, t, o);
  }

  /**
    The output's length: the declaration (5 lines, 7 when read-only, one more
    with metadata) followed by the handler fragments of style `h`.
   */
  lemma OutputLength(p: string, t: string, o: string, defVal: NullableString, readOnly: bool,
                     h: WpfPropertyChangeHandler)
    ensures |BuildWpfProperty(p, t, o, defVal, readOnly, h)|
            == (if readOnly then 7 else 5) + (if NeedsMetadata(defVal, h) then 1 else 0) + FragmentLines(h)
  {
    BuildSplit(p, t, o, defVal, readOnly, h);
    FragmentDeclarations(h, p, t, o);
  }

  /** The registration line ends in `,` before a metadata line and in `);` otherwise. */
  lemma RegistrationClose(p: string, t: string, o: string, readOnly: bool, needsMetadata: bool)
    ensures var line := Registration(p, t, o, readOnly, needsMetadata)[RegistrationIndex(readOnly)];
            (EndsWith(line, ",") <==> needsMetadata) && (EndsWith(line, ");") <==> !needsMetadata)
  {
    var line := Registration(p, t, o, readOnly, needsMetadata)[RegistrationIndex(readOnly)];
    var call := if readOnly then "RegisterReadOnly(" else "Register(";
    var head := "    = " + "DependencyProperty." + call + "nameof(" + p + "), typeof(" + t + "), typeof(" + o + ")";
    var close := if needsMetadata then "," else ");";
    assert line == head + close;
    EndsWithConcat(head, close);
    if EndsWith(line, ",") {
      LastOfSuffix(line, ",");
    }
    if EndsWith(line, ");") {
      LastOfSuffix(line, ");");
    }
  }

  /** The metadata line: the default value (or `null`) first, `));` last. */
  lemma MetadataLineOpen(p: string, o: string, defVal: NullableString, h: WpfPropertyChangeHandler)
    ensures StartsWith(MetadataLine(p, o, defVal, h),
                       "    new " + "FrameworkPropertyMetadata(" + (if HasDefault(defVal) then defVal.value else "null"))
    ensures EndsWith(MetadataLine(p, o, defVal, h), "));")
  {
    var open := "    new " + "FrameworkPropertyMetadata(" + MetadataDefault(defVal);
    PrefixOfConcat(open, PropertyChangedHandler(h, p, o), "));");
    EndsWithConcat(open + PropertyChangedHandler(h, p, o), "));");
  }

  /** Whatever the callback ends with, the metadata line ends with, followed by `));`. */
  lemma MetadataLineEnding(p: string, o: string, defVal: NullableString, h: WpfPropertyChangeHandler, x: string)
    requires EndsWith(PropertyChangedHandler(h, p, o), x)
    ensures EndsWith(MetadataLine(p, o, defVal, h), x + "));")
  {
    var open := "    new " + "FrameworkPropertyMetadata(" + MetadataDefault(defVal);
    var handler := PropertyChangedHandler(h, p, o);
    EndsWithConcat(open, handler);
    EndsWithTrans(open + handler, handler, x);
    EndsWithAppend(open + handler, x, "));");
  }

  /**
    The metadata line ends with the callback of style `h`, and for the
    `PerformAs` styles the lambda directly follows the default value.
   */
  lemma MetadataLineCallback(p: string, o: string, defVal: NullableString, h: WpfPropertyChangeHandler)
    ensures h.IsStandardStyle() ==> EndsWith(MetadataLine(p, o, defVal, h), ", On" + p + "Changed" + "));")
    ensures h.IsPerformAsStyle() ==>
              StartsWith(MetadataLine(p, o, defVal, h),
                         "    new " + "FrameworkPropertyMetadata(" + MetadataDefault(defVal) + PerformAsLambda(o))
    ensures h == PerformAs ==>
              EndsWith(MetadataLine(p, o, defVal, h), PerformAsLambda(o) + ")" + "));")
    ensures h == PerformAsEventCall ==>
              EndsWith(MetadataLine(p, o, defVal, h), "o." + p + "Changed?." + "Invoke(o, e))" + "));")
    ensures h == PerformAsRoutedEventCall ==>
              EndsWith(MetadataLine(p, o, defVal, h), "o.On" + p + "Changed(e))" + "));")
  {
    var open := "    new " + "FrameworkPropertyMetadata(" + MetadataDefault(defVal);
    var handler := PropertyChangedHandler(h, p, o);
    if h.IsStandardStyle() {
      SuffixOfConcat(open, handler, "));");
    } else if h.IsPerformAsStyle() {
      StartsWithConcat(open + handler, "));");
      StartsWithPrepend(open, handler, PerformAsLambda(o));
      StartsWithTrans(open + handler + "));", open + handler, open + PerformAsLambda(o));
      match h {
        case PerformAs =>
          EndsWithConcat(handler, "");
          MetadataLineEnding(p, o, defVal, h, handler);
        case PerformAsEventCall =>
          MetadataLineEnding(p, o, defVal, h, "o." + p + "Changed?." + "Invoke(o, e))");
        case PerformAsRoutedEventCall =>
          MetadataLineEnding(p, o, defVal, h, "o.On" + p + "Changed(e))");
      }
    }
  }

  /**
    The registration statement is left open with `,` exactly when a metadata
    line follows, and closed with `);` otherwise; the metadata line carries
    the default value, or `null` when there is none. Without metadata there
    is no handler either, so nothing follows but the read-only tail.
   */
  lemma MetadataGating(p: string, t: string, o: string, defVal: NullableString, readOnly: bool,
                       h: WpfPropertyChangeHandler)
    ensures RegistrationIndex(readOnly) < |BuildWpfProperty(p, t, o, defVal, readOnly, h)|
    ensures EndsWith(BuildWpfProperty(p, t, o, defVal, readOnly, h)[RegistrationIndex(readOnly)], ",")
            <==> NeedsMetadata(defVal, h)
    ensures EndsWith(BuildWpfProperty(p, t, o, defVal, readOnly, h)[RegistrationIndex(readOnly)], ");")
            <==> !NeedsMetadata(defVal, h)
    ensures NeedsMetadata(defVal, h) ==>
              var line := BuildWpfProperty(p, t, o, defVal, readOnly, h)[RegistrationIndex(readOnly) + 1];
              StartsWith(line, "    new " + "FrameworkPropertyMetadata(" + (if HasDefault(defVal) then defVal.value else "null"))
              && EndsWith(line, "));")
    ensures !NeedsMetadata(defVal, h) ==>
              |BuildWpfProperty(p, t, o, defVal, readOnly, h)| == RegistrationIndex(readOnly) + 1 + (if readOnly then 3 else 0)
  {
    var k := RegistrationIndex(readOnly);
    DeclarationPrefix(p, t, o, defVal, readOnly, h);
    DeclarationLines(p, t, o, defVal, readOnly, h);
    OutputLength(p, t, o, defVal, readOnly, h);
    RegistrationClose(p, t, o, readOnly, NeedsMetadata(defVal, h));
    MetadataLineOpen(p, o, defVal, h);
  }

  /** The property line: the shared getter, then a setter that depends on `readOnly`. */
  lemma AccessorLine(p: string, t: string, o: string, readOnly: bool, needsMetadata: bool)
    ensures var line := Registration(p, t, o, readOnly, needsMetadata)[0];
            (readOnly ==> StartsWith(line, Getter(p, t) + "private set => ")
                          && EndsWith(line, p + "PropertyKey, value); }"))
            && (!readOnly ==> StartsWith(line, Getter(p, t) + "set => ")
                              && EndsWith(line, p + "Property, value); }"))
  {
    var setter := if readOnly then "private set => " else "set => ";
    var tail := if readOnly then "PropertyKey, value); }" else "Property, value); }";
    PrefixOfConcat(Getter(p, t) + setter, "SetValue(", p + tail);
    assert Registration(p, t, o, readOnly, needsMetadata)[0] == Getter(p, t) + setter + "SetValue(" + p + tail;
    SuffixOfConcat(Getter(p, t) + setter + "SetValue(", p, tail);
  }

  /** A read-only registration declares `{p}PropertyKey` and registers it with `RegisterReadOnly`. */
  lemma KeyRegistrationLines(p: string, t: string, o: string, needsMetadata: bool)
    ensures var reg := Registration(p, t, o, true, needsMetadata);
            reg[2] == "private static " + "readonly " + "DependencyPropertyKey " + p + "PropertyKey"
            && StartsWith(reg[3], "    = " + "DependencyProperty." + "RegisterReadOnly(" + "nameof(" + p)
  {
    var call := "    = " + "DependencyProperty." + "RegisterReadOnly(" + "nameof(" + p;
    PrefixOfConcat(call, "), typeof(" + t + "), typeof(" + o + ")", if needsMetadata then "," else ");");
  }

  /** A read-write registration declares `{p}Property` and registers it with `Register`. */
  lemma PropertyRegistrationLines(p: string, t: string, o: string, needsMetadata: bool)
    ensures var reg := Registration(p, t, o, false, needsMetadata);
            reg[2] == DocComment(p)
            && reg[3] == "public static " + "DependencyProperty " + p + "Property"
            && StartsWith(reg[4], "    = " + "DependencyProperty." + "Register(" + "nameof(" + p)
  {
    var call := "    = " + "DependencyProperty." + "Register(" + "nameof(" + p;
    PrefixOfConcat(call, "), typeof(" + t + "), typeof(" + o + ")", if needsMetadata then "," else ");");
  }

  /**
    Every property reads `{p}Property`. A read-only property writes through
    a private setter and `{p}PropertyKey`, which it declares, registers with
    `RegisterReadOnly` and derives the public `{p}Property` from; otherwise
    the setter writes `{p}Property` itself, which is declared after its XML
    comment and registered with `Register`.
   */
  lemma ReadOnlyToggle(p: string, t: string, o: string, defVal: NullableString, readOnly: bool,
                       h: WpfPropertyChangeHandler)
    ensures |BuildWpfProperty(p, t, o, defVal, readOnly, h)| >= 5
    ensures var r := BuildWpfProperty(p, t, o, defVal, readOnly, h);
            readOnly ==>
              |r| >= 7
              && StartsWith(r[0], Getter(p, t) + "private set => ")
              && EndsWith(r[0], p + "PropertyKey, value); }")
              && r[2] == "private static " + "readonly " + "DependencyPropertyKey " + p + "PropertyKey"
              && StartsWith(r[3], "    = " + "DependencyProperty." + "RegisterReadOnly(" + "nameof(" + p)
              && r[if NeedsMetadata(defVal, h) then 7 else 6]
                 == "public static " + "readonly " + "DependencyProperty " + p + "Property = " + p + "PropertyKey." + "DependencyProperty;"
    ensures var r := BuildWpfProperty(p, t, o, defVal, readOnly, h);
            !readOnly ==>
              StartsWith(r[0], Getter(p, t) + "set => ")
              && EndsWith(r[0], p + "Property, value); }")
              && r[2] == DocComment(p)
              && r[3] == "public static " + "DependencyProperty " + p + "Property"
              && StartsWith(r[4], "    = " + "DependencyProperty." + "Register(" + "nameof(" + p)
  {
    DeclarationPrefix(p, t, o, defVal, readOnly, h);
    DeclarationLines(p, t, o, defVal, readOnly, h);
    AccessorLine(p, t, o, readOnly, NeedsMetadata(defVal, h));
    if readOnly {
      KeyRegistrationLines(p, t, o, NeedsMetadata(defVal, h));
    } else {
      PropertyRegistrationLines(p, t, o, NeedsMetadata(defVal, h));
    }
  }

  /** The metadata line of a style with a named callback ends with that name. */
  lemma MetadataNamesCallback(p: string, t: string, o: string, defVal: NullableString, readOnly: bool,
                              h: WpfPropertyChangeHandler)
    ensures h != None ==> RegistrationIndex(readOnly) + 1 < |BuildWpfProperty(p, t, o, defVal, readOnly, h)|
    ensures h.IsStandardStyle() ==>
              EndsWith(BuildWpfProperty(p, t, o, defVal, readOnly, h)[RegistrationIndex(readOnly) + 1],
                       ", On" + p + "Changed" + "));")
    ensures h == PerformAs ==>
              EndsWith(BuildWpfProperty(p, t, o, defVal, readOnly, h)[RegistrationIndex(readOnly) + 1],
                       PerformAsLambda(o) + ")" + "));")
    ensures h == PerformAsEventCall ==>
              EndsWith(BuildWpfProperty(p, t, o, defVal, readOnly, h)[RegistrationIndex(readOnly) + 1],
                       "o." + p + "Changed?." + "Invoke(o, e))" + "));")
    ensures h == PerformAsRoutedEventCall ==>
              EndsWith(BuildWpfProperty(p, t, o, defVal, readOnly, h)[RegistrationIndex(readOnly) + 1],
                       "o.On" + p + "Changed(e))" + "));")
  {
    DeclarationPrefix(p, t, o, defVal, readOnly, h);
    DeclarationLines(p, t, o, defVal, readOnly, h);
    MetadataLineCallback(p, o, defVal, h);
  }

  /** The declarations the handler fragments contribute appear in the output. */
  lemma FragmentsInOutput(p: string, t: string, o: string, defVal: NullableString, readOnly: bool,
                          h: WpfPropertyChangeHandler)
    ensures var r := BuildWpfProperty(p, t, o, defVal, readOnly, h);
            (h.IsStandardStyle() ==> StaticCallbackHeader(p) in r)
            && (h.DeclaresPlainEvent() ==> NullableEventDeclaration(p) in r && EventDeclaration(p) in r)
            && (h.DeclaresRoutedEvent() ==> RoutedEventField(p) in r)
            && (h == PerformAsRoutedEventCall ==> InstanceCallbackHeader(p) in r)
  {
    BuildSplit(p, t, o, defVal, readOnly, h);
    FragmentDeclarations(h, p, t, o);
  }

  /**
    Every callback the metadata line names is declared in the same output:
    `On{p}Changed` for the `Standard` styles, the `{p}Changed` event for the
    `EventCall` styles (both branches of the `NETCOREAPP` split), the routed
    event field for the `RoutedEventCall` styles, and the instance
    `On{p}Changed` the `PerformAsRoutedEventCall` lambda calls.
   */
  lemma CallbackTargetsDeclared(p: string, t: string, o: string, defVal: NullableString, readOnly: bool,
                                h: WpfPropertyChangeHandler)
    ensures h != None ==> RegistrationIndex(readOnly) + 1 < |BuildWpfProperty(p, t, o, defVal, readOnly, h)|
    ensures var r := BuildWpfProperty(p, t, o, defVal, readOnly, h);
            h.IsStandardStyle() ==>
              EndsWith(r[RegistrationIndex(readOnly) + 1], ", On" + p + "Changed" + "));")
              && StaticCallbackHeader(p) in r
    ensures var r := BuildWpfProperty(p, t, o, defVal, readOnly, h);
            h.DeclaresPlainEvent() ==> NullableEventDeclaration(p) in r && EventDeclaration(p) in r
    ensures var r := BuildWpfProperty(p, t, o, defVal, readOnly, h);
            h.DeclaresRoutedEvent() ==> RoutedEventField(p) in r
    ensures var r := BuildWpfProperty(p, t, o, defVal, readOnly, h);
            h == PerformAsEventCall ==>
              EndsWith(r[RegistrationIndex(readOnly) + 1], "o." + p + "Changed?." + "Invoke(o, e))" + "));")
              && NullableEventDeclaration(p) in r && EventDeclaration(p) in r
    ensures var r := BuildWpfProperty(p, t, o, defVal, readOnly, h);
            h == PerformAsRoutedEventCall ==>
              EndsWith(r[RegistrationIndex(readOnly) + 1], "o.On" + p + "Changed(e))" + "));")
              && InstanceCallbackHeader(p) in r
  {
    MetadataNamesCallback(p, t, o, defVal, readOnly, h);
    FragmentsInOutput(p, t, o, defVal, readOnly, h);
  }
}
