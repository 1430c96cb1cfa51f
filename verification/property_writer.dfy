/**
  The `TextWriter` twins of the builders: each writes into a writer that may
  already hold text, and writes exactly the lines its string-returning twin
  returns.
 */
module PropertyWriter {
  import opened Text
  import opened TextSink
  import opened ChangeHandlers
  import opened WpfProperty
  import opened AvaloniaProperty

  /** `WriteLine` of each of `ls`, in order. */
  method WriteLines(w: Writer, ls: seq<string>) returns (r: Writer)
    ensures r == Emit(w, ls)
  {
    r := w;
    var i := 0;
    while i < |ls|
      invariant 0 <= i <= |ls|
      invariant Emit(r, ls[i..]) == Emit(w, ls)
    {
      assert ls[i..][0] == ls[i] && ls[i..][1..] == ls[i + 1..];
      r := WriteLine(r, ls[i]);
      i := i + 1;
    }
  }

  /**
    The local `GeneratePropertyChangedEvent`, one `WriteLine` per line as the
    source writes them; together they write the block the string version
    appends.
   */
  method WritePropertyChangedEvent(w: Writer, p: string) returns (r: Writer)
    ensures r == Emit(w, PropertyChangedEvent(p))
  {
    r := WriteLine(w, "");
    ghost var start := r;
    r := WriteLine(r, "/// <summary>");
    r := WriteLine(r, "/// Raised when the " + "<see cref=\"" + p + "\"/> property " + "is changed.");
    r := WriteLine(r, "/// </summary>");
    r := WriteLine(r, "#if NETCOREAPP");
    r := WriteLine(r, "    public event " + "DependencyPropertyChangedEventHandler? " + p + "Changed;");
    r := WriteLine(r, "#else");
    r := WriteLine(r, "    public event " + "DependencyPropertyChangedEventHandler " + p + "Changed;");
    r := WriteLine(r, "#endif");
    EmitFirstLine(w, PropertyChangedEvent(p));
    assert r.lines == start.lines + PropertyChangedEvent(p)[1..];
  }

  /** The first half of the local `GenerateRoutedPropertyChangedEvent`: the routed event's backing field. */
  method WriteRoutedEventRegistration(w: Writer, p: string, t: string, o: string) returns (r: Writer)
    ensures r == Emit(w, RoutedEventRegistration(p, t, o))
  {
    r := WriteLine(w, "/// <summary>");
    ghost var start := r;
    r := WriteLine(r, "/// The backing " + "routed event object " + "for <see cref=\"" + p
                      + "Changed\"/>. Please " + "see the related event " + "for details.");
    r := WriteLine(r, "/// </summary>");
    r := WriteLine(r, "public static " + "readonly RoutedEvent " + p + "ChangedEvent = " + "EventManager." + "RegisterRoutedEvent(");
    r := WriteLine(r, "    nameof(" + p + "Changed), " + "RoutingStrategy.Bubble, " + "typeof("
                      + "RoutedPropertyChangedEventHandler<" + t + ">), typeof(" + o + "));");
    EmitFirstLine(w, RoutedEventRegistration(p, t, o));
    assert r.lines == start.lines + RoutedEventRegistration(p, t, o)[1..];
  }

  /** The second half of the local `GenerateRoutedPropertyChangedEvent`: the event and its accessors. */
  method WriteRoutedEventAccessors(w: Writer, p: string, t: string) returns (r: Writer)
    ensures r == Emit(w, RoutedEventAccessors(p, t))
  {
    r := WriteLine(w, "/// <summary>");
    ghost var start := r;
    r := WriteLine(r, "/// Raised when the " + "<see cref=\"" + p + "\"/> property " + "is changed.");
    r := WriteLine(r, "/// </summary>");
    r := WriteLine(r, "public event " + "RoutedPropertyChangedEventHandler<" + t + "> " + p + "Changed");
    r := WriteLine(r, "{");
    r := WriteLine(r, "    add { " + "AddHandler(" + p + "ChangedEvent, " + "value); }");
    r := WriteLine(r, "    remove { " + "RemoveHandler(" + p + "ChangedEvent, " + "value); }");
    r := WriteLine(r, "}");
    EmitFirstLine(w, RoutedEventAccessors(p, t));
    assert r.lines == start.lines + RoutedEventAccessors(p, t)[1..];
  }

  /**
    The local `GenerateRoutedPropertyChangedEvent`: a blank line, the routed
    event's backing field, a blank line, the event; together they write the
    block the string version appends.
   */
  method WriteRoutedPropertyChangedEvent(w: Writer, p: string, t: string, o: string) returns (r: Writer)
    ensures r == Emit(w, RoutedPropertyChangedEvent(p, t, o))
  {
    var registration := RoutedEventRegistration(p, t, o);
    var accessors := RoutedEventAccessors(p, t);
    r := WriteLine(w, "");
    assert r == Emit(w, [""]);
    r := WriteRoutedEventRegistration(r, p, t, o);
    EmitAppend(w, [""], registration);
    ghost var field := r;
    r := WriteLine(r, "");
    assert r == Emit(field, [""]);
    EmitAppend(w, [""] + registration, [""]);
    r := WriteRoutedEventAccessors(r, p, t);
    EmitAppend(w, [""] + registration + [""], accessors);
  }

  /**
    The read-only branch of the writer's declaration: the property with a
    private setter that writes the key, a blank line, the key and its
    `RegisterReadOnly` call, left open when metadata follows.
   */
  method WriteKeyRegistration(w: Writer, p: string, t: string, o: string, needsMetadata: bool) returns (r: Writer)
    ensures r == Emit(w, Registration(p, t, o, true, needsMetadata))
  {
    var property := Getter(p, t) + "private set => " + "SetValue(" + p + "PropertyKey, value); }";
    var key := "private static " + "readonly " + "DependencyPropertyKey " + p + "PropertyKey";
    var register := "    = " + "DependencyProperty." + "RegisterReadOnly(" + "nameof(" + p + "), typeof(" + t + "), typeof(" + o + ")"
                    + (if needsMetadata then "," else ");");
    r := WriteLine(w, property);
    ghost var start := r;
    r := WriteLine(r, "");
    r := WriteLine(r, key);
    r := WriteLine(r, register);
    ghost var ls := Registration(p, t, o, true, needsMetadata);
    assert ls == [property, "", key, register];
    assert r == Emit(w, ls) by {
      EmitFirstLine(w, ls);
      assert r.lines == start.lines + ls[1..];
    }
  }

  /**
    The read-write branch of the writer's declaration: the property, a blank
    line, the XML comment, the public field and its `Register` call, left
    open when metadata follows.
   */
  method WritePropertyRegistration(w: Writer, p: string, t: string, o: string, needsMetadata: bool) returns (r: Writer)
    ensures r == Emit(w, Registration(p, t, o, false, needsMetadata))
  {
    var property := Getter(p, t) + "set => " + "SetValue(" + p + "Property, value); }";
    var field := "public static " + "DependencyProperty " + p + "Property";
    var register := "    = " + "DependencyProperty." + "Register(" + "nameof(" + p + "), typeof(" + t + "), typeof(" + o + ")"
                    + (if needsMetadata then "," else ");");
    r := WriteLine(w, property);
    ghost var start := r;
    r := WriteLine(r, "");
    r := WriteLine(r, DocComment(p));
    r := WriteLine(r, field);
    r := WriteLine(r, register);
    ghost var ls := Registration(p, t, o, false, needsMetadata);
    assert ls == [property, "", DocComment(p), field, register];
    assert r == Emit(w, ls) by {
      EmitFirstLine(w, ls);
      assert r.lines == start.lines + ls[1..];
    }
  }

  /** After a read-only registration, the writer adds the public dependency property taken from the key. */
  method WritePublicFromKey(w: Writer, p: string) returns (r: Writer)
    ensures r == Emit(w, PublicFromKey(p))
  {
    var field := "public static " + "readonly " + "DependencyProperty " + p + "Property = " + p + "PropertyKey." + "DependencyProperty;";
    r := WriteLine(w, "");
    ghost var start := r;
    r := WriteLine(r, DocComment(p));
    r := WriteLine(r, field);
    ghost var ls := PublicFromKey(p);
    assert ls == ["", DocComment(p), field];
    assert r == Emit(w, ls) by {
      EmitFirstLine(w, ls);
      assert r.lines == start.lines + ls[1..];
    }
  }

  /**
    The writer's metadata line: a missing default is replaced by `null`
    before the line is written, then the callback of the handler style
    completes the argument list.
   */
  method WriteMetadata(w: Writer, p: string, o: string, defVal: NullableString, h: WpfPropertyChangeHandler)
    returns (r: Writer)
    ensures r == Emit(w, [MetadataLine(p, o, defVal, h)])
  {
    var shown := defVal;
    if IsNullOrEmpty(shown) {
      shown := NonNull("null");
    }
    r := WriteLine(w, "    new " + "FrameworkPropertyMetadata(" + shown.value + PropertyChangedHandler(h, p, o) + "));");
    assert shown.value == MetadataDefault(defVal);
    assert [MetadataLine(p, o, defVal, h)][1..] == [];
  }

  /**
    The writer's declaration: the registration of either branch, the metadata
    line when a default or a handler asks for one (with `null` standing in for
    a missing default), and the public property taken from the key when
    read-only. It writes the declaration lines of the string version.
   */
  method WriteDeclaration(w: Writer, p: string, t: string, o: string, defVal: NullableString, readOnly: bool,
                          h: WpfPropertyChangeHandler) returns (r: Writer)
    ensures r == Emit(w, Declaration(p, t, o, defVal, readOnly, h))
  {
    var hasDefVal := !IsNullOrEmpty(defVal);
    var needsMetadata := hasDefVal || h != None;
    if readOnly {
      r := WriteKeyRegistration(w, p, t, o, needsMetadata);
    } else {
      r := WritePropertyRegistration(w, p, t, o, needsMetadata);
    }
    ghost var reg := Registration(p, t, o, readOnly, needsMetadata);
    ghost var meta: seq<string> := if needsMetadata then [MetadataLine(p, o, defVal, h)] else [];
    ghost var key: seq<string> := if readOnly then PublicFromKey(p) else [];
    if needsMetadata {
      r := WriteMetadata(r, p, o, defVal, h);
    }
    EmitAppend(w, reg, meta);
    if readOnly {
      r := WritePublicFromKey(r, p);
    }
    EmitAppend(w, reg + meta, key);
    assert Declaration(p, t, o, defVal, readOnly, h) == reg + meta + key;
  }

  /** The `StandardEventCall` branch's static callback, which invokes the event on `d`. */
  method WriteEventCallCallback(w: Writer, p: string, o: string) returns (r: Writer)
    ensures r == Emit(w, StaticHandler(p, o, EventCallBody(p)))
  {
    var header := "private static " + "void On" + p + "Changed(" + "DependencyObject d, " + "DependencyPropertyChangedEventArgs e)";
    var test := "    if (d is " + o + " o)";
    var call := "        d." + p + "Changed?." + "Invoke(o, e);";
    r := WriteLine(w, "");
    ghost var start := r;
    r := WriteLine(r, header);
    r := WriteLine(r, "{");
    r := WriteLine(r, test);
    r := WriteLine(r, "    {");
    r := WriteLine(r, call);
    r := WriteLine(r, "    }");
    r := WriteLine(r, "}");
    ghost var ls := StaticHandler(p, o, EventCallBody(p));
    assert ls == ["", header, "{", test, "    {", call, "    }", "}"];
    assert r == Emit(w, ls) by {
      EmitFirstLine(w, ls);
      assert r.lines == start.lines + ls[1..];
    }
  }

  /** The `Standard` branch's static callback, with a blank line for its body. */
  method WriteBlankCallback(w: Writer, p: string, o: string) returns (r: Writer)
    ensures r == Emit(w, StaticHandler(p, o, EmptyBody))
  {
    var header := "private static " + "void On" + p + "Changed(" + "DependencyObject d, " + "DependencyPropertyChangedEventArgs e)";
    var test := "    if (d is " + o + " o)";
    r := WriteLine(w, "");
    ghost var start := r;
    r := WriteLine(r, header);
    r := WriteLine(r, "{");
    r := WriteLine(r, test);
    r := WriteLine(r, "    {");
    r := WriteLine(r, "        ");
    r := WriteLine(r, "    }");
    r := WriteLine(r, "}");
    ghost var ls := StaticHandler(p, o, EmptyBody);
    assert ls == ["", header, "{", test, "    {", "        ", "    }", "}"];
    assert r == Emit(w, ls) by {
      EmitFirstLine(w, ls);
      assert r.lines == start.lines + ls[1..];
    }
  }

  /** The `StandardRoutedEventCall` branch's static callback, which raises the routed event on `o`. */
  method WriteRoutedEventCallCallback(w: Writer, p: string, t: string, o: string) returns (r: Writer)
    ensures r == Emit(w, StaticHandler(p, o, RoutedEventCallBody(p, t)))
  {
    var header := "private static " + "void On" + p + "Changed(" + "DependencyObject d, " + "DependencyPropertyChangedEventArgs e)";
    var test := "    if (d is " + o + " o)";
    var args := "        " + "RoutedPropertyChangedEventArgs<" + t + "> re = new " + "RoutedPropertyChangedEventArgs<" + t + ">";
    var values := "            ((" + t + ")e.OldValue, (" + t + ")e.NewValue, " + p + "ChangedEvent);";
    var source := "        " + "re.Source = o;";
    var raise := "        " + "o.RaiseEvent(re);";
    r := WriteLine(w, "");
    ghost var start := r;
    r := WriteLine(r, header);
    r := WriteLine(r, "{");
    r := WriteLine(r, test);
    r := WriteLine(r, "    {");
    r := WriteLine(r, args);
    r := WriteLine(r, values);
    r := WriteLine(r, source);
    r := WriteLine(r, raise);
    r := WriteLine(r, "    }");
    r := WriteLine(r, "}");
    ghost var ls := StaticHandler(p, o, RoutedEventCallBody(p, t));
    assert ls == ["", header, "{", test, "    {", args, values, source, raise, "    }", "}"];
    assert r == Emit(w, ls) by {
      EmitFirstLine(w, ls);
      assert r.lines == start.lines + ls[1..];
    }
  }

  /** The `PerformAsRoutedEventCall` branch's instance `On{p}Changed`, which raises the routed event on `this`. */
  method WriteInstanceRoutedHandler(w: Writer, p: string, t: string) returns (r: Writer)
    ensures r == Emit(w, InstanceRoutedHandler(p, t))
  {
    var header := "private void On" + p + "Changed(" + "DependencyPropertyChangedEventArgs e)";
    var args := "    " + "RoutedPropertyChangedEventArgs<" + t + "> re = new " + "RoutedPropertyChangedEventArgs<" + t + ">";
    var values := "        ((" + t + ")e.OldValue, (" + t + ")e.NewValue, " + p + "ChangedEvent);";
    r := WriteLine(w, "");
    ghost var start := r;
    r := WriteLine(r, header);
    r := WriteLine(r, "{");
    r := WriteLine(r, args);
    r := WriteLine(r, values);
    r := WriteLine(r, "    re.Source = this;");
    r := WriteLine(r, "    RaiseEvent(re);");
    r := WriteLine(r, "}");
    ghost var ls := InstanceRoutedHandler(p, t);
    assert ls == ["", header, "{", args, values, "    re.Source = this;", "    RaiseEvent(re);", "}"];
    assert r == Emit(w, ls) by {
      EmitFirstLine(w, ls);
      assert r.lines == start.lines + ls[1..];
    }
  }

  /** Rendering a single fragment. */
  lemma RenderOne(f: Fragment, p: string, t: string, o: string)
    ensures RenderFragments([f], p, t, o) == RenderFragment(f, p, t, o)
  {
    assert [f][1..] == [];
  }

  /** Rendering two fragments, one after the other. */
  lemma RenderTwo(f: Fragment, g: Fragment, p: string, t: string, o: string)
    ensures RenderFragments([f, g], p, t, o) == RenderFragment(f, p, t, o) + RenderFragment(g, p, t, o)
  {
    assert [f, g][1..] == [g];
    RenderOne(g, p, t, o);
  }

  /**
    The handler fragments. The source tests the styles in an `if`/`else if`
    chain; at most one branch applies, so a `match` writes the same lines.
   */
  method WriteHandlers(w: Writer, p: string, t: string, o: string, h: WpfPropertyChangeHandler) returns (r: Writer)
    ensures r == Emit(w, RenderFragments(Fragments(h), p, t, o))
  {
    match h {
      case StandardEventCall =>
        ghost var callback := StaticHandler(p, o, EventCallBody(p));
        r := WriteEventCallCallback(w, p, o);
        r := WritePropertyChangedEvent(r, p);
        RenderTwo(StaticCallback(InvokeEvent), PlainEvent, p, t, o);
        EmitAppend(w, callback, PropertyChangedEvent(p));
      case Standard =>
        r := WriteBlankCallback(w, p, o);
        RenderOne(StaticCallback(Blank), p, t, o);
      case StandardRoutedEventCall =>
        ghost var callback := StaticHandler(p, o, RoutedEventCallBody(p, t));
        r := WriteRoutedEventCallCallback(w, p, t, o);
        r := WriteRoutedPropertyChangedEvent(r, p, t, o);
        RenderTwo(StaticCallback(RaiseRoutedEvent), RoutedEvent, p, t, o);
        EmitAppend(w, callback, RoutedPropertyChangedEvent(p, t, o));
      case PerformAsEventCall =>
        r := WritePropertyChangedEvent(w, p);
        RenderOne(PlainEvent, p, t, o);
      case PerformAsRoutedEventCall =>
        ghost var event := RoutedPropertyChangedEvent(p, t, o);
        r := WriteRoutedPropertyChangedEvent(w, p, t, o);
        r := WriteInstanceRoutedHandler(r, p, t);
        RenderTwo(RoutedEvent, InstanceCallback, p, t, o);
        EmitAppend(w, event, InstanceRoutedHandler(p, t));
      case None =>
        r := w;
      case PerformAs =>
        r := w;
    }
  }

  /**
    The writer twin of `BuildWpfProperty`: it writes the lines the string
    version returns, the first one completing any text already pending.
   */
  method WriteWpfProperty(w: Writer, p: string, t: string, o: string, defVal: NullableString, readOnly: bool,
                          h: WpfPropertyChangeHandler) returns (r: Writer)
    ensures r == Emit(w, BuildWpfProperty(p, t, o, defVal, readOnly, h))
    ensures w.pending == "" ==> r == Writer(w.lines + BuildWpfProperty(p, t, o, defVal, readOnly, h), "")
  {
    r := WriteDeclaration(w, p, t, o, defVal, readOnly, h);
    r := WriteHandlers(r, p, t, o, h);
    EmitAppend(w, Declaration(p, t, o, defVal, readOnly, h), RenderFragments(Fragments(h), p, t, o));
    if w.pending == "" {
      EmitOnLineBoundary(w, BuildWpfProperty(p, t, o, defVal, readOnly, h));
    }
  }

  /**
    The writer twin of `BuildAvaloniaProperty`, one `WriteLine` per line as
    the source writes them: it writes the lines the string version returns.
   */
  method WriteAvaloniaProperty(w: Writer, p: string, t: string, o: string, defVal: NullableString) returns (r: Writer)
    ensures r == Emit(w, BuildAvaloniaProperty(p, t, o, defVal))
    ensures w.pending == "" ==> r == Writer(w.lines + BuildAvaloniaProperty(p, t, o, defVal), "")
  {
    var accessor := "public " + t + " " + p + " { get => GetValue(" + p + "Property); "
                    + "set => " + "SetValue(" + p + "Property, value); }";
    var comment := "/// <summary>The backing " + "styled property " + "for <see cref=\"" + p
                   + "\"/>. See the related " + "property for details." + "</summary>";
    var field := "public static " + "readonly " + "StyledProperty<" + t + "> " + p + "Property";
    var registration := "    = " + "AvaloniaProperty." + "Register<" + o + ", " + t + ">(nameof(" + p + ")"
                        + (if IsNullOrEmpty(defVal) then "" else "," + defVal.value) + ");";
    r := WriteLine(w, accessor);
    ghost var start := r;
    r := WriteLine(r, "");
    r := WriteLine(r, comment);
    r := WriteLine(r, field);
    r := WriteLine(r, registration);
    ghost var ls := BuildAvaloniaProperty(p, t, o, defVal);
    assert ls == [accessor, "", comment, field, registration];
    assert r == Emit(w, ls) by {
      EmitFirstLine(w, ls);
      assert r.lines == start.lines + ls[1..];
    }
    if w.pending == "" {
      EmitOnLineBoundary(w, ls);
    }
  }

  /** A `Write` completed by a `WriteLine` writes one line: the two texts joined. */
  method WriteThenWriteLine(w: Writer, s: string, e: string) returns (r: Writer)
    ensures r == WriteLine(w, s + e)
  {
    r := Write(w, s);
    r := WriteLine(r, e);
    assert w.pending + s + e == w.pending + (s + e);
  }

  /**
    The writer twin of `BuildAvaloniaDirectProperty`: the registration is
    written with `Write` and completed by the `WriteLine` of its closing text,
    giving the same last line as the string version.
   */
  method WriteAvaloniaDirectProperty(w: Writer, p: string, t: string, o: string, defVal: NullableString,
                                     fieldName: NullableString, readOnly: bool) returns (r: Writer)
    ensures r == Emit(w, BuildAvaloniaDirectProperty(p, t, o, defVal, fieldName, readOnly))
    ensures w.pending == "" ==> r == Writer(w.lines + BuildAvaloniaDirectProperty(p, t, o, defVal, fieldName, readOnly), "")
  {
    var f := FieldName(p, fieldName);
    var ls := BuildAvaloniaDirectProperty(p, t, o, defVal, fieldName, readOnly);
    var head := [DirectField(t, f, defVal), "", DirectAccessor(p, t, f, readOnly), "",
                 DirectDocComment(p), DirectPropertyField(p, t, o)];
    r := WriteLines(w, head);
    if !IsNullOrEmpty(defVal) {
      r := WriteThenWriteLine(r, DirectRegistration(p, t, o, readOnly), ", unsetValue: " + defVal.value + ");");
    } else {
      r := WriteThenWriteLine(r, DirectRegistration(p, t, o, readOnly), ");");
    }
    assert ls == head + [ls[6]];
    EmitAppend(w, head, [ls[6]]);
    if w.pending == "" {
      EmitOnLineBoundary(w, ls);
    }
  }
}
