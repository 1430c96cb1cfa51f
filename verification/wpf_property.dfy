/**
  The string-returning `BuildWpfProperty`: the C# text of a WPF
  DependencyProperty, one element per generated line.

  Template text longer than about twenty characters is written as several
  literals joined with `+` (the text is unchanged): the verifier's cost for a
  string literal grows with the square of its length.
 */
module WpfProperty {
  import opened Text
  import opened ChangeHandlers

  /** A default value was supplied: neither null nor empty. */
  predicate HasDefault(defVal: NullableString) {
    !IsNullOrEmpty(defVal)
  }

  /** A `FrameworkPropertyMetadata` line is needed: there is a default value or a change handler. */
  predicate NeedsMetadata(defVal: NullableString, h: WpfPropertyChangeHandler) {
    HasDefault(defVal) || h != None
  }

  /** The XML comment placed above the public dependency property. */
  function DocComment(p: string): string {
    "/// <summary>The backing " + "dependency property " + "for <see cref=\"" + p
    + "\"/>. See the related " + "property for details." + "</summary>"
  }

  /** The start of the C# property line, up to its setter: the getter reads `{p}Property`. */
  function Getter(p: string, t: string): string {
    "public " + t + " " + p + " { get => (" + t + ")GetValue(" + p + "Property); "
  }

  /**
    The C# property and the registration statement; the registration is left
    open with a `,` when a metadata line follows and closed with `);` otherwise.
   */
  function Registration(p: string, t: string, o: string, readOnly: bool, needsMetadata: bool): (r: seq<string>)
    ensures |r| == if readOnly then 4 else 5
    ensures r[1] == ""
  {
    var close := if needsMetadata then "," else ");";
    if readOnly then
      [ Getter(p, t) + "private set => " + "SetValue(" + p + "PropertyKey, value); }",
        "",
        "private static " + "readonly " + "DependencyPropertyKey " + p + "PropertyKey",
        "    = " + "DependencyProperty." + "RegisterReadOnly(" + "nameof(" + p + "), typeof(" + t + "), typeof(" + o + ")" + close ]
    else
      [ Getter(p, t) + "set => " + "SetValue(" + p + "Property, value); }",
        "",
        DocComment(p),
        "public static " + "DependencyProperty " + p + "Property",
        "    = " + "DependencyProperty." + "Register(" + "nameof(" + p + "), typeof(" + t + "), typeof(" + o + ")" + close ]
  }

  /** The default value written into the metadata: the supplied one, or `null` when there is none. */
  function MetadataDefault(defVal: NullableString): (r: string)
    ensures |r| > 0
    ensures HasDefault(defVal) ==> r == defVal.value
  {
    if IsNullOrEmpty(defVal) then "null" else defVal.value
  }

  /** The opening of the `PerformAs` lambda, up to its body. */
  function PerformAsLambda(o: string): string {
    ", (d, e) => " + "d.PerformAs<" + o + ">((o) => "
  }

  /**
    The callback that completes the metadata's argument list (the local
    `GeneratePropertyChangedHandler`): nothing for `None`, the static
    `On{p}Changed` for the standard styles, and a `PerformAs` lambda whose
    body is empty, invokes the `{p}Changed` event, or calls the instance
    `On{p}Changed`.
   */
  function PropertyChangedHandler(h: WpfPropertyChangeHandler, p: string, o: string): (r: string)
    ensures r == "" <==> h == None
    ensures h.IsStandardStyle() ==> r == ", On" + p + "Changed"
    ensures h.IsPerformAsStyle() ==> StartsWith(r, PerformAsLambda(o))
    ensures h == PerformAs ==> r == PerformAsLambda(o) + ")"
    ensures h == PerformAsEventCall ==> EndsWith(r, "o." + p + "Changed?." + "Invoke(o, e))")
    ensures h == PerformAsRoutedEventCall ==> EndsWith(r, "o.On" + p + "Changed(e))")
    ensures h == PerformAsEventCall ==> r == PerformAsLambda(o) + ("o." + p + "Changed?." + "Invoke(o, e))")
    ensures h == PerformAsRoutedEventCall ==> r == PerformAsLambda(o) + ("o.On" + p + "Changed(e))")
  {
    match h
    case None => ""
    case Standard => ", On" + p + "Changed"
    case StandardEventCall => ", On" + p + "Changed"
    case StandardRoutedEventCall => ", On" + p + "Changed"
    case PerformAs => PerformAsLambda(o) + ")"
    case PerformAsEventCall => PerformAsLambda(o) + ("o." + p + "Changed?." + "Invoke(o, e))")
    case PerformAsRoutedEventCall => PerformAsLambda(o) + ("o.On" + p + "Changed(e))")
  }

  function MetadataLine(p: string, o: string, defVal: NullableString, h: WpfPropertyChangeHandler): string {
    "    new " + "FrameworkPropertyMetadata(" + MetadataDefault(defVal) + PropertyChangedHandler(h, p, o) + "));"
  }

  /** After a read-only registration: the public dependency property taken from the key. */
  function PublicFromKey(p: string): (r: seq<string>)
    ensures |r| == 3
  {
    [ "",
      DocComment(p),
      "public static " + "readonly " + "DependencyProperty " + p + "Property = " + p + "PropertyKey." + "DependencyProperty;" ]
  }

  /** A static `On{p}Changed` callback that runs `body` once `d` matches the owner type. */
  function StaticHandler(p: string, o: string, body: seq<string>): (r: seq<string>)
    ensures |r| == |body| + 7 && r[0] == ""
  {
    [ "",
      "private static " + "void On" + p + "Changed(" + "DependencyObject d, " + "DependencyPropertyChangedEventArgs e)",
      "{",
      "    if (d is " + o + " o)",
      "    {" ]
    + body
    + [ "    }",
        "}" ]
  }

  /** The body of the `Standard` callback: a blank line to fill in by hand. */
  const EmptyBody: seq<string> := ["        "]

  /** The body of the `StandardEventCall` callback; it invokes the event on `d`, not on `o`. */
  function EventCallBody(p: string): (r: seq<string>)
    ensures |r| == 1
  {
    ["        d." + p + "Changed?." + "Invoke(o, e);"]
  }

  /** The body of the `StandardRoutedEventCall` callback. */
  function RoutedEventCallBody(p: string, t: string): (r: seq<string>)
    ensures |r| == 4
  {
    [ "        " + "RoutedPropertyChangedEventArgs<" + t + "> re = new " + "RoutedPropertyChangedEventArgs<" + t + ">",
      "            ((" + t + ")e.OldValue, (" + t + ")e.NewValue, " + p + "ChangedEvent);",
      "        " + "re.Source = o;",
      "        " + "o.RaiseEvent(re);" ]
  }

  /** The plain `{p}Changed` event (the local `GeneratePropertyChangedEvent`). */
  function PropertyChangedEvent(p: string): (r: seq<string>)
    ensures |r| == 9 && r[0] == ""
  {
    [ "",
      "/// <summary>",
      "/// Raised when the " + "<see cref=\"" + p + "\"/> property " + "is changed.",
      "/// </summary>",
      "#if NETCOREAPP",
      "    public event " + "DependencyPropertyChangedEventHandler? " + p + "Changed;",
      "#else",
      "    public event " + "DependencyPropertyChangedEventHandler " + p + "Changed;",
      "#endif" ]
  }

  /** The backing field of the routed `{p}ChangedEvent`, registered with `EventManager`, under its doc comment. */
  function RoutedEventRegistration(p: string, t: string, o: string): (r: seq<string>)
    ensures |r| == 5
  {
    [ "/// <summary>",
      "/// The backing " + "routed event object " + "for <see cref=\"" + p
      + "Changed\"/>. Please " + "see the related event " + "for details.",
      "/// </summary>",
      "public static " + "readonly RoutedEvent " + p + "ChangedEvent = " + "EventManager." + "RegisterRoutedEvent(",
      "    nameof(" + p + "Changed), " + "RoutingStrategy.Bubble, " + "typeof(" + "RoutedPropertyChangedEventHandler<" + t + ">), typeof(" + o + "));" ]
  }

  /** The `{p}Changed` event whose accessors add and remove handlers of the routed event, under its doc comment. */
  function RoutedEventAccessors(p: string, t: string): (r: seq<string>)
    ensures |r| == 8
  {
    [ "/// <summary>",
      "/// Raised when the " + "<see cref=\"" + p + "\"/> property " + "is changed.",
      "/// </summary>",
      "public event " + "RoutedPropertyChangedEventHandler<" + t + "> " + p + "Changed",
      "{",
      "    add { " + "AddHandler(" + p + "ChangedEvent, " + "value); }",
      "    remove { " + "RemoveHandler(" + p + "ChangedEvent, " + "value); }",
      "}" ]
  }

  /** The routed `{p}Changed` event and its accessors (the local `GenerateRoutedPropertyChangedEvent`). */
  function RoutedPropertyChangedEvent(p: string, t: string, o: string): (r: seq<string>)
    ensures |r| == 15 && r[0] == ""
  {
    [""] + RoutedEventRegistration(p, t, o) + [""] + RoutedEventAccessors(p, t)
  }

  /** The instance `On{p}Changed` that the `PerformAsRoutedEventCall` lambda calls. */
  function InstanceRoutedHandler(p: string, t: string): (r: seq<string>)
    ensures |r| == 8 && r[0] == ""
  {
    [ "",
      "private void On" + p + "Changed(" + "DependencyPropertyChangedEventArgs e)",
      "{",
      "    " + "RoutedPropertyChangedEventArgs<" + t + "> re = new " + "RoutedPropertyChangedEventArgs<" + t + ">",
      "        ((" + t + ")e.OldValue, (" + t + ")e.NewValue, " + p + "ChangedEvent);",
      "    re.Source = this;",
      "    RaiseEvent(re);",
      "}" ]
  }

  /** What the static `On{p}Changed` callback does once `d` is known to be the owner. */
  datatype CallbackBody =
    | Blank             // a blank line to fill in by hand
    | InvokeEvent       // invokes the plain `{p}Changed` event
    | RaiseRoutedEvent  // raises the routed `{p}ChangedEvent`

  /** The blocks that can follow the property. */
  datatype Fragment =
    | StaticCallback(body: CallbackBody)  // `private static void On{p}Changed(DependencyObject d, ...)`
    | PlainEvent                          // the local `GeneratePropertyChangedEvent`
    | RoutedEvent                         // the local `GenerateRoutedPropertyChangedEvent`
    | InstanceCallback                    // `private void On{p}Changed(DependencyPropertyChangedEventArgs e)`

  /** The blocks appended after the property for handler style `h`, in output order. */
  function Fragments(h: WpfPropertyChangeHandler): seq<Fragment> {
    match h
    case None => []
    case Standard => [StaticCallback(Blank)]
    case StandardEventCall => [StaticCallback(InvokeEvent), PlainEvent]
    case StandardRoutedEventCall => [StaticCallback(RaiseRoutedEvent), RoutedEvent]
    case PerformAs => []
    case PerformAsEventCall => [PlainEvent]
    case PerformAsRoutedEventCall => [RoutedEvent, InstanceCallback]
  }

  function RenderBody(b: CallbackBody, p: string, t: string): (r: seq<string>)
    ensures |r| == match b case Blank => 1 case InvokeEvent => 1 case RaiseRoutedEvent => 4
  {
    match b
    case Blank => EmptyBody
    case InvokeEvent => EventCallBody(p)
    case RaiseRoutedEvent => RoutedEventCallBody(p, t)
  }

  function RenderFragment(f: Fragment, p: string, t: string, o: string): (r: seq<string>)
    ensures |r| > 0 && r[0] == ""
  {
    match f
    case StaticCallback(b) => StaticHandler(p, o, RenderBody(b, p, t))
    case PlainEvent => PropertyChangedEvent(p)
    case RoutedEvent => RoutedPropertyChangedEvent(p, t, o)
    case InstanceCallback => InstanceRoutedHandler(p, t)
  }

  /** The lines of `fs`, block after block. */
  function RenderFragments(fs: seq<Fragment>, p: string, t: string, o: string): seq<string>
    decreases |fs|
  {
    if |fs| == 0 then [] else RenderFragment(fs[0], p, t, o) + RenderFragments(fs[1..], p, t, o)
  }

  /** The lines before the handler fragments: the property, its registration, metadata and key. */
  function Declaration(p: string, t: string, o: string, defVal: NullableString, readOnly: bool,
                       h: WpfPropertyChangeHandler): (r: seq<string>)
    ensures |r| == (if readOnly then 7 else 5) + (if NeedsMetadata(defVal, h) then 1 else 0)
  {
    var needsMetadata := NeedsMetadata(defVal, h);
    Registration(p, t, o, readOnly, needsMetadata)
    + (if needsMetadata then [MetadataLine(p, o, defVal, h)] else [])
    + (if readOnly then PublicFromKey(p) else [])
  }

  /**
    `BuildWpfProperty(propName, typeName, ownerName, defVal, readOnly,
    handleValueChanges)`: the registration, the metadata line when one is
    needed, the public property taken from the key when read-only, then the
    handler fragments.
   */
  function BuildWpfProperty(p: string, t: string, o: string, defVal: NullableString, readOnly: bool,
                            h: WpfPropertyChangeHandler): seq<string>
  {
    Declaration(p, t, o, defVal, readOnly, h) + RenderFragments(Fragments(h), p, t, o)
  }
}
