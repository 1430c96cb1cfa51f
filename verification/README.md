# PropertyBuilder core in Dafny

PropertyBuilder writes boilerplate C# for UI-framework properties. This project
models its template engine, `PropertyBuilder.cs`, which has three families of
output:

- **WPF dependency property.** `BuildWpfProperty` writes:
  - the C# property;
  - a `DependencyProperty` registration, or a `DependencyPropertyKey` plus a
    public property taken from the key when the property is read-only;
  - a `FrameworkPropertyMetadata` line when there is a default value or a
    change handler;
  - the handler fragments chosen by the seven-valued
    `WpfPropertyChangeHandler`: static callbacks, plain events, routed events
    and the instance callback used by the `PerformAs` lambda.
- **Avalonia styled property.** `BuildAvaloniaProperty` writes the property and
  an `AvaloniaProperty.Register` call. The call gets `,{defVal}` when a default
  value is supplied.
- **Avalonia direct property.** `BuildAvaloniaDirectProperty` writes:
  - a backing field, whose name is derived from the property name unless one
    is given;
  - a property that calls `SetAndRaise`;
  - an `AvaloniaProperty.RegisterDirect` call. The setter lambda is omitted
    when the property is read-only, and an `unsetValue` is added when there
    is a default.

Each builder has a string-returning version and a `TextWriter` version.

## How the output is represented

Generated text is a `seq<string>` with one element per line. Each
`AppendLine`/`WriteLine` call produces one element. When an `Append`/`Write` is
followed by an `AppendLine`/`WriteLine`, the two together produce one element.

The string-returning builders are pure functions:
- `WpfProperty.BuildWpfProperty`
- `AvaloniaProperty.BuildAvaloniaProperty`
- `AvaloniaProperty.BuildAvaloniaDirectProperty`

The `TextWriter` versions are methods in `PropertyWriter`:
- They run over a line-oriented writer model, `TextSink.Writer`, which holds the
  completed lines and the text pending on the current line.
- Each is proved to write exactly the lines of its string twin.
- The writer may already hold pending text. The first line then completes it.

The WPF output is described structurally. `WpfProperty.Fragments(h)` lists the
blocks that follow the declaration for handler style `h`, and
`RenderFragments` turns that list into lines. The lemmas in `WpfFacts` and
`AvaloniaFacts` state the promised properties about the concrete output lines:
- metadata gating;
- the read-only toggle;
- which callback each style names and declares;
- which fragments each style emits;
- field-name derivation;
- the effects of the read-only flag and the default value on direct properties.

Long template literals are written as several `+`-joined pieces. The joined
text is unchanged.

### Behaviour kept exactly as the code has it

These quirks are kept because the model follows the code, not the intent.

- The `StandardEventCall` callback body invokes `d.{p}Changed?.Invoke(o, e);`.
  It uses `d`, the `DependencyObject`, not `o`, the owner its `is` pattern has just bound
  (`PropertyBuilder.cs:82`, `:259`). See `WpfProperty.EventCallBody`.
- A read-write direct property's line reads `get => _{f};  set => …`, with two
  spaces. The visibility slot is the empty string between `"; "` and
  `" set"` (`:445`, `:494`). `AvaloniaFacts.DirectSetterVisibility` states it.
- An empty property name forces the field name `propertyField`, even when a
  field name was supplied (`:433-440`).
- A non-null but empty field name is used as it is, giving a field named `_`.
  This is because `??=` only replaces null.
- Both `#if NETCOREAPP` event variants are emitted as plain text lines.

### What each handler style adds

- `PerformAs` adds no fragment: its lambda has an empty body.
- `PerformAsEventCall` adds only the `{p}Changed` event, which its lambda invokes.
- `PerformAsRoutedEventCall` adds the routed event and the instance
  `On{p}Changed` its lambda calls.
- A read-only direct property gets a `private` setter, as the source's
  parameter documentation says (`:422`, `:470`). Only the registration's
  setter lambda is dropped.

## Model

All paths are in `PropertyBuilderCore/PropertyBuilder.cs`.

| member | source | states |
|---|---|---|
| WpfProperty.Registration | PropertyBuilderCore/PropertyBuilder.cs:31-51 | A read-only property gets four lines: the property, a blank line, the key and the `RegisterReadOnly` call. A read-write one gets five: the property, a blank line, the comment, the public field and the `Register` call. |
| WpfProperty.MetadataDefault | PropertyBuilderCore/PropertyBuilder.cs:56-62 | The metadata's default slot is never empty. It holds the supplied default whenever one was given. |
| WpfProperty.PropertyChangedHandler | PropertyBuilderCore/PropertyBuilder.cs:137-150 | The metadata callback text is empty exactly for `None`. The three standard styles name `On{p}Changed`. The three `PerformAs` styles open the `(d, e) => d.PerformAs<{o}>((o) => ` lambda. The whole text is given for each: an empty body for `PerformAs`, `o.{p}Changed?.Invoke(o, e))` for `PerformAsEventCall`, and `o.On{p}Changed(e))` for `PerformAsRoutedEventCall`. |
| WpfProperty.Declaration | PropertyBuilderCore/PropertyBuilder.cs:31-71 | The lines before the handler fragments: 7 when read-only and 5 otherwise, plus one when metadata is needed. |
| WpfFacts.FragmentsPerStyle | PropertyBuilderCore/PropertyBuilder.cs:74-134 | For each style, the blocks appended after the property, as iffs: a static callback exactly for the three standard styles, with the body matching the style; a plain event exactly for `StandardEventCall`/`PerformAsEventCall`; a routed event exactly for the two routed styles; an instance callback exactly for `PerformAsRoutedEventCall`; nothing at all exactly for `None`/`PerformAs`. No block appears twice. |
| WpfFacts.OutputLength | PropertyBuilderCore/PropertyBuilder.cs:22-189 | The number of lines of `BuildWpfProperty`, by read-only flag, metadata need and handler style. |
| WpfFacts.RegistrationClose | PropertyBuilderCore/PropertyBuilder.cs:39-50 | The registration call ends in `,` exactly when metadata follows, and in `);` exactly when it does not. |
| WpfFacts.MetadataLineOpen | PropertyBuilderCore/PropertyBuilder.cs:56-62 | The metadata line opens `new FrameworkPropertyMetadata(` with the supplied default, or `null` when there is none, and closes with `));`. |
| WpfFacts.MetadataLineEnding | PropertyBuilderCore/PropertyBuilder.cs:56-62 | Whatever text the callback ends with, the metadata line ends with it, followed by `));`. |
| WpfFacts.MetadataLineCallback | PropertyBuilderCore/PropertyBuilder.cs:137-150 | For the standard styles the metadata line ends by naming `On{p}Changed`. For the `PerformAs` styles the lambda follows the default directly. The line then ends with the empty lambda `((o) => )` for `PerformAs`, the invocation `o.{p}Changed?.Invoke(o, e))` for `PerformAsEventCall`, and the call `o.On{p}Changed(e))` for `PerformAsRoutedEventCall`. |
| WpfFacts.MetadataGating | PropertyBuilderCore/PropertyBuilder.cs:26-63 | With a default value or a handler, the registration line ends in `,` and the next line is the metadata line with the default or `null`. Otherwise the registration ends in `);` and the output ends with it, or with the three-line public property when read-only. |
| WpfFacts.AccessorLine | PropertyBuilderCore/PropertyBuilder.cs:34-44 | The property line is the shared getter. A `private set` writing `{p}PropertyKey` follows when read-only, and a public `set` writing `{p}Property` follows otherwise. |
| WpfFacts.KeyRegistrationLines | PropertyBuilderCore/PropertyBuilder.cs:38-39 | A read-only registration declares the private `{p}PropertyKey` and calls `RegisterReadOnly(nameof({p})`. |
| WpfFacts.PropertyRegistrationLines | PropertyBuilderCore/PropertyBuilder.cs:48-50 | A read-write registration has the XML comment, the public `{p}Property` field and a `Register(nameof({p})` call. |
| WpfFacts.ReadOnlyToggle | PropertyBuilderCore/PropertyBuilder.cs:31-71 | The read-only flag exchanges the public setter for a private one that writes the key. It replaces the public registration with the key and `RegisterReadOnly`, and adds the public property taken from the key after the metadata. |
| WpfFacts.StandardFragments | PropertyBuilderCore/PropertyBuilder.cs:105-116 | `Standard` appends 8 lines. Its second line is the header of the static `On{p}Changed` callback. |
| WpfFacts.StandardEventCallFragments | PropertyBuilderCore/PropertyBuilder.cs:74-87 | `StandardEventCall` appends 17 lines. The static callback header is line 1 of the block, the nullable `{p}Changed` event line 13 and the .NET Framework event line 15. |
| WpfFacts.StandardRoutedEventCallFragments | PropertyBuilderCore/PropertyBuilder.cs:88-104 | `StandardRoutedEventCall` appends 26 lines. The static callback header is line 1 of the block and the `{p}ChangedEvent` routed-event field is line 15. |
| WpfFacts.PerformAsEventCallFragments | PropertyBuilderCore/PropertyBuilder.cs:117-120 | `PerformAsEventCall` appends the 9-line event block. The nullable event is line 5 of the block and the .NET Framework event line 7. |
| WpfFacts.PerformAsRoutedEventCallFragments | PropertyBuilderCore/PropertyBuilder.cs:121-134 | `PerformAsRoutedEventCall` appends 23 lines. The routed event field is line 4 of the block and the instance `On{p}Changed(DependencyPropertyChangedEventArgs e)` header is line 16. |
| WpfFacts.FragmentDeclarations | PropertyBuilderCore/PropertyBuilder.cs:152-188 | For every style, the fragment lines have the promised count. They contain the callback header, the event declarations or the routed-event field exactly as the style demands. |
| WpfFacts.MetadataNamesCallback | PropertyBuilderCore/PropertyBuilder.cs:56-62 | With a handler, the line after the registration ends with the callback of the style. That is `On{p}Changed` for the standard styles. For the three `PerformAs` styles it is the empty lambda, the event invocation or the instance call. |
| WpfFacts.FragmentsInOutput | PropertyBuilderCore/PropertyBuilder.cs:74-134 | The declarations each style promises appear among the output lines. |
| WpfFacts.CallbackTargetsDeclared | PropertyBuilderCore/PropertyBuilder.cs:56-134 | Whatever the metadata names is declared in the same output. A standard style's `On{p}Changed` is declared as the static callback. `PerformAsEventCall`'s `o.{p}Changed?.Invoke(o, e)` is backed by both variants of the `{p}Changed` event. `PerformAsRoutedEventCall`'s `o.On{p}Changed(e)` is declared as the instance callback. The event styles declare their events. |
| AvaloniaProperty.StyledDefaultArgument | PropertyBuilderCore/PropertyBuilder.cs:386 | The default argument text is empty exactly when no default value (null or empty) was supplied. |
| AvaloniaProperty.BuildAvaloniaProperty | PropertyBuilderCore/PropertyBuilder.cs:379-389 | A styled property is five lines, the second of them blank. |
| AvaloniaFacts.StyledDefault | PropertyBuilderCore/PropertyBuilder.cs:379-389 | The default value changes only the registration line. That line is the registration closed with `);` without a default, and with `,{defVal});` with one. |
| AvaloniaProperty.LowerAscii | PropertyBuilderCore/PropertyBuilder.cs:439 | The lower-cased character is never an upper-case ASCII letter. For an upper-case ASCII letter the code point rises by 32; every other character is kept. |
| AvaloniaProperty.FieldName | PropertyBuilderCore/PropertyBuilder.cs:433-440 | With an empty property name, the field name is `propertyField`. Otherwise it is the supplied name, even an empty one, or the property name with its first character lower-cased and the rest unchanged. |
| AvaloniaFacts.GeneratedFieldName | PropertyBuilderCore/PropertyBuilder.cs:439 | A derived field name never starts with an upper-case ASCII letter. It equals the property name exactly when the property name does not start with one. |
| AvaloniaProperty.FieldInitializer | PropertyBuilderCore/PropertyBuilder.cs:443 | The field is left uninitialized (`;`) exactly when no default was supplied. |
| AvaloniaProperty.DirectClose | PropertyBuilderCore/PropertyBuilder.cs:450-457 | The registration closes with a bare `);` exactly when no default was supplied. |
| AvaloniaProperty.BuildAvaloniaDirectProperty | PropertyBuilderCore/PropertyBuilder.cs:430-460 | A direct property is seven lines, the second and fourth of them blank. |
| AvaloniaFacts.DirectAccessorField | PropertyBuilderCore/PropertyBuilder.cs:445 | The direct property line starts with the getter reading `_{f}` and ends by passing `_{f}` to `SetAndRaise`. |
| AvaloniaFacts.DirectFieldUse | PropertyBuilderCore/PropertyBuilder.cs:443-445 | The field `_{f}` declared on the first line is the one the property line reads and sets. |
| AvaloniaFacts.DirectSetterVisibility | PropertyBuilderCore/PropertyBuilder.cs:445 | The setter follows the getter as `private set` when read-only. Otherwise `" set"` follows the getter's `"; "` directly, leaving two spaces. |
| AvaloniaFacts.DirectReadOnlyKeeps | PropertyBuilderCore/PropertyBuilder.cs:443-449 | The read-only flag leaves the field, the comment and the property field unchanged. |
| AvaloniaFacts.DirectReadOnlySetter | PropertyBuilderCore/PropertyBuilder.cs:445 | In the output, the property's setter is private exactly when read-only. |
| AvaloniaFacts.DirectReadOnlyRegistration | PropertyBuilderCore/PropertyBuilder.cs:449-457 | A read-only registration passes only the getter lambda. A read-write one adds `(s, v) => s.{p} = v`. |
| AvaloniaFacts.DirectDefaultKeeps | PropertyBuilderCore/PropertyBuilder.cs:443-457 | The default value leaves the property line, the comment and the property field unchanged. |
| AvaloniaFacts.DirectWithoutDefault | PropertyBuilderCore/PropertyBuilder.cs:443-457 | Without a default, the field ends in `;` right after its name and the registration closes with `);`. |
| AvaloniaFacts.DirectWithDefault | PropertyBuilderCore/PropertyBuilder.cs:443-457 | With a default, the field is initialized to it and the registration ends with `, unsetValue: {defVal});`. |
| PropertyWriter.WriteWpfProperty | PropertyBuilderCore/PropertyBuilder.cs:201-363 | The writer version writes exactly the lines of the string version. On a line boundary, that is the string version's lines appended. |
| PropertyWriter.WriteKeyRegistration | PropertyBuilderCore/PropertyBuilder.cs:211-216 | The writer's own read-only branch (property with the private key setter, blank line, key, `RegisterReadOnly` call) writes the string version's registration lines. |
| PropertyWriter.WritePropertyRegistration | PropertyBuilderCore/PropertyBuilder.cs:221-227 | The writer's own read-write branch (property, blank line, comment, field, `Register` call) writes the string version's registration lines. |
| PropertyWriter.WriteMetadata | PropertyBuilderCore/PropertyBuilder.cs:233-240 | The writer's metadata `WriteLine`, after replacing a missing default by `null`, writes the string version's metadata line. |
| PropertyWriter.WritePublicFromKey | PropertyBuilderCore/PropertyBuilder.cs:242-248 | The writer's own three lines for the public property taken from the key are the string version's. |
| PropertyWriter.WriteDeclaration | PropertyBuilderCore/PropertyBuilder.cs:204-248 | The writer's branches on `readOnly` and `needsMetadata`, each writing its own lines, together write the declaration lines of the string version. |
| PropertyWriter.WriteEventCallCallback | PropertyBuilderCore/PropertyBuilder.cs:254-261 | The writer's own eight lines of the `StandardEventCall` static callback are the string version's. |
| PropertyWriter.WriteBlankCallback | PropertyBuilderCore/PropertyBuilder.cs:267-274 | The writer's own eight lines of the `Standard` static callback are the string version's. |
| PropertyWriter.WriteRoutedEventCallCallback | PropertyBuilderCore/PropertyBuilder.cs:279-289 | The writer's own eleven lines of the `StandardRoutedEventCall` static callback are the string version's. |
| PropertyWriter.WriteInstanceRoutedHandler | PropertyBuilderCore/PropertyBuilder.cs:301-308 | The writer's own eight lines of the instance `On{p}Changed` are the string version's. |
| PropertyWriter.WriteHandlers | PropertyBuilderCore/PropertyBuilder.cs:251-309 | The writer's handler chain, built from its own callback and event blocks, writes exactly the fragments the string version's table lists, for every style. |
| PropertyWriter.WritePropertyChangedEvent | PropertyBuilderCore/PropertyBuilder.cs:327-342 | The writer's own nine `WriteLine` calls write the same block that the string version's event generator appends. |
| PropertyWriter.WriteRoutedEventRegistration | PropertyBuilderCore/PropertyBuilder.cs:348-352 | The writer's own `WriteLine` calls for the routed event's comment and field write the same lines as the string version. |
| PropertyWriter.WriteRoutedEventAccessors | PropertyBuilderCore/PropertyBuilder.cs:354-361 | The writer's own `WriteLine` calls for the event and its `add`/`remove` accessors write the same lines as the string version. |
| PropertyWriter.WriteRoutedPropertyChangedEvent | PropertyBuilderCore/PropertyBuilder.cs:344-362 | The writer's routed-event generator writes the same 15-line block as the string version's. |
| PropertyWriter.WriteAvaloniaProperty | PropertyBuilderCore/PropertyBuilder.cs:406-413 | The writer's own five `WriteLine` calls, with the default argument chosen inline, write exactly the lines of the string version. On a line boundary, those lines are appended unchanged. |
| PropertyWriter.WriteThenWriteLine | PropertyBuilderCore/PropertyBuilder.cs:499-507 | A `Write` of the registration followed by a `WriteLine` of its close produces one line: the two texts joined. |
| PropertyWriter.WriteAvaloniaDirectProperty | PropertyBuilderCore/PropertyBuilder.cs:477-508 | The writer version of the direct property writes exactly the lines of the string version, including the line split over `Write` and `WriteLine`. |

## Left out

- The desktop front end (`PropertyBuilderWPF/*`), settings persistence and the
  bulk generator's joining of several outputs are not part of this model. They
  are UI and file I/O around the core.
- The concrete `Environment.NewLine` is not modelled. Output is a sequence of
  lines, not one string, so `sb.ToString()` is the line sequence.
- LowerAscii: lower-cases ASCII letters only. `ToLowerInvariant` also maps
  non-ASCII letters, and those are left unchanged here.
- FieldName: `p[0]` is the first Unicode scalar value, where C#'s
  `propName[..1]` is the first UTF-16 code unit. When the first character lies
  outside the Basic Multilingual Plane, C# lower-cases a lone high surrogate,
  which leaves it unchanged, and the model leaves the character unchanged. Both
  therefore keep the name as it is.
- The `_ => ""` arm of `GeneratePropertyChangedHandler` (`:148`, `:323`) is not
  modelled. It is reached only by casting an integer outside 0..6 to the enum,
  and the Dafny datatype has exactly the seven declared values.
- A null `propName` is not modelled: the parameter is a non-nullable `string`.
- The `defVal = "null"` reassignment inside the writer version changes only a
  local. It is modelled by `MetadataDefault`.
- MetadataGating: states where the single metadata line is and that, without
  one, the output ends at the registration (or the key's public property). It
  does not count occurrences of `FrameworkPropertyMetadata` across the handler
  fragments. No fragment line begins with `    new FrameworkPropertyMetadata(`,
  but a line may contain that text when `p`, `t` or `o` does; this is not
  proved.
