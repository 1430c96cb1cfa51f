/**
  The `WpfPropertyChangeHandler` enumeration: which value-change handler, if
  any, is generated alongside a WPF dependency property.
 */
module ChangeHandlers {

  datatype WpfPropertyChangeHandler =
    | None                      // no handler at all
    | Standard                  // an empty static On{Property}Changed
    | StandardEventCall         // static On{Property}Changed raising a {Property}Changed event
    | StandardRoutedEventCall   // static On{Property}Changed raising a {Property}Changed routed event
    | PerformAs                 // a PerformAs lambda with an empty body
    | PerformAsEventCall        // a PerformAs lambda raising a {Property}Changed event
    | PerformAsRoutedEventCall  // a PerformAs lambda calling an instance On{Property}Changed
  {
    /** The styles whose metadata names a static `On{Property}Changed` method. */
    predicate IsStandardStyle() {
      Standard? || StandardEventCall? || StandardRoutedEventCall?
    }

    /** The styles whose metadata holds a `PerformAs` lambda. */
    predicate IsPerformAsStyle() {
      PerformAs? || PerformAsEventCall? || PerformAsRoutedEventCall?
    }

    /** The styles that declare a plain `{Property}Changed` event. */
    predicate DeclaresPlainEvent() {
      StandardEventCall? || PerformAsEventCall?
    }

    /** The styles that declare a routed `{Property}Changed` event. */
    predicate DeclaresRoutedEvent() {
      StandardRoutedEventCall? || PerformAsRoutedEventCall?
    }
  }
}
