/** The feature-flag provider the application consults, reduced to the two
    queries it makes: whether a feature is enabled, and the optional string
    value configured for it. The network client behind it is not modelled. */
module FlagState {

  datatype Option<+T> = None | Some(value: T)

  /** A point-in-time view of the flag environment: the on/off state of each
      known feature, and the value of each feature that has one. A feature the
      view does not know is disabled and has no value. */
  datatype Flags = Flags(enabled: map<string, bool>, values: map<string, string>) {

    predicate IsFeatureEnabled(feature: string) {
      feature in enabled && enabled[feature]
    }

    function GetFeatureValue(feature: string): Option<string> {
      if feature in values then Some(values[feature]) else None
    }
  }

  /** Python truthiness of a flag value: an absent value and the empty string
      are both false. */
  predicate Truthy(v: Option<string>) {
    v.Some? && v.value != ""
  }

  /** Python's `v or fallback` on a flag value. */
  function OrElse(v: Option<string>, fallback: string): string {
    if Truthy(v) then v.value else fallback
  }

  /** The live provider object that the application's classes keep a
      reference to. Its state is changed from outside (by the flag service),
      so two reads at different times may disagree. */
  class FlagProvider {
    var current: Flags

    constructor (initial: Flags)
      ensures current == initial
    {
      current := initial;
    }

    predicate IsFeatureEnabled(feature: string)
      reads this
    {
      current.IsFeatureEnabled(feature)
    }

    function GetFeatureValue(feature: string): Option<string>
      reads this
    {
      current.GetFeatureValue(feature)
    }
  }
}
