/** User-facing greetings built from the `greeting` flag value, and a
    per-instance memo table of greetings keyed by locale. */
module Greeting {
  import opened FlagState

  const GreetingFlag := "greeting"
  const PartyPrefix := "🎉 "
  const DefaultGreeting := "Welcome to Fake App!"
  const CacheFallback := "Welcome!"

  /** Two strings with the same suffix are equal when the whole strings are. */
  lemma SameSuffixSamePrefix(a: string, b: string, suffix: string)
    requires a + suffix == b + suffix
    ensures a == b
  {
    assert |a| == |b|;
    assert a == (a + suffix)[..|a|];
    assert b == (b + suffix)[..|b|];
  }

  // ---------------------------------------------------------------------
  // Greeting rendering
  // ---------------------------------------------------------------------

  /** The app's welcome line: the flag value after a party-popper prefix, or
      the fixed welcome when the flag has no (or an empty) value. The fixed
      welcome is shown exactly when no usable value is configured, and the
      configured value can be read back from the line. */
  function GetGreeting(flags: Flags): (message: string)
    ensures !Truthy(flags.GetFeatureValue(GreetingFlag)) <==> message == DefaultGreeting
    ensures Truthy(flags.GetFeatureValue(GreetingFlag)) ==>
              |message| >= |PartyPrefix| && message[..|PartyPrefix|] == PartyPrefix &&
              message[|PartyPrefix|..] == flags.GetFeatureValue(GreetingFlag).value
  {
    var greetingValue := flags.GetFeatureValue(GreetingFlag);
    if Truthy(greetingValue) then
      var message := PartyPrefix + greetingValue.value;
      assert message[0] != DefaultGreeting[0];
      message
    else
      DefaultGreeting
  }

  /** A greeting addressed to `userName`: the flag value acts as the salutation,
      and "Hello" stands in for it when the flag has no usable value. */
  function GetPersonalizedGreeting(flags: Flags, userName: string): (message: string)
    ensures message == OrElse(flags.GetFeatureValue(GreetingFlag), "Hello") + ", " + userName + "!"
  {
    var baseGreeting := flags.GetFeatureValue(GreetingFlag);
    if Truthy(baseGreeting) then
      baseGreeting.value + ", " + userName + "!"
    else
      "Hello, " + userName + "!"
  }

  /** The personalized greeting looks like the unconfigured one exactly when
      no usable value is configured or the configured value is "Hello". */
  lemma PersonalizedMatchesFallback(flags: Flags, userName: string)
    ensures GetPersonalizedGreeting(flags, userName) == "Hello, " + userName + "!"
            <==> !Truthy(flags.GetFeatureValue(GreetingFlag)) || flags.GetFeatureValue(GreetingFlag).value == "Hello"
  {
    var salutation := OrElse(flags.GetFeatureValue(GreetingFlag), "Hello");
    var tail := ", " + userName + "!";
    assert GetPersonalizedGreeting(flags, userName) == salutation + tail;
    assert "Hello, " + userName + "!" == "Hello" + tail;
    if salutation + tail == "Hello" + tail {
      SameSuffixSamePrefix(salutation, "Hello", tail);
    }
  }

  /** The time-of-day bucket of an hour. Every integer falls in exactly one
      bucket; hours outside 0..23 are not rejected and land in "Hello". */
  function TimeOfDay(hour: int): (bucket: string)
    ensures bucket == "Good morning" <==> 5 <= hour < 12
    ensures bucket == "Good afternoon" <==> 12 <= hour < 17
    ensures bucket == "Good evening" <==> 17 <= hour < 21
    ensures bucket == "Hello" <==> hour < 5 || 21 <= hour
  {
    if 5 <= hour < 12 then "Good morning"
    else if 12 <= hour < 17 then "Good afternoon"
    else if 17 <= hour < 21 then "Good evening"
    else "Hello"
  }

  /** A greeting that opens with the hour's bucket label and an exclamation
      mark; a usable flag value follows after a space, otherwise nothing does. */
  function GetTimeBasedGreeting(flags: Flags, hour: int): (message: string)
    ensures |message| > |TimeOfDay(hour)|
    ensures message[..|TimeOfDay(hour)| + 1] == TimeOfDay(hour) + "!"
    ensures message[|TimeOfDay(hour)| + 1..] ==
              if Truthy(flags.GetFeatureValue(GreetingFlag))
              then " " + flags.GetFeatureValue(GreetingFlag).value
              else ""
  {
    var timeGreeting := TimeOfDay(hour);
    var customGreeting := flags.GetFeatureValue(GreetingFlag);
    if Truthy(customGreeting) then
      timeGreeting + "! " + customGreeting.value
    else
      timeGreeting + "!"
  }

  /** Under one flag configuration, two hours get the same time-based greeting
      only when they fall in the same bucket. */
  lemma TimeGreetingRevealsBucket(flags: Flags, hour1: int, hour2: int)
    requires GetTimeBasedGreeting(flags, hour1) == GetTimeBasedGreeting(flags, hour2)
    ensures TimeOfDay(hour1) == TimeOfDay(hour2)
  {
    var v := flags.GetFeatureValue(GreetingFlag);
    var tail := if Truthy(v) then "! " + v.value else "!";
    assert GetTimeBasedGreeting(flags, hour1) == TimeOfDay(hour1) + tail;
    assert GetTimeBasedGreeting(flags, hour2) == TimeOfDay(hour2) + tail;
    SameSuffixSamePrefix(TimeOfDay(hour1), TimeOfDay(hour2), tail);
  }

  // ---------------------------------------------------------------------
  // The memo table, as a function of its state
  // ---------------------------------------------------------------------

  /** One lookup in the memo table: `provided` is what the flag provider
      would answer now. A cached locale keeps its entry and is answered from
      it; an uncached one gets the provided value (or the fallback when that
      value is absent or empty) added under its own key. Nothing else is
      touched. Result: the new table and the answer. */
  function CacheStep(cache: map<string, string>, provided: Option<string>, locale: string)
    : (r: (map<string, string>, string))
    ensures r.0.Keys == cache.Keys + {locale}
    ensures forall l :: l in cache ==> r.0[l] == cache[l]
    ensures r.1 == r.0[locale]
    ensures locale !in cache ==> r.1 == OrElse(provided, CacheFallback)
  {
    if locale in cache then
      (cache, cache[locale])
    else
      var greeting := OrElse(provided, CacheFallback);
      (cache[locale := greeting], greeting)
  }

  /** Asking twice for the same locale changes nothing the second time, even
      when the provider's answer has changed in between. */
  lemma CacheStepIdempotent(cache: map<string, string>, provided: Option<string>, later: Option<string>, locale: string)
    ensures CacheStep(CacheStep(cache, provided, locale).0, later, locale) == CacheStep(cache, provided, locale)
  {
  }

  /** A lookup whose provider answer is `provided`. */
  datatype Call = Call(provided: Option<string>, locale: string)

  /** A sequence of lookups on one table: the final table and every answer. */
  function Replay(cache: map<string, string>, calls: seq<Call>): (r: (map<string, string>, seq<string>))
    ensures |r.1| == |calls|
    decreases |calls|
  {
    if |calls| == 0 then
      (cache, [])
    else
      var (next, greeting) := CacheStep(cache, calls[0].provided, calls[0].locale);
      var (final, rest) := Replay(next, calls[1..]);
      (final, [greeting] + rest)
  }

  /** The locales asked for in a sequence of lookups. */
  function Locales(calls: seq<Call>): set<string> {
    set i | 0 <= i < |calls| :: calls[i].locale
  }

  /** How many of the lookups query the provider (those that miss). */
  function Queries(cache: map<string, string>, calls: seq<Call>): nat
    decreases |calls|
  {
    if |calls| == 0 then
      0
    else
      var next := CacheStep(cache, calls[0].provided, calls[0].locale).0;
      (if calls[0].locale in cache then 0 else 1) + Queries(next, calls[1..])
  }

  lemma LocalesCons(calls: seq<Call>)
    requires |calls| > 0
    ensures Locales(calls) == {calls[0].locale} + Locales(calls[1..])
  {
  }

  /** The table only grows: after any sequence of lookups it holds exactly the
      old locales and the ones asked for, and every old entry is unchanged. */
  lemma {:induction false} ReplayOnlyGrows(cache: map<string, string>, calls: seq<Call>)
    ensures Replay(cache, calls).0.Keys == cache.Keys + Locales(calls)
    ensures forall l :: l in cache ==> Replay(cache, calls).0[l] == cache[l]
    decreases |calls|
  {
    if |calls| == 0 {
      assert Locales(calls) == {};
    } else {
      var next := CacheStep(cache, calls[0].provided, calls[0].locale).0;
      ReplayOnlyGrows(next, calls[1..]);
      LocalesCons(calls);
    }
  }

  /** Every answer is the entry the table finally holds for its locale. */
  lemma {:induction false} ReplayAnswersFinalEntry(cache: map<string, string>, calls: seq<Call>, i: nat)
    requires i < |calls|
    ensures calls[i].locale in Replay(cache, calls).0
    ensures Replay(cache, calls).1[i] == Replay(cache, calls).0[calls[i].locale]
    decreases |calls|
  {
    var next := CacheStep(cache, calls[0].provided, calls[0].locale).0;
    if i == 0 {
      ReplayOnlyGrows(next, calls[1..]);
    } else {
      ReplayAnswersFinalEntry(next, calls[1..], i - 1);
    }
  }

  /** Staleness by design: two lookups of the same locale get the same answer,
      whatever the provider said in between. */
  lemma FirstAnswerSticks(cache: map<string, string>, calls: seq<Call>, i: nat, j: nat)
    requires i < j < |calls| && calls[i].locale == calls[j].locale
    ensures Replay(cache, calls).1[j] == Replay(cache, calls).1[i]
  {
    ReplayAnswersFinalEntry(cache, calls, i);
    ReplayAnswersFinalEntry(cache, calls, j);
  }

  /** A locale already in the table is answered from it, never refreshed. */
  lemma CachedLocaleNeverRefreshed(cache: map<string, string>, calls: seq<Call>, i: nat)
    requires i < |calls| && calls[i].locale in cache
    ensures Replay(cache, calls).1[i] == cache[calls[i].locale]
  {
    ReplayAnswersFinalEntry(cache, calls, i);
    ReplayOnlyGrows(cache, calls);
  }

  /** Removing the known keys from a set of locales that starts with `x`. */
  lemma MissingAfterCons(all: set<string>, rest: set<string>, known: set<string>, x: string)
    requires all == {x} + rest
    ensures x in known ==> all - known == rest - known
    ensures x !in known ==> |all - known| == 1 + |rest - (known + {x})|
  {
    if x !in known {
      var tail := rest - (known + {x});
      assert all - known == {x} + tail;
      assert x !in tail;
    }
  }

  /** The provider is queried exactly once for each locale that was not
      already cached, however often that locale is asked for. */
  lemma {:induction false} ProviderQueriedOncePerLocale(cache: map<string, string>, calls: seq<Call>)
    ensures Queries(cache, calls) == |Locales(calls) - cache.Keys|
    decreases |calls|
  {
    if |calls| == 0 {
      assert Locales(calls) - cache.Keys == {};
    } else {
      var locale := calls[0].locale;
      var next := CacheStep(cache, calls[0].provided, locale).0;
      assert Queries(cache, calls) == (if locale in cache then 0 else 1) + Queries(next, calls[1..]);
      ProviderQueriedOncePerLocale(next, calls[1..]);
      LocalesCons(calls);
      MissingAfterCons(Locales(calls), Locales(calls[1..]), cache.Keys, locale);
    }
  }

  // ---------------------------------------------------------------------
  // The greeting service object
  // ---------------------------------------------------------------------

  /** Keeps a reference to the live provider and a table of greetings by
      locale. A locale's first lookup fixes its greeting for the lifetime of
      the service. */
  class GreetingService {
    const flags: FlagProvider
    var cache: map<string, string>

    /** Every cached greeting is non-empty: an empty flag value is replaced by
        the fallback before it is stored. */
    ghost predicate Valid()
      reads this
    {
      forall locale :: locale in cache ==> cache[locale] != ""
    }

    constructor (flags: FlagProvider)
      ensures this.flags == flags && cache == map[] && Valid()
    {
      this.flags := flags;
      cache := map[];
    }

    method GetCachedGreeting(locale: string := "en") returns (greeting: string)
      requires Valid()
      modifies this`cache
      ensures Valid()
      ensures greeting != ""
      ensures (cache, greeting) == CacheStep(old(cache), flags.GetFeatureValue(GreetingFlag), locale)
    {
      if locale !in cache {
        var value := flags.GetFeatureValue(GreetingFlag);
        cache := cache[locale := OrElse(value, CacheFallback)];
      }
      greeting := cache[locale];
    }
  }

  /** A locale cached before the greeting flag changes keeps its first
      greeting; a locale first asked for afterwards gets the new value. */
  method StaleAfterFlagChange(first: string, second: string, locale: string, laterLocale: string)
    returns (before: string, after: string, latecomer: string)
    requires first != "" && second != "" && locale != laterLocale
    ensures before == first && after == first && latecomer == second
  {
    var provider := new FlagProvider(Flags(map[], map[GreetingFlag := first]));
    var service := new GreetingService(provider);
    before := service.GetCachedGreeting(locale);
    provider.current := Flags(map[], map[GreetingFlag := second]);
    after := service.GetCachedGreeting(locale);
    latecomer := service.GetCachedGreeting(laterLocale);
  }
}
