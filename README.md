# Feature-flag demo app, modelled in Dafny

The application asks a feature-flag service two questions: is a feature
enabled, and what string value is configured for it. It branches on the
answers in three places:

- **Greetings** (`greeting.py`). A welcome line, a personalised greeting and a
  time-of-day greeting are built from the `greeting` flag value, with fixed
  fallback texts when that value is absent or empty. Python truthiness
  applies, so an empty string counts as absent. `GreetingService` keeps a
  per-instance table of greetings keyed by locale. The first lookup of a
  locale fixes its greeting for good, so the table goes stale by design.
- **Checkout** (`checkout.py`). The `checkout_v2` flag picks the v2 or the
  legacy result record. An eligibility check refuses only an empty user id.
- **Quantum** (`quantum.py`). The `quantum_mode` flag gates a simulated
  experiment, picks one of two optimisation records, and is recorded by
  `QuantumProcessor` when the processor is built. `process` follows the
  recorded value. `get_processing_mode` asks the provider again, so the two
  can disagree.

Files:

- `flagstate.dfy` (module `FlagState`): the provider. `Flags` is a point-in-time
  view (a `key -> bool` map and a `key -> string` map; a missing key is
  disabled and has no value). `FlagProvider` is the live object the two
  classes keep a reference to; its state can be replaced from outside.
  `Truthy` and `OrElse` are Python's truthiness and `or` on a flag value.
- `greeting.dfy` (module `Greeting`): the three string builders, the hour
  buckets, and the memo table. The table is modelled twice: as the function
  `CacheStep` (one lookup) and `Replay` (a sequence of lookups), and as the
  class `GreetingService`, whose method is proved to follow `CacheStep`.
  Over a sequence of lookups, `Locales` is the set of locales asked for and
  `Queries` counts the lookups that miss and so query the provider.
- `checkout.dfy` (module `Checkout`): the two flows and the dispatcher,
  with the cart total as a type parameter that is passed through unchanged;
  and the user-eligibility check `ValidateCheckoutEligibility`.
- `quantum.dfy` (module `Quantum`): the experiment, with its random draws
  supplied by the caller as a `Draws` record whose types carry the ranges of
  `random.choice` (an index into the four states), `random.random` ([0,1))
  and `random.randint` ([1,100]); the optimisation records; and the
  class `QuantumProcessor`.

The module-level functions take a `Flags` value, because each one queries
the provider once. The two classes hold a `FlagProvider`, because what they
promise depends on the provider changing after they are built.

Two behaviours of the code worth stating:

- An hour outside 0..23 is not an error. It falls in the "Hello" bucket
  (greeting.py:48-49).
- The memo table stores the fallback "Welcome!" for an empty flag value as
  well as for an absent one (`greeting or "Welcome!"`, greeting.py:70).

## Model

| member | source | states |
|---|---|---|
| `Greeting.GetGreeting` | greeting.py:8-19 | The fixed "Welcome to Fake App!" is returned exactly when the greeting value is absent or empty. Otherwise the line is the party-popper prefix followed by the value, and the value can be read back from it. |
| `Greeting.GetPersonalizedGreeting` | greeting.py:22-33 | The result is the salutation, then ", ", the user name and "!". The salutation is the flag value when it is present and non-empty, and "Hello" otherwise. |
| `Greeting.PersonalizedMatchesFallback` | greeting.py:28-33 | The personalised greeting equals "Hello, {name}!" exactly when the value is absent, empty, or literally "Hello". |
| `Greeting.TimeOfDay` | greeting.py:42-49 | Each bucket holds exactly its hours: "Good morning" for [5,12), "Good afternoon" for [12,17), "Good evening" for [17,21), and "Hello" for every other integer, negative and ≥ 24 included. |
| `Greeting.GetTimeBasedGreeting` | greeting.py:36-56 | The result begins with the bucket label and "!". After that comes " " plus the value when the value is present and non-empty, and nothing otherwise. |
| `Greeting.TimeGreetingRevealsBucket` | greeting.py:42-56 | Under one flag configuration, two hours get the same time-based greeting only if they are in the same bucket. |
| `Greeting.CacheStep` | greeting.py:66-72 | One lookup adds exactly its own locale and keeps every other entry. It answers with the entry stored for its locale. A miss stores the provider value, or "Welcome!" when that value is absent or empty. |
| `Greeting.CacheStepIdempotent` | greeting.py:68-72 | A second lookup of the same locale leaves table and answer unchanged, even if the provider's answer has changed. |
| `Greeting.ReplayOnlyGrows` | greeting.py:68-70 | After any sequence of lookups, the table holds exactly the old locales plus the ones asked for, and every old entry is unchanged. |
| `Greeting.ReplayAnswersFinalEntry` | greeting.py:68-72 | Every answer equals the entry the table finally holds for that locale. |
| `Greeting.FirstAnswerSticks` | greeting.py:68-72 | Two lookups of the same locale get the same answer, whatever the provider returned in between (staleness by design). |
| `Greeting.CachedLocaleNeverRefreshed` | greeting.py:68-72 | A locale that was already cached is answered from its stored entry and never refreshed from the provider. |
| `Greeting.ProviderQueriedOncePerLocale` | greeting.py:68-70 | Over a sequence of lookups, the provider is queried exactly once for each distinct locale that was not already cached. |
| `Greeting.GreetingService.constructor` | greeting.py:62-64 | The service keeps the given provider and starts with an empty table. |
| `Greeting.GreetingService.GetCachedGreeting` | greeting.py:66-72 | The new table and the answer are `CacheStep` applied to the old table and the provider's current value. The default locale is "en". The answer and every stored greeting are non-empty. |
| `Greeting.StaleAfterFlagChange` | greeting.py:59-72 | On a real service: after the flag value changes, a cached locale still gets the first value and a new locale gets the new one. |
| `Checkout.ProcessCheckout` | checkout.py:8-47 | The flow is "v2" exactly when `checkout_v2` is on, and "legacy" exactly when it is off. Success is always true and the amount is the given cart total. The features are exactly the three v2 features or the single "basic_checkout", so never empty. |
| `Checkout.CheckoutFlagDoesNotTouchPayment` | checkout.py:15-47 | Success and amount do not depend on the flag. Two flag states give the same record exactly when they agree on `checkout_v2`. |
| `Checkout.ValidateCheckoutEligibility` | checkout.py:50-66 | Eligible exactly when the user id is non-empty, whatever `checkout_v2` says. |
| `Quantum.SimulateQuantumState` | quantum.py:26-35 | The collapse lands in the drawn one of spin_up, spin_down, entangled and superposition. The probability and coherence time are the drawn values, so they are in [0,1) and [1,100]. |
| `Quantum.SimulationCoversAllOutcomes` | quantum.py:28-34 | Every one of the four states, paired with any coherence time from 1 to 100, can come out of the simulation. |
| `Quantum.RunQuantumExperiment` | quantum.py:10-23 | The result is exactly the "Quantum mode is not enabled" error when the flag is off. With the flag on it is a collapse to a valid state with a coherence time in [1,100]. |
| `Quantum.CheckQuantumAvailability` | quantum.py:38-44 | Available exactly when `quantum_mode` is enabled. |
| `Quantum.RunQuantumOptimization` | quantum.py:47-66 | "quantum_annealing" with problem size × 100 iterations and quality 0.95 exactly when the flag is on. Otherwise "simulated_annealing" with problem size × 1000 iterations and quality 0.80. |
| `Quantum.ClassicalRunsTenTimesLonger` | quantum.py:53-66 | For the same problem size, the classical run has ten times as many iterations as the quantum run. |
| `Quantum.AvailabilityAgreesWithDispatch` | quantum.py:16-66 | Availability holds exactly when the experiment runs, and exactly when the optimisation uses quantum annealing. |
| `Quantum.QuantumProcessor.constructor` | quantum.py:72-74 | The processor keeps the provider and records the flag's value at construction. |
| `Quantum.QuantumProcessor.Process` | quantum.py:76-90 | The output has the input's length. Each element is doubled when the recorded flag was on and incremented otherwise. The live provider is not read. |
| `Quantum.QuantumProcessor.ProcessConcat` | quantum.py:82-90 | Processing works element by element: processing a concatenation equals concatenating the processed parts. |
| `Quantum.QuantumProcessor.GetProcessingMode` | quantum.py:92-97 | "quantum" exactly when the provider has the flag on now, and "classical" otherwise. |
| `Quantum.ModeDriftsAfterConstruction` | quantum.py:69-97 | A processor built with the flag off keeps incrementing after the flag is switched on, while it reports the "quantum" mode. |

`CheckoutV2Flow` and `CheckoutLegacyFlow` (checkout.py:21-47) and
`QuantumProcess` and `ClassicalProcess` (quantum.py:82-90) are one-expression
helpers. They have no contract of their own; `ProcessCheckout` and
`QuantumProcessor.Process` state what they produce.

## Left out

- app.py: reading the environment variable, building the network client and printing results. This is process plumbing outside the core.
- Every `print` call. Console output has no effect on any returned value.
- The real flag client and its network access. The provider is a pair of maps. A feature the maps do not know is treated as disabled with no value, and provider errors are not modelled.
- `random.choice`, `random.random` and `random.randint`. Their outcomes are supplied by the caller as a `Draws` record, restricted to the ranges those calls produce.
- Floating point. The probability is a Dafny `real` in [0,1). The solution qualities 0.95 and 0.80 are exact reals. The cart total is a type parameter passed through untouched.
- Python's dynamic typing. Flag values are strings, and `process` takes a list of unbounded integers (no floats, and no strings, which `x * 2` would repeat).
- Concurrent use of one `GreetingService`. The source has no locking and the model is sequential.
