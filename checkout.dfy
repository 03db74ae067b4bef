/** Checkout: the `checkout_v2` flag picks which of two checkout flows
    builds the result record. The cart total is passed through untouched, so
    it is a type parameter here rather than a floating-point number. */
module Checkout {
  import opened FlagState

  const CheckoutV2Flag := "checkout_v2"
  const V2Features: seq<string> := ["express_checkout", "real_time_validation", "saved_cards"]
  const LegacyFeatures: seq<string> := ["basic_checkout"]

  datatype CheckoutResult<Amount> = CheckoutResult(success: bool, flow: string, amount: Amount, features: seq<string>)

  function CheckoutV2Flow<Amount>(cartTotal: Amount): CheckoutResult<Amount> {
    CheckoutResult(true, "v2", cartTotal, V2Features)
  }

  function CheckoutLegacyFlow<Amount>(cartTotal: Amount): CheckoutResult<Amount> {
    CheckoutResult(true, "legacy", cartTotal, LegacyFeatures)
  }

  /** The record names the flow that ran: "v2" exactly when the flag is on,
      "legacy" exactly when it is off. Either way the checkout succeeds,
      reports the cart total it was given and lists at least one feature:
      the three v2 features or the single basic one. */
  function ProcessCheckout<Amount(==)>(flags: Flags, cartTotal: Amount): (result: CheckoutResult<Amount>)
    ensures result.flow == "v2" <==> flags.IsFeatureEnabled(CheckoutV2Flag)
    ensures result.flow == "legacy" <==> !flags.IsFeatureEnabled(CheckoutV2Flag)
    ensures result.success && result.amount == cartTotal
    ensures result.features == if result.flow == "v2" then V2Features else LegacyFeatures
    ensures |result.features| > 0
  {
    if flags.IsFeatureEnabled(CheckoutV2Flag) then
      CheckoutV2Flow(cartTotal)
    else
      CheckoutLegacyFlow(cartTotal)
  }

  /** The flag decides only which flow ran and what it offers: under any two
      flag states, the same cart total yields the same success and amount. */
  lemma CheckoutFlagDoesNotTouchPayment<Amount>(flags1: Flags, flags2: Flags, cartTotal: Amount)
    ensures ProcessCheckout(flags1, cartTotal).success == ProcessCheckout(flags2, cartTotal).success
    ensures ProcessCheckout(flags1, cartTotal).amount == ProcessCheckout(flags2, cartTotal).amount
    ensures ProcessCheckout(flags1, cartTotal) == ProcessCheckout(flags2, cartTotal)
            <==> (flags1.IsFeatureEnabled(CheckoutV2Flag) <==> flags2.IsFeatureEnabled(CheckoutV2Flag))
  {
  }

  /** A user may check out exactly when the user id is non-empty; the flag's
      extra validation never refuses anyone. */
  function ValidateCheckoutEligibility(flags: Flags, userId: string): (eligible: bool)
    ensures eligible <==> userId != ""
  {
    if userId == "" then
      false
    else if flags.IsFeatureEnabled(CheckoutV2Flag) then
      true
    else
      true
  }
}
