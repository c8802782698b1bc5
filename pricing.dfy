/**
 * The price table (`pricingTiers`) and its lookup by Stripe price id
 * (`getTierByPriceId`). Prices are in integer cents.
 */
module Pricing {
  import opened Wrappers
  import opened Text
  import opened Seqs

  /** The three price-id environment variables; each may be unset. */
  datatype PriceEnv = PriceEnv(starter: Option<string>, pro: Option<string>, elite: Option<string>)

  datatype PricingTier = PricingTier(
    tier: string,
    name: string,
    priceId: string,
    credits: nat,
    amountCents: nat,
    currency: string)

  const Unset := PriceEnv(None, None, None)

  /** The tier table; an unset price-id variable gives the empty price id. */
  function PricingTiers(env: PriceEnv): (tiers: seq<PricingTier>)
    ensures |tiers| == 3
  {
    [ PricingTier("Starter", "Starter", OrElse(env.starter, ""), 10, 200, "usd"),
      PricingTier("Pro", "Pro", OrElse(env.pro, ""), 40, 500, "usd"),
      PricingTier("Elite", "Elite", OrElse(env.elite, ""), 100, 1000, "usd") ]
  }

  /** `tiers.find(p)`. */
  function Find(tiers: seq<PricingTier>, p: PricingTier -> bool): Option<PricingTier> {
    var i := FirstIndex(tiers, p);
    if i < |tiers| then Some(tiers[i]) else None
  }

  /** `getTierByPriceId`. */
  function GetTierByPriceId(env: PriceEnv, priceId: string): Option<PricingTier> {
    Find(PricingTiers(env), (t: PricingTier) => t.priceId == priceId)
  }

  /**
   * A defined result is the first tier whose price id equals the argument;
   * an undefined result means no tier has that price id.
   */
  lemma GetTierByPriceIdSpec(env: PriceEnv, priceId: string)
    ensures var r := GetTierByPriceId(env, priceId);
      r.Some? ==> r.value.priceId == priceId
    ensures var r := GetTierByPriceId(env, priceId);
      var tiers := PricingTiers(env);
      r.Some? ==> exists i :: 0 <= i < |tiers| && tiers[i] == r.value &&
                               forall j :: 0 <= j < i ==> tiers[j].priceId != priceId
    ensures GetTierByPriceId(env, priceId).None? <==>
      forall t :: t in PricingTiers(env) ==> t.priceId != priceId
  {
    var tiers := PricingTiers(env);
    var p := (t: PricingTier) => t.priceId == priceId;
    var i := FirstIndex(tiers, p);
    if i == |tiers| {
      forall t | t in tiers ensures t.priceId != priceId {
        var j :| 0 <= j < |tiers| && tiers[j] == t;
        assert !p(tiers[j]);
      }
    } else {
      assert forall j :: 0 <= j < i ==> !p(tiers[j]);
    }
  }

  /** With no price-id variable set, every price id is empty and the empty id finds Starter. */
  lemma UnsetEnvEmptyIdIsStarter()
    ensures GetTierByPriceId(Unset, "") == Some(PricingTiers(Unset)[0])
    ensures PricingTiers(Unset)[0].tier == "Starter"
  {
  }

  /** The tier table's credit counts are pairwise distinct. */
  lemma TierCreditsDistinct(env: PriceEnv)
    ensures forall i, j :: 0 <= i < j < 3 ==> PricingTiers(env)[i].credits != PricingTiers(env)[j].credits
  {
  }

  /**
   * Looking a tier up by the decimal text of its credit count (the fallback
   * of order reconstruction) finds that very tier.
   */
  lemma {:induction false} FindByCreditsTextFindsTier(env: PriceEnv, i: nat)
    requires i < 3
    ensures var tiers := PricingTiers(env);
      Find(tiers, (t: PricingTier) => NatToString(t.credits) == NatToString(tiers[i].credits)) == Some(tiers[i])
  {
    var tiers := PricingTiers(env);
    var p := (t: PricingTier) => NatToString(t.credits) == NatToString(tiers[i].credits);
    var k := FirstIndex(tiers, p);
    TierCreditsDistinct(env);
    if k < i {
      NatToStringInjective(tiers[k].credits, tiers[i].credits);
    }
  }
}
