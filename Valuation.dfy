/**
 * `calculateExtraMinutes`: how many minutes an event adds to the
 * countdown, looked up from its source, its kind and, for Twitch
 * subscriptions, its tier.  Ko-fi donation amounts arrive here already
 * parsed to a whole number (an unparseable amount is 0).
 */
module Valuation {
  import opened Wrappers
  import opened Config

  /** Ko-fi event kinds with a value. */
  const KofiKinds: set<string> := {"Donation", "Commission", "Resubscription", "Subscription", "ShopOrder"}

  /** Twitch event kinds with a value. */
  const TwitchKinds: set<string> :=
    {"Sub", "ReSub", "GiftSub", "SharedChatSub", "SharedChatResub", "SharedChatSubGift", "Cheer"}

  /** The minutes for one Twitch subscription of the given kind ("Sub" or
      "ReSub") and tier; a missing or unknown tier counts as tier 1. */
  function TierMinutes(eventType: string, tier: Option<string>): int {
    if eventType == "Sub" then
      if tier == Some("1000") then TwitchSubTier1TimeIncrement
      else if tier == Some("2000") then TwitchSubTier2TimeIncrement
      else if tier == Some("3000") then TwitchSubTier3TimeIncrement
      else TwitchSubTier1TimeIncrement
    else
      if tier == Some("1000") then TwitchReSubTier1TimeIncrement
      else if tier == Some("2000") then TwitchReSubTier2TimeIncrement
      else if tier == Some("3000") then TwitchReSubTier3TimeIncrement
      else TwitchReSubTier1TimeIncrement
  }

  /** `calculateExtraMinutes(source, eventType, amountOrBits, tier)`, where an
      absent `tier` argument is `None`. */
  function ExtraMinutes(source: string, eventType: string, amountOrBits: int, tier: Option<string>): (minutes: int)
    ensures source != "Kofi" && source != "Twitch" ==> minutes == 0
    ensures amountOrBits >= 0 ==> minutes >= 0
  {
    if source == "Kofi" then
      if eventType == "Donation" || eventType == "Commission" then amountOrBits * KofiDonationTimeIncrement
      else if eventType == "Resubscription" || eventType == "Subscription" then KofiSubscriptionTimeIncrement
      else if eventType == "ShopOrder" then KofiShopOrderTimeIncrement
      else 0
    else if source == "Twitch" then
      if eventType == "Sub" || eventType == "ReSub" then TierMinutes(eventType, tier)
      else if eventType == "GiftSub" then TwitchGiftSubTimeIncrement
      else if eventType == "SharedChatSub" then TwitchSharedChatSubTimeIncrement
      else if eventType == "SharedChatResub" then TwitchSharedChatResubTimeIncrement
      else if eventType == "SharedChatSubGift" then TwitchSharedChatSubGiftTimeIncrement
      else if eventType == "Cheer" then TwitchCheerTimeIncrement(amountOrBits)
      else 0
    else 0
  }

  // ---- The table, stated independently ----

  const SubTierTable: map<string, int> := map["1000" := 30, "2000" := 45, "3000" := 60]
  const ReSubTierTable: map<string, int> := map["1000" := 30, "2000" := 45, "3000" := 60]

  /** A subscription is worth its tier's entry, and a tier that is missing
      or not in the table is worth the tier-1 entry; the amount plays no part. */
  lemma SubscriptionTiers(eventType: string, amountOrBits: int, tier: Option<string>)
    requires eventType == "Sub" || eventType == "ReSub"
    ensures var table := if eventType == "Sub" then SubTierTable else ReSubTierTable;
      ExtraMinutes("Twitch", eventType, amountOrBits, tier)
      == if tier.Some? && tier.value in table then table[tier.value] else table["1000"]
  {
  }

  /** Ko-fi donations and commissions are worth two minutes per unit of currency. */
  lemma DonationRate(eventType: string, amount: int, tier: Option<string>)
    requires eventType == "Donation" || eventType == "Commission"
    ensures ExtraMinutes("Kofi", eventType, amount, tier) == 2 * amount
    ensures ExtraMinutes("Kofi", eventType, amount, tier) > 0 <==> amount > 0
  {
  }

  /** Cheers are worth one minute per whole hundred bits: 250 bits give 2. */
  lemma CheerRate(bits: int, tier: Option<string>)
    ensures var minutes := ExtraMinutes("Twitch", "Cheer", bits, tier);
      minutes * 100 <= bits < minutes * 100 + 100
    ensures ExtraMinutes("Twitch", "Cheer", bits, tier) > 0 <==> bits >= 100
  {
  }

  lemma CheerExamples()
    ensures ExtraMinutes("Twitch", "Cheer", 250, None) == 2
    ensures ExtraMinutes("Twitch", "Cheer", 99, None) == 0
    ensures ExtraMinutes("Twitch", "Cheer", -50, None) == -1
  {
    CheerRate(250, None);
    CheerRate(99, None);
    CheerRate(-50, None);
  }

  /** More money or more bits never buy less time. */
  lemma AmountMonotone(source: string, eventType: string, a: int, b: int, tier: Option<string>)
    requires a <= b
    ensures ExtraMinutes(source, eventType, a, tier) <= ExtraMinutes(source, eventType, b, tier)
  {
    if source == "Twitch" && eventType == "Cheer" {
      CheerRate(a, tier);
      CheerRate(b, tier);
    }
  }

  /** Every other kind is worth a flat amount, whatever the amount and tier. */
  lemma FlatKinds(amountOrBits: int, tier: Option<string>)
    ensures ExtraMinutes("Kofi", "Subscription", amountOrBits, tier) == 30
    ensures ExtraMinutes("Kofi", "Resubscription", amountOrBits, tier) == 30
    ensures ExtraMinutes("Kofi", "ShopOrder", amountOrBits, tier) == 15
    ensures ExtraMinutes("Twitch", "GiftSub", amountOrBits, tier) == 15
    ensures ExtraMinutes("Twitch", "SharedChatSub", amountOrBits, tier) == 30
    ensures ExtraMinutes("Twitch", "SharedChatResub", amountOrBits, tier) == 30
    ensures ExtraMinutes("Twitch", "SharedChatSubGift", amountOrBits, tier) == 15
  {
  }

  /** An unknown source, or a kind its source does not value, is worth nothing. */
  lemma UnknownEventsWorthNothing(source: string, eventType: string, amountOrBits: int, tier: Option<string>)
    requires source == "Kofi" ==> eventType !in KofiKinds
    requires source == "Twitch" ==> eventType !in TwitchKinds
    ensures ExtraMinutes(source, eventType, amountOrBits, tier) == 0
  {
  }

  /** Only the known kinds of the two known sources can be worth anything. */
  lemma WorthSomethingOnlyIfKnown(source: string, eventType: string, amountOrBits: int, tier: Option<string>)
    requires ExtraMinutes(source, eventType, amountOrBits, tier) != 0
    ensures (source == "Kofi" && eventType in KofiKinds) || (source == "Twitch" && eventType in TwitchKinds)
  {
  }
}
