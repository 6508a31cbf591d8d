/**
 * The widget's `setup` object: the permission switch and the minutes each
 * kind of event adds to the countdown.  The WebSocket URL is not part of
 * this model.
 */
module Config {

  /** Moderators may use the chat commands as well as the broadcaster. */
  const AllowMods: bool := true

  // ---- Ko-fi ----

  /** Minutes per whole unit of currency donated. */
  const KofiDonationTimeIncrement: int := 2
  /** Flat minutes per Ko-fi subscription or resubscription. */
  const KofiSubscriptionTimeIncrement: int := 30
  /** Flat minutes per Ko-fi shop order. */
  const KofiShopOrderTimeIncrement: int := 15

  // ---- Twitch ----

  const TwitchSubTier1TimeIncrement: int := 30
  const TwitchSubTier2TimeIncrement: int := 45
  const TwitchSubTier3TimeIncrement: int := 60
  const TwitchReSubTier1TimeIncrement: int := 30
  const TwitchReSubTier2TimeIncrement: int := 45
  const TwitchReSubTier3TimeIncrement: int := 60
  const TwitchGiftSubTimeIncrement: int := 15
  const TwitchSharedChatSubTimeIncrement: int := 30
  const TwitchSharedChatResubTimeIncrement: int := 30
  const TwitchSharedChatSubGiftTimeIncrement: int := 15

  /** One minute per whole hundred bits: `Math.floor(bits / 100) * 1`.
      Dafny's `/` rounds towards negative infinity for a positive divisor,
      as `Math.floor` of the quotient does. */
  function TwitchCheerTimeIncrement(bits: int): (minutes: int)
    ensures minutes * 100 <= bits < minutes * 100 + 100
  {
    (bits / 100) * 1
  }
}
