/**
 * `ws.onmessage`: an event from the bot is either a Twitch chat message,
 * handed to the chat front end, or an event worth minutes, credited to
 * the countdown.  The JSON is already decoded into `Event`; a field the
 * message lacks is `None`, and an absent or unparseable amount is 0.
 */
module Router {
  import opened Wrappers
  import opened Valuation
  import opened Timer
  import Chat

  /** The parts of an event message the widget reads: `event.source`,
      `event.type`, `data.text`, `data.message.message`, the names in
      `data.message.badges`, `data.amount`, `data.bits` and `data.subTier`. */
  datatype Event = Event(
    source: string, eventType: string,
    text: Option<string>, messageText: Option<string>, badges: seq<string>,
    amount: int, bits: int, subTier: Option<string>)

  predicate IsChatMessage(ev: Event) {
    ev.source == "Twitch" && ev.eventType == "ChatMessage"
  }

  /** `data.text || data.message?.message || ""`: the first of the two that
      is present and not empty, else the empty text. */
  function ChatText(ev: Event): string {
    if ev.text.Some? && ev.text.value != [] then ev.text.value
    else if ev.messageText.Some? then ev.messageText.value
    else []
  }

  /** What the handler passes as `amountOrBits`: the Ko-fi amount, the
      Twitch bits of a cheer, and 0 for everything else.  For "Sub" and
      "ReSub" the handler stores the tier text (or "1000") there, which the
      valuation never reads; it is 0 here. */
  function RoutedAmount(ev: Event): int {
    if ev.source == "Kofi" then ev.amount
    else if ev.source == "Twitch" && ev.eventType == "Cheer" then ev.bits
    else 0
  }

  /** `calculateExtraMinutes(source, eventType, amount)`: called with three
      arguments, so its `tier` is always absent. */
  function Minutes(ev: Event): int {
    ExtraMinutes(ev.source, ev.eventType, RoutedAmount(ev), None)
  }

  /** One event. */
  function Handle(st: TimerState, ev: Event, now: int): TimerState {
    if IsChatMessage(ev) then Chat.Step(st, ChatText(ev), ev.badges, now)
    else st.Credit(Minutes(ev))
  }

  // ---- The chat text ----

  /** The chat text is `data.text` when that is not empty, otherwise
      `data.message.message`, otherwise empty. */
  lemma ChatTextChoice(ev: Event)
    ensures (ev.text.None? || ev.text.value == []) && ev.messageText.Some? ==> ChatText(ev) == ev.messageText.value
    ensures ChatText(ev) == [] || Some(ChatText(ev)) == ev.text || Some(ChatText(ev)) == ev.messageText
    ensures ev.text !in {Some([]), None} ==> Some(ChatText(ev)) == ev.text
    ensures ev.text in {Some([]), None} && ev.messageText in {Some([]), None} ==> ChatText(ev) == []
  {
  }

  // ---- What each kind of event is worth ----

  /** A Twitch subscription or resubscription is always worth the tier-1
      minutes: the tier never reaches the valuation. */
  lemma SubscriptionIsTierOne(ev: Event)
    requires ev.source == "Twitch" && (ev.eventType == "Sub" || ev.eventType == "ReSub")
    ensures Minutes(ev) == 30
    ensures forall tier: Option<string> :: Minutes(ev.(subTier := tier)) == Minutes(ev)
  {
  }

  /** Of a tier-3 subscription, the tier table asks for 60 minutes; the handler credits 30. */
  lemma TierThreeSubscription(st: TimerState, now: int)
    ensures var ev := Event("Twitch", "Sub", None, None, [], 0, 0, Some("3000"));
      ExtraMinutes("Twitch", "Sub", 0, ev.subTier) == 60 && Handle(st, ev, now) == st.Credit(30)
  {
  }

  /** A Ko-fi donation or commission credits two minutes per unit of the amount. */
  lemma DonationCredit(st: TimerState, ev: Event, now: int)
    requires ev.source == "Kofi" && (ev.eventType == "Donation" || ev.eventType == "Commission")
    ensures Handle(st, ev, now) == st.Credit(2 * ev.amount)
    ensures ev.amount > 0 ==> Handle(st, ev, now) == st.Add(2 * ev.amount * 60)
    ensures ev.amount <= 0 ==> Handle(st, ev, now) == st
  {
    DonationRate(ev.eventType, ev.amount, None);
    CreditIsAdd(st, 2 * ev.amount);
    CreditKeepsPaused(st, 2 * ev.amount);
  }

  /** A cheer credits a minute per whole hundred bits; below 100 bits nothing. */
  lemma CheerCredit(st: TimerState, ev: Event, now: int)
    requires ev.source == "Twitch" && ev.eventType == "Cheer"
    ensures var m := Minutes(ev); m * 100 <= ev.bits < m * 100 + 100 && Handle(st, ev, now) == st.Credit(m)
    ensures ev.bits < 100 ==> Handle(st, ev, now) == st
  {
    CheerRate(ev.bits, None);
    CreditKeepsPaused(st, Minutes(ev));
  }

  /** An event from a source other than Ko-fi and Twitch changes nothing. */
  lemma UnknownSourceIgnored(st: TimerState, ev: Event, now: int)
    requires ev.source != "Kofi" && ev.source != "Twitch"
    ensures Handle(st, ev, now) == st
  {
  }

  /** A chat message never earns minutes: it is only ever a command, and
      from a sender without the badges it changes nothing. */
  lemma ChatMessageIsCommand(st: TimerState, ev: Event, now: int)
    requires IsChatMessage(ev)
    ensures Handle(st, ev, now) == Chat.Step(st, ChatText(ev), ev.badges, now)
    ensures "broadcaster" !in ev.badges && "moderator" !in ev.badges ==> Handle(st, ev, now) == st
  {
    if "broadcaster" !in ev.badges && "moderator" !in ev.badges {
      Chat.WithoutBadgeIgnored(st, ChatText(ev), ev.badges, now);
    }
  }

  // ---- What events do to the countdown ----

  /** An event that is not a chat message never pauses or resumes the
      countdown and never takes time off it. */
  lemma EventsOnlyAddTime(st: TimerState, ev: Event, now: int)
    requires !IsChatMessage(ev)
    ensures Handle(st, ev, now).paused == st.paused
    ensures Handle(st, ev, now).Remaining(now) >= st.Remaining(now)
  {
    var m := Minutes(ev);
    CreditKeepsPaused(st, m);
    if m > 0 {
      CreditIsAdd(st, m);
      AddMovesReadout(st, m * 60, now);
    }
  }

  /** While paused, an event credit adds exactly its minutes to the read-out. */
  lemma PausedCreditExact(st: TimerState, ev: Event, now: int)
    requires !IsChatMessage(ev) && st.paused && Minutes(ev) > 0
    ensures Handle(st, ev, now).Remaining(now) == st.Remaining(now) + Minutes(ev) * 60
  {
    CreditIsAdd(st, Minutes(ev));
    AddMovesReadout(st, Minutes(ev) * 60, now);
  }

  /** Every event keeps the stored seconds non-negative. */
  lemma HandleKeepsValid(st: TimerState, ev: Event, now: int)
    requires st.Valid()
    ensures Handle(st, ev, now).Valid()
  {
    if IsChatMessage(ev) {
      Chat.StepKeepsValid(st, ChatText(ev), ev.badges, now);
    } else {
      TransitionsKeepValid(st, 0, Minutes(ev), now);
    }
  }
}
