# Donation stream timer, modelled in Dafny

A countdown widget for live streams. It keeps three variables: the seconds
left while paused, the wall-clock deadline while running, and whether it is
paused. Two kinds of input change them:

- Events from a streaming bot. A Ko-fi donation, commission, subscription
  or shop order, or a Twitch subscription, gift, shared-chat subscription
  or cheer, adds the minutes `calculateExtraMinutes` gives it.
- Chat commands `!time <action> <duration>` (or `time ...`) from the
  broadcaster or a moderator. The actions are pause, resume, start, add,
  sub/subtract and set. The duration text is read by `parseHumanTime`,
  either as `M:S` / `H:M:S` or as a sum of tokens such as `1h 20m`.

The display is `formatTime` of `getRemainingSeconds`.

The modules follow the script:

- `Text`: the JavaScript string built-ins the script uses, over `seq<char>`.
  These are `trim`, `toLowerCase`, `startsWith`, `replace` with a string
  pattern, `split`, `join` and `parseInt` on digits.
- `Config`: the `setup` constants.
- `Duration`: `parseHumanTime`. A specification function and a method whose
  `while` loop replaces the global-regex loop.
- `Format`: `formatTime`.
- `Valuation`: `calculateExtraMinutes`.
- `Timer`: the three variables as a value, with one transition per branch
  of the command switch and of the event credit.
- `Chat`: `handleTwitchChatMessage` as a function of the state, the
  message text, the badge names and the time.
- `Router`: `ws.onmessage` on an already decoded event.
- `Widget`: the class `TimerWidget`, holding the three variables as fields.
  Its methods update the fields as the script does. Each is proved to move
  the state exactly as the functions of `Timer`, `Chat` and `Router` say.

`Date.now()` is a parameter `now`, in milliseconds. `Math.floor` of a
quotient with a positive divisor is Dafny's `/`. Dafny has no built-in
`Math.max`, so `Timer.Max` defines the maximum of two integers.

Behaviour modelled as the code has it:

- The event handler puts a subscription's tier into `amount` and calls
  `calculateExtraMinutes` with three arguments. So `tier` is always
  absent and every Twitch "Sub" and "ReSub" is worth the tier-1 minutes
  (`Router.SubscriptionIsTierOne`, `Router.TierThreeSubscription`).
- `replace` removes only the first "!time", then the first "time". A
  message "!timer pause" therefore reads as the action "r"
  (`Chat.GluedPrefixIgnored`), and "!time settime 5m" as "set 5m"
  (`Chat.ActionGluedToTime`).
- A number without a unit, such as "!time add 90", parses to 0 and adds
  nothing (`Duration.BareNumberGivesZero`).
- `split(" ")` keeps empty pieces. After two spaces the duration text
  begins with a space, which the parser trims (`Chat.DoubleSpaceKept`).
- "set" runs the timer whatever the parser returns, 0 included, because its
  `>= 0` guard always holds.
- Subtracting while running moves the deadline back without a floor.
- The colon form puts no range check on minutes or seconds.
- A unit match ends at the unit's first letter, because the regex lists
  the single letter first. The rest of a word such as "hours" is then
  skipped like any other text, which gives the same sums.

## Model

| member | source | states |
|---|---|---|
| Text.LowerChar | script.js:104 | each capital A-Z becomes the same letter in lower case, every other character is kept, so no upper-case letter is left and digits and white space stay as they are |
| Text.DigitValue | script.js:125 | a digit's value is below 10 |
| Text.Lower | script.js:104 | `toLowerCase` keeps the length and lowers each character in place |
| Text.LowerIdentity | script.js:141 | text with no upper-case letter is unchanged by `toLowerCase` |
| Text.LowerTwice | script.js:104 | lower-casing twice is lower-casing once |
| Text.LowerConcat | script.js:104 | lower-casing a concatenation lower-cases each part |
| Text.TrimStart | script.js:104 | what is left is a suffix of the input that does not begin with white space, and everything cut off before it is white space |
| Text.TrimEnd | script.js:104 | what is left is a prefix of the input that does not end with white space, and everything cut off after it is white space |
| Text.Trim | script.js:141 | the trimmed text is a slice of the input with only white space before and after it, and neither begins nor ends with white space |
| Text.TrimIdentity | script.js:154 | text that neither begins nor ends with white space is its own trim |
| Text.TrimLeadingSpace | script.js:154 | one white-space character before trimmed text is removed by `trim` |
| Text.TrimChars | script.js:104 | every character of the trimmed text comes from the input |
| Text.LowerTrimStart | script.js:104 | removing leading white space commutes with lower-casing |
| Text.LowerTrimEnd | script.js:104 | removing trailing white space commutes with lower-casing |
| Text.LowerTrim | script.js:104 | `toLowerCase().trim()` is `trim().toLowerCase()` |
| Text.RemoveFirst | script.js:154 | `replace(pat, "")` changes nothing when `pat` does not occur |
| Text.RemoveFirstKeepsRest | script.js:154 | only the first occurrence goes: whatever follows it is kept, later occurrences included |
| Text.RemoveFirstLeftmost | script.js:154 | the leftmost occurrence is the one removed: with no earlier occurrence of `pat` in `x`, `x + pat + y` becomes `x + y` |
| Text.LateCharNoMatch | script.js:154 | a pattern whose j-th character appears in the text only too late to start an occurrence does not occur |
| Text.MissingCharNoMatch | script.js:154 | a pattern holding a character the text lacks does not occur in it |
| Text.NoMatchAcrossSpace | script.js:154 | a pattern without a space that occurs in neither of two texts does not occur in them joined by a space |
| Text.ConcatChars | script.js:141 | a character property of two texts holds of their concatenation |
| Text.Split | script.js:155 | `split` always gives at least one piece |
| Text.JoinSplit | script.js:157 | joining the pieces of a split with the same separator gives the text back |
| Text.SplitNoSeparator | script.js:108 | text without the separator splits into itself alone |
| Text.SplitAtFirst | script.js:155-156 | text splits at its first separator into the part before it and the pieces of the rest |
| Text.JoinChars | script.js:157 | every character of a join is the separator or a character of a piece |
| Text.Repeat | script.js:51-53 | the fill repeated n times |
| Duration.DigitEnd | script.js:121 | the end of the digit run lies between its start and the end of the text |
| Duration.SpaceEnd | script.js:121 | the end of the white-space run lies between its start and the end of the text |
| Duration.MatchAt | script.js:121-124 | each attempt of the regex moves strictly forward and stays within the text |
| Duration.ParseHumanTime | script.js:102-134 | the parser returns exactly the specified value `HumanSeconds` of its input |
| Duration.ScanUnits | script.js:120-131 | the `regex.exec` loop returns the sum of every `<digits><spaces><h/m/s>` match, scanning left to right |
| Duration.ReadDigits | script.js:121-125 | `(\d+)` reads the whole digit run, and its value is `parseInt` of that run |
| Duration.SkipSpaces | script.js:121 | `\s*` stops at the first character that is not white space |
| Duration.HumanSecondsOfNormal | script.js:102-107 | text already trimmed and lower-case goes straight to the colon form or the unit scan |
| Duration.LeadingSpaceIgnored | script.js:104 | a white-space character before any text does not change its value |
| Duration.HumanSecondsIgnoresCase | script.js:104 | upper and lower case read the same: `parseHumanTime` of the lower-cased text is that of the text |
| Duration.ColonText | script.js:107-108 | runs of digits joined by colons split back into those runs and need no trimming or lowering |
| Duration.ColonRead | script.js:107-116 | two or three digit runs joined by colons are in the colon form, read by `ColonValue`, and split back into those runs |
| Duration.MinutesSecondsForm | script.js:109-112 | "M:S" is read as M*60 + S, with no range check |
| Duration.HoursMinutesSecondsForm | script.js:113-116 | "H:M:S" is read as H*3600 + M*60 + S, with no range check |
| Duration.ColonFormChars | script.js:107 | text of the colon form begins with a digit and holds only digits and colons |
| Duration.SkipNonDigits | script.js:124 | a stretch with no digit adds nothing to the scan |
| Duration.NoDigitsGivesZero | script.js:102-134 | text with no digit, the empty text included, parses to 0 |
| Duration.NoMatchScansToZero | script.js:120-131 | when no digit run is followed, after optional white space, by h, m or s, the regex loop adds nothing |
| Duration.NoTokenGivesZero | script.js:102-134 | text that is neither in the colon form nor holds a `digits [spaces] h/m/s` match parses to 0, digits or not |
| Duration.BareNumberGivesZero | script.js:102-134 | a bare number such as "90", without a unit, parses to 0 |
| Duration.RegexUnitsAreUnitWords | script.js:121 | every unit word of the regex begins with h, m or s |
| Duration.DigitEndAt | script.js:121 | the digit run ends at the first non-digit |
| Duration.SpaceEndAt | script.js:121 | the white-space run ends at the first non-space |
| Duration.TokenLayout | script.js:121 | where the digits, the gap and the unit word of a token sit in its text |
| Duration.UnitSumAtNumber | script.js:124-130 | a match adds its value scaled by its unit letter, and the scan goes on after the letter |
| Duration.ScanToken | script.js:124-130 | a token adds its value and the scan goes on after the whole token |
| Duration.TokenHead | script.js:121-130 | the scan at a token's first digit matches its number and unit letter |
| Duration.TokenTail | script.js:121 | the rest of a unit word adds nothing |
| Duration.ScanRender | script.js:120-131 | scanning tokens written one after another sums their values |
| Duration.SkipNonDigit | script.js:124 | a position without a digit adds nothing |
| Duration.ScanTokenThenSpace | script.js:120-131 | a token and the space after it add the token's value, and the scan goes on after the space |
| Duration.ScanRenderMore | script.js:120-131 | after a first token worth `head` and a space, the scan of the rest adds the rest's values |
| Duration.RenderShape | script.js:104-107 | written-out tokens are lower-case, begin with a digit, end without white space, and hold a unit letter after the first token's digits and gap |
| Duration.RenderedTokensSum | script.js:102-134 | parsing written-out tokens gives the sum of digits times 3600, 60 or 1 by each unit's first letter |
| Duration.TotalAppend | script.js:128-130 | the values of two token lists add up |
| Duration.TokenOrderIrrelevant | script.js:120-131 | the order of the tokens does not change the parsed duration |
| Config.TwitchCheerTimeIncrement | script.js:30 | `Math.floor(bits / 100)`: the minutes times 100 is at most the bits, and the bits fall short of the next hundred |
| Format.DigitChar | script.js:51-53 | the numeral of a digit is a digit character with that value |
| Format.PadStart | script.js:51-53 | `padStart` reaches the width (or keeps a longer text), ends with the text, and fills the front |
| Format.DigitsValueSnoc | script.js:51-53 | appending a digit multiplies the value by 10 and adds the digit |
| Format.ToDecimalReadsBack | script.js:51-53 | `toString` gives digits that read back as the number, with a leading zero only in "0", one digit exactly below 10 |
| Format.LeadingZeros | script.js:51-53 | zeros padded in front do not change the value |
| Format.FieldReadsBack | script.js:51-53 | each padded field is all digits, at least two long, exactly two below 100, and reads back as its number |
| Format.ThreeFields | script.js:55 | where the fields and colons of `h:m:s` sit |
| Format.SplitSeconds | script.js:46-49 | hours, minutes and seconds as computed add back up to the input, minutes and seconds below 60 |
| Format.FormatTimeFields | script.js:45-56 | the display is `HH:MM:SS` read from the right: two-digit minutes and seconds below 60, hours of at least two digits, and the fields add up to the input |
| Format.FormatTimeWidth | script.js:45-56 | below 100 hours the display is exactly eight characters |
| Format.FormatTimeRoundTrip | script.js:45-56 | the duration parser reads the display back as the seconds it was made from |
| Format.FormatTimeInjective | script.js:45-56 | different durations are displayed differently |
| Valuation.ExtraMinutes | script.js:65-99 | an unknown source is worth 0 minutes, and a non-negative amount never gives negative minutes |
| Valuation.SubscriptionTiers | script.js:80-89 | a Twitch sub or resub is worth its tier's entry of the table, and a missing or unknown tier the tier-1 entry, whatever the amount |
| Valuation.DonationRate | script.js:68-70 | a Ko-fi donation or commission is worth 2 minutes per unit of currency, positive exactly when the amount is |
| Valuation.CheerRate | script.js:94 | a cheer is worth a minute per whole hundred bits, positive exactly from 100 bits |
| Valuation.CheerExamples | script.js:30 | 250 bits give 2 minutes, 99 give 0, and -50 give -1 |
| Valuation.AmountMonotone | script.js:65-99 | a larger amount or more bits is never worth fewer minutes |
| Valuation.FlatKinds | script.js:71-93 | Ko-fi subscriptions give 30 and shop orders 15; Twitch gift subs 15 and shared-chat subs, resubs and gifts 30, 30 and 15, whatever the amount |
| Valuation.UnknownEventsWorthNothing | script.js:65-99 | an unknown source, or a kind its source does not list, is worth 0 |
| Valuation.WorthSomethingOnlyIfKnown | script.js:65-99 | only the listed kinds of the two sources can be worth a non-zero amount |
| Timer.SecondsUntil | script.js:59-62 | whole seconds to the deadline, rounded down, and 0 once it has passed |
| Timer.TimerState.Remaining | script.js:59-62 | the stored seconds while paused, the seconds to the deadline while running, never negative in a valid state |
| Timer.Initial | script.js:39-42 | the widget starts paused with nothing left |
| Timer.PauseFreezesReadout | script.js:160-165 | pausing keeps the read-out of that moment, and it no longer changes with time |
| Timer.PauseWhileRunning | script.js:161-164 | a running pause stores the seconds to the deadline rounded down and keeps the deadline |
| Timer.PauseIdempotent | script.js:160-165 | pausing a paused timer changes nothing, so pausing twice is pausing once |
| Timer.ResumePauseRoundTrip | script.js:160-172 | resuming and pausing at the same moment gives back the stored seconds |
| Timer.ResumeWhileRunning | script.js:167-172 | resuming a running timer changes nothing, and after a resume the timer runs |
| Timer.ResumeCountsDown | script.js:167-172 | after a resume the read-out falls by one per elapsed second from the stored seconds, stopping at 0 |
| Timer.AddKeepsPaused | script.js:195-205 | "add" never pauses or resumes, and a non-positive duration changes nothing |
| Timer.AddMovesReadout | script.js:195-205 | "add" raises the read-out by exactly the amount while paused and never lowers it while running |
| Timer.SubtractClamps | script.js:207-218 | while paused "subtract" stops at 0 |
| Timer.SubtractExample | script.js:211-212 | 10 seconds less 100 leave 0 |
| Timer.SubtractWhileRunning | script.js:213-215 | while running "subtract" moves the deadline back by the full amount; past the present the read-out is 0 |
| Timer.AddSubtractRoundTrip | script.js:195-218 | subtracting what was just added gives the state back |
| Timer.CreditIsAdd | script.js:296-302 | an event credit of m minutes is an "add" of 60*m seconds |
| Timer.CreditKeepsPaused | script.js:296-302 | a credit never pauses or resumes, and a non-positive one changes nothing |
| Timer.SetAlwaysRuns | script.js:220-229 | any parsed duration, 0 included, becomes the time left and the timer runs |
| Timer.StartWithDuration | script.js:176-181 | "start" with a positive duration is "set" |
| Timer.StartWithoutDuration | script.js:182-191 | "start" without a duration resumes a paused timer with time left and otherwise changes nothing |
| Timer.TransitionsKeepValid | script.js:159-230 | no transition makes the stored seconds negative |
| Chat.Normalize | script.js:141 | the normalized text has no upper-case letter and neither begins nor ends with white space |
| Chat.WithoutPrefixIgnored | script.js:144 | a message not beginning with "!time" or "time" changes nothing |
| Chat.WithoutBadgeIgnored | script.js:147-151 | a sender the gate does not permit, or with no badges, changes nothing |
| Chat.ModeratorLikeBroadcaster | script.js:147-151 | moderators being allowed, a moderator's message acts as the broadcaster's |
| Chat.AcceptedIsDispatched | script.js:144-159 | a permitted message with the prefix is its command, dispatched |
| Chat.UnknownActionIgnored | script.js:159-230 | an action the switch does not know changes nothing |
| Chat.NormalizeIgnoresCase | script.js:141 | lower-cased text normalizes as the text does |
| Chat.StepIgnoresCase | script.js:141-230 | a message acts the same as its lower-cased form |
| Chat.NormalizeIdentity | script.js:141 | trimmed lower-case text is its own normal form |
| Chat.CleanedGlued | script.js:154 | for "!time" glued to trimmed text without "time", the two replaces and the trim leave that text |
| Chat.CleanedBody | script.js:154 | for "!time body" or "time body", with a body free of "time" and "!", the replaces and the trim leave the body |
| Chat.BodyParts | script.js:155-157 | the body splits into the action word and the rest, joined back exactly |
| Chat.PlainWordFacts | script.js:159-220 | a plain action word has no "time", space, "!" or upper-case letter in it |
| Chat.BodyFacts | script.js:154-157 | "action arg" is trimmed, lower-case and free of "time" and "!" |
| Chat.PrefixFacts | script.js:144 | both prefixes pass the prefix check and are lower-case |
| Chat.RawFacts | script.js:141-144 | "prefix body" is already normal and passes the prefix check |
| Chat.RawFactsFor | script.js:141-144 | the same, for any prefix that passes the check |
| Chat.PrefixExtends | script.js:144 | text that begins with a prefix still does after more is appended |
| Chat.CommandOf | script.js:141-157 | "prefix action duration" reads as that action and that duration text |
| Chat.ReadBody | script.js:141-157 | "prefix body" for such a body is already normal, has the prefix, and reads as the body's first piece and the rest |
| Chat.BroadcasterCommand | script.js:137-230 | such a command from the broadcaster is dispatched as written |
| Chat.AnyCaseCommand | script.js:141-230 | whatever its case, a broadcaster's command is dispatched as its lower-case form reads |
| Chat.BareCommandOf | script.js:141-157 | "prefix action" alone reads as that action with empty duration text |
| Chat.AnyCaseBareCommand | script.js:141-230 | whatever its case, a broadcaster's bare action is dispatched with empty duration text |
| Chat.UpperCasePauseLowered | script.js:141 | "!TIME pause" lower-cases to "!time pause" |
| Chat.UpperCasePause | script.js:141-165 | the broadcaster's "!TIME pause" is obeyed as a pause |
| Chat.DoubleSpaceCommand | script.js:155-157 | with two spaces after the action, the duration text keeps one leading space |
| Chat.DispatchBySeconds | script.js:159-230 | the switch reads the duration text only through the parser |
| Chat.CommandMeaning | script.js:159-230 | a command whose duration text parses like another is dispatched as the other |
| Chat.DoubleSpaceKept | script.js:154-230 | the extra space changes nothing: the command acts as with one space |
| Chat.GluedCommand | script.js:154-156 | for "!time" glued to a word, the action is the rest of the word, as in "!timer" giving "r" |
| Chat.GluedRest | script.js:141 | "!time" glued to lower-case text that ends without white space is already normal |
| Chat.GluedPrefixIgnored | script.js:154-230 | such a message, when the rest of the word is not an action, changes nothing |
| Chat.TimeCutFromBody | script.js:154 | after "!time" is cut, the second `replace` cuts the first "time" of the rest, even inside a word |
| Chat.ActionGluedToTime | script.js:141-157 | "!time settime 5m" and the like read as the action "set" and the duration "5m" |
| Chat.GluedTimeRead | script.js:154-157 | "!time <action>time <arg>" splits into the action and the duration text |
| Chat.GluedTimeNormal | script.js:141-144 | "!time <action>time <arg>" is already normal and has the prefix |
| Chat.GluedTimeCleaned | script.js:154 | the replaces and the trim leave "<action> <arg>" of "!time <action>time <arg>" |
| Chat.GluedTimeFacts | script.js:141-144 | "!time <word> <arg>" is already normal and has the prefix for a lower-case word and argument |
| Chat.DispatchKeepsValid | script.js:159-230 | no action makes the stored seconds negative |
| Chat.StepKeepsValid | script.js:137-231 | no chat message makes the stored seconds negative |
| Router.ChatTextChoice | script.js:141 | the chat text is `data.text` when present and not empty, else `data.message.message`, else empty |
| Router.SubscriptionIsTierOne | script.js:289-294 | every Twitch sub and resub is credited 30 minutes, whatever its tier |
| Router.TierThreeSubscription | script.js:80-84 | a tier-3 sub, worth 60 by the table, is credited 30 |
| Router.DonationCredit | script.js:286 | a Ko-fi donation or commission credits twice its amount in minutes, and nothing when the amount is not positive |
| Router.CheerCredit | script.js:288 | a cheer credits its bits divided by 100, rounded down, and nothing below 100 bits |
| Router.UnknownSourceIgnored | script.js:271-303 | an event from another source changes nothing |
| Router.ChatMessageIsCommand | script.js:280-283 | a Twitch chat message goes only to the command handler, and without a badge changes nothing |
| Router.EventsOnlyAddTime | script.js:286-302 | an event that is not a chat message never pauses, resumes or takes time off |
| Router.PausedCreditExact | script.js:296-299 | while paused an event adds exactly its minutes |
| Router.HandleKeepsValid | script.js:271-303 | no event makes the stored seconds negative |
| Widget.TimerWidget.constructor | script.js:39-42 | the fields start as the initial state |
| Widget.TimerWidget.GetRemainingSeconds | script.js:59-62 | returns the read-out of the current state, never negative |
| Widget.TimerWidget.UpdateDisplay | script.js:234-238 | returns the read-out and its `formatTime` text, which the parser reads back as the read-out |
| Widget.TimerWidget.Pause | script.js:160-165 | the "pause" branch updates the fields as `TimerState.Pause` says |
| Widget.TimerWidget.Resume | script.js:167-172 | the "resume" branch updates the fields as `TimerState.Resume` says |
| Widget.TimerWidget.Start | script.js:173-193 | the "start" branch updates the fields as `TimerState.Start` says |
| Widget.TimerWidget.Add | script.js:195-205 | the "add" branch updates the fields as `TimerState.Add` says |
| Widget.TimerWidget.Subtract | script.js:207-218 | the "sub"/"subtract" branch updates the fields as `TimerState.Subtract` says |
| Widget.TimerWidget.Set | script.js:220-229 | the "set" branch updates the fields as `TimerState.Set` says |
| Widget.TimerWidget.Credit | script.js:296-302 | the event credit updates the fields as `TimerState.Credit` says |
| Widget.TimerWidget.HandleTwitchChatMessage | script.js:137-231 | updates the fields exactly as `Chat.Step` says and keeps them valid |
| Widget.TimerWidget.RunCommand | script.js:159-230 | the command switch updates the fields exactly as `Chat.Dispatch` says |
| Widget.TimerWidget.OnMessage | script.js:271-303 | updates the fields exactly as `Router.Handle` says and keeps them valid |

## Left out

- The WebSocket, the subscription request, `onerror` and JSON decoding. An
  event arrives as a decoded `Router.Event`. A missing `event.source` or
  `event.type` is a text that none of the comparisons accept.
- Badge objects are reduced to the list of their names.
- Writing to the page, `requestAnimationFrame` and console output.
  `UpdateDisplay` returns the text instead of writing it.
- The wall clock. `Date.now()` is the parameter `now`.
- `parseFloat` of the Ko-fi amount and `|| 0`. Amounts and bits arrive as
  whole numbers, with 0 for a missing or unparseable amount. Fractional
  donations would make the remaining time fractional and are not modelled.
- The tier of a "Sub" or "ReSub": the handler stores the tier
  text (or "1000") in `amount`. The model uses 0, because the valuation
  never reads the amount of a subscription (`Valuation.SubscriptionTiers`).
- JavaScript numbers are unbounded integers here. Rounding above 2^53 and
  the exponent form of `toString` for very large numbers are not modelled.
- `toLowerCase` lowers ASCII letters only. Strings are sequences of
  characters, not UTF-16 code units.
- The regex engine. The global `regex.exec` loop is written as a
  left-to-right scan, which finds the same matches.
- `formatTime` of a negative or fractional number. The read-out is never
  negative and always whole.
