/**
 * `handleTwitchChatMessage`: the chat command front end and its command
 * switch.  The message text is lower-cased and trimmed, must begin with
 * "!time" or "time", and is obeyed only when the sender has the
 * broadcaster badge, or the moderator badge while moderators are allowed.
 * The first "!time" and then the first "time" are cut out, the rest is
 * trimmed and split at single spaces: the first piece is the action, the
 * others joined again by single spaces are the duration text.
 */
module Chat {
  import opened Text
  import opened Config
  import opened Duration
  import opened Timer

  /** `text.toLowerCase().trim()`. */
  function Normalize(raw: string): (text: string)
    ensures forall i | 0 <= i < |text| :: !IsUpper(text[i])
    ensures text != [] ==> !IsSpace(text[0]) && !IsSpace(text[|text| - 1])
  {
    TrimChars(Lower(raw), c => !IsUpper(c));
    Trim(Lower(raw))
  }

  /** The prefix check. */
  predicate HasPrefix(text: string) {
    StartsWith(text, "!time") || StartsWith(text, "time")
  }

  /** The permission gate, over the names of the sender's badges. */
  predicate Permitted(badges: seq<string>) {
    "broadcaster" in badges || (AllowMods && "moderator" in badges)
  }

  /** The text without its prefix: `replace("!time", "")`, then
      `replace("time", "")`, then `trim()`. */
  function Cleaned(text: string): string {
    Trim(RemoveFirst(RemoveFirst(text, "!time"), "time"))
  }

  /** The action and the duration text: `split(" ")`, the first piece, and
      the others joined by " ". */
  function Command(text: string): (string, string) {
    var parts := Split(Cleaned(text), ' ');
    (parts[0], Join(parts[1..], ' '))
  }

  /** The command switch.  An action it does not know changes nothing. */
  function Dispatch(st: TimerState, action: string, timeString: string, now: int): TimerState {
    if action == "pause" then st.Pause(now)
    else if action == "resume" then st.Resume(now)
    else if action == "start" then st.Start(HumanSeconds(timeString), now)
    else if action == "add" then st.Add(HumanSeconds(timeString))
    else if action == "sub" || action == "subtract" then st.Subtract(HumanSeconds(timeString))
    else if action == "set" then st.Set(HumanSeconds(timeString), now)
    else st
  }

  /** One chat message from a sender with the given badge names. */
  function Step(st: TimerState, raw: string, badges: seq<string>, now: int): TimerState {
    var text := Normalize(raw);
    if !HasPrefix(text) || !Permitted(badges) then st
    else
      var (action, timeString) := Command(text);
      Dispatch(st, action, timeString, now)
  }

  const Actions: set<string> := {"pause", "resume", "start", "add", "sub", "subtract", "set"}

  // ---- The gate ----

  /** A message that does not begin with "!time" or "time" changes nothing. */
  lemma WithoutPrefixIgnored(st: TimerState, raw: string, badges: seq<string>, now: int)
    requires !HasPrefix(Normalize(raw))
    ensures Step(st, raw, badges, now) == st
  {
  }

  /** A sender with neither badge, or with no badges at all, changes nothing. */
  lemma WithoutBadgeIgnored(st: TimerState, raw: string, badges: seq<string>, now: int)
    requires !Permitted(badges)
    ensures Step(st, raw, badges, now) == st
    ensures Step(st, raw, [], now) == st
  {
  }

  /** A moderator may do whatever the broadcaster may, moderators being allowed. */
  lemma ModeratorLikeBroadcaster(st: TimerState, raw: string, badges: seq<string>, now: int)
    requires AllowMods && "moderator" in badges
    ensures Step(st, raw, badges, now) == Step(st, raw, ["broadcaster"], now)
  {
  }

  /** A permitted message with the prefix is its command, dispatched. */
  lemma AcceptedIsDispatched(st: TimerState, raw: string, badges: seq<string>, now: int)
    requires HasPrefix(Normalize(raw)) && Permitted(badges)
    ensures Step(st, raw, badges, now)
         == Dispatch(st, Command(Normalize(raw)).0, Command(Normalize(raw)).1, now)
  {
  }

  /** Upper and lower case are one to the front end. */
  lemma NormalizeIgnoresCase(raw: string)
    ensures Normalize(Lower(raw)) == Normalize(raw)
  {
    LowerTwice(raw);
  }

  lemma StepIgnoresCase(st: TimerState, raw: string, badges: seq<string>, now: int)
    ensures Step(st, Lower(raw), badges, now) == Step(st, raw, badges, now)
  {
    NormalizeIgnoresCase(raw);
  }

  /** An action the switch does not know changes nothing. */
  lemma UnknownActionIgnored(st: TimerState, action: string, timeString: string, now: int)
    requires action !in Actions
    ensures Dispatch(st, action, timeString, now) == st
  {
  }

  // ---- Reading a command ----

  /** Text that is already trimmed and lower-case is its own normal form. */
  lemma NormalizeIdentity(raw: string)
    requires raw != [] && !IsSpace(raw[0]) && !IsSpace(raw[|raw| - 1])
    requires forall i | 0 <= i < |raw| :: !IsUpper(raw[i])
    ensures Normalize(raw) == raw
  {
    LowerIdentity(raw);
    TrimIdentity(raw);
  }

  /** "!time" glued to the text after it: the first `replace` takes the
      "!time" off, and the second finds no "time" to take. */
  lemma {:induction false} CleanedGlued(rest: string)
    requires rest != [] && !IsSpace(rest[0]) && !IsSpace(rest[|rest| - 1])
    requires !ContainsSub(rest, "time")
    ensures Cleaned("!time" + rest) == rest
  {
    RemoveFirstKeepsRest("!time", rest);
    TrimIdentity(rest);
  }

  /** What `replace` and `trim` leave of "!time <body>" or "time <body>"
      when the body has no "time" or "!" in it and is already trimmed. */
  lemma {:induction false} CleanedBody(prefix: string, body: string)
    requires prefix == "!time" || prefix == "time"
    requires body != [] && !IsSpace(body[0]) && !IsSpace(body[|body| - 1])
    requires !ContainsSub(body, "time") && '!' !in body
    ensures Cleaned(prefix + " " + body) == body
  {
    var s := prefix + " " + body;
    var tail := " " + body;
    assert s == prefix + tail;
    if prefix == "!time" {
      RemoveFirstKeepsRest("!time", tail);
      NoMatchAcrossSpace([], body, "time");
      assert [] + " " + body == tail;
    } else {
      assert '!' !in s;
      MissingCharNoMatch(s, "!time", '!');
      RemoveFirstKeepsRest("time", tail);
    }
    TrimLeadingSpace(' ', body);
  }

  /** The body of a command splits at its first space into the action and
      the duration text. */
  lemma {:induction false} BodyParts(action: string, arg: string)
    requires ' ' !in action
    ensures var parts := Split(action + " " + arg, ' ');
      parts[0] == action && Join(parts[1..], ' ') == arg
  {
    SplitAtFirst(action, arg, ' ');
    JoinSplit(arg, ' ');
    assert action + " " + arg == action + [' '] + arg;
  }

  /** A word of lower-case letters other than `i`: every action the switch
      knows is one, and none contains "time". */
  predicate PlainWord(w: string) {
    w != [] && forall k | 0 <= k < |w| :: 'a' <= w[k] <= 'z' && w[k] != 'i'
  }

  lemma PlainWordFacts(w: string)
    requires PlainWord(w)
    ensures !ContainsSub(w, "time") && ' ' !in w && '!' !in w
    ensures !IsSpace(w[0]) && forall k | 0 <= k < |w| :: !IsUpper(w[k])
  {
    assert 'i' !in w;
    MissingCharNoMatch(w, "time", 'i');
  }

  /** "<action> <arg>" is trimmed, lower-case and free of "time" and "!". */
  lemma {:induction false} BodyFacts(action: string, arg: string)
    requires PlainWord(action)
    requires arg != [] && !IsSpace(arg[|arg| - 1])
    requires forall i | 0 <= i < |arg| :: !IsUpper(arg[i])
    requires !ContainsSub(arg, "time") && '!' !in arg
    ensures var body := action + " " + arg;
      && body != [] && !IsSpace(body[0]) && !IsSpace(body[|body| - 1])
      && !ContainsSub(body, "time") && '!' !in body
      && forall i | 0 <= i < |body| :: !IsUpper(body[i])
  {
    var body := action + " " + arg;
    PlainWordFacts(action);
    NoMatchAcrossSpace(action, arg, "time");
    assert body[0] == action[0] && body[|body| - 1] == arg[|arg| - 1];
    ConcatChars(action, " ", c => !IsUpper(c));
    ConcatChars(action + " ", arg, c => !IsUpper(c));
  }

  /** The two prefixes are lower-case words that pass the prefix check. */
  lemma PrefixFacts(prefix: string)
    requires prefix == "!time" || prefix == "time"
    ensures prefix != [] && !IsSpace(prefix[0]) && HasPrefix(prefix)
    ensures forall i | 0 <= i < |prefix| :: !IsUpper(prefix[i])
  {
  }

  /** "<prefix> <body>" for such a body is already normal and has the prefix. */
  lemma {:induction false} RawFacts(prefix: string, body: string)
    requires prefix == "!time" || prefix == "time"
    requires body != [] && !IsSpace(body[|body| - 1])
    requires forall i | 0 <= i < |body| :: !IsUpper(body[i])
    ensures Normalize(prefix + " " + body) == prefix + " " + body
    ensures HasPrefix(prefix + " " + body)
  {
    PrefixFacts(prefix);
    RawFactsFor(prefix, body);
  }

  lemma {:induction false} RawFactsFor(prefix: string, body: string)
    requires prefix != [] && !IsSpace(prefix[0]) && HasPrefix(prefix)
    requires forall i | 0 <= i < |prefix| :: !IsUpper(prefix[i])
    requires body != [] && !IsSpace(body[|body| - 1])
    requires forall i | 0 <= i < |body| :: !IsUpper(body[i])
    ensures Normalize(prefix + " " + body) == prefix + " " + body
    ensures HasPrefix(prefix + " " + body)
  {
    var raw := prefix + " " + body;
    assert raw == prefix + (" " + body);
    assert Normalize(raw) == raw by {
      ConcatChars(prefix, " ", c => !IsUpper(c));
      ConcatChars(prefix + " ", body, c => !IsUpper(c));
      assert raw[0] == prefix[0] && raw[|raw| - 1] == body[|body| - 1];
      NormalizeIdentity(raw);
    }
    if StartsWith(prefix, "!time") {
      PrefixExtends(prefix, " " + body, "!time");
    } else {
      PrefixExtends(prefix, " " + body, "time");
    }
  }

  lemma PrefixExtends(p: string, r: string, q: string)
    requires StartsWith(p, q)
    ensures StartsWith(p + r, q)
  {
    assert (p + r)[..|q|] == p[..|q|];
  }

  /** "<prefix> <action> <duration>" reads as that action and that duration
      text, for a plain action word and duration text that is trimmed,
      lower-case and free of "time" and "!". */
  lemma {:induction false} CommandOf(prefix: string, action: string, arg: string)
    requires prefix == "!time" || prefix == "time"
    requires PlainWord(action)
    requires arg != [] && !IsSpace(arg[|arg| - 1])
    requires forall i | 0 <= i < |arg| :: !IsUpper(arg[i])
    requires !ContainsSub(arg, "time") && '!' !in arg
    ensures var raw := prefix + " " + action + " " + arg;
      Normalize(raw) == raw && HasPrefix(raw) && Command(raw) == (action, arg)
  {
    var body := action + " " + arg;
    BodyFacts(action, arg);
    BodyParts(action, arg);
    ReadBody(prefix, body, action, arg);
    SpaceRegroup(prefix, action, arg);
  }

  /** "<prefix> <body>" for a trimmed, lower-case body free of "time" and "!"
      reads as the pieces of the body. */
  lemma ReadBody(prefix: string, body: string, action: string, arg: string)
    requires prefix == "!time" || prefix == "time"
    requires body != [] && !IsSpace(body[0]) && !IsSpace(body[|body| - 1])
    requires !ContainsSub(body, "time") && '!' !in body
    requires forall i | 0 <= i < |body| :: !IsUpper(body[i])
    requires Split(body, ' ')[0] == action && Join(Split(body, ' ')[1..], ' ') == arg
    ensures var raw := prefix + " " + body;
      Normalize(raw) == raw && HasPrefix(raw) && Command(raw) == (action, arg)
  {
    RawFacts(prefix, body);
    CleanedBody(prefix, body);
  }

  /** Such a command from the broadcaster is dispatched as written. */
  lemma {:induction false} BroadcasterCommand(st: TimerState, prefix: string, action: string, arg: string, now: int)
    requires prefix == "!time" || prefix == "time"
    requires PlainWord(action)
    requires arg != [] && !IsSpace(arg[|arg| - 1])
    requires forall i | 0 <= i < |arg| :: !IsUpper(arg[i])
    requires !ContainsSub(arg, "time") && '!' !in arg
    ensures Step(st, prefix + " " + action + " " + arg, ["broadcaster"], now) == Dispatch(st, action, arg, now)
  {
    CommandOf(prefix, action, arg);
  }

  /** "<prefix> <action>" alone reads as that action with empty duration text. */
  lemma {:induction false} BareCommandOf(prefix: string, action: string)
    requires prefix == "!time" || prefix == "time"
    requires PlainWord(action)
    ensures var raw := prefix + " " + action;
      Normalize(raw) == raw && HasPrefix(raw) && Command(raw) == (action, [])
  {
    PlainWordFacts(action);
    assert !IsSpace(action[|action| - 1]);
    RawFacts(prefix, action);
    CleanedBody(prefix, action);
    SplitNoSeparator(action, ' ');
  }

  /** Whatever its case, a broadcaster's bare action is dispatched with empty
      duration text. */
  lemma {:induction false} AnyCaseBareCommand(st: TimerState, raw: string, prefix: string, action: string, now: int)
    requires Lower(raw) == prefix + " " + action
    requires prefix == "!time" || prefix == "time"
    requires PlainWord(action)
    ensures Step(st, raw, ["broadcaster"], now) == Dispatch(st, action, [], now)
  {
    StepIgnoresCase(st, raw, ["broadcaster"], now);
    BareCommandOf(prefix, action);
  }

  lemma UpperCasePauseLowered(raw: string)
    requires raw == "!TIME pause"
    ensures Lower(raw) == "!time" + " " + "pause"
  {
    var up, rest := "!TIME", " pause";
    assert raw == up + rest;
    LowerConcat(up, rest);
    assert Lower(up) == "!time";
    LowerIdentity(rest);
  }

  /** The broadcaster's "!TIME pause" is obeyed: the text is lower-cased first. */
  lemma UpperCasePause(st: TimerState, raw: string, now: int)
    requires raw == "!TIME pause"
    ensures Step(st, raw, ["broadcaster"], now) == st.Pause(now)
  {
    UpperCasePauseLowered(raw);
    assert PlainWord("pause");
    AnyCaseBareCommand(st, raw, "!time", "pause", now);
  }

  /** Whatever its case, a broadcaster's command is dispatched as its lower-case form reads. */
  lemma {:induction false} AnyCaseCommand(st: TimerState, raw: string, prefix: string, action: string, arg: string, now: int)
    requires Lower(raw) == prefix + " " + action + " " + arg
    requires prefix == "!time" || prefix == "time"
    requires PlainWord(action)
    requires arg != [] && !IsSpace(arg[|arg| - 1])
    requires forall i | 0 <= i < |arg| :: !IsUpper(arg[i])
    requires !ContainsSub(arg, "time") && '!' !in arg
    ensures Step(st, raw, ["broadcaster"], now) == Dispatch(st, action, arg, now)
  {
    StepIgnoresCase(st, raw, ["broadcaster"], now);
    BroadcasterCommand(st, prefix, action, arg, now);
  }

  // ---- The two quirks of `replace` and `split` ----

  /** `split(" ")` keeps an empty piece for each extra space: after the
      action and two spaces the duration text starts with a space. */
  lemma {:induction false} DoubleSpaceCommand(prefix: string, action: string, arg: string)
    requires prefix == "!time" || prefix == "time"
    requires PlainWord(action)
    requires arg != [] && !IsSpace(arg[|arg| - 1])
    requires forall i | 0 <= i < |arg| :: !IsUpper(arg[i])
    requires !ContainsSub(arg, "time") && '!' !in arg
    ensures var raw := prefix + " " + action + "  " + arg;
      Normalize(raw) == raw && HasPrefix(raw) && Command(raw) == (action, " " + arg)
  {
    var wide := " " + arg;
    assert !ContainsSub(wide, "time") by {
      NoMatchAcrossSpace([], arg, "time");
      assert [] + " " + arg == wide;
    }
    assert forall i | 0 <= i < |wide| :: !IsUpper(wide[i]) by {
      forall i | 0 <= i < |wide| ensures !IsUpper(wide[i]) {
        if i > 0 { assert wide[i] == arg[i - 1]; }
      }
    }
    TwoSpaces(prefix + " " + action, arg);
    CommandOf(prefix, action, wide);
  }

  /** The switch reads the duration text only through the parser. */
  lemma DispatchBySeconds(st: TimerState, action: string, a: string, b: string, now: int)
    requires HumanSeconds(a) == HumanSeconds(b)
    ensures Dispatch(st, action, a, now) == Dispatch(st, action, b, now)
  {
  }

  /** A broadcaster's command whose duration text reads as another's is
      dispatched as the other. */
  lemma CommandMeaning(st: TimerState, raw: string, action: string, timeString: string, same: string, now: int)
    requires Normalize(raw) == raw && HasPrefix(raw) && Command(raw) == (action, timeString)
    requires HumanSeconds(timeString) == HumanSeconds(same)
    ensures Step(st, raw, ["broadcaster"], now) == Dispatch(st, action, same, now)
  {
    DispatchBySeconds(st, action, timeString, same, now);
  }

  /** The parser trims the extra space away, so the command means the same. */
  lemma {:induction false} DoubleSpaceKept(st: TimerState, prefix: string, action: string, arg: string, now: int)
    requires prefix == "!time" || prefix == "time"
    requires PlainWord(action)
    requires arg != [] && !IsSpace(arg[0]) && !IsSpace(arg[|arg| - 1])
    requires forall i | 0 <= i < |arg| :: !IsUpper(arg[i])
    requires !ContainsSub(arg, "time") && '!' !in arg
    ensures Step(st, prefix + " " + action + "  " + arg, ["broadcaster"], now) == Dispatch(st, action, arg, now)
  {
    DoubleSpaceCommand(prefix, action, arg);
    LeadingSpaceIgnored(' ', arg);
    CommandMeaning(st, prefix + " " + action + "  " + arg, action, " " + arg, arg, now);
  }

  /** After "!time" is cut, the second `replace` cuts the first "time" of
      what is left, even inside a word. */
  lemma {:induction false} TimeCutFromBody(a: string, b: string)
    requires 'i' !in a
    ensures Cleaned("!time" + " " + (a + "time") + b) == Trim(" " + a + b)
  {
    var tail := " " + a + "time" + b;
    assert "!time" + " " + (a + "time") + b == "!time" + tail;
    RemoveFirstKeepsRest("!time", tail);
    var w := " " + a + "tim";
    assert "time"[..|"time"| - 1] == "tim" && "time"[1] == 'i';
    assert forall q | 0 <= q < |w| && q + 4 <= |w| + 1 :: w[q] != 'i' by {
      forall q | 0 <= q < |w| && q + 4 <= |w| + 1 ensures w[q] != 'i' {
        if 0 < q <= |a| { assert w[q] == a[q - 1]; }
      }
    }
    LateCharNoMatch(w, "time", 1);
    RemoveFirstLeftmost(" " + a, "time", b);
  }

  /** An action glued to "time", as in "!time settime 5m", loses the "time"
      and reads as the action and its duration text, here "set" and "5m". */
  lemma {:induction false} ActionGluedToTime(action: string, arg: string)
    requires PlainWord(action)
    requires arg != [] && !IsSpace(arg[|arg| - 1])
    requires forall i | 0 <= i < |arg| :: !IsUpper(arg[i])
    requires !ContainsSub(arg, "time") && '!' !in arg
    ensures var raw := "!time" + " " + (action + "time") + " " + arg;
      Normalize(raw) == raw && HasPrefix(raw) && Command(raw) == (action, arg)
  {
    GluedTimeRead(action, arg);
    GluedTimeNormal(action, arg);
  }

  lemma {:induction false} GluedTimeRead(action: string, arg: string)
    requires PlainWord(action)
    requires arg != [] && !IsSpace(arg[|arg| - 1])
    requires forall i | 0 <= i < |arg| :: !IsUpper(arg[i])
    requires !ContainsSub(arg, "time") && '!' !in arg
    ensures Command("!time" + " " + (action + "time") + " " + arg) == (action, arg)
  {
    GluedTimeCleaned(action, arg);
    BodyParts(action, arg);
  }

  lemma {:induction false} GluedTimeNormal(action: string, arg: string)
    requires PlainWord(action)
    requires arg != [] && !IsSpace(arg[|arg| - 1])
    requires forall i | 0 <= i < |arg| :: !IsUpper(arg[i])
    ensures var raw := "!time" + " " + (action + "time") + " " + arg;
      Normalize(raw) == raw && HasPrefix(raw)
  {
    PlainWordFacts(action);
    ConcatChars(action, "time", c => !IsUpper(c));
    GluedTimeFacts(action + "time", arg);
  }

  /** What `replace` and `trim` leave of "!time <action>time <arg>". */
  lemma {:induction false} GluedTimeCleaned(action: string, arg: string)
    requires PlainWord(action)
    requires arg != [] && !IsSpace(arg[|arg| - 1])
    requires forall i | 0 <= i < |arg| :: !IsUpper(arg[i])
    requires !ContainsSub(arg, "time") && '!' !in arg
    ensures Cleaned("!time" + " " + (action + "time") + " " + arg) == action + " " + arg
  {
    var word := action + "time";
    var body := action + " " + arg;
    PlainWordFacts(action);
    assert 'i' !in action;
    TimeCutFromBody(action, " " + arg);
    Regroup("!time" + " " + word, " ", arg);
    Regroup(" " + action, " ", arg);
    Regroup(" ", action, " ");
    Regroup(" ", action + " ", arg);
    BodyFacts(action, arg);
    TrimLeadingSpace(' ', body);
  }

  /** "!time <word> <arg>" is already normal and has the prefix when the word
      and the argument are. */
  lemma {:induction false} GluedTimeFacts(word: string, arg: string)
    requires word != [] && !IsSpace(word[0])
    requires forall i | 0 <= i < |word| :: !IsUpper(word[i])
    requires arg != [] && !IsSpace(arg[|arg| - 1])
    requires forall i | 0 <= i < |arg| :: !IsUpper(arg[i])
    ensures var raw := "!time" + " " + word + " " + arg;
      Normalize(raw) == raw && HasPrefix(raw)
  {
    var body := word + " " + arg;
    ConcatChars(word, " ", c => !IsUpper(c));
    ConcatChars(word + " ", arg, c => !IsUpper(c));
    assert body[|body| - 1] == arg[|arg| - 1];
    RawFacts("!time", body);
    SpaceRegroup("!time", word, arg);
  }

  /** "!time" glued to a word: the first `replace` takes only "!time" off,
      and the action is the rest of the word. */
  lemma {:induction false} GluedCommand(word: string, body: string)
    requires word != [] && !IsSpace(word[0]) && ' ' !in word
    requires body != [] && !IsSpace(body[|body| - 1])
    requires forall i | 0 <= i < |word| :: !IsUpper(word[i])
    requires forall i | 0 <= i < |body| :: !IsUpper(body[i])
    requires !ContainsSub(word, "time") && !ContainsSub(body, "time")
    ensures var raw := "!time" + word + " " + body;
      Normalize(raw) == raw && Command(raw).0 == word
  {
    var rest := word + " " + body;
    assert rest[0] == word[0] && rest[|rest| - 1] == body[|body| - 1];
    ConcatChars(word, " ", c => !IsUpper(c));
    ConcatChars(word + " ", body, c => !IsUpper(c));
    NoMatchAcrossSpace(word, body, "time");
    BodyParts(word, body);
    GluedRest(rest);
    CleanedGlued(rest);
    PrefixRegroup("!time", word, body);
  }

  /** "!time" glued to trimmed, lower-case text is already normal. */
  lemma GluedRest(rest: string)
    requires rest != [] && !IsSpace(rest[|rest| - 1])
    requires forall i | 0 <= i < |rest| :: !IsUpper(rest[i])
    ensures Normalize("!time" + rest) == "!time" + rest
  {
    var raw := "!time" + rest;
    PrefixFacts("!time");
    ConcatChars("!time", rest, c => !IsUpper(c));
    assert raw[0] == '!' && raw[|raw| - 1] == rest[|rest| - 1];
    NormalizeIdentity(raw);
  }

  /** Only "!time" itself is cut from "!time<word> ...": when `<word>` is
      not an action, as in "!timer pause", the message changes nothing. */
  lemma {:induction false} GluedPrefixIgnored(st: TimerState, word: string, body: string, badges: seq<string>, now: int)
    requires word != [] && !IsSpace(word[0]) && ' ' !in word && word !in Actions
    requires body != [] && !IsSpace(body[|body| - 1])
    requires forall i | 0 <= i < |word| :: !IsUpper(word[i])
    requires forall i | 0 <= i < |body| :: !IsUpper(body[i])
    requires !ContainsSub(word, "time") && !ContainsSub(body, "time")
    ensures Step(st, "!time" + word + " " + body, badges, now) == st
  {
    var raw := "!time" + word + " " + body;
    GluedCommand(word, body);
    if HasPrefix(Normalize(raw)) && Permitted(badges) {
      AcceptedIsDispatched(st, raw, badges, now);
      UnknownActionIgnored(st, word, Command(Normalize(raw)).1, now);
    }
  }

  // ---- The invariant ----

  /** No action of the switch makes the stored seconds negative. */
  lemma DispatchKeepsValid(st: TimerState, action: string, timeString: string, now: int)
    requires st.Valid()
    ensures Dispatch(st, action, timeString, now).Valid()
  {
    TransitionsKeepValid(st, HumanSeconds(timeString), 0, now);
  }

  /** No chat message makes the stored seconds negative. */
  lemma StepKeepsValid(st: TimerState, raw: string, badges: seq<string>, now: int)
    requires st.Valid()
    ensures Step(st, raw, badges, now).Valid()
  {
    if HasPrefix(Normalize(raw)) && Permitted(badges) {
      AcceptedIsDispatched(st, raw, badges, now);
      DispatchKeepsValid(st, Command(Normalize(raw)).0, Command(Normalize(raw)).1, now);
    }
  }
}
