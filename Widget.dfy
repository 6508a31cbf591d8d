/**
 * The widget itself: the three variables of the script, updated in place
 * by the chat command handler and the event handler.  `Date.now()` is the
 * parameter `now` (milliseconds), and the display is returned instead of
 * written into the page.  Each method is proved to move the state exactly
 * as the value-level model in `Timer`, `Chat` and `Router` says.
 */
module Widget {
  import opened Wrappers
  import opened Text
  import opened Config
  import opened Duration
  import opened Format
  import opened Valuation
  import opened Timer
  import opened Chat
  import opened Router

  class TimerWidget {
    var remainingSeconds: int
    var endTime: int
    var paused: bool

    /** The stored seconds are never negative. */
    predicate Valid()
      reads this
    {
      remainingSeconds >= 0
    }

    /** The three variables as one value. */
    function State(): TimerState
      reads this
    {
      TimerState(remainingSeconds, endTime, paused)
    }

    /** Loading the script: paused at 0, with a deadline of `now`. */
    constructor (now: int)
      ensures Valid() && State() == Initial(now)
    {
      remainingSeconds := 0;
      endTime := now + 0 * 1000;
      paused := true;
    }

    /** `getRemainingSeconds()`. */
    method GetRemainingSeconds(now: int) returns (r: int)
      requires Valid()
      ensures r == State().Remaining(now) && r >= 0
    {
      if paused {
        return remainingSeconds;
      }
      r := Max(0, (endTime - now) / 1000);
    }

    /** `updateDisplay()`: the text shown for the time left, and that time. */
    method UpdateDisplay(now: int) returns (display: string, remaining: nat)
      requires Valid()
      ensures remaining == State().Remaining(now)
      ensures display == FormatTime(remaining)
      ensures Duration.HumanSeconds(display) == remaining
    {
      var r := GetRemainingSeconds(now);
      remaining := r;
      display := FormatTime(remaining);
      FormatTimeRoundTrip(remaining);
    }

    // ---- The branches of the command switch and the event credit ----

    /** "pause". */
    method Pause(now: int)
      requires Valid()
      modifies this
      ensures Valid() && State() == old(State()).Pause(now)
    {
      if !paused {
        remainingSeconds := Max(0, (endTime - now) / 1000);
        paused := true;
      }
    }

    /** "resume". */
    method Resume(now: int)
      requires Valid()
      modifies this
      ensures Valid() && State() == old(State()).Resume(now)
    {
      if paused {
        endTime := now + remainingSeconds * 1000;
        paused := false;
      }
    }

    /** "start", given the parsed duration. */
    method Start(startSeconds: nat, now: int)
      requires Valid()
      modifies this
      ensures Valid() && State() == old(State()).Start(startSeconds, now)
    {
      if startSeconds > 0 {
        remainingSeconds := startSeconds;
        endTime := now + remainingSeconds * 1000;
        paused := false;
      } else if paused {
        if remainingSeconds > 0 {
          endTime := now + remainingSeconds * 1000;
          paused := false;
        }
      }
    }

    /** "add", given the parsed duration. */
    method Add(addSeconds: nat)
      requires Valid()
      modifies this
      ensures Valid() && State() == old(State()).Add(addSeconds)
    {
      if addSeconds > 0 {
        if paused {
          remainingSeconds := remainingSeconds + addSeconds;
        } else {
          endTime := endTime + addSeconds * 1000;
        }
      }
    }

    /** "sub" and "subtract", given the parsed duration. */
    method Subtract(subSeconds: nat)
      requires Valid()
      modifies this
      ensures Valid() && State() == old(State()).Subtract(subSeconds)
    {
      if subSeconds > 0 {
        if paused {
          remainingSeconds := Max(0, remainingSeconds - subSeconds);
        } else {
          endTime := endTime - subSeconds * 1000;
        }
      }
    }

    /** "set", given the parsed duration. */
    method Set(setSeconds: nat, now: int)
      requires Valid()
      modifies this
      ensures Valid() && State() == old(State()).Set(setSeconds, now)
    {
      if setSeconds >= 0 {
        endTime := now + setSeconds * 1000;
        remainingSeconds := setSeconds;
        paused := false;
      }
    }

    /** The credit branch of the event handler. */
    method Credit(extraMinutes: int)
      requires Valid()
      modifies this
      ensures Valid() && State() == old(State()).Credit(extraMinutes)
    {
      if extraMinutes > 0 {
        if paused {
          remainingSeconds := remainingSeconds + extraMinutes * 60;
        } else {
          endTime := endTime + extraMinutes * 60 * 1000;
        }
      }
    }

    // ---- The two handlers ----

    /** `handleTwitchChatMessage(msg)`. */
    method HandleTwitchChatMessage(ev: Event, now: int)
      requires Valid()
      modifies this
      ensures Valid()
      ensures State() == Chat.Step(old(State()), ChatText(ev), ev.badges, now)
    {
      var text := Trim(Lower(ChatText(ev)));
      assert text == Normalize(ChatText(ev));
      if !StartsWith(text, "!time") && !StartsWith(text, "time") {
        assert !HasPrefix(text);
        return;
      }
      var isBroadcaster := "broadcaster" in ev.badges;
      var isModerator := "moderator" in ev.badges;
      if !isBroadcaster && !(AllowMods && isModerator) {
        assert !Permitted(ev.badges);
        return;
      }
      var cleaned := Trim(RemoveFirst(RemoveFirst(text, "!time"), "time"));
      var parts := Split(cleaned, ' ');
      var action := parts[0];
      var timeString := Join(parts[1..], ' ');
      assert (action, timeString) == Command(text);
      AcceptedIsDispatched(old(State()), ChatText(ev), ev.badges, now);
      RunCommand(action, timeString, now);
    }

    /** The command switch of `handleTwitchChatMessage`. */
    method RunCommand(action: string, timeString: string, now: int)
      requires Valid()
      modifies this
      ensures Valid()
      ensures State() == Dispatch(old(State()), action, timeString, now)
    {
      if action == "pause" {
        Pause(now);
      } else if action == "resume" {
        Resume(now);
      } else if action == "start" {
        var startSeconds := ParseHumanTime(timeString);
        Start(startSeconds, now);
      } else if action == "add" {
        var addSeconds := ParseHumanTime(timeString);
        Add(addSeconds);
      } else if action == "sub" || action == "subtract" {
        var subSeconds := ParseHumanTime(timeString);
        Subtract(subSeconds);
      } else if action == "set" {
        var setSeconds := ParseHumanTime(timeString);
        Set(setSeconds, now);
      }
    }

    /** `ws.onmessage` for an already decoded event. */
    method OnMessage(ev: Event, now: int)
      requires Valid()
      modifies this
      ensures Valid()
      ensures State() == Handle(old(State()), ev, now)
    {
      if ev.source == "Twitch" && ev.eventType == "ChatMessage" {
        HandleTwitchChatMessage(ev, now);
        return;
      }
      var amount := 0;
      if ev.source == "Kofi" {
        amount := ev.amount;
      }
      if ev.source == "Twitch" && ev.eventType == "Cheer" {
        amount := ev.bits;
      }
      var extraMinutes := ExtraMinutes(ev.source, ev.eventType, amount, None);
      Credit(extraMinutes);
    }
  }
}
