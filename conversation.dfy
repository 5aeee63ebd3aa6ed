/** The discussion screen: a countdown that the players start, pause,
    resume or skip, with background music, and the controls it shows. The
    one-second interval is a `Tick` event; the music player is a log of the
    commands it receives. */
module Conversation {
  import opened Js
  import opened GameStore
  import opened StartGameDialog

  /** How often the interval fires, and how much each firing takes off. */
  const TickMs: nat := 1000

  /** The commands sent to the music player. */
  datatype AudioCommand = Play | Pause | Stop

  /** The control area: the start button, the pause/resume and skip pair, or
      the button that moves on to voting. */
  datatype Controls = StartButton | PauseAndSkip(resumeLabel: bool) | MoveToVoting

  /** What the screen shows. */
  datatype Screen = NoGameData | Discussion(time: string, pausedBanner: bool, controls: Controls)

  /** One firing of the interval: the remaining time drops by a second and
      stops at zero. */
  function NextRemaining(prev: nat): (next: nat)
    ensures next <= prev && prev <= next + TickMs
    ensures next == 0 <==> prev <= TickMs
    ensures next > 0 ==> next == prev - TickMs
  {
    if prev <= TickMs then 0 else prev - TickMs
  }

  /** The remaining time after `n` firings. */
  function Countdown(remaining: nat, n: nat): nat {
    if n == 0 then remaining else Countdown(NextRemaining(remaining), n - 1)
  }

  /** After `n` firings, `n` seconds are gone, but never more than there were. */
  lemma {:induction false} CountdownValue(remaining: nat, n: nat)
    ensures Countdown(remaining, n) == if remaining <= TickMs * n then 0 else remaining - TickMs * n
  {
    if n > 0 {
      CountdownValue(NextRemaining(remaining), n - 1);
    }
  }

  /** The countdown reaches zero after as many firings as it has started
      seconds, and not before. */
  lemma CountdownEnds(remaining: nat)
    ensures Countdown(remaining, (remaining + TickMs - 1) / TickMs) == 0
    ensures forall n :: 0 <= n < (remaining + TickMs - 1) / TickMs ==> Countdown(remaining, n) > 0
  {
    CountdownValue(remaining, (remaining + TickMs - 1) / TickMs);
    forall n | 0 <= n < (remaining + TickMs - 1) / TickMs
      ensures Countdown(remaining, n) > 0
    {
      CountdownValue(remaining, n);
    }
  }

  class DiscussionTimer {
    /** The round handed over by the previous screen, if any. */
    const payload: Option<FinalGamePayload>
    var timerStarted: bool
    var isPaused: bool
    var timeRemaining: nat
    var showSkipDialog: bool
    ghost var music: seq<AudioCommand>

    /** Pausing is only possible once the timer has started. */
    ghost predicate Valid()
      reads this
    {
      isPaused ==> timerStarted
    }

    /** The condition under which the interval is running. */
    predicate Running()
      reads this
    {
      timerStarted && !isPaused && timeRemaining > 0
    }

    /** The control area chosen from the state. */
    function ShownControls(): (c: Controls)
      reads this
      ensures c.StartButton? <==> !timerStarted
      ensures c.PauseAndSkip? <==> timerStarted && timeRemaining > 0
      ensures c.MoveToVoting? <==> timerStarted && timeRemaining == 0
      ensures c.PauseAndSkip? ==> c.resumeLabel == isPaused
    {
      if !timerStarted then StartButton
      else if timeRemaining > 0 then PauseAndSkip(isPaused)
      else MoveToVoting
    }

    /** The screen: the fallback without a round, otherwise the formatted
        remaining time, the paused banner and the controls. */
    function View(): (s: Screen)
      reads this
      ensures s.NoGameData? <==> payload.None?
      ensures s.Discussion? ==>
        s.time == MillisecondsToTime(timeRemaining) && s.pausedBanner == isPaused
        && s.controls == ShownControls()
    {
      if payload.None? then NoGameData
      else Discussion(MillisecondsToTime(timeRemaining), isPaused, ShownControls())
    }

    /** A fresh screen: not started, not paused, the round's timer (0
        without a round), the skip dialog closed, no music yet. */
    constructor (payload: Option<FinalGamePayload>)
      ensures this.payload == payload && Valid()
      ensures !timerStarted && !isPaused && !showSkipDialog && music == []
      ensures timeRemaining == if payload.Some? then payload.value.timer else 0
    {
      this.payload := payload;
      timerStarted, isPaused, showSkipDialog := false, false, false;
      timeRemaining := if payload.Some? then payload.value.timer else 0;
      music := [];
    }

    /** One firing of the interval. While it runs, the remaining time drops
        by a second, and the music stops when it reaches zero; otherwise no
        interval is running and nothing happens. */
    method Tick()
      modifies this`timeRemaining, this`music
      ensures old(Running()) ==>
        timeRemaining == NextRemaining(old(timeRemaining)) && timeRemaining < old(timeRemaining)
        && music == old(music) + (if timeRemaining == 0 then [Stop] else [])
      ensures !old(Running()) ==> timeRemaining == old(timeRemaining) && music == old(music)
    {
      if Running() {
        if timeRemaining <= TickMs {
          music := music + [Stop];
          timeRemaining := 0;
        } else {
          timeRemaining := timeRemaining - TickMs;
        }
      }
    }

    /** handleStart, behind the start button: the timer starts and the music
        plays; the remaining time is untouched. */
    method HandleStart()
      requires Valid() && ShownControls().StartButton?
      modifies this`timerStarted, this`music
      ensures Valid() && timerStarted && music == old(music) + [Play]
      ensures Running() <==> timeRemaining > 0
    {
      timerStarted := true;
      music := music + [Play];
    }

    /** handlePause, behind the pause/resume button: pausing pauses the music,
        resuming plays it; the remaining time is untouched. */
    method HandlePause()
      requires Valid() && ShownControls().PauseAndSkip?
      modifies this`isPaused, this`music
      ensures Valid() && isPaused == !old(isPaused)
      ensures music == old(music) + [if old(isPaused) then Play else Pause]
      ensures Running() <==> !isPaused
    {
      if isPaused {
        music := music + [Play];
      } else {
        music := music + [Pause];
      }
      isPaused := !isPaused;
    }

    /** The skip button opens the confirmation dialog. */
    method OpenSkipDialog()
      requires ShownControls().PauseAndSkip?
      modifies this`showSkipDialog
      ensures showSkipDialog
    {
      showSkipDialog := true;
    }

    /** The dialog's onOpenChange (Cancel, or dismissing it). */
    method OnSkipDialogOpenChange(open: bool)
      modifies this`showSkipDialog
      ensures showSkipDialog == open
    {
      showSkipDialog := open;
    }

    /** handleSkipConfirm: the dialog closes, no time is left and the music
        stops; from then on the interval never runs again. */
    method HandleSkipConfirm()
      requires showSkipDialog
      modifies this`showSkipDialog, this`timeRemaining, this`music
      ensures !showSkipDialog && timeRemaining == 0 && music == old(music) + [Stop]
      ensures !Running() && (timerStarted ==> ShownControls().MoveToVoting?)
    {
      showSkipDialog := false;
      timeRemaining := 0;
      music := music + [Stop];
    }

    /** handleMoveToVoting, behind the button shown once time is up: the
        round is passed on to the voting screen unchanged. */
    method HandleMoveToVoting() returns (next: FinalGamePayload)
      requires payload.Some? && ShownControls().MoveToVoting?
      ensures next == payload.value
    {
      next := payload.value;
    }

    /** Pausing and then resuming leaves the countdown where it was. */
    method PauseThenResume()
      requires Valid() && ShownControls().PauseAndSkip? && !isPaused
      modifies this`isPaused, this`music
      ensures Valid() && !isPaused && timeRemaining == old(timeRemaining)
      ensures music == old(music) + [Pause, Play]
    {
      HandlePause();
      HandlePause();
    }
  }
}
