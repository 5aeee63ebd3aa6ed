/** The confirmation dialog shown before a game starts: a summary of the
    configuration, and the button that starts the round. */
module StartGameDialog {
  import opened Js
  import opened GameCategories
  import opened GameTime
  import opened Setup
  import opened GameStore

  /** millisecondsToTime: whole minutes, a colon, and the remaining whole
      seconds as two digits. */
  function MillisecondsToTime(ms: nat): string {
    ClockString(ms / 1000 / 60, ms / 1000 % 60)
  }

  /** Read back by timeToMilliseconds, the text gives the duration rounded
      down to whole seconds. */
  lemma MillisecondsToTimeReadsBack(ms: nat)
    ensures TimeToMilliseconds(MillisecondsToTime(ms)) == Some(ms / 1000 * 1000)
  {
    var minutes, seconds := ms / 1000 / 60, ms / 1000 % 60;
    ClockText(minutes, seconds);
    assert (minutes * 60 + seconds) * 1000 == ms / 1000 * 1000;
  }

  /** The text is the minutes' digits, a colon and two digits of seconds. */
  lemma MillisecondsToTimeShape(ms: nat)
    ensures var time := MillisecondsToTime(ms);
      && |time| >= 4 && time[|time| - 3] == ':'
      && AllDigits(time[..|time| - 3]) && AllDigits(time[|time| - 2..])
      && ToNumber(time[..|time| - 3]) == Some(ms / 1000 / 60)
      && ToNumber(time[|time| - 2..]) == Some(ms / 1000 % 60)
  {
    var m := NatToString(ms / 1000 / 60);
    var s := PadStart(NatToString(ms / 1000 % 60), 2, '0');
    ZeroPaddedValue(ms / 1000 % 60, 2);
    ClockShape(m, s);
  }

  /** Minutes, a colon, and seconds padded to two digits. */
  function ClockString(minutes: nat, seconds: nat): string {
    NatToString(minutes) + ":" + PadStart(NatToString(seconds), 2, '0')
  }

  lemma ClockText(minutes: nat, seconds: nat)
    requires seconds < 60
    ensures TimeToMilliseconds(ClockString(minutes, seconds)) == Some((minutes * 60 + seconds) * 1000)
  {
    var m := NatToString(minutes);
    var s := PadStart(NatToString(seconds), 2, '0');
    ZeroPaddedValue(seconds, 2);
    assert ToNumber(s) == Some(seconds);
    MinutesSecondsToMilliseconds(m, s, minutes, seconds);
  }

  lemma ClockShape(m: string, s: string)
    requires m != [] && AllDigits(m) && |s| == 2 && AllDigits(s)
    ensures var time := m + ":" + s;
      |time| >= 4 && time[|time| - 3] == ':' && time[..|time| - 3] == m && time[|time| - 2..] == s
  {
  }

  lemma OneMinuteClock()
    ensures ClockString(1, 0) == "1:00"
  {
    assert NatToString(0) == "0" && NatToString(1) == "1";
    assert PadStart("0", 2, '0') == "00";
  }

  lemma OneAndAHalfMinutesClock()
    ensures ClockString(1, 30) == "1:30"
  {
    assert NatToString(30) == NatToString(3) + "0";
    assert NatToString(3) == "3" && NatToString(1) == "1";
    assert PadStart("30", 2, '0') == "30";
  }

  lemma TwoMinutesClock()
    ensures ClockString(2, 0) == "2:00"
  {
    assert NatToString(0) == "0" && NatToString(2) == "2";
    assert PadStart("0", 2, '0') == "00";
  }

  lemma TwoAndAHalfMinutesClock()
    ensures ClockString(2, 30) == "2:30"
  {
    assert NatToString(30) == NatToString(3) + "0";
    assert NatToString(3) == "3" && NatToString(2) == "2";
    assert PadStart("30", 2, '0') == "30";
  }

  lemma ThreeMinutesClock()
    ensures ClockString(3, 0) == "3:00"
  {
    assert NatToString(0) == "0" && NatToString(3) == "3";
    assert PadStart("0", 2, '0') == "00";
  }

  /** Each timer option, converted to milliseconds (60000 + 30000 * i for
      the option at index i), is shown as that option again. */
  lemma TimerOptionsShown()
    ensures MillisecondsToTime(60000) == GameTimers[0] && MillisecondsToTime(90000) == GameTimers[1]
    ensures MillisecondsToTime(120000) == GameTimers[2] && MillisecondsToTime(150000) == GameTimers[3]
    ensures MillisecondsToTime(180000) == GameTimers[4]
  {
    OneMinuteClock();
    TimerText(60000, 1, 0);
    OneAndAHalfMinutesClock();
    TimerText(90000, 1, 30);
    TwoMinutesClock();
    TimerText(120000, 2, 0);
    TwoAndAHalfMinutesClock();
    TimerText(150000, 2, 30);
    ThreeMinutesClock();
    TimerText(180000, 3, 0);
  }

  lemma TimerText(ms: nat, minutes: nat, seconds: nat)
    requires ms / 1000 / 60 == minutes && ms / 1000 % 60 == seconds
    ensures MillisecondsToTime(ms) == ClockString(minutes, seconds)
  {
  }

  /** The labels of the chosen categories, in order. */
  function Labels(categories: seq<GameCategory>): (labels: seq<string>)
    ensures |labels| == |categories|
    ensures forall i :: 0 <= i < |categories| ==> labels[i] == Label(categories[i])
  {
    if categories == [] then [] else [Label(categories[0])] + Labels(categories[1..])
  }

  /** The texts the dialog shows. */
  datatype Summary = Summary(
    categories: string,
    customTopics: Option<string>,
    playerCount: nat,
    players: string,
    clue: string,
    time: string)

  /** What the dialog renders: nothing without a configuration; otherwise
      the categories and players joined by ", ", the custom topics only when
      there are some, whether the imposter gets a clue, and the time. */
  function Render(payload: Option<GamePayload>): (view: Option<Summary>)
    ensures view.None? <==> payload.None?
    ensures view.Some? ==>
      var p, v := payload.value, view.value;
      && v.categories == Join(Labels(p.categories), ", ")
      && (v.customTopics.Some? <==> UsesCustomTopics(p.customTopics))
      && (v.customTopics.Some? ==> v.customTopics.value == Join(p.customTopics.value, ", "))
      && v.playerCount == |p.players| && v.players == Join(p.players, ", ")
      && (v.clue == "Yes" <==> p.clue) && (v.clue == "No" <==> !p.clue)
      && v.time == MillisecondsToTime(p.timeInMs)
  {
    match payload
    case None => None
    case Some(p) =>
      Some(Summary(
        Join(Labels(p.categories), ", "),
        if UsesCustomTopics(p.customTopics) then Some(Join(p.customTopics.value, ", ")) else None,
        |p.players|,
        Join(p.players, ", "),
        if p.clue then "Yes" else "No",
        MillisecondsToTime(p.timeInMs)))
  }

  /** The callbacks the dialog raises, in order. */
  datatype DialogCall = OnOpenChange(open: bool) | CallStartGame(payload: GamePayload)

  /** handleSubmit, behind the Start Game button that is only rendered with
      a configuration: the dialog first asks to be closed, then starts the
      round with exactly that configuration. */
  function HandleSubmit(payload: GamePayload): (calls: seq<DialogCall>)
    ensures |calls| == 2 && calls[0] == OnOpenChange(false)
    ensures calls[1].CallStartGame? && calls[1].payload == payload
  {
    [OnOpenChange(false), CallStartGame(payload)]
  }
}
