/** The discussion lengths offered by the setup screen. */
module GameTime {

  const GameTimers: seq<string> := ["1:00", "1:30", "2:00", "2:30", "3:00"]

  /** A timer option is exactly one of the listed texts. */
  type GameTimer = s: string | s in GameTimers witness "1:00"

  /** The option the setup screen starts with. */
  const DefaultTimer: GameTimer := "1:00"

  /** Five options; each is one digit of minutes, a colon
      and two digits of seconds, the seconds being 00 or 30. */
  lemma TimerOptions()
    ensures |GameTimers| == 5
    ensures forall i :: 0 <= i < |GameTimers| ==>
      var t := GameTimers[i];
      |t| == 4 && '1' <= t[0] <= '3' && t[1] == ':' && (t[2] == '0' || t[2] == '3') && t[3] == '0'
  {
  }
}
