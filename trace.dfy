/**
 * The vocabulary shared by the scheduler, the notifier and the calendar
 * filter: what the program does to the outside world (effects), the
 * exceptions it can raise, and the outcome of a step.
 */
module Trace {
  import opened Text

  /** One call into the outside world, in the order the program makes it. */
  datatype Effect =
    | Polled(allowAuth: bool)       // get_calendar_events(allow_auth_flow)
    | CameraQueried                 // camera_active()
    | Osascript(script: string)     // subprocess.run(['/usr/bin/osascript', '-e', script], check=True)
    | Spoke(text: string)           // play_text(text)
    | Slept(seconds: int)           // time.sleep(seconds)

  /** The exceptions that can escape an operation. */
  datatype Error =
    | AssertionFailed(text: string)            // a failed `assert ..., text`
    | ProcessFailed(script: string, status: int)  // CalledProcessError from osascript
    | Collaborator(text: string)               // raised by the calendar, the camera or the speech service

  datatype Outcome = Done | Raised(error: Error)

  /** Effects of an operation during which no time passes, and how it ended. */
  datatype Step = Step(effects: seq<Effect>, outcome: Outcome)

  /** The text `CalledProcessError` puts before the script it quotes. */
  const CommandLead := "Command '['/usr/bin/osascript', '-e', '"

  /** `str(e)` of an exception: an assertion's text, the collaborator's
      message, or the command line of a failed osascript run with its script
      quoted whole. */
  function Message(e: Error): (r: string)
    ensures e.ProcessFailed? ==>
      |CommandLead| + |e.script| <= |r| && r[|CommandLead|..|CommandLead| + |e.script|] == e.script
    ensures !e.ProcessFailed? ==> r == e.text
  {
    match e
    case AssertionFailed(text) => text
    case ProcessFailed(script, status) =>
      CommandLead + script + "']' returned non-zero exit status " + IntToString(status) + "."
    case Collaborator(text) => text
  }

  /** The message of a failed osascript run quotes its script. */
  lemma MessageQuotesScript(script: string, status: int, c: char)
    requires c in script
    ensures c in Message(ProcessFailed(script, status))
  {
    var m := Message(ProcessFailed(script, status));
    InSlice(m, |CommandLead|, |CommandLead| + |script|, c);
  }
}
