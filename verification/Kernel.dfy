/** internal/kernel/protocol.go: the administrative state machine and the protocol's limits. */
module Kernel {
  import opened Foundations

  datatype Status = Active | Paused | Cancelled | Completed | OtherStatus(text: string)

  predicate Terminal(s: Status) {
    s.Cancelled? || s.Completed?
  }

  datatype Protocol = Protocol(mission: string, workspace: string, script: string,
                               intervalSeconds: int, timeoutSeconds: int, maxCycles: int)

  /** An absolute path both for the kernel's syntax check and for a Unix host. */
  predicate AbsolutePath(s: string) {
    s != [] && s[0] == '/' && '\0' !in s
  }

  predicate ValidProtocol(p: Protocol) {
    && !Blank(p.mission)
    && AbsolutePath(p.workspace) && AbsolutePath(p.script)
    && p.intervalSeconds >= 1 && p.timeoutSeconds >= 1
    && 1 <= p.maxCycles <= 10000
  }

  // ---------------------------------------------------------------- the clock

  /** Clock readings and durations are counted in nanoseconds. */
  const SECOND := 1_000_000_000

  /** What a signed 64-bit integer keeps of `x`. */
  function Int64(x: int): int {
    (x + 0x8000_0000_0000_0000) % 0x1_0000_0000_0000_0000 - 0x8000_0000_0000_0000
  }

  /** `time.Duration(seconds) * time.Second` */
  function Delay(seconds: int): int {
    Int64(seconds * SECOND)
  }

  const LONGEST_INTERVAL := 9_223_372_036

  /** The delay is the interval exactly up to `LONGEST_INTERVAL` seconds; above, it is always shorter, and
      may lie in the past. */
  lemma DelayMeaning(seconds: int)
    requires seconds >= 1
    ensures Delay(seconds) == seconds * SECOND <==> seconds <= LONGEST_INTERVAL
    ensures Delay(seconds) <= seconds * SECOND
    ensures Delay(10_000_000_000) == -8_446_744_073_709_551_616
  {
  }

  predicate Due(status: Status, nextRun: int, now: int) {
    status.Active? && nextRun <= now
  }

  datatype Admin = Pause | Resume | Cancel | OtherAdmin(text: string)

  function Transition(status: Status, action: Admin): Option<Status> {
    if !status.Active? && !status.Paused? then None
    else
      match action
      case Pause => Some(Paused)
      case Resume => Some(Active)
      case Cancel => Some(Cancelled)
      case OtherAdmin(_) => None
  }

  /** The administrative automaton by its effects: nothing leaves a terminal status, only `resume` makes
      a mission due, `pause` and `cancel` never leave it due, and any legal command can be followed by
      `cancel` unless it was one. */
  lemma TransitionMeaning(status: Status, action: Admin, next: int, now: int)
    ensures Terminal(status) ==> Transition(status, action) == None
    ensures match Transition(status, action)
            case None => Terminal(status) || status.OtherStatus? || action.OtherAdmin?
            case Some(t) =>
              && (Due(t, next, now) <==> action.Resume? && next <= now)
              && (Terminal(t) <==> action.Cancel?)
              && (Transition(t, Cancel).Some? <==> !action.Cancel?)
  {
  }
}
