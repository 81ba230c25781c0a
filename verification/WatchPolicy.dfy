/** The pure display policy for one watch (shared/TaphapticWatchEventPolicy.swift). */
module WatchPolicy {
  import opened Wrappers
  import opened EventLog

  datatype Timing = Timing(completedAnimation: Time, transientWindow: Time, staleAge: Time)

  /** 1.25 s animation, 3 s display, events older than 20 s are stale. */
  const DEFAULTS: Timing := Timing(1_250_000_000, 3_000_000_000, 20_000_000_000)

  datatype State = State(lastSeen: int, active: Option<int>, expires: Option<Time>)

  datatype HapticPlan = NoHaptic | Immediate(kind: Kind) | Delayed(kind: Kind, delay: Time)

  datatype Presentation = Presentation(eventID: int, kind: Kind, animateCompleted: bool,
                                       haptic: HapticPlan, expiresAt: Time)

  datatype Action = NoChange | ShowPending | ShowEvent(presentation: Presentation)

  predicate IsActive(s: State, now: Time) {
    s.active.Some? && s.expires.Some? && s.expires.value > now
  }

  function ClearExpired(s: State, now: Time): State {
    if IsActive(s, now) then s else s.(active := None, expires := None)
  }

  /** NoChange while something is shown, ShowPending otherwise. */
  function Quiet(s: State, now: Time): (State, Action) {
    (s, if IsActive(s, now) then NoChange else ShowPending)
  }

  function Apply(event: Event, state: State, now: Time, timing: Timing): (State, Action) {
    var s := ClearExpired(state, now);
    if event.id < s.lastSeen then Quiet(s, now)
    else if s.active == Some(event.id) && IsActive(s, now) then (s, NoChange)
    else if event.id <= s.lastSeen then Quiet(s, now)
    else if now - event.createdAt > timing.staleAge then Quiet(s.(lastSeen := event.id), now)
    else
      var animated := event.kind.Completed? || event.kind.SubagentCompleted?;
      var expiresAt := now + (if animated then timing.completedAnimation else 0) + timing.transientWindow;
      (State(event.id, Some(event.id), Some(expiresAt)),
       ShowEvent(Presentation(event.id, event.kind, event.kind.Completed?, Immediate(event.kind), expiresAt)))
  }

  predicate Animated(kind: Kind) {
    kind.Completed? || kind.SubagentCompleted?
  }

  /** An event is presented once, if it is new and at most 20 seconds old: for 4.25 seconds when its kind is animated
      and 3 otherwise, with the haptic of its kind. Anything else leaves a running presentation alone. */
  lemma ApplyPresents(event: Event, s: State, now: Time)
    requires s.active.Some? ==> s.active.value <= s.lastSeen
    ensures var (s', action) := Apply(event, s, now, DEFAULTS);
            var running := s.active.Some? && s.expires.Some? && now < s.expires.value;
            && s'.lastSeen == (if event.id > s.lastSeen then event.id else s.lastSeen)
            && if event.id > s.lastSeen && now - event.createdAt <= 20_000_000_000 then
                 var until := now + if Animated(event.kind) then 4_250_000_000 else 3_000_000_000;
                 && action == ShowEvent(Presentation(event.id, event.kind, event.kind.Completed?,
                                                     Immediate(event.kind), until))
                 && s'.active == Some(event.id) && s'.expires == Some(until)
               else
                 && action == (if running then NoChange else ShowPending)
                 && s'.active == (if running then s.active else None)
                 && s'.expires == (if running then s.expires else None)
  {
  }

  lemma PendingKeepsRunning(s: State, now: Time)
    ensures var (s', action) := ApplyPending(s, now);
            var running := s.active.Some? && s.expires.Some? && now < s.expires.value;
            && s'.lastSeen == s.lastSeen && action == (if running then NoChange else ShowPending)
            && s'.active == (if running then s.active else None)
            && s'.expires == (if running then s.expires else None)
  {
  }

  function ApplyPending(state: State, now: Time): (State, Action) {
    Quiet(ClearExpired(state, now), now)
  }
}
