/**
  The watch's display, cursor and timers (watch-app/TaphapticModel.swift), and their relation to
  the pure policy the watch re-implements.
 */
module WatchModel {
  import opened Wrappers
  import opened EventLog
  import Text
  import P = WatchPolicy

  datatype Display = Waiting | Success | Subagent | Failure | Attention

  /** A scheduled clearing task: it sleeps until `due`, and remembers when it was first cancelled. */
  datatype Timer = Timer(eventID: int, due: Time, cancelledAt: Option<Time>, finished: bool)

  datatype Watch = Watch(cursor: int, display: Display, active: Option<int>, expires: Option<Time>,
                         resetTask: Option<nat>, timers: seq<Timer>)

  const TIMING := P.DEFAULTS

  function DisplayFor(kind: Kind): Display {
    match kind
    case Completed => Success
    case SubagentCompleted => Subagent
    case Failed => Failure
    case Attention => Display.Attention
  }

  /** Each kind of event has its own screen. */
  predicate Pictures(d: Display, kind: Kind) {
    && (d.Success? <==> kind.Completed?) && (d.Subagent? <==> kind.SubagentCompleted?)
    && (d.Failure? <==> kind.Failed?) && (d.Attention? <==> kind.Attention?)
  }

  predicate IsTransientActive(w: Watch, now: Time) {
    w.active.Some? && w.active.value > 0 && w.expires.Some? && w.expires.value > now
  }

  function CancelTimer(t: Timer, now: Time): Timer {
    if t.cancelledAt.None? then t.(cancelledAt := Some(now)) else t
  }

  function Cancel(timers: seq<Timer>, task: Option<nat>, now: Time): seq<Timer> {
    if task.Some? && task.value < |timers|
    then timers[task.value := CancelTimer(timers[task.value], now)] else timers
  }

  function ShowPending(w: Watch, now: Time): Watch {
    Watch(w.cursor, Waiting, None, None, None, Cancel(w.timers, w.resetTask, now))
  }

  predicate IsStale(event: Event, now: Time) {
    event.createdAt < now - TIMING.staleAge
  }

  /** Whether applying the event at `now` puts it on the screen. */
  predicate Shows(w: Watch, event: Event, now: Time) {
    event.id > w.cursor && !IsStale(event, now)
  }

  function ApplyEvent(w: Watch, event: Event, now: Time): Watch {
    if event.id <= w.cursor then w
    else if IsStale(event, now) then
      var w' := w.(cursor := event.id);
      if IsTransientActive(w', now) then w' else ShowPending(w', now)
    else
      var expiresAt := now + TIMING.completedAnimation + TIMING.transientWindow;
      Watch(event.id, DisplayFor(event.kind), Some(event.id), Some(expiresAt), Some(|w.timers|),
            Cancel(w.timers, w.resetTask, now) + [Timer(event.id, expiresAt, None, false)])
  }

  function ApplyAll(w: Watch, events: seq<Event>, now: Time): Watch {
    if events == [] then w
    else ApplyEvent(ApplyAll(w, events[..|events| - 1], now), events[|events| - 1], now)
  }

  function EmptyPoll(w: Watch, now: Time): Watch {
    if IsTransientActive(w, now) then w else ShowPending(w, now)
  }

  /** A task cancelled in its sleep ends in its catch clause. One whose sleep was over before it was
      cancelled runs on whenever it gets its turn. */
  predicate MayWake(t: Timer) {
    !t.finished && (t.cancelledAt.None? || t.cancelledAt.value >= t.due)
  }

  predicate CanWake(w: Watch, task: nat, now: Time) {
    task < |w.timers| && MayWake(w.timers[task]) && w.timers[task].due <= now
  }

  function Finish(timers: seq<Timer>, task: nat): seq<Timer>
    requires task < |timers|
  {
    timers[task := timers[task].(finished := true)]
  }

  /** The task drops the handle on the pending task even when that is another one. */
  function Wake(w: Watch, task: nat, now: Time): Watch
    requires task < |w.timers|
  {
    var cleared := if w.active == Some(w.timers[task].eventID) then ShowPending(w, now) else w;
    cleared.(resetTask := None, timers := Finish(cleared.timers, task))
  }

  /** resetPairing: the cursor starts again from zero. */
  function Reset(w: Watch, now: Time): Watch {
    ShowPending(w, now).(cursor := 0)
  }

  function Normalized(token: Option<string>): Option<string> {
    if token.None? || Text.Trim(token.value) == "" then None else Some(Text.Trim(token.value))
  }

  /** TaphapticSessionPollGuard: an answer counts only for the session that asked. */
  predicate ShouldApplyResponse(requested: string, current: Option<string>) {
    Normalized(Some(requested)).Some? && Normalized(current) == Normalized(Some(requested))
  }

  /** What the answer to a poll does to the watch and its session. None is a 401. */
  function Received(w: Watch, token: Option<string>, requested: string, answer: Option<seq<Event>>, now: Time)
    : (Watch, Option<string>)
  {
    if !ShouldApplyResponse(requested, token) then (w, token)
    else if answer.None? then (ShowPending(w, now), None)
    else (if answer.value == [] then EmptyPoll(w, now) else ApplyAll(w, answer.value, now), token)
  }

  // ---------------------------------------------------------------- what one event does to the watch

  /** The old tasks, the pending one cancelled now unless it was before. */
  predicate PendingCancelled(w: Watch, timers: seq<Timer>, now: Time) {
    && |timers| == |w.timers|
    && forall i | 0 <= i < |timers| ::
         timers[i] == if w.resetTask == Some(i) && w.timers[i].cancelledAt.None?
                      then w.timers[i].(cancelledAt := Some(now)) else w.timers[i]
  }

  /** A seen event changes nothing. A new one moves the cursor to it. One of at most 20 seconds is on the screen for
      4.25 seconds, with the picture of its kind and a task of its own; an older one clears an idle screen. */
  predicate EventPromise(w: Watch, event: Event, now: Time, w': Watch) {
    if event.id <= w.cursor then w' == w
    else
      && w'.cursor == event.id
      && if now - event.createdAt <= 20_000_000_000 then
           var until := now + 4_250_000_000;
           && w'.active == Some(event.id) && w'.expires == Some(until) && Pictures(w'.display, event.kind)
           && w'.resetTask == Some(|w.timers|) && |w'.timers| == |w.timers| + 1
           && w'.timers[|w.timers|] == Timer(event.id, until, None, false)
           && PendingCancelled(w, w'.timers[..|w.timers|], now)
         else if w.active.Some? && w.active.value > 0 && w.expires.Some? && now < w.expires.value then
           w' == w.(cursor := event.id)
         else
           && w'.display.Waiting? && w'.active.None? && w'.expires.None? && w'.resetTask.None?
           && PendingCancelled(w, w'.timers, now)
  }

  lemma ApplyKeepsPromise(w: Watch, event: Event, now: Time)
    ensures EventPromise(w, event, now, ApplyEvent(w, event, now))
  {
  }

  // ---------------------------------------------------------------- the model object

  class TaphapticModel {
    var watchSessionToken: Option<string>
    var channelID: Option<string>
    var lastWatchEventID: int
    var displayState: Display
    var activeTransientEventID: Option<int>
    var activeTransientExpiresAt: Option<Time>
    var pendingResetTask: Option<nat>
    var tasks: seq<Timer>

    function View(): Watch
      reads this
    {
      Watch(lastWatchEventID, displayState, activeTransientEventID, activeTransientExpiresAt, pendingResetTask, tasks)
    }

    constructor (token: Option<string>, channel: Option<string>, storedCursor: int)
      ensures View() == Watch(storedCursor, Waiting, None, None, None, [])
      ensures watchSessionToken == token && channelID == channel
    {
      watchSessionToken, channelID := token, channel;
      lastWatchEventID, displayState := storedCursor, Waiting;
      activeTransientEventID, activeTransientExpiresAt := None, None;
      pendingResetTask, tasks := None, [];
    }

    method CancelPendingReset(now: Time)
      modifies this`pendingResetTask, this`tasks
      ensures pendingResetTask == None && tasks == Cancel(old(tasks), old(pendingResetTask), now)
    {
      if pendingResetTask.Some? && pendingResetTask.value < |tasks| {
        var task := pendingResetTask.value;
        tasks := tasks[task := CancelTimer(tasks[task], now)];
      }
      pendingResetTask := None;
    }

    method ShowPendingStatus(now: Time)
      modifies this`pendingResetTask, this`tasks, this`activeTransientEventID, this`activeTransientExpiresAt,
               this`displayState
      ensures View() == ShowPending(old(View()), now)
    {
      CancelPendingReset(now);
      activeTransientEventID, activeTransientExpiresAt := None, None;
      displayState := Waiting;
    }

    method SchedulePendingReset(eventID: int, expiresAt: Time, now: Time)
      modifies this`pendingResetTask, this`tasks
      ensures tasks == Cancel(old(tasks), old(pendingResetTask), now) + [Timer(eventID, expiresAt, None, false)]
      ensures pendingResetTask == Some(|old(tasks)|)
    {
      CancelPendingReset(now);
      pendingResetTask := Some(|tasks|);
      tasks := tasks + [Timer(eventID, expiresAt, None, false)];
    }

    method Apply(event: Event, now: Time)
      modifies this
      ensures View() == ApplyEvent(old(View()), event, now)
      ensures EventPromise(old(View()), event, now, View())
      ensures watchSessionToken == old(watchSessionToken) && channelID == old(channelID)
    {
      hide EventPromise;
      ApplyKeepsPromise(View(), event, now);
      if event.id <= lastWatchEventID { return; }
      if IsStale(event, now) {
        lastWatchEventID := event.id;
        if !IsTransientActive(View(), now) { ShowPendingStatus(now); }
        return;
      }
      CancelPendingReset(now);
      activeTransientEventID := Some(event.id);
      lastWatchEventID := event.id;
      displayState := DisplayFor(event.kind);
      var holdStartAt := now + TIMING.completedAnimation;
      var expiresAt := holdStartAt + TIMING.transientWindow;
      activeTransientExpiresAt := Some(expiresAt);
      SchedulePendingReset(event.id, expiresAt, now);
    }

    /** The part of pollCloudStatusOnce that runs when an answer arrives. None is a 401. */
    method ReceiveEvents(requested: string, answer: Option<seq<Event>>, now: Time)
      modifies this
      ensures (View(), watchSessionToken) == Received(old(View()), old(watchSessionToken), requested, answer, now)
      ensures !ShouldApplyResponse(requested, old(watchSessionToken)) ==>
                View() == old(View()) && watchSessionToken == old(watchSessionToken) && channelID == old(channelID)
      ensures ShouldApplyResponse(requested, old(watchSessionToken)) && answer.Some? ==>
                && View() == (if answer.value == [] then EmptyPoll(old(View()), now)
                   else ApplyAll(old(View()), answer.value, now))
                && watchSessionToken == old(watchSessionToken) && channelID == old(channelID)
      ensures ShouldApplyResponse(requested, old(watchSessionToken)) && answer.None? ==>
                View() == ShowPending(old(View()), now) && watchSessionToken == None && channelID == None
    {
      if !ShouldApplyResponse(requested, watchSessionToken) { return; }
      if answer.None? {
        watchSessionToken, channelID := None, None;
        ShowPendingStatus(now);
        return;
      }
      var events := answer.value;
      if events == [] {
        if !IsTransientActive(View(), now) { ShowPendingStatus(now); }
        return;
      }
      for i := 0 to |events|
        invariant View() == ApplyAll(old(View()), events[..i], now)
        invariant watchSessionToken == old(watchSessionToken) && channelID == old(channelID)
      {
        assert events[..i + 1][..i] == events[..i];
        Apply(events[i], now);
      }
      assert events[..|events|] == events;
    }

    /** The body of a clearing task once its sleep is over. */
    method WakeTask(task: nat, now: Time)
      requires CanWake(View(), task, now)
      modifies this
      ensures View() == Wake(old(View()), task, now)
      ensures watchSessionToken == old(watchSessionToken) && channelID == old(channelID)
    {
      if activeTransientEventID != Some(tasks[task].eventID) {
        pendingResetTask := None;
      } else {
        ShowPendingStatus(now);
        pendingResetTask := None;
      }
      tasks := Finish(tasks, task);
    }

    method ResetPairing(now: Time)
      modifies this
      ensures View() == Reset(old(View()), now) && watchSessionToken == None && channelID == None
    {
      watchSessionToken, channelID := None, None;
      lastWatchEventID := 0;
      ShowPendingStatus(now);
    }

    /** The end of a successful claim: the cursor is kept. */
    method CompletePairing(token: string, channel: string, now: Time)
      modifies this
      ensures View() == ShowPending(old(View()), now) && watchSessionToken == Some(token) && channelID == Some(channel)
    {
      watchSessionToken, channelID := Some(token), Some(channel);
      ShowPendingStatus(now);
    }
  }

  // ---------------------------------------------------------------- timer safety

  datatype Step =
    | EventStep(event: Event, now: Time)
    | EmptyPollStep(now: Time)
    | WakeStep(task: nat, now: Time)
    | SessionStep(now: Time)     // a pairing or a 401: the screen is cleared, the cursor is kept
    | ResetStep(now: Time)

  /** A wake that cannot happen leaves the watch alone. */
  function Next(w: Watch, step: Step): Watch {
    match step
    case EventStep(event, now) => ApplyEvent(w, event, now)
    case EmptyPollStep(now) => EmptyPoll(w, now)
    case WakeStep(task, now) => if CanWake(w, task, now) then Wake(w, task, now) else w
    case SessionStep(now) => ShowPending(w, now)
    case ResetStep(now) => Reset(w, now)
  }

  function Run(w: Watch, steps: seq<Step>): Watch {
    if steps == [] then w else Next(Run(w, steps[..|steps| - 1]), steps[|steps| - 1])
  }

  function Launch(cursor: int): Watch {
    Watch(cursor, Waiting, None, None, None, [])
  }

  /** The screen waits, no event is active and the pending task is cancelled. */
  predicate Blanked(w: Watch, now: Time, w': Watch) {
    && w'.display.Waiting? && w'.active.None? && w'.expires.None? && w'.resetTask.None?
    && PendingCancelled(w, w'.timers, now)
  }

  /** A task runs on once its sleep is over, unless it was cancelled before that. */
  predicate Runs(w: Watch, task: nat, now: Time) {
    task < |w.timers| &&
    var t := w.timers[task];
    !t.finished && t.due <= now && (t.cancelledAt.Some? ==> t.due <= t.cancelledAt.value)
  }

  /** What each step does. An empty poll clears a screen whose event has expired; a session clears any screen; a reset
      starts the cursor again as well; a task that runs clears the screen of its own event and drops the handle. */
  predicate StepPromise(w: Watch, step: Step, w': Watch) {
    match step
    case EventStep(event, now) => EventPromise(w, event, now, w')
    case EmptyPollStep(now) =>
      if w.active.Some? && w.active.value > 0 && w.expires.Some? && now < w.expires.value then w' == w
      else Blanked(w, now, w') && w'.cursor == w.cursor
    case SessionStep(now) => Blanked(w, now, w') && w'.cursor == w.cursor
    case ResetStep(now) => Blanked(w, now, w') && w'.cursor == 0
    case WakeStep(task, now) =>
      if !Runs(w, task, now) then w' == w
      else
        && w'.cursor == w.cursor && w'.resetTask.None? && |w'.timers| == |w.timers| && w'.timers[task].finished
        && if w.active == Some(w.timers[task].eventID)
           then w'.display.Waiting? && w'.active.None? && w'.expires.None?
           else w'.display == w.display && w'.active == w.active && w'.expires == w.expires
                && forall i | 0 <= i < |w.timers| && i != task :: w'.timers[i] == w.timers[i]
  }

  lemma StepKeepsPromise(w: Watch, step: Step)
    ensures StepPromise(w, step, Next(w, step))
  {
    if step.EventStep? { ApplyKeepsPromise(w, step.event, step.now); }
    hide EventPromise;
  }

  /** A batch is its events one by one, in order. */
  lemma {:induction false} BatchInOrder(w: Watch, events: seq<Event>, now: Time)
    ensures ApplyAll(w, events, now) == Run(w, seq(|events|, i requires 0 <= i < |events| => EventStep(events[i], now)))
  {
    hide ApplyEvent;
    if events != [] {
      var front, n := events[..|events| - 1], |events| - 1;
      var steps := seq(|events|, i requires 0 <= i < |events| => EventStep(events[i], now));
      BatchInOrder(w, front, now);
      assert steps[..n] == seq(|front|, i requires 0 <= i < |front| => EventStep(front[i], now));
    }
  }

  /** Something is shown exactly when there is an active event, and then a live timer will clear it. */
  predicate Attended(w: Watch) {
    && (w.display.Waiting? <==> w.active.None?) && (w.active.Some? <==> w.expires.Some?)
    && (w.active.Some? ==> exists i | 0 <= i < |w.timers| :: LiveFor(w.timers[i], w.active.value, w.expires.value))
  }

  predicate LiveFor(t: Timer, eventID: int, due: Time) {
    t.cancelledAt.None? && !t.finished && t.eventID == eventID && t.due == due
  }

  lemma StepKeepsAttended(w: Watch, step: Step)
    requires Attended(w)
    ensures Attended(Next(w, step))
  {
    var w' := Next(w, step);
    match step
    case EventStep(event, now) =>
      if Shows(w, event, now) { assert LiveFor(w'.timers[|w.timers|], event.id, w'.expires.value); }
    case WakeStep(task, now) =>
      if w'.active.Some? {
        var i :| 0 <= i < |w.timers| && LiveFor(w.timers[i], w.active.value, w.expires.value);
        assert i != task ==> w'.timers[i] == w.timers[i];
        assert LiveFor(w'.timers[i], w'.active.value, w'.expires.value);
      }
    case _ =>
  }

  lemma {:induction false} RunKeepsAttended(w: Watch, steps: seq<Step>)
    requires Attended(w)
    ensures Attended(Run(w, steps))
  {
    if steps != [] {
      RunKeepsAttended(w, steps[..|steps| - 1]);
      StepKeepsAttended(Run(w, steps[..|steps| - 1]), steps[|steps| - 1]);
    }
  }

  /** On every run, sessions and resets included, a shown event has a live timer due at its expiry. */
  lemma ShownIsAttended(cursor: int, steps: seq<Step>)
    ensures Attended(Run(Launch(cursor), steps))
  {
    RunKeepsAttended(Launch(cursor), steps);
  }

  /** Every timer that may still wake belongs to a seen event, and the active event's own are due at its expiry. */
  predicate Orderly(w: Watch) {
    && w.cursor >= 0 && (w.active.Some? ==> 0 < w.active.value <= w.cursor)
    && (forall i | 0 <= i < |w.timers| :: OrderlyTimer(w, w.timers[i]))
  }

  predicate OrderlyTimer(w: Watch, t: Timer) {
    && 0 < t.eventID
    && (MayWake(t) ==> t.eventID <= w.cursor && (w.active == Some(t.eventID) ==> w.expires == Some(t.due)))
  }

  /** What a step does to an old timer: nothing, or it cancels or finishes it. */
  lemma TimersAfter(w: Watch, step: Step, i: nat)
    requires i < |w.timers|
    ensures var w' := Next(w, step);
            && |w'.timers| >= |w.timers|
            && w'.timers[i].eventID == w.timers[i].eventID && w'.timers[i].due == w.timers[i].due
            && (MayWake(w'.timers[i]) ==> MayWake(w.timers[i]))
  {
  }

  lemma StepKeepsOrder(w: Watch, step: Step)
    requires Orderly(w) && !step.ResetStep?
    ensures Orderly(Next(w, step))
  {
    var w' := Next(w, step);
    forall i | 0 <= i < |w'.timers| ensures OrderlyTimer(w', w'.timers[i]) {
      if i < |w.timers| {
        TimersAfter(w, step, i);
        assert OrderlyTimer(w, w.timers[i]);
      }
    }
  }

  /** A reset is safe when every task has finished, was cancelled in its sleep, or is the pending one and asleep:
      only then is nothing left that may wake. */
  predicate SafeReset(w: Watch, now: Time) {
    forall i | 0 <= i < |w.timers| && MayWake(w.timers[i]) ::
      w.resetTask == Some(i) && w.timers[i].cancelledAt.None? && now < w.timers[i].due
  }

  lemma SafeResetMeans(w: Watch, now: Time)
    ensures SafeReset(w, now) <==> forall i | 0 <= i < |w.timers| :: !MayWake(Reset(w, now).timers[i])
  {
    var after := Reset(w, now).timers;
    forall i | 0 <= i < |w.timers|
      ensures MayWake(after[i]) <==>
              MayWake(w.timers[i]) && !(w.resetTask == Some(i) && w.timers[i].cancelledAt.None?
                  && now < w.timers[i].due)
    {
    }
  }

  predicate IDsPositive(w: Watch) {
    w.cursor >= 0 && forall i | 0 <= i < |w.timers| :: w.timers[i].eventID > 0
  }

  lemma {:induction false} RunKeepsIDsPositive(w: Watch, steps: seq<Step>)
    requires IDsPositive(w)
    ensures IDsPositive(Run(w, steps))
  {
    if steps != [] {
      var mid, step := Run(w, steps[..|steps| - 1]), steps[|steps| - 1];
      RunKeepsIDsPositive(w, steps[..|steps| - 1]);
      forall i | 0 <= i < |Next(mid, step).timers| ensures Next(mid, step).timers[i].eventID > 0 {
        if i < |mid.timers| { TimersAfter(mid, step, i); }
      }
    }
  }

  /** Every reset of the run is a safe one. */
  predicate SafeResets(w: Watch, steps: seq<Step>) {
    steps == [] ||
    var front, last := steps[..|steps| - 1], steps[|steps| - 1];
    SafeResets(w, front) && (last.ResetStep? ==> SafeReset(Run(w, front), last.now))
  }

  /** Order survives every run whose resets are safe, from wherever it starts. */
  lemma {:induction false} RunKeepsOrder(w: Watch, steps: seq<Step>)
    requires Orderly(w) && SafeResets(w, steps)
    ensures Orderly(Run(w, steps))
  {
    if steps != [] {
      var mid, step := Run(w, steps[..|steps| - 1]), steps[|steps| - 1];
      RunKeepsOrder(w, steps[..|steps| - 1]);
      if step.ResetStep? { SafeResetKeepsOrder(mid, step.now); } else { StepKeepsOrder(mid, step); }
    }
  }

  lemma SafeResetKeepsOrder(w: Watch, now: Time)
    requires IDsPositive(w) && SafeReset(w, now)
    ensures Orderly(Reset(w, now))
  {
    SafeResetMeans(w, now);
    forall i | 0 <= i < |w.timers| ensures OrderlyTimer(Reset(w, now), Reset(w, now).timers[i]) {
      TimersAfter(w, ResetStep(now), i);
    }
  }

  /** The shown event stays, gives way to a newer one, or is cleared at or after its expiry; nothing else appears.
      Session changes and resets clear the screen on purpose. */
  predicate Kept(w: Watch, step: Step) {
    step.SessionStep? || step.ResetStep? ||
    var w' := Next(w, step);
    || (w'.display == w.display && w'.active == w.active && w'.expires == w.expires)
    || (step.EventStep? && Shows(w, step.event, step.now) && w'.active == Some(step.event.id)
        && Pictures(w'.display, step.event.kind) && (w.active.Some? ==> w.active.value < step.event.id))
    || (w'.display == Waiting && w.active.Some? && w.expires.Some? && w.expires.value <= step.now)
  }

  lemma OrderKeepsShown(w: Watch, step: Step)
    requires Attended(w) && Orderly(w)
    ensures Kept(w, step)
  {
    if step.WakeStep? && CanWake(w, step.task, step.now) {
      assert OrderlyTimer(w, w.timers[step.task]);
    }
  }

  lemma LaunchIsOrderly(cursor: int)
    requires cursor >= 0
    ensures Attended(Launch(cursor)) && Orderly(Launch(cursor)) && IDsPositive(Launch(cursor))
  {
  }

  /** From a launch, over every run of sessions whose resets are safe, no stale timer takes a shown event down. */
  lemma ShownUntilExpiry(cursor: int, steps: seq<Step>, step: Step)
    requires cursor >= 0 && SafeResets(Launch(cursor), steps)
    ensures Kept(Run(Launch(cursor), steps), step)
  {
    LaunchIsOrderly(cursor);
    RunKeepsAttended(Launch(cursor), steps);
    RunKeepsOrder(Launch(cursor), steps);
    OrderKeepsShown(Run(Launch(cursor), steps), step);
  }

  predicate Timely(steps: seq<Step>, from: Time) {
    && (forall i | 0 <= i < |steps| :: from <= steps[i].now)
    && (forall i, j | 0 <= i < j < |steps| :: steps[i].now <= steps[j].now)
  }

  predicate NoReset(steps: seq<Step>) {
    forall i | 0 <= i < |steps| :: !steps[i].ResetStep?
  }

  /** Whatever follows until the next reset, a shown event is kept until its expiry. */
  ghost predicate KeepsShown(w: Watch, from: Time) {
    forall steps, step | Timely(steps + [step], from) && NoReset(steps) :: Kept(Run(w, steps), step)
  }

  lemma {:induction false} NoResetIsSafe(w: Watch, steps: seq<Step>)
    requires NoReset(steps)
    ensures SafeResets(w, steps)
  {
    if steps != [] { NoResetIsSafe(w, steps[..|steps| - 1]); }
  }

  /** A task that may wake after a reset can take down the same event shown again in the next session. */
  lemma StaleTaskStrikes(w: Watch, now: Time, i: nat)
    requires IDsPositive(w) && i < |w.timers| && MayWake(Reset(w, now).timers[i])
    ensures !KeepsShown(Reset(w, now), now)
  {
    var w0 := Reset(w, now);
    var t := w0.timers[i];
    TimersAfter(w, ResetStep(now), i);
    var at := if t.due < now then now else t.due;
    var event := Event(t.eventID, 1, "", Completed, at, at, "", "", "", "", "");
    var steps, wake := [SessionStep(at), EventStep(event, at)], WakeStep(i, at);
    var w1 := ShowPending(w0, at);
    assert steps[..1] == [SessionStep(at)] && steps[..1][..0] == [];
    assert Run(w0, steps[..1][..0]) == w0;
    assert Run(w0, steps[..1]) == w1;
    var w2 := Run(w0, steps);
    assert w2 == Next(w1, EventStep(event, at));
    assert w2.timers[i] == t && CanWake(w2, i, at) && w2.active == Some(t.eventID);
    assert !Kept(w2, wake);
    assert Timely(steps + [wake], now) && NoReset(steps);
  }

  /** After a reset in any reachable state a shown event is sure to be kept until its expiry exactly when the reset
      was safe: no task already over its sleep, and none the watch had lost its handle on. */
  lemma ResetKeepsShownIff(cursor: int, before: seq<Step>, now: Time)
    requires cursor >= 0
    ensures var w := Run(Launch(cursor), before); KeepsShown(Reset(w, now), now) <==> SafeReset(w, now)
  {
    var w := Run(Launch(cursor), before);
    RunKeepsIDsPositive(Launch(cursor), before);
    ShownIsAttended(cursor, before);
    SafeResetMeans(w, now);
    if SafeReset(w, now) {
      SafeResetKeepsOrder(w, now);
      forall steps, step | Timely(steps + [step], now) && NoReset(steps) ensures Kept(Run(Reset(w, now), steps), step) {
        NoResetIsSafe(Reset(w, now), steps);
        RunKeepsAttended(Reset(w, now), steps);
        RunKeepsOrder(Reset(w, now), steps);
        OrderKeepsShown(Run(Reset(w, now), steps), step);
      }
    } else {
      var i :| 0 <= i < |w.timers| && MayWake(Reset(w, now).timers[i]);
      StaleTaskStrikes(w, now, i);
    }
  }

  // ---------------------------------------------------------------- events of one relay

  /** The relay gives an id to one event and never changes it. */
  predicate Sent(steps: seq<Step>, relay: int -> Event) {
    forall i | 0 <= i < |steps| && steps[i].EventStep? :: steps[i].event == relay(steps[i].event.id)
  }

  /** Whatever follows until the next reset, as long as the events are the relay's. */
  ghost predicate KeepsSent(w: Watch, from: Time, relay: int -> Event) {
    forall steps, step | Timely(steps + [step], from) && NoReset(steps) && Sent(steps + [step], relay) ::
      Kept(Run(w, steps), step)
  }

  /** The last instant at which the event is still shown. */
  function LastShow(event: Event): Time {
    event.createdAt + TIMING.staleAge
  }

  /** From then on no show of the task's event can outlast the task: it is stale already, or even its last possible
      show is over when the task is due. */
  predicate Harmless(t: Timer, relay: int -> Event, from: Time) {
    var last := LastShow(relay(t.eventID));
    last < from || last + TIMING.completedAnimation + TIMING.transientWindow <= t.due
  }

  /** Each task a reset leaves behind that may still wake is harmless. */
  predicate HarmlessReset(w: Watch, now: Time, relay: int -> Event) {
    forall i | 0 <= i < |w.timers| && MayWake(w.timers[i]) ::
      || (w.resetTask == Some(i) && w.timers[i].cancelledAt.None? && now < w.timers[i].due)
      || Harmless(w.timers[i], relay, now)
  }

  lemma HarmlessResetMeans(w: Watch, now: Time, relay: int -> Event)
    ensures HarmlessReset(w, now, relay) <==>
            forall t <- Reset(w, now).timers | MayWake(t) :: Harmless(t, relay, now)
  {
    var after := Reset(w, now).timers;
    forall i | 0 <= i < |w.timers|
      ensures Harmless(after[i], relay, now) == Harmless(w.timers[i], relay, now)
      ensures MayWake(after[i]) <==>
              MayWake(w.timers[i]) && !(w.resetTask == Some(i) && w.timers[i].cancelledAt.None?
                  && now < w.timers[i].due)
    {
    }
    assert |after| == |w.timers|;
    forall i | 0 <= i < |after| ensures after[i] in after { }
  }

  /** No task can cut a show short: not the one on the screen, and not one still to come. */
  predicate Calm(w: Watch, relay: int -> Event, from: Time) {
    && w.cursor >= 0 && (w.active.Some? ==> 0 < w.active.value <= w.cursor && w.expires.Some?)
    && forall t <- w.timers | MayWake(t) ::
         && (w.active == Some(t.eventID) ==> w.expires.value <= t.due)
         && (t.eventID <= w.cursor || Harmless(t, relay, from))
  }

  lemma StepKeepsCalm(w: Watch, step: Step, relay: int -> Event, from: Time)
    requires Calm(w, relay, from) && !step.ResetStep? && from <= step.now
    requires step.EventStep? ==> step.event == relay(step.event.id)
    ensures Calm(Next(w, step), relay, from)
  {
    var w' := Next(w, step);
    forall t <- w'.timers | MayWake(t)
      ensures (w'.active == Some(t.eventID) ==> w'.expires.value <= t.due)
              && (t.eventID <= w'.cursor || Harmless(t, relay, from))
    {
      var i :| 0 <= i < |w'.timers| && w'.timers[i] == t;
      if i < |w.timers| {
        TimersAfter(w, step, i);
        assert w.timers[i] in w.timers;
      }
    }
  }

  lemma {:induction false} RunKeepsCalm(w: Watch, steps: seq<Step>, relay: int -> Event, from: Time)
    requires Calm(w, relay, from) && Timely(steps, from) && NoReset(steps) && Sent(steps, relay)
    ensures Calm(Run(w, steps), relay, from)
  {
    if steps != [] {
      RunKeepsCalm(w, steps[..|steps| - 1], relay, from);
      StepKeepsCalm(Run(w, steps[..|steps| - 1]), steps[|steps| - 1], relay, from);
    }
  }

  lemma CalmKeepsShown(w: Watch, step: Step, relay: int -> Event, from: Time)
    requires Attended(w) && Calm(w, relay, from)
    ensures Kept(w, step)
  {
    if step.WakeStep? && CanWake(w, step.task, step.now) { assert w.timers[step.task] in w.timers; }
  }

  /** Every timer stands for an event of the relay. */
  lemma {:induction false} TimersAreSent(cursor: int, steps: seq<Step>, relay: int -> Event)
    requires cursor >= 0 && Sent(steps, relay)
    ensures forall t <- Run(Launch(cursor), steps).timers :: t.eventID > 0 && relay(t.eventID).id == t.eventID
  {
    if steps != [] {
      var w, step := Run(Launch(cursor), steps[..|steps| - 1]), steps[|steps| - 1];
      TimersAreSent(cursor, steps[..|steps| - 1], relay);
      RunKeepsIDsPositive(Launch(cursor), steps);
      var w' := Next(w, step);
      forall t <- w'.timers ensures t.eventID > 0 && relay(t.eventID).id == t.eventID {
        var i :| 0 <= i < |w'.timers| && w'.timers[i] == t;
        if i < |w.timers| {
          TimersAfter(w, step, i);
          assert w.timers[i] in w.timers;
        }
      }
    }
  }

  /** A task that is not harmless strikes: its event is shown once more at the last moment, and cut short. */
  lemma HarmfulTaskStrikes(w: Watch, now: Time, relay: int -> Event, t: Timer)
    requires t in w.timers && MayWake(t) && !Harmless(t, relay, now) && w.cursor == 0
    requires t.eventID > 0 && relay(t.eventID).id == t.eventID && w.resetTask.None?
    ensures !KeepsSent(w, now, relay)
  {
    var i :| 0 <= i < |w.timers| && w.timers[i] == t;
    var event := relay(t.eventID);
    var at := LastShow(event);
    var wakes := if t.due < at then at else t.due;
    var steps, wake := [EventStep(event, at)], WakeStep(i, wakes);
    assert steps[..0] == [] && Run(w, []) == w;
    var w' := Run(w, steps);
    assert w' == Next(w, EventStep(event, at));
    assert w'.timers[i] == t && CanWake(w', i, wakes) && w'.active == Some(t.eventID);
    assert !Kept(w', wake);
    assert Timely(steps + [wake], now) && NoReset(steps) && Sent(steps + [wake], relay);
  }

  /** With one relay behind both sessions, a shown event is sure to be kept until its expiry after a reset exactly
      when no task is left that may wake before a later show of its event is over. */
  lemma ResetKeepsSentIff(cursor: int, before: seq<Step>, now: Time, relay: int -> Event)
    requires cursor >= 0 && Sent(before, relay)
    ensures var w := Run(Launch(cursor), before);
            KeepsSent(Reset(w, now), now, relay) <==> HarmlessReset(w, now, relay)
  {
    var w := Run(Launch(cursor), before);
    var after := Reset(w, now);
    HarmlessResetMeans(w, now, relay);
    TimersAreSent(cursor, before + [ResetStep(now)], relay);
    assert (before + [ResetStep(now)])[..|before|] == before;
    if HarmlessReset(w, now, relay) {
      forall steps, step | Timely(steps + [step], now) && NoReset(steps) && Sent(steps + [step], relay)
        ensures Kept(Run(after, steps), step)
      {
        assert Timely(steps, now) && Sent(steps, relay) by {
          assert forall i | 0 <= i < |steps| :: (steps + [step])[i] == steps[i];
        }
        RunKeepsAttended(after, steps);
        RunKeepsCalm(after, steps, relay, now);
        CalmKeepsShown(Run(after, steps), step, relay, now);
      }
    } else {
      var t :| t in after.timers && MayWake(t) && !Harmless(t, relay, now);
      HarmfulTaskStrikes(after, now, relay, t);
    }
  }

  function Sample(id: int, createdAt: Time): Event {
    Event(id, 1, "c", Completed, createdAt, createdAt, "", "", "", "", "")
  }

  /** One way to an unsafe reset: the first task's sleep is over at 4.25 s but it has not had its turn when the
      reset comes at 4.26 s. The event shown again in the next session until 8.55 s goes dark at 4.31 s. */
  lemma QueuedTaskAfterReset()
    ensures var steps := [EventStep(Sample(7, 0), 0), ResetStep(4_260_000_000), SessionStep(4_300_000_000),
                          EventStep(Sample(7, 0), 4_300_000_000)];
            var w := Run(Launch(0), steps);
            && w.active == Some(7) && w.expires == Some(8_550_000_000)
            && Next(w, WakeStep(0, 4_310_000_000)).display == Waiting
  {
    var steps := [EventStep(Sample(7, 0), 0), ResetStep(4_260_000_000), SessionStep(4_300_000_000),
                  EventStep(Sample(7, 0), 4_300_000_000)];
    assert steps[..4] == steps;
    Prefixes(Launch(0), steps, 0);
    Prefixes(Launch(0), steps, 1);
    assert Run(Launch(0), steps[..1]).timers == [Timer(7, 4_250_000_000, None, false)];
    Prefixes(Launch(0), steps, 2);
    assert Run(Launch(0), steps[..2]).timers == [Timer(7, 4_250_000_000, Some(4_260_000_000), false)];
    Prefixes(Launch(0), steps, 3);
    assert Run(Launch(0), steps[..3]).timers == [Timer(7, 4_250_000_000, Some(4_260_000_000), false)];
    Prefixes(Launch(0), steps, 4);
  }

  /** Another way, without any task waiting at the reset: event 2 arrives just as the sleep for event 1 is over, that
      task then drops the handle on the new task, and the reset at 5 s cancels nothing. Event 2 shown again at 6 s
      goes dark at 8.5 s instead of 10.25 s. */
  lemma OrphanedTaskAfterReset()
    ensures var steps := [EventStep(Sample(1, 0), 0), EventStep(Sample(2, 0), 4_250_000_000),
                          WakeStep(0, 4_250_000_000), ResetStep(5_000_000_000), SessionStep(6_000_000_000),
                          EventStep(Sample(2, 0), 6_000_000_000)];
            var w := Run(Launch(0), steps);
            && w.active == Some(2) && w.expires == Some(10_250_000_000)
            && Next(w, WakeStep(1, 8_500_000_000)).display == Waiting
  {
    hide Next;
    var steps := [EventStep(Sample(1, 0), 0), EventStep(Sample(2, 0), 4_250_000_000), WakeStep(0, 4_250_000_000),
                  ResetStep(5_000_000_000), SessionStep(6_000_000_000), EventStep(Sample(2, 0), 6_000_000_000)];
    OrphanStates();
    assert steps[..6] == steps;
    Prefixes(Launch(0), steps, 0);
    Prefixes(Launch(0), steps, 1);
    Prefixes(Launch(0), steps, 2);
    Prefixes(Launch(0), steps, 3);
    Prefixes(Launch(0), steps, 4);
    Prefixes(Launch(0), steps, 5);
    Prefixes(Launch(0), steps, 6);
  }

  lemma OrphanStates()
    ensures var late, orphan := Timer(1, 4_250_000_000, Some(4_250_000_000), false),
            Timer(2, 8_500_000_000, None, false);
            var w1 := Watch(1, Success, Some(1), Some(4_250_000_000), Some(0), [late.(cancelledAt := None)]);
            var w2 := Watch(2, Success, Some(2), Some(8_500_000_000), Some(1), [late, orphan]);
            var w3 := w2.(resetTask := None, timers := [late.(finished := true), orphan]);
            var w4 := Watch(0, Waiting, None, None, None, w3.timers);
            var w6 := Watch(2, Success, Some(2), Some(10_250_000_000), Some(2),
                w3.timers + [Timer(2, 10_250_000_000, None, false)]);
            && Next(Launch(0), EventStep(Sample(1, 0), 0)) == w1
            && Next(w1, EventStep(Sample(2, 0), 4_250_000_000)) == w2
            && Next(w2, WakeStep(0, 4_250_000_000)) == w3
            && Next(w3, ResetStep(5_000_000_000)) == w4
            && Next(w4, SessionStep(6_000_000_000)) == w4
            && Next(w4, EventStep(Sample(2, 0), 6_000_000_000)) == w6
            && Next(w6, WakeStep(1, 8_500_000_000)).display == Waiting
  {
  }

  lemma Prefixes(w: Watch, steps: seq<Step>, n: nat)
    requires n <= |steps|
    ensures Run(w, steps[..n]) == if n == 0 then w else Next(Run(w, steps[..n - 1]), steps[n - 1])
  {
    assert n > 0 ==> steps[..n][..n - 1] == steps[..n - 1];
  }

  // ---------------------------------------------------------------- the watch simulates the policy

  /** The policy reacts to events and empty polls, and knows nothing of timers. A new session or a reset starts it
      afresh from the watch's cursor. */
  function PolicyNext(p: P.State, step: Step): (P.State, P.Action) {
    match step
    case EventStep(event, now) => P.Apply(event, p, now, TIMING)
    case EmptyPollStep(now) => P.ApplyPending(p, now)
    case WakeStep(_, _) => (p, P.NoChange)
    case SessionStep(_) => (P.State(p.lastSeen, None, None), P.ShowPending)
    case ResetStep(_) => (P.State(0, None, None), P.ShowPending)
  }

  /** What the watch put on the screen, and what the policy wanted there. */
  datatype Shown = Shown(eventID: int, display: Display)

  datatype Wanted = Wanted(eventID: int, kind: Kind)

  /** The same events in the same order, each with the picture of its kind. */
  predicate Alike(shown: seq<Shown>, wanted: seq<Wanted>) {
    && |shown| == |wanted|
    && forall i | 0 <= i < |shown| ::
         shown[i].eventID == wanted[i].eventID && Pictures(shown[i].display, wanted[i].kind)
  }

  /** Both machines side by side, with what each of them put on the screen since the cursor started from `start`. */
  datatype Pair = Pair(watch: Watch, policy: P.State, start: int, shown: seq<Shown>, wanted: seq<Wanted>, clock: Time)

  function NextPair(s: Pair, step: Step): Pair {
    var (p, action) := PolicyNext(s.policy, step);
    var w := Next(s.watch, step);
    if step.ResetStep? then Pair(w, p, 0, [], [], step.now)
    else
      Pair(w, p, s.start,
           if step.EventStep? && Shows(s.watch, step.event, step.now)
           then s.shown + [Shown(step.event.id, w.display)] else s.shown,
           if action.ShowEvent?
           then s.wanted + [Wanted(action.presentation.eventID, action.presentation.kind)] else s.wanted,
           step.now)
  }

  function RunPair(s: Pair, steps: seq<Step>): Pair {
    if steps == [] then s else NextPair(RunPair(s, steps[..|steps| - 1]), steps[|steps| - 1])
  }

  function StartPair(w: Watch, clock: Time): Pair {
    Pair(w, P.State(w.cursor, None, None), w.cursor, [], [], clock)
  }

  predicate Increasing(shown: seq<Shown>, above: int, upTo: int) {
    && (forall i, j | 0 <= i < j < |shown| :: shown[i].eventID < shown[j].eventID)
    && (forall i | 0 <= i < |shown| :: above < shown[i].eventID <= upTo)
  }

  /** Equal cursors and equal shows, in strictly increasing order. */
  predicate Agree(s: Pair) {
    && s.watch.cursor == s.policy.lastSeen && s.start <= s.watch.cursor
    && (s.policy.active.Some? ==> s.policy.active.value <= s.policy.lastSeen)
    && Alike(s.shown, s.wanted) && Increasing(s.shown, s.start, s.watch.cursor)
  }

  /** Whatever the policy holds active the watch still shows, at least as long. */
  predicate Holds(s: Pair) {
    P.IsActive(s.policy, s.clock) ==>
      && s.watch.active == s.policy.active && s.watch.expires.Some? && s.watch.expires.value >= s.policy.expires.value
      && !s.watch.display.Waiting?
  }

  /** One event makes both machines move alike. */
  lemma EventAgrees(w: Watch, p: P.State, event: Event, now: Time)
    requires w.cursor == p.lastSeen && (p.active.Some? ==> p.active.value <= p.lastSeen)
    ensures var w' := ApplyEvent(w, event, now);
            var (p', action) := PolicyNext(p, EventStep(event, now));
            && w'.cursor == p'.lastSeen && w.cursor <= w'.cursor
            && (p'.active.Some? ==> p'.active.value <= p'.lastSeen)
            && (action.ShowEvent? <==> Shows(w, event, now))
            && (action.ShowEvent? ==>
                  && action.presentation.eventID == event.id && w'.cursor == event.id
                  && Pictures(w'.display, action.presentation.kind))
  {
  }

  lemma QuietAgrees(w: Watch, p: P.State, step: Step)
    requires !step.EventStep? && !step.ResetStep? && (p.active.Some? ==> p.active.value <= p.lastSeen)
    ensures var (p', action) := PolicyNext(p, step);
            && Next(w, step).cursor == w.cursor && p'.lastSeen == p.lastSeen && !action.ShowEvent?
            && (p'.active.Some? ==> p'.active.value <= p'.lastSeen)
  {
  }

  lemma EventShows(w: Watch, step: Step)
    requires step.EventStep?
    ensures Next(w, step) == ApplyEvent(w, step.event, step.now)
    ensures Shows(w, step.event, step.now) ==> w.cursor < step.event.id
  {
  }

  lemma ResetAgrees(s: Pair, step: Step)
    requires step.ResetStep?
    ensures Agree(NextPair(s, step))
  {
  }

  lemma ShownMore(shown: seq<Shown>, above: int, upTo: int, last: Shown)
    requires Increasing(shown, above, upTo) && above <= upTo
    ensures forall more | more >= upTo :: Increasing(shown, above, more)
    ensures upTo < last.eventID ==> Increasing(shown + [last], above, last.eventID)
  {
  }

  lemma AgreeStep(s: Pair, step: Step)
    requires Agree(s)
    ensures Agree(NextPair(s, step))
  {
    hide Next, PolicyNext, Increasing, Shows;
    if step.ResetStep? {
      ResetAgrees(s, step);
    } else if step.EventStep? {
      EventShows(s.watch, step);
      EventAgrees(s.watch, s.policy, step.event, step.now);
      ShownMore(s.shown, s.start, s.watch.cursor, Shown(step.event.id, Next(s.watch, step).display));
    } else {
      QuietAgrees(s.watch, s.policy, step);
    }
  }

  lemma HoldsStep(s: Pair, step: Step)
    requires Agree(s) && Holds(s) && Attended(s.watch) && Orderly(s.watch) && s.clock <= step.now
    ensures Holds(NextPair(s, step))
  {
    if step.WakeStep? && CanWake(s.watch, step.task, step.now) {
      assert OrderlyTimer(s.watch, s.watch.timers[step.task]);
    }
  }

  lemma {:induction false} RunPairTracks(s: Pair, steps: seq<Step>)
    ensures RunPair(s, steps).watch == Run(s.watch, steps)
    ensures RunPair(s, steps).clock == if steps == [] then s.clock else steps[|steps| - 1].now
  {
    if steps != [] { RunPairTracks(s, steps[..|steps| - 1]); }
  }

  /** From any state of the watch, over every run of events, empty polls, wakes, sessions and resets: the watch and the
      policy keep one cursor and show the same events, strictly increasing since the last reset. */
  lemma {:induction false} WatchShowsWhatPolicyShows(w: Watch, clock: Time, steps: seq<Step>)
    ensures Agree(RunPair(StartPair(w, clock), steps))
  {
    if steps != [] {
      WatchShowsWhatPolicyShows(w, clock, steps[..|steps| - 1]);
      AgreeStep(RunPair(StartPair(w, clock), steps[..|steps| - 1]), steps[|steps| - 1]);
    }
  }

  /** And when time does not go back and the resets are safe, the watch still shows whatever the policy holds active:
      through every session, from any orderly state, such as a launch. */
  lemma {:induction false} WatchSimulatesPolicy(w: Watch, clock: Time, steps: seq<Step>)
    requires Attended(w) && Orderly(w) && Timely(steps, clock) && SafeResets(w, steps)
    ensures var s := RunPair(StartPair(w, clock), steps); Agree(s) && Holds(s)
  {
    WatchShowsWhatPolicyShows(w, clock, steps);
    if steps != [] {
      var front := steps[..|steps| - 1];
      assert Timely(front, clock) by {
        assert forall i | 0 <= i < |front| :: front[i] == steps[i];
      }
      WatchSimulatesPolicy(w, clock, front);
      RunPairTracks(StartPair(w, clock), front);
      RunKeepsAttended(w, front);
      RunKeepsOrder(w, front);
      HoldsStep(RunPair(StartPair(w, clock), front), steps[|steps| - 1]);
    }
  }
}
