/** The shared Pomodoro timer as values: the `CONFIG` object, the timer fields of
    `state`, the `timer` record in the room, and the functions that say what the
    host tick, the phase switch, the timer observer and a settings change do to
    them (script.js). The `Session` class performs these steps in place. */
module TimerModel {
  import opened Wrappers
  import opened JsNumber

  /** `CONFIG`: phase lengths in minutes. */
  datatype Config = Config(workMinutes: int, breakMinutes: int)

  /** `CONFIG` as the page loads (script.js:4-7). */
  const DefaultConfig := Config(20, 5)

  /** Number of work phases in a round; `currentCycle` counts modulo this. */
  const CyclesPerRound := 4

  /** The timer fields of `state`. */
  datatype Timer = Timer(remainingSeconds: int, isBreak: bool, isPaused: bool, currentCycle: int)

  /** A `timer` record in the room; `currentCycle` may be absent (`lastUpdate` is a
      server timestamp that no client reads and is left out). */
  datatype Snapshot = Snapshot(remainingSeconds: int, isBreak: bool, isPaused: bool, currentCycle: Option<int>)

  /** The `settings` record in the room. */
  datatype Settings = Settings(workMinutes: int, breakMinutes: int)

  /** What a new room holds (`initializeRoom`, script.js:278-292). */
  datatype RoomRecord = RoomRecord(hostId: string, timer: Snapshot, settings: Settings)

  /** A call to `startCall` or `endCall`. */
  datatype CallEvent = CallStarted | CallEnded

  /** The timer fields of `state` as the page loads (script.js:18-22). */
  const InitialTimer := Timer(DefaultConfig.workMinutes * 60, false, false, 0)

  /** Full length in seconds of a work or break phase. */
  function PhaseSeconds(cfg: Config, isBreak: bool): int {
    if isBreak then cfg.breakMinutes * 60 else cfg.workMinutes * 60
  }

  predicate PositiveConfig(cfg: Config) {
    cfg.workMinutes > 0 && cfg.breakMinutes > 0
  }

  /** What the host's state keeps: positive phase lengths, a countdown that has
      not run out and a cycle in 0..3. */
  predicate HostReady(t: Timer, cfg: Config) {
    PositiveConfig(cfg) && t.remainingSeconds >= 1 && 0 <= t.currentCycle < CyclesPerRound
  }

  /** `switchPhase` (script.js:424-431): the phase flips, the countdown restarts at
      the full length of the new phase, and the cycle advances (JavaScript's
      `% 4`) exactly when a break ends. */
  function Switched(t: Timer, cfg: Config): (r: Timer)
    ensures r.isBreak != t.isBreak && r.isPaused == t.isPaused
    ensures r.remainingSeconds == PhaseSeconds(cfg, r.isBreak)
    ensures t.isBreak ==> r.currentCycle == JsRem(t.currentCycle + 1, CyclesPerRound)
    ensures !t.isBreak ==> r.currentCycle == t.currentCycle
    ensures r.currentCycle != t.currentCycle <==> t.isBreak
    ensures t.currentCycle >= -1 && t.isBreak ==> 0 <= r.currentCycle < CyclesPerRound
    ensures 0 <= t.currentCycle < CyclesPerRound ==> 0 <= r.currentCycle < CyclesPerRound
    ensures PositiveConfig(cfg) ==> r.remainingSeconds >= 60
  {
    var isBreak := !t.isBreak;
    Timer(PhaseSeconds(cfg, isBreak), isBreak, t.isPaused,
          if !isBreak then JsRem(t.currentCycle + 1, CyclesPerRound) else t.currentCycle)
  }

  /** One running host tick (script.js:405-409): count down by one, and switch the
      phase when the count reaches zero or below. */
  function Ticked(t: Timer, cfg: Config): (r: Timer)
    ensures r.isPaused == t.isPaused
    ensures r.isBreak != t.isBreak <==> t.remainingSeconds <= 1
    ensures r.isBreak == t.isBreak ==>
      r.remainingSeconds == t.remainingSeconds - 1 && r.currentCycle == t.currentCycle
    ensures PositiveConfig(cfg) ==> r.remainingSeconds >= 1
    ensures HostReady(t, cfg) ==> HostReady(r, cfg)
  {
    var down := t.(remainingSeconds := t.remainingSeconds - 1);
    if down.remainingSeconds <= 0 then Switched(down, cfg) else down
  }

  /** `n` running host ticks in a row: the pause flag never changes, and a host
      that starts ready stays ready however long it runs. */
  function Run(t: Timer, cfg: Config, n: nat): (r: Timer)
    ensures r.isPaused == t.isPaused
    ensures HostReady(t, cfg) ==> HostReady(r, cfg)
    decreases n
  {
    if n == 0 then t else Run(Ticked(t, cfg), cfg, n - 1)
  }

  /** Before the countdown runs out, `n` ticks take exactly `n` seconds off and
      change nothing else. */
  lemma {:induction false} RunCountsDown(t: Timer, cfg: Config, n: nat)
    requires n < t.remainingSeconds
    ensures Run(t, cfg, n) == t.(remainingSeconds := t.remainingSeconds - n)
    decreases n
  {
    if n > 0 {
      RunCountsDown(Ticked(t, cfg), cfg, n - 1);
    }
  }

  /** `m` ticks after `n` ticks are `n + m` ticks. */
  lemma {:induction false} RunAdds(t: Timer, cfg: Config, n: nat, m: nat)
    ensures Run(Run(t, cfg, n), cfg, m) == Run(t, cfg, n + m)
    decreases n
  {
    if n > 0 {
      RunAdds(Ticked(t, cfg), cfg, n - 1, m);
    }
  }

  /** A phase that has `t.remainingSeconds` left ends after exactly that many ticks,
      with the state `switchPhase` produces. */
  lemma RunEndsPhase(t: Timer, cfg: Config)
    requires t.remainingSeconds >= 1
    ensures Run(t, cfg, t.remainingSeconds) == Switched(t, cfg)
  {
    var n := t.remainingSeconds - 1;
    RunCountsDown(t, cfg, n);
    RunAdds(t, cfg, n, 1);
  }

  /** A whole work phase and the break after it bring the timer back to the start
      of a work phase, one cycle further on. */
  lemma RunFullCycle(t: Timer, cfg: Config)
    requires PositiveConfig(cfg)
    requires !t.isBreak && t.remainingSeconds == PhaseSeconds(cfg, false)
    ensures Run(t, cfg, PhaseSeconds(cfg, false) + PhaseSeconds(cfg, true))
         == t.(currentCycle := JsRem(t.currentCycle + 1, CyclesPerRound))
  {
    var w, b := PhaseSeconds(cfg, false), PhaseSeconds(cfg, true);
    RunEndsPhase(t, cfg);
    var brk := Switched(t, cfg);
    RunEndsPhase(brk, cfg);
    RunAdds(t, cfg, w, b);
  }

  /** Four full cycles bring the timer back to where it started. */
  lemma RunFourCycles(t: Timer, cfg: Config)
    requires PositiveConfig(cfg) && 0 <= t.currentCycle < CyclesPerRound
    requires !t.isBreak && t.remainingSeconds == PhaseSeconds(cfg, false)
    ensures Run(t, cfg, CyclesPerRound * (PhaseSeconds(cfg, false) + PhaseSeconds(cfg, true))) == t
  {
    var p := PhaseSeconds(cfg, false) + PhaseSeconds(cfg, true);
    var t1 := t.(currentCycle := (t.currentCycle + 1) % CyclesPerRound);
    var t2 := t.(currentCycle := (t.currentCycle + 2) % CyclesPerRound);
    var t3 := t.(currentCycle := (t.currentCycle + 3) % CyclesPerRound);
    RunFullCycle(t, cfg);
    RunFullCycle(t1, cfg);
    assert t1.(currentCycle := JsRem(t1.currentCycle + 1, CyclesPerRound)) == t2;
    RunFullCycle(t2, cfg);
    assert t2.(currentCycle := JsRem(t2.currentCycle + 1, CyclesPerRound)) == t3;
    RunFullCycle(t3, cfg);
    assert t3.(currentCycle := JsRem(t3.currentCycle + 1, CyclesPerRound)) == t;
    RunAdds(t, cfg, p, p);
    RunAdds(t, cfg, 2 * p, p);
    RunAdds(t, cfg, 3 * p, p);
  }

  /** With the default settings, a running work phase started at 20:00 becomes a
      5:00 break, still in cycle 0, after 1200 ticks. */
  lemma DefaultWorkPhaseEnds()
    ensures Run(InitialTimer, DefaultConfig, 1200) == Timer(300, true, false, 0)
  {
    RunEndsPhase(InitialTimer, DefaultConfig);
  }

  /** The snapshot the host writes after a tick (script.js:412-418). */
  function Published(t: Timer): (s: Snapshot)
    ensures s.currentCycle.Some?
  {
    Snapshot(t.remainingSeconds, t.isBreak, t.isPaused, Some(t.currentCycle))
  }

  /** The timer observer's effect on the state (script.js:365-372): a non-host takes
      the countdown, pause flag and cycle (0 when absent) from the snapshot, a host
      keeps its own, and everyone takes the phase. */
  function Observed(t: Timer, isHost: bool, s: Snapshot): (r: Timer)
    ensures r.isBreak == s.isBreak
    ensures isHost ==> r == t.(isBreak := s.isBreak)
    ensures !isHost ==> r.remainingSeconds == s.remainingSeconds && r.isPaused == s.isPaused
    ensures !isHost && s.currentCycle.None? ==> r.currentCycle == 0
  {
    if isHost then t.(isBreak := s.isBreak)
    else Timer(s.remainingSeconds, s.isBreak, s.isPaused, s.currentCycle.GetOr(0))
  }

  /** The calls the observer makes when the phase goes from `prev` to `next`
      (script.js:379-385): `startCall` on a rising edge, `endCall` on a falling one. */
  function Edge(prev: bool, next: bool): (events: seq<CallEvent>)
    ensures events == [CallStarted] <==> !prev && next
    ensures events == [CallEnded] <==> prev && !next
    ensures events == [] <==> prev == next
  {
    if !prev && next then [CallStarted] else if prev && !next then [CallEnded] else []
  }

  /** Delivering the same snapshot a second time changes nothing and calls nothing. */
  lemma ObserveTwice(t: Timer, isHost: bool, s: Snapshot)
    ensures var once := Observed(t, isHost, s);
      Observed(once, isHost, s) == once && Edge(once.isBreak, s.isBreak) == []
  {
  }

  /** A non-host that observes what the host published holds the host's timer. */
  lemma GuestMirrorsHost(guest: Timer, host: Timer)
    ensures Observed(guest, false, Published(host)) == host
  {
  }

  /** The host's own publication, coming back through its observer, changes nothing
      and calls nothing. */
  lemma HostSeesOwnTick(t: Timer)
    ensures Observed(t, true, Published(t)) == t && Edge(t.isBreak, Published(t).isBreak) == []
  {
  }

  /** A call log that alternates `startCall`, `endCall`, ... and ends on
      `startCall` exactly while in a break. */
  ghost predicate CallLogAgrees(log: seq<CallEvent>, isBreak: bool) {
    && (forall i :: 0 <= i < |log| ==> log[i] == if i % 2 == 0 then CallStarted else CallEnded)
    && (isBreak <==> |log| % 2 == 1)
  }

  /** Recording the observer's edge keeps the call log alternating. */
  lemma EdgeKeepsLog(log: seq<CallEvent>, prev: bool, next: bool)
    requires CallLogAgrees(log, prev)
    ensures CallLogAgrees(log + Edge(prev, next), next)
  {
  }

  /** Recording the call of a phase switch keeps the call log alternating. */
  lemma SwitchKeepsLog(log: seq<CallEvent>, prev: bool)
    requires CallLogAgrees(log, prev)
    ensures CallLogAgrees(log + [if !prev then CallStarted else CallEnded], !prev)
  {
  }

  /** The state and the calls after a run of snapshots is delivered in order: the
      final phase is the last snapshot's, and each snapshot fires at most one call. */
  function ObserveAll(t: Timer, isHost: bool, snaps: seq<Snapshot>): (r: (Timer, seq<CallEvent>))
    ensures snaps == [] ==> r == (t, [])
    ensures snaps != [] ==> r.0.isBreak == snaps[|snaps| - 1].isBreak
    ensures |r.1| <= |snaps|
    decreases |snaps|
  {
    if snaps == [] then (t, [])
    else
      var next := Observed(t, isHost, snaps[0]);
      var (last, events) := ObserveAll(next, isHost, snaps[1..]);
      (last, Edge(t.isBreak, next.isBreak) + events)
  }

  /** However the snapshots arrive (repeated, out of phase), the calls alternate:
      a call is started only after the previous one ended, and is open at the end
      exactly when the last phase is a break. */
  lemma {:induction false} ObserveAllAlternates(log: seq<CallEvent>, t: Timer, isHost: bool, snaps: seq<Snapshot>)
    requires CallLogAgrees(log, t.isBreak)
    ensures CallLogAgrees(log + ObserveAll(t, isHost, snaps).1, ObserveAll(t, isHost, snaps).0.isBreak)
    decreases |snaps|
  {
    if snaps != [] {
      var next := Observed(t, isHost, snaps[0]);
      var edge := Edge(t.isBreak, next.isBreak);
      EdgeKeepsLog(log, t.isBreak, next.isBreak);
      ObserveAllAlternates(log + edge, next, isHost, snaps[1..]);
      assert log + ObserveAll(t, isHost, snaps).1 == (log + edge) + ObserveAll(next, isHost, snaps[1..]).1;
    }
  }

  /** `saveSettings`'s check (script.js:653-656): both values parsed to numbers
      above zero. `None` stands for a field `parseInt` could not read. */
  function ParsedSettings(work: Option<int>, brk: Option<int>): (cfg: Option<Config>)
    ensures cfg.Some? <==> work.Some? && brk.Some? && work.value > 0 && brk.value > 0
    ensures cfg.Some? ==>
              PositiveConfig(cfg.value) && cfg.value.workMinutes == work.value && cfg.value.breakMinutes == brk.value
  {
    if work.Some? && brk.Some? && work.value > 0 && brk.value > 0
    then Some(Config(work.value, brk.value)) else None
  }

  /** The host's timer after new settings (script.js:667): the countdown restarts at
      the new full length of the current phase. */
  function Restarted(t: Timer, cfg: Config): (r: Timer)
    ensures r.isBreak == t.isBreak && r.isPaused == t.isPaused && r.currentCycle == t.currentCycle
    ensures r.remainingSeconds == PhaseSeconds(cfg, t.isBreak)
    ensures HostReady(t, cfg) ==> HostReady(r, cfg)
  {
    t.(remainingSeconds := PhaseSeconds(cfg, t.isBreak))
  }

  /** The room a host creates (script.js:278-292). */
  function InitialRoom(hostId: string, cfg: Config): (room: RoomRecord)
    ensures room.timer == Published(Timer(PhaseSeconds(cfg, false), false, false, 0))
    ensures room.settings.workMinutes == cfg.workMinutes && room.settings.breakMinutes == cfg.breakMinutes
  {
    RoomRecord(hostId,
               Snapshot(cfg.workMinutes * 60, false, false, Some(0)),
               Settings(cfg.workMinutes, cfg.breakMinutes))
  }

  /** A joining client's `CONFIG` after reading `settings` (script.js:295-300). */
  function AdoptSettings(cfg: Config, stored: Option<Settings>): (r: Config)
    ensures stored.None? ==> r == cfg
    ensures stored.Some? ==> r.workMinutes == stored.value.workMinutes && r.breakMinutes == stored.value.breakMinutes
  {
    match stored
    case None => cfg
    case Some(s) => Config(s.workMinutes, s.breakMinutes)
  }

  /** A client joining a new room ends up with the host's settings and, after the
      first snapshot, the host's timer, without a call event. */
  lemma JoinMatchesHost(hostId: string, cfg: Config, guestCfg: Config)
    ensures var room := InitialRoom(hostId, cfg);
      && AdoptSettings(guestCfg, Some(room.settings)) == cfg
      && Observed(InitialTimer, false, room.timer) == Timer(PhaseSeconds(cfg, false), false, false, 0)
      && Edge(InitialTimer.isBreak, room.timer.isBreak) == []
  {
  }
}
