/** One client's room session: the global `state` and `CONFIG` objects of
    script.js and the callbacks that change them in place. The store, the timers
    and the peer transport are not here: each callback is a method that the
    environment calls, its inputs are the values the store or the transport
    delivered, and what it writes to the store is returned. */
module Room {
  import opened Wrappers
  import opened JsNumber
  import opened TimerModel
  import opened Connections

  class Session {
    /** `state.odId`: this client's peer identity. */
    const selfId: PeerId
    /** `state.isHost`, fixed when the room is created or joined. */
    const isHost: bool
    /** `CONFIG`. */
    var config: Config
    /** `state.roomRef` is set. */
    var hasRoom: bool
    var remainingSeconds: int
    var isBreak: bool
    var isPaused: bool
    var currentCycle: int
    /** `state.participants`. */
    var participants: map<PeerId, Participant>
    /** `state.connections`: open calls by remote peer. */
    var connections: map<PeerId, Call>
    /** `state.localStream` is set. */
    var hasLocalStream: bool
    /** Every call to `startCall` and `endCall`, in order. */
    ghost var callLog: seq<CallEvent>

    /** The timer fields as one value. */
    function TimerState(): Timer
      reads this
    {
      Timer(remainingSeconds, isBreak, isPaused, currentCycle)
    }

    /** Calls are keyed by their peer, the call log alternates and ends on
        `startCall` exactly in a break, and a host's timer is ready to tick. */
    ghost predicate Valid()
      reads this
    {
      && KeyedByPeer(connections)
      && CallLogAgrees(callLog, isBreak)
      && (isHost ==> HostReady(TimerState(), config))
    }

    /** The state after the page loads and `createRoom` or `joinRoom` picks the
        identity and role (script.js:4-31, 238-241, 266-269). */
    constructor (selfId: PeerId, isHost: bool)
      ensures Valid()
      ensures this.selfId == selfId && this.isHost == isHost
      ensures config == DefaultConfig && TimerState() == InitialTimer && !hasRoom
      ensures participants == map[] && connections == map[] && !hasLocalStream && callLog == []
    {
      this.selfId := selfId;
      this.isHost := isHost;
      config := DefaultConfig;
      hasRoom := false;
      remainingSeconds := DefaultConfig.workMinutes * 60;
      isBreak := false;
      isPaused := false;
      currentCycle := 0;
      participants := map[];
      connections := map[];
      hasLocalStream := false;
      callLog := [];
    }

    /** `initializeRoom` (script.js:274-301): a host returns the room record it
        writes; a guest adopts the `settings` record it read, if there was one. */
    method InitializeRoom(stored: Option<Settings>) returns (created: Option<RoomRecord>)
      requires Valid()
      modifies this`hasRoom, this`config
      ensures Valid() && hasRoom
      ensures isHost ==> created == Some(InitialRoom(selfId, old(config))) && config == old(config)
      ensures !isHost ==> created == None && config == AdoptSettings(old(config), stored)
    {
      hasRoom := true;
      if isHost {
        created := Some(InitialRoom(selfId, config));
      } else {
        created := None;
        if stored.Some? {
          config := Config(stored.value.workMinutes, stored.value.breakMinutes);
        }
      }
    }

    /** `startCall` as far as the timer sees it (script.js:474): the request is
        recorded; the microphone answers later, in `StartCallResolved`. */
    method StartCall()
      modifies this`callLog
      ensures callLog == old(callLog) + [CallStarted]
    {
      callLog := callLog + [CallStarted];
    }

    /** `endCall` (script.js:546-554): the local stream is dropped and every call
        leaves the table. */
    method EndCall()
      modifies this`connections, this`hasLocalStream, this`callLog
      ensures connections == map[] && !hasLocalStream
      ensures callLog == old(callLog) + [CallEnded]
    {
      callLog := callLog + [CallEnded];
      if hasLocalStream {
        hasLocalStream := false;
      }
      connections := map[];
    }

    /** `switchPhase` (script.js:424-444): the timer becomes `Switched`, then the
        call starts on entering a break and ends on entering work. */
    method SwitchPhase()
      requires KeyedByPeer(connections) && CallLogAgrees(callLog, isBreak)
      modifies this`remainingSeconds, this`isBreak, this`currentCycle, this`connections, this`hasLocalStream, this`callLog
      ensures KeyedByPeer(connections) && CallLogAgrees(callLog, isBreak)
      ensures TimerState() == Switched(old(TimerState()), config)
      ensures callLog == old(callLog) + [if isBreak then CallStarted else CallEnded]
      ensures isBreak ==> connections == old(connections) && hasLocalStream == old(hasLocalStream)
      ensures !isBreak ==> connections == map[] && !hasLocalStream
    {
      SwitchKeepsLog(callLog, isBreak);
      isBreak := !isBreak;
      remainingSeconds := if isBreak then config.breakMinutes * 60 else config.workMinutes * 60;
      if !isBreak {
        currentCycle := JsRem(currentCycle + 1, CyclesPerRound);
      }
      if isBreak {
        StartCall();
      } else {
        EndCall();
      }
    }

    /** One firing of the host's one-second interval (script.js:402-418). Paused,
        not host, or no room: nothing changes and nothing is written. Otherwise
        the timer becomes `Ticked` and the new timer is returned as the snapshot
        written to the room; the countdown written is never below 1. */
    method Tick() returns (published: Option<Snapshot>)
      requires Valid()
      modifies this`remainingSeconds, this`isBreak, this`currentCycle, this`connections, this`hasLocalStream, this`callLog
      ensures Valid()
      ensures isPaused || !isHost || !hasRoom ==>
        && published == None && TimerState() == old(TimerState())
        && connections == old(connections) && hasLocalStream == old(hasLocalStream) && callLog == old(callLog)
      ensures !(isPaused || !isHost || !hasRoom) ==>
        && TimerState() == Ticked(old(TimerState()), config)
        && published == Some(Published(TimerState()))
        && published.value.remainingSeconds >= 1
        && callLog == old(callLog) + Edge(old(isBreak), isBreak)
      ensures old(isBreak) && !isBreak ==> connections == map[] && !hasLocalStream
      ensures !(old(isBreak) && !isBreak) ==> connections == old(connections) && hasLocalStream == old(hasLocalStream)
    {
      if isPaused || !isHost || !hasRoom {
        return None;
      }
      remainingSeconds := remainingSeconds - 1;
      if remainingSeconds <= 0 {
        SwitchPhase();
      }
      published := Some(Published(TimerState()));
    }

    /** The `timer` value listener (script.js:359-386). No record: nothing happens.
        Otherwise the timer becomes `Observed` and the phase edge, if any, starts
        or ends the call. */
    method OnTimerValue(timer: Option<Snapshot>)
      requires Valid()
      modifies this`remainingSeconds, this`isBreak, this`isPaused, this`currentCycle, this`connections, this`hasLocalStream, this`callLog
      ensures Valid()
      ensures timer.None? ==> TimerState() == old(TimerState()) && callLog == old(callLog)
      ensures timer.Some? ==>
        && TimerState() == Observed(old(TimerState()), isHost, timer.value)
        && callLog == old(callLog) + Edge(old(isBreak), isBreak)
      ensures old(isBreak) && !isBreak ==> connections == map[] && !hasLocalStream
      ensures !(old(isBreak) && !isBreak) ==> connections == old(connections) && hasLocalStream == old(hasLocalStream)
    {
      if timer.Some? {
        var t := timer.value;
        var previousIsBreak := isBreak;
        EdgeKeepsLog(callLog, previousIsBreak, t.isBreak);
        if !isHost {
          remainingSeconds := t.remainingSeconds;
          isPaused := t.isPaused;
          currentCycle := t.currentCycle.GetOr(0);
        }
        isBreak := t.isBreak;
        if !previousIsBreak && isBreak {
          StartCall();
        } else if previousIsBreak && !isBreak {
          EndCall();
        }
      }
    }

    /** `saveSettings` (script.js:652-671) with the two `parseInt` results. Unless
        both are numbers above zero nothing changes. Otherwise `CONFIG` takes them,
        and a host in a room restarts the current phase at its new length and
        returns the `settings` and `timer` updates it writes. */
    method SaveSettings(work: Option<int>, brk: Option<int>) returns (settingsWrite: Option<Settings>, timerWrite: Option<int>)
      requires Valid()
      modifies this`config, this`remainingSeconds
      ensures Valid()
      ensures ParsedSettings(work, brk).None? ==>
        config == old(config) && remainingSeconds == old(remainingSeconds) && settingsWrite == None && timerWrite == None
      ensures ParsedSettings(work, brk).Some? ==> config == ParsedSettings(work, brk).value
      ensures ParsedSettings(work, brk).Some? && isHost && hasRoom ==>
        && TimerState() == Restarted(old(TimerState()), config)
        && settingsWrite == Some(Settings(work.value, brk.value)) && timerWrite == Some(remainingSeconds)
      ensures !(isHost && hasRoom) ==>
        remainingSeconds == old(remainingSeconds) && settingsWrite == None && timerWrite == None
    {
      settingsWrite, timerWrite := None, None;
      if work.Some? && brk.Some? && work.value > 0 && brk.value > 0 {
        config := Config(work.value, brk.value);
        if isHost && hasRoom {
          settingsWrite := Some(Settings(work.value, brk.value));
          remainingSeconds := if isBreak then brk.value * 60 else work.value * 60;
          timerWrite := Some(remainingSeconds);
        }
      }
    }

    /** `handleStream`'s bookkeeping (script.js:510-511): the call is filed under
        its remote peer, replacing any call already there. */
    method HandleStream(call: Call)
      modifies this`connections
      ensures connections == old(connections)[call.peer := call]
    {
      connections := connections[call.peer := call];
    }

    /** The body of `connectToNewParticipants`' loop for one roster entry
        (script.js:498-504): a peer other than this client with no call yet is
        called if there is a local stream, and the call is filed unless
        `peer.call` yielded none (`refused`). */
    method CallIfNew(p: PeerId, refused: set<PeerId>)
      modifies this`connections
      ensures connections == if hasLocalStream && ToDial(p, old(connections), selfId, refused)
                             then old(connections)[p := Call(p, true)] else old(connections)
    {
      if p != selfId && p !in connections {
        if hasLocalStream {
          if p !in refused {
            HandleStream(Call(p, true));
          }
        }
      }
    }

    /** `connectToNewParticipants` (script.js:495-507): with a local stream, every
        roster entry other than this client that has no call yet is called, and
        each call `peer.call` yields (all but `refused`) is filed. */
    method ConnectToNewParticipants(refused: set<PeerId>)
      requires KeyedByPeer(connections)
      modifies this`connections
      ensures KeyedByPeer(connections)
      ensures connections == if hasLocalStream then Dialled(old(connections), participants.Keys, selfId, refused)
                             else old(connections)
    {
      ghost var start := connections;
      ghost var done: set<PeerId> := {};
      var todo := participants.Keys;
      while todo != {}
        invariant done !! todo && done + todo == participants.Keys
        invariant !hasLocalStream ==> connections == start
        invariant hasLocalStream ==> connections == Dialled(start, done, selfId, refused)
        decreases todo
      {
        var p :| p in todo;
        DialledStep(start, done, p, selfId, refused);
        CallIfNew(p, refused);
        done, todo := done + {p}, todo - {p};
      }
    }

    /** The `participants` value listener (script.js:345-356): the roster is
        cleared and refilled from the snapshot's children in order, and during a
        break with a local stream the newcomers are called. */
    method OnParticipantsValue(children: seq<(PeerId, Participant)>, refused: set<PeerId>)
      requires Valid()
      modifies this`participants, this`connections
      ensures Valid()
      ensures participants == RosterMap(children)
      ensures connections == if isBreak && hasLocalStream then Dialled(old(connections), participants.Keys, selfId, refused)
                             else old(connections)
    {
      participants := map[];
      var i := 0;
      while i < |children|
        invariant 0 <= i <= |children|
        invariant participants == RosterMap(children[..i])
        invariant connections == old(connections)
      {
        assert children[..i + 1][..i] == children[..i];
        participants := participants[children[i].0 := children[i].1];
        i := i + 1;
      }
      assert children[..|children|] == children;
      if isBreak && hasLocalStream {
        ConnectToNewParticipants(refused);
      }
    }

    /** An incoming call (script.js:460-465): answered and filed only during a
        break with a local stream. */
    method OnIncomingCall(call: Call)
      requires Valid()
      modifies this`connections
      ensures Valid()
      ensures connections == if isBreak && hasLocalStream then old(connections)[call.peer := call] else old(connections)
    {
      if isBreak && hasLocalStream {
        HandleStream(call);
      }
    }

    /** `cleanupConnection` (script.js:537-541), run when a call closes or fails:
        only that peer's entry leaves the table. */
    method CleanupConnection(peer: PeerId)
      requires Valid()
      modifies this`connections
      ensures Valid()
      ensures connections == old(connections) - {peer}
    {
      if peer in connections {
        connections := connections - {peer};
      }
    }

    /** The rest of `startCall` (script.js:476-486), once the microphone request
        settles: if granted, the stream is kept and the roster is called. */
    method StartCallResolved(granted: bool, refused: set<PeerId>)
      requires Valid()
      modifies this`hasLocalStream, this`connections
      ensures Valid()
      ensures hasLocalStream == (old(hasLocalStream) || granted)
      ensures connections == if granted then Dialled(old(connections), participants.Keys, selfId, refused)
                             else old(connections)
    {
      if granted {
        hasLocalStream := true;
        ConnectToNewParticipants(refused);
      }
    }
  }
}
