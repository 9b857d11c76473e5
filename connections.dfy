/** The participant roster and the table of open calls (`state.participants`,
    `state.connections`, script.js:345-349, 495-554), as values. */
module Connections {

  /** A peer identity; also the participant's key in the room. */
  type PeerId = string

  /** A participant record as the room holds it (script.js:305-310; the server
      timestamps are left out). */
  datatype Participant = Participant(nickname: string, peerId: PeerId)

  /** A call object: the remote peer (`call.peer`) and whether this client placed it. */
  datatype Call = Call(peer: PeerId, outbound: bool)

  /** The roster after `participants.clear()` and one `set` per child of the
      snapshot, in order: a key seen twice keeps its last record. */
  function RosterMap(children: seq<(PeerId, Participant)>): map<PeerId, Participant>
    decreases |children|
  {
    if children == [] then map[]
    else
      var last := children[|children| - 1];
      RosterMap(children[..|children| - 1])[last.0 := last.1]
  }

  /** The keys of a roster snapshot. */
  function ChildKeys(children: seq<(PeerId, Participant)>): set<PeerId> {
    set i | 0 <= i < |children| :: children[i].0
  }

  /** The roster holds exactly the snapshot's keys. */
  lemma {:induction false} RosterMapKeys(children: seq<(PeerId, Participant)>)
    ensures RosterMap(children).Keys == ChildKeys(children)
    decreases |children|
  {
    if children != [] {
      var init := children[..|children| - 1];
      RosterMapKeys(init);
      assert ChildKeys(children) == ChildKeys(init) + {children[|children| - 1].0} by {
        forall k | k in ChildKeys(children) ensures k in ChildKeys(init) + {children[|children| - 1].0} {
          var i :| 0 <= i < |children| && children[i].0 == k;
          if i < |init| {
            assert init[i].0 == k;
          }
        }
        forall k | k in ChildKeys(init) ensures k in ChildKeys(children) {
          var i :| 0 <= i < |init| && init[i].0 == k;
          assert children[i].0 == k;
        }
      }
    }
  }

  /** Each key holds the record of its last occurrence in the snapshot. */
  lemma {:induction false} RosterMapLastWins(children: seq<(PeerId, Participant)>, i: nat)
    requires i < |children|
    requires forall j :: i < j < |children| ==> children[j].0 != children[i].0
    ensures children[i].0 in RosterMap(children) && RosterMap(children)[children[i].0] == children[i].1
    decreases |children|
  {
    if i < |children| - 1 {
      var init := children[..|children| - 1];
      RosterMapLastWins(init, i);
    }
  }

  /** Every entry is keyed by its own call's remote peer (`handleStream`,
      script.js:510-511). */
  ghost predicate KeyedByPeer(conns: map<PeerId, Call>) {
    forall p :: p in conns ==> conns[p].peer == p
  }

  /** Whom `connectToNewParticipants` calls (script.js:498-501): a roster entry that
      is not this client, has no call yet, and for which `peer.call` yields a call. */
  predicate ToDial(p: PeerId, conns: map<PeerId, Call>, self: PeerId, refused: set<PeerId>) {
    p != self && p !in conns && p !in refused
  }

  /** The table after `connectToNewParticipants` with a local stream: an outbound
      call to every participant in `roster` it should dial; old entries stay as
      they were. `refused` holds the peers for which `peer.call` returned nothing. */
  function Dialled(conns: map<PeerId, Call>, roster: set<PeerId>, self: PeerId, refused: set<PeerId>): (r: map<PeerId, Call>)
    ensures KeyedByPeer(conns) ==> KeyedByPeer(r)
  {
    conns + map p | p in roster && ToDial(p, conns, self, refused) :: Call(p, true)
  }

  /** After dialling, the table holds every participant of the roster other than
      this client and the refused ones; entries that were there are kept as they
      were; each new entry is an outbound call to a roster participant, and this
      client never calls itself. */
  lemma DialledMeaning(conns: map<PeerId, Call>, roster: set<PeerId>, self: PeerId, refused: set<PeerId>)
    ensures var r := Dialled(conns, roster, self, refused);
      && r.Keys == conns.Keys + (roster - {self} - refused)
      && (forall p :: p in conns ==> r[p] == conns[p])
      && (forall p :: p in r && p !in conns ==> r[p] == Call(p, true) && p in roster)
      && (self !in conns ==> self !in r)
  {
  }

  /** Dialling a roster one more participant at a time. */
  lemma DialledStep(conns: map<PeerId, Call>, done: set<PeerId>, p: PeerId, self: PeerId, refused: set<PeerId>)
    requires p !in done
    ensures var cur := Dialled(conns, done, self, refused);
      Dialled(conns, done + {p}, self, refused)
        == if ToDial(p, cur, self, refused) then cur[p := Call(p, true)] else cur
  {
  }
}
