/** Room codes and peer identities (`generateId`, script.js:45-48). */
module RoomCode {

  /** The code alphabet: upper-case letters and digits without the look-alikes
      I, O, 0 and 1. */
  const Alphabet: string := "ABCDEFGHJKLMNPQRSTUVWXYZ23456789"

  /** Length of a room code (`generateId()`) and of a peer identity (`generateId(10)`). */
  const RoomIdLength: nat := 6
  const PeerIdLength: nat := 10

  /** `generateId(|picks|)`, where `picks[i]` is the index that
      `Math.floor(Math.random() * chars.length)` drew for position `i`. */
  function GenerateId(picks: seq<int>): (id: string)
    requires forall i :: 0 <= i < |picks| ==> 0 <= picks[i] < |Alphabet|
    ensures |id| == |picks|
    ensures forall i :: 0 <= i < |id| ==> id[i] in Alphabet && id[i] == Alphabet[picks[i]]
  {
    seq(|picks|, i requires 0 <= i < |picks| => Alphabet[picks[i]])
  }

  /** A room code as `createRoom` draws it (script.js:239): six letters of the alphabet. */
  function NewRoomId(picks: seq<int>): (id: string)
    requires |picks| == RoomIdLength
    requires forall i :: 0 <= i < |picks| ==> 0 <= picks[i] < |Alphabet|
    ensures |id| == RoomIdLength
    ensures forall i :: 0 <= i < |id| ==> id[i] in Alphabet
  {
    GenerateId(picks)
  }

  /** A peer identity as `createRoom` and `joinRoom` draw it (script.js:240, 268):
      ten letters of the alphabet. */
  function NewPeerId(picks: seq<int>): (id: string)
    requires |picks| == PeerIdLength
    requires forall i :: 0 <= i < |picks| ==> 0 <= picks[i] < |Alphabet|
    ensures |id| == PeerIdLength
    ensures forall i :: 0 <= i < |id| ==> id[i] in Alphabet
  {
    GenerateId(picks)
  }

  /** No generated code contains a character that reads like another one. */
  lemma NoLookalikes(picks: seq<int>)
    requires forall i :: 0 <= i < |picks| ==> 0 <= picks[i] < |Alphabet|
    ensures forall i :: 0 <= i < |picks| ==> GenerateId(picks)[i] !in "IO01"
  {
    forall i | 0 <= i < |picks|
      ensures GenerateId(picks)[i] !in "IO01"
    {
      var c := Alphabet[picks[i]];
      assert c in Alphabet;
    }
  }
}
