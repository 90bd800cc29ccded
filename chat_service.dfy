/** The module-level store of signalling strings, one entry per room id. */
module ChatService {
  import opened ChatTypes

  /** `peerSignalingData.get(roomId) || null`: a missing entry and a stored empty string both read back as null. */
  function Lookup(entries: map<string, string>, roomId: string): (r: Option<string>)
    ensures r.Some? <==> roomId in entries && entries[roomId] != ""
    ensures r.Some? ==> r.value == entries[roomId] && r.value != ""
  {
    if roomId in entries && entries[roomId] != "" then Some(entries[roomId]) else None
  }

  class SignalingStore {
    var peerSignalingData: map<string, string>

    constructor ()
      ensures peerSignalingData == map[]
    {
      peerSignalingData := map[];
    }

    /** `peerSignalingData.set(roomId, data)`: the last write for a room wins, other rooms keep their entries. */
    method StoreSignalingData(roomId: string, data: string)
      modifies this
      ensures peerSignalingData == old(peerSignalingData)[roomId := data]
      ensures Lookup(peerSignalingData, roomId) == (if data == "" then None else Some(data))
      ensures forall other :: other != roomId ==> Lookup(peerSignalingData, other) == Lookup(old(peerSignalingData), other)
    {
      peerSignalingData := peerSignalingData[roomId := data];
    }

    /** Reads the entry for `roomId` without changing the store; empty or missing reads as null. */
    method GetSignalingData(roomId: string) returns (r: Option<string>)
      ensures r.Some? <==> roomId in peerSignalingData && peerSignalingData[roomId] != ""
      ensures r.Some? ==> r.value == peerSignalingData[roomId]
    {
      if roomId in peerSignalingData && peerSignalingData[roomId] != "" {
        r := Some(peerSignalingData[roomId]);
      } else {
        r := None;
      }
    }
  }

  /** Storing a non-empty string and reading it back returns that string. */
  lemma StoreThenGet(entries: map<string, string>, roomId: string, data: string)
    requires data != ""
    ensures Lookup(entries[roomId := data], roomId) == Some(data)
  {
  }

  /** A room that was never stored reads as null. */
  lemma NeverStoredIsNull(entries: map<string, string>, roomId: string)
    requires roomId !in entries
    ensures Lookup(entries, roomId) == None
  {
  }

  /** Storing the empty string makes the room read as null. */
  lemma EmptyStoredIsNull(entries: map<string, string>, roomId: string)
    ensures Lookup(entries[roomId := ""], roomId) == None
  {
  }

  /** A second store for the same room overwrites the first. */
  lemma LastWriteWins(entries: map<string, string>, roomId: string, first: string, second: string)
    ensures entries[roomId := first][roomId := second] == entries[roomId := second]
  {
  }
}
