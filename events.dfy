/** The older agent's event log: each added event gets the next id, and once the list grows
    past 100 its oldest 50 are dropped. */
module Events {
  import opened Ints
  import opened Net
  import opened CommonLib

  const MAX_EVENT_COUNT: nat := 100
  const TARGET_EVENT_COUNT: nat := 50

  datatype PlayitEventDetails =
    | ClientAccepted(clientId: u64, proto: Proto, tunnelAddr: SocketAddr, peerAddr: SocketAddr, hostAddr: SocketAddr)
    | NewClientSetupFailed(clientId: u64)
    | ClientConnected(clientId: u64)
    | ClientDisconnected(clientId: u64)
    | AgentConfigUpdated

  datatype PlayitEvent = PlayitEvent(id: nat, details: PlayitEventDetails)

  class PlayitEvents {
    var items: seq<PlayitEvent>
    var nextId: nat
    /** The details of every event added, the one with id `i` at index `i - 1`. */
    ghost var added: seq<PlayitEventDetails>

    /** The items are the newest events added, with consecutive ascending ids ending just
        below `next_id`, and there are at most 100 of them. */
    ghost predicate Valid()
      reads this
    {
      nextId == |added| + 1
      && |items| <= MAX_EVENT_COUNT && |items| <= |added|
      && forall i :: 0 <= i < |items| ==>
        items[i] == PlayitEvent(nextId - |items| + i, added[nextId - |items| + i - 1])
    }

    /** `new`: no events; the first id is 1. */
    constructor ()
      ensures Valid() && items == [] && nextId == 1 && added == []
    {
      items := [];
      nextId := 1;
      added := [];
    }

    /** `add_event`: the event gets the next id and goes last; past 100 items the oldest 50
        are drained. */
    method AddEvent(details: PlayitEventDetails)
      requires Valid()
      modifies this
      ensures Valid() && nextId == old(nextId) + 1 && added == old(added) + [details]
      ensures |items| > 0 && items[|items| - 1] == PlayitEvent(old(nextId), details)
      ensures var grown := old(items) + [PlayitEvent(old(nextId), details)];
        items == if |grown| > MAX_EVENT_COUNT then grown[TARGET_EVENT_COUNT..] else grown
    {
      var id := nextId;
      nextId := id + 1;
      added := added + [details];
      items := items + [PlayitEvent(id, details)];
      if |items| > MAX_EVENT_COUNT {
        items := items[TARGET_EVENT_COUNT..];
      }
    }

    /** Ids strictly increase along the list: what `with_events` hands to its caller is in
        the order events were added. */
    lemma IdsAscending(i: nat, j: nat)
      requires Valid() && i < j < |items|
      ensures items[i].id < items[j].id
    {
    }
  }
}
