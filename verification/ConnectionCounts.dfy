// How the gateway bounds the connections of one address: a map from connected clients to their
// addresses, and a count per address that is kept beside it.

module ConnectionCounts {

  // Clients are known by the ids of their sockets, which are never used twice.
  datatype Table = Table(addresses: map<string, string>, counts: map<string, nat>)

  datatype Event = Connected(client: string, address: string) | Disconnected(client: string)

  function Count(t: Table, address: string): nat { if address in t.counts then t.counts[address] else 0 }

  function Apply(t: Table, max: nat, e: Event): Table {
    match e
    case Connected(client, address) =>
      if Count(t, address) + 1 > max then t
      else Table(t.addresses[client := address], t.counts[address := Count(t, address) + 1])
    case Disconnected(client) =>
      if client !in t.addresses then t
      else
        var address := t.addresses[client];
        var before := if address in t.counts then t.counts[address] else 1;
        Table(t.addresses - {client},
              if before <= 1 then t.counts - {address} else t.counts[address := before - 1])
  }

  function After(max: nat, events: seq<Event>): Table {
    if events == [] then Table(map[], map[]) else Apply(After(max, events[..|events| - 1]), max, events[|events| - 1])
  }

  function ClientsFrom(t: Table, address: string): set<string> {
    set c | c in t.addresses && t.addresses[c] == address
  }

  ghost predicate Exact(t: Table, address: string) {
    Count(t, address) == |ClientsFrom(t, address)| && (address in t.counts <==> ClientsFrom(t, address) != {})
  }

  // Each socket connects once.
  ghost predicate FreshIds(events: seq<Event>) {
    forall i, j :: 0 <= i < j < |events| && events[j].Connected? ==> events[i].client != events[j].client
  }

  lemma ConnectClients(t: Table, client: string, address: string, a: string)
    requires client !in t.addresses
    ensures ClientsFrom(t.(addresses := t.addresses[client := address]), a)
            == ClientsFrom(t, a) + if a == address then {client} else {}
  {
  }

  lemma ReleaseClients(t: Table, client: string, a: string)
    requires client in t.addresses
    ensures ClientsFrom(t.(addresses := t.addresses - {client}), a)
            == ClientsFrom(t, a) - if a == t.addresses[client] then {client} else {}
  {
  }

  lemma StepIsExact(t: Table, max: nat, e: Event, a: string)
    requires forall b :: Exact(t, b)
    requires e.Connected? ==> e.client !in t.addresses
    ensures Exact(Apply(t, max, e), a)
  {
    var z := Apply(t, max, e);
    assert Exact(t, a);
    if e.Connected? {
      ConnectClients(t, e.client, e.address, a);
      if z != t {
        assert ClientsFrom(z, a) == ClientsFrom(t.(addresses := z.addresses), a);
        assert e.client !in ClientsFrom(t, a);
      }
    } else if e.client in t.addresses {
      var from := t.addresses[e.client];
      ReleaseClients(t, e.client, a);
      assert Exact(t, from) && e.client in ClientsFrom(t, from);
      assert ClientsFrom(z, a) == ClientsFrom(t.(addresses := z.addresses), a);
      if a == from {
        assert |ClientsFrom(t, a) - {e.client}| == |ClientsFrom(t, a)| - 1;
      }
    }
  }

  lemma {:induction false} OnlyConnected(max: nat, events: seq<Event>, client: string)
    requires forall i :: 0 <= i < |events| ==> events[i].client != client
    ensures client !in After(max, events).addresses
  {
    if events != [] {
      OnlyConnected(max, events[..|events| - 1], client);
    }
  }

  /** In every run the count of an address is the number of its connected clients, and addresses
      without clients have no entry. */
  lemma {:induction false} CountsAreExact(max: nat, events: seq<Event>, address: string)
    requires FreshIds(events)
    ensures Exact(After(max, events), address)
    decreases |events|
  {
    if events == [] {
      assert ClientsFrom(After(max, events), address) == {};
    } else {
      var before, last := events[..|events| - 1], events[|events| - 1];
      forall b ensures Exact(After(max, before), b) {
        CountsAreExact(max, before, b);
      }
      if last.Connected? {
        OnlyConnected(max, before, last.client);
      }
      StepIsExact(After(max, before), max, last, address);
    }
  }

  // Who is connected, by counting anew each time: a client is let in while fewer than `max` clients of
  // its address are connected, and stays until it disconnects.
  function Recounted(max: nat, events: seq<Event>): map<string, string> {
    if events == [] then map[]
    else
      var before := Recounted(max, events[..|events| - 1]);
      match events[|events| - 1]
      case Connected(client, address) =>
        if |set c | c in before && before[c] == address| < max then before[client := address] else before
      case Disconnected(client) => before - {client}
  }

  lemma StepIsRecount(t: Table, max: nat, e: Event)
    requires e.Connected? ==> Exact(t, e.address)
    ensures Apply(t, max, e).addresses
            == match e
               case Connected(client, address) =>
                 if |ClientsFrom(t, address)| < max then t.addresses[client := address] else t.addresses
               case Disconnected(client) => t.addresses - {client}
  {
    if e.Disconnected? && e.client !in t.addresses {
      assert t.addresses - {e.client} == t.addresses;
    }
  }

  /** In every run exactly those clients are connected that this recount lets in. */
  lemma {:induction false} ConnectedByRecount(max: nat, events: seq<Event>)
    requires FreshIds(events)
    ensures After(max, events).addresses == Recounted(max, events)
    decreases |events|
  {
    if events != [] {
      var before, last := events[..|events| - 1], events[|events| - 1];
      ConnectedByRecount(max, before);
      if last.Connected? {
        CountsAreExact(max, before, last.address);
        assert ClientsFrom(After(max, before), last.address)
            == set c | c in Recounted(max, before) && Recounted(max, before)[c] == last.address;
      }
      StepIsRecount(After(max, before), max, last);
    }
  }

  lemma {:induction false} CountsAreBounded(max: nat, events: seq<Event>, address: string)
    ensures Count(After(max, events), address) <= max
  {
    if events != [] {
      CountsAreBounded(max, events[..|events| - 1], address);
    }
  }

  /** So no address ever has more than the allowed number of clients connected. */
  lemma ConnectionsAreBounded(max: nat, events: seq<Event>, address: string)
    requires FreshIds(events)
    ensures |ClientsFrom(After(max, events), address)| <= max
  {
    CountsAreExact(max, events, address);
    CountsAreBounded(max, events, address);
  }

  class Connections {
    var clientAddressById: map<string, string>
    var connectionCountsByAddress: map<string, nat>
    const max: nat

    ghost function State(): Table
      reads this
    {
      Table(clientAddressById, connectionCountsByAddress)
    }

    constructor (max: nat)
      ensures State() == Table(map[], map[]) && this.max == max
    {
      clientAddressById, connectionCountsByAddress := map[], map[];
      this.max := max;
    }

    method HandleConnection(client: string, address: string) returns (accepted: bool)
      modifies this
      ensures State() == Apply(old(State()), max, Connected(client, address))
      ensures accepted <==> Count(old(State()), address) < max
    {
      var nextCount := (if address in connectionCountsByAddress then connectionCountsByAddress[address] else 0) + 1;
      if nextCount > max {
        return false;
      }
      clientAddressById := clientAddressById[client := address];
      connectionCountsByAddress := connectionCountsByAddress[address := nextCount];
      accepted := true;
    }

    method ReleaseClientAddress(client: string)
      modifies this
      ensures State() == Apply(old(State()), max, Disconnected(client))
    {
      if client !in clientAddressById {
        return;
      }
      var address := clientAddressById[client];
      clientAddressById := clientAddressById - {client};
      var nextCount := (if address in connectionCountsByAddress then connectionCountsByAddress[address] as int else 1) - 1;
      if nextCount <= 0 {
        connectionCountsByAddress := connectionCountsByAddress - {address};
        return;
      }
      connectionCountsByAddress := connectionCountsByAddress[address := nextCount];
    }
  }
}
