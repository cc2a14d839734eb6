/** OTA connections of one organization, the property channels linked to them, and the join that lists both. */
module Channels {
  import opened Results

  datatype Connection = Connection(id: string, provider: string, name: string, status: string)

  datatype Channel = Channel(id: string, propertyId: string, connectionId: string, provider: string, externalId: string,
                             status: string)

  /** Both tables in creation order. */
  datatype Registry = Registry(conns: seq<Connection>, channels: seq<Channel>)

  const EMPTY := Registry([], [])

  function FindConnection(conns: seq<Connection>, id: string): Option<Connection> {
    if conns == [] then None else if conns[0].id == id then Some(conns[0]) else FindConnection(conns[1..], id)
  }

  function FindChannel(channels: seq<Channel>, id: string): Option<Channel> {
    if channels == [] then None else if channels[0].id == id then Some(channels[0]) else FindChannel(channels[1..], id)
  }

  function OfProperty(channels: seq<Channel>, property: string): (r: seq<Channel>)
    ensures forall ch :: ch in r <==> ch in channels && ch.propertyId == property
  {
    if channels == [] then []
    else (if channels[0].propertyId == property then [channels[0]] else []) + OfProperty(channels[1..], property)
  }

  function WithoutConnection(channels: seq<Channel>, connection: string): (r: seq<Channel>)
    ensures forall ch :: ch in r <==> ch in channels && ch.connectionId != connection
  {
    if channels == [] then []
    else
      (if channels[0].connectionId != connection then [channels[0]] else [])
      + WithoutConnection(channels[1..], connection)
  }

  function WithoutId(channels: seq<Channel>, id: string): (r: seq<Channel>)
    ensures forall ch :: ch in r <==> ch in channels && ch.id != id
  {
    if channels == [] then [] else (if channels[0].id != id then [channels[0]] else []) + WithoutId(channels[1..], id)
  }

  function DeleteConn(conns: seq<Connection>, id: string): (r: seq<Connection>)
    ensures forall c :: c in r <==> c in conns && c.id != id
  {
    if conns == [] then [] else (if conns[0].id != id then [conns[0]] else []) + DeleteConn(conns[1..], id)
  }

  function SetStatus(channels: seq<Channel>, id: string, status: string): (r: seq<Channel>)
    ensures |r| == |channels|
    ensures forall i :: 0 <= i < |r| ==>
              r[i] == if channels[i].id == id then channels[i].(status := status) else channels[i]
  {
    if channels == [] then []
    else
      [if channels[0].id == id then channels[0].(status := status) else channels[0]]
      + SetStatus(channels[1..], id, status)
  }

  // ---------------------------------------------------------------- the actions

  datatype Reply = Failed | AlreadyLinked(channelId: string) | Linked(channelId: string) | Created(connectionId: string,
          link: Option<string>) | Changed | Deleted

  datatype Op = Pause | Resume | Disconnect

  /** `ConnectChannel`: the connection must exist, and the channel takes over its provider. */
  function LinkStep(r: Registry, property: string, connection: string, externalId: string, newId: string, up: bool)
    : (Registry, bool)
  {
    match FindConnection(r.conns, connection)
    case None => (r, false)
    case Some(conn) =>
      if !up then (r, false)
      else (r.(channels := r.channels + [Channel(newId, property, connection, conn.provider, externalId, "active")]),
            true)
  }

  datatype Action =
    | CreateConnection(property: string, provider: string, name: string, externalId: string, link: bool, connId: string,
                       chanId: string, connUp: bool, chanUp: bool)
    | ConnectChannel(property: string, connection: string, externalId: string, chanId: string, up: bool)
    | DeleteConnection(connection: string)
    | SetChannelState(property: string, channel: string, op: Op)

  /** `connect_channel`: linking a connection twice to one property is answered with the existing link. */
  function ConnectStep(r: Registry, property: string, connection: string, externalId: string, newId: string, up: bool)
    : (Registry, Reply)
  {
    if connection == "" then (r, Failed)
    else
      var existing := OfProperty(r.channels, property);
      match FirstOn(existing, connection)
      case Some(ch) => (r, AlreadyLinked(ch.id))
      case None =>
        var (after, ok) := LinkStep(r, property, connection, externalId, newId, up);
        (after, if ok then Linked(newId) else Failed)
  }

  function FirstOn(channels: seq<Channel>, connection: string): (r: Option<Channel>)
    ensures r.None? <==> forall ch :: ch in channels ==> ch.connectionId != connection
    ensures r.Some? ==> r.value in channels && r.value.connectionId == connection
  {
    if channels == [] then None
    else if channels[0].connectionId == connection then Some(channels[0]) else FirstOn(channels[1..], connection)
  }

  /** `setChannelState`: a channel can only be changed through its own property. */
  function StateStep(channels: seq<Channel>, property: string, channel: string, op: Op): (seq<Channel>, bool) {
    if channel == "" || FindChannel(channels, channel).None?
       || FindChannel(channels, channel).value.propertyId != property then (channels, false)
    else
      match op
      case Pause => (SetStatus(channels, channel, "paused"), true)
      case Resume => (SetStatus(channels, channel, "active"), true)
      case Disconnect => (WithoutId(channels, channel), true)
  }

  function ActStep(r: Registry, a: Action): (Registry, Reply) {
    match a
    case CreateConnection(property, provider, name, externalId, link, connId, chanId, connUp, chanUp) =>
      if provider == "" || !connUp then (r, Failed)
      else
        var withConn := r.(conns := r.conns
                           + [Connection(connId, provider, if name == "" then provider else name, "active")]);
        if !link then (withConn, Created(connId, None))
        else
          var (after, ok) := LinkStep(withConn, property, connId, externalId, chanId, chanUp);
          (after, Created(connId, if ok then Some(chanId) else None))
    case ConnectChannel(property, connection, externalId, chanId, up) =>
         ConnectStep(r, property, connection, externalId, chanId, up)
    case DeleteConnection(connection) =>
      if connection == "" || FindConnection(r.conns, connection).None? then (r, Failed)
      else (Registry(DeleteConn(r.conns, connection), WithoutConnection(r.channels, connection)), Deleted)
    case SetChannelState(property, channel, op) =>
      var (channels, ok) := StateStep(r.channels, property, channel, op);
      (r.(channels := channels), if ok then Changed else Failed)
  }

  /** One row of `list_connections`. */
  datatype Row = Row(conn: Connection, channel: Option<Channel>)

  class Service {
    var conns: seq<Connection>
    var channels: seq<Channel>

    function View(): Registry
      reads this
    {
      Registry(conns, channels)
    }

    constructor ()
      ensures View() == EMPTY
    {
      conns, channels := [], [];
    }

    method Link(property: string, connection: string, externalId: string, newId: string, up: bool) returns (ok: bool)
      modifies this`channels
      ensures (View(), ok) == LinkStep(old(View()), property, connection, externalId, newId, up)
    {
      var conn := FindConnection(conns, connection);
      if conn.None? || !up {
        return false;
      }
      channels := channels + [Channel(newId, property, connection, conn.value.provider, externalId, "active")];
      return true;
    }

    method ConnectChannel(property: string, connection: string, externalId: string, newId: string, up: bool)
      returns (r: Reply)
      modifies this`channels
      ensures (View(), r) == ConnectStep(old(View()), property, connection, externalId, newId, up)
    {
      if connection == "" {
        return Failed;
      }
      var existing := OfProperty(channels, property);
      for i := 0 to |existing|
        invariant FirstOn(existing, connection) == FirstOn(existing[i..], connection)
      {
        assert existing[i..][0] == existing[i] && existing[i..][1..] == existing[i + 1..];
        if existing[i].connectionId == connection {
          return AlreadyLinked(existing[i].id);
        }
      }
      var ok := Link(property, connection, externalId, newId, up);
      return if ok then Linked(newId) else Failed;
    }

    method Act(a: Action) returns (r: Reply)
      modifies this
      ensures (View(), r) == ActStep(old(View()), a)
    {
      match a {
        case CreateConnection(property, provider, name, externalId, link, connId, chanId, connUp, chanUp) =>
          if provider == "" || !connUp {
            return Failed;
          }
          conns := conns + [Connection(connId, provider, if name == "" then provider else name, "active")];
          if !link {
            return Created(connId, None);
          }
          var ok := Link(property, connId, externalId, chanId, chanUp);
          return Created(connId, if ok then Some(chanId) else None);
        case ConnectChannel(property, connection, externalId, chanId, up) =>
          r := ConnectChannel(property, connection, externalId, chanId, up);
        case DeleteConnection(connection) =>
          if connection == "" || FindConnection(conns, connection).None? {
            return Failed;
          }
          conns, channels := DeleteConn(conns, connection), WithoutConnection(channels, connection);
          return Deleted;
        case SetChannelState(property, channel, op) =>
          var existing := FindChannel(channels, channel);
          if channel == "" || existing.None? || existing.value.propertyId != property {
            return Failed;
          }
          match op {
            case Pause => channels := SetStatus(channels, channel, "paused");
            case Resume => channels := SetStatus(channels, channel, "active");
            case Disconnect => channels := WithoutId(channels, channel);
          }
          return Changed;
      }
    }

    /** `list_connections`: joins through a map from connection id to channel. */
    method ListConnections(property: string) returns (rows: seq<Row>)
      ensures rows == MapJoin(conns, OfProperty(channels, property))
    {
      var byConn := IndexByConnection(OfProperty(channels, property));
      rows := [];
      for i := 0 to |conns|
        invariant |rows| == i && forall k :: 0 <= k < i ==> rows[k] == RowFor(conns[k], byConn)
      {
        var row := Row(conns[i], None);
        if conns[i].id in byConn {
          row := row.(channel := Some(byConn[conns[i].id]));
        }
        rows := rows + [row];
      }
    }
  }

  method IndexByConnection(listed: seq<Channel>) returns (byConn: map<string, Channel>)
    ensures byConn == LastByConnection(listed)
  {
    byConn := map[];
    for i := 0 to |listed|
      invariant byConn == LastByConnection(listed[..i])
    {
      assert listed[..i + 1][..i] == listed[..i];
      byConn := byConn[listed[i].connectionId := listed[i]];
    }
    assert listed[..|listed|] == listed;
  }

  function RowFor(c: Connection, byConn: map<string, Channel>): Row {
    Row(c, if c.id in byConn then Some(byConn[c.id]) else None)
  }

  function LastByConnection(channels: seq<Channel>): map<string, Channel> {
    if channels == [] then map[]
    else LastByConnection(channels[..|channels| - 1])[channels[|channels| - 1].connectionId := channels[|channels| - 1]]
  }

  function MapJoin(conns: seq<Connection>, channels: seq<Channel>): seq<Row> {
    seq(|conns|, i requires 0 <= i < |conns| => RowFor(conns[i], LastByConnection(channels)))
  }

  // ---------------------------------------------------------------- integrity over runs

  /** Ids are unique, links are unique per property and connection, and each link points at a connection of its
      provider. */
  ghost predicate Sound(r: Registry) {
    && DistinctConns(r.conns) && DistinctChannels(r.channels)
    && (forall ch :: ch in r.channels ==>
        exists c :: c in r.conns && c.id == ch.connectionId && c.provider == ch.provider)
  }

  /** The ids an action brings along are fresh. */
  ghost predicate FreshIn(r: Registry, a: Action) {
    match a
    case CreateConnection(_, _, _, _, _, connId, chanId, _, _) =>
      (forall c :: c in r.conns ==> c.id != connId) && (forall ch :: ch in r.channels ==> ch.id != chanId)
    case ConnectChannel(_, _, _, chanId, _) => forall ch :: ch in r.channels ==> ch.id != chanId
    case _ => true
  }

  lemma {:induction false} FindConnectionIs(conns: seq<Connection>, id: string)
    ensures FindConnection(conns, id).Some? <==> exists c :: c in conns && c.id == id
    ensures FindConnection(conns, id).Some? ==>
              FindConnection(conns, id).value in conns && FindConnection(conns, id).value.id == id
  {
    if conns != [] {
      FindConnectionIs(conns[1..], id);
      assert forall c :: c in conns <==> c == conns[0] || c in conns[1..];
    }
  }

  lemma LinkKeepsSound(r: Registry, property: string, connection: string, externalId: string, newId: string, up: bool)
    requires Sound(r)
    requires forall ch :: ch in r.channels ==>
               ch.id != newId && !(ch.propertyId == property && ch.connectionId == connection)
    ensures Sound(LinkStep(r, property, connection, externalId, newId, up).0)
  {
    FindConnectionIs(r.conns, connection);
  }

  ghost predicate DistinctConns(s: seq<Connection>) {
    forall i, j :: 0 <= i < j < |s| ==> s[i].id != s[j].id
  }

  /** The order-preserving removals keep distinctness. */
  lemma {:induction false} DeleteConnDistinct(conns: seq<Connection>, id: string)
    requires DistinctConns(conns)
    ensures DistinctConns(DeleteConn(conns, id))
  {
    if conns != [] {
      assert DistinctConns(conns[1..]);
      DeleteConnDistinct(conns[1..], id);
      assert forall c :: c in DeleteConn(conns[1..], id) ==> c in conns[1..];
    }
  }

  ghost predicate DistinctChannels(s: seq<Channel>) {
    && (forall i, j :: 0 <= i < j < |s| ==> s[i].id != s[j].id)
    && (forall i, j :: 0 <= i < j < |s| && s[i].propertyId == s[j].propertyId ==>
        s[i].connectionId != s[j].connectionId)
  }

  /** Putting the head back in front of a distinct selection of the tail. */
  lemma HeadStaysDistinct(s: seq<Channel>, kept: seq<Channel>)
    requires s != [] && DistinctChannels(s) && DistinctChannels(kept)
    requires forall ch :: ch in kept ==> ch in s[1..]
    ensures DistinctChannels([s[0]] + kept)
  {
    forall j | 0 <= j < |kept|
        ensures kept[j].id != s[0].id
        && (kept[j].propertyId == s[0].propertyId ==> kept[j].connectionId != s[0].connectionId)
    {
      assert kept[j] in s[1..];
      var k :| 0 <= k < |s[1..]| && s[1..][k] == kept[j];
      assert s[k + 1] == kept[j];
    }
    var all := [s[0]] + kept;
    assert forall j :: 0 < j < |all| ==> all[j] == kept[j - 1];
  }

  lemma {:induction false} WithoutConnectionDistinct(s: seq<Channel>, connection: string)
    requires DistinctChannels(s)
    ensures DistinctChannels(WithoutConnection(s, connection))
  {
    if s != [] {
      assert DistinctChannels(s[1..]);
      WithoutConnectionDistinct(s[1..], connection);
      HeadStaysDistinct(s, WithoutConnection(s[1..], connection));
    }
  }

  lemma {:induction false} WithoutIdDistinct(s: seq<Channel>, id: string)
    requires DistinctChannels(s)
    ensures DistinctChannels(WithoutId(s, id))
  {
    if s != [] {
      assert DistinctChannels(s[1..]);
      WithoutIdDistinct(s[1..], id);
      HeadStaysDistinct(s, WithoutId(s[1..], id));
    }
  }

  lemma ActKeepsSound(r: Registry, a: Action)
    requires Sound(r) && FreshIn(r, a)
    ensures Sound(ActStep(r, a).0)
  {
    match a {
      case CreateConnection(property, provider, name, externalId, link, connId, chanId, connUp, chanUp) =>
        if provider != "" && connUp {
          var withConn := r.(conns := r.conns
                             + [Connection(connId, provider, if name == "" then provider else name, "active")]);
          assert Sound(withConn);
          LinkKeepsSound(withConn, property, connId, externalId, chanId, chanUp);
        }
      case ConnectChannel(property, connection, externalId, chanId, up) =>
        if FirstOn(OfProperty(r.channels, property), connection).None? {
          LinkKeepsSound(r, property, connection, externalId, chanId, up);
        }
      case DeleteConnection(connection) =>
        DeleteConnDistinct(r.conns, connection);
        WithoutConnectionDistinct(r.channels, connection);
        forall ch | ch in WithoutConnection(r.channels, connection)
          ensures exists c ::
                    c in DeleteConn(r.conns, connection) && c.id == ch.connectionId && c.provider == ch.provider
        {
          var c :| c in r.conns && c.id == ch.connectionId && c.provider == ch.provider;
          assert c in DeleteConn(r.conns, connection);
        }
      case SetChannelState(property, channel, op) =>
           StateKeepsSound(r, channel, if op.Pause? then "paused" else "active");
    }
  }

  lemma StatusKeepsLinks(r: Registry, channel: string, status: string)
    requires Sound(r)
    ensures forall ch :: ch in SetStatus(r.channels, channel, status) ==>
              exists c :: c in r.conns && c.id == ch.connectionId && c.provider == ch.provider
  {
    var after := SetStatus(r.channels, channel, status);
    forall ch | ch in after ensures exists c :: c in r.conns && c.id == ch.connectionId && c.provider == ch.provider {
      var i :| 0 <= i < |after| && after[i] == ch;
      assert r.channels[i] in r.channels;
    }
  }

  lemma StatusKeepsDistinct(s: seq<Channel>, channel: string, status: string)
    requires DistinctChannels(s)
    ensures DistinctChannels(SetStatus(s, channel, status))
  {
    var after := SetStatus(s, channel, status);
    assert forall i :: 0 <= i < |after| ==>
             after[i].id == s[i].id && after[i].propertyId == s[i].propertyId
             && after[i].connectionId == s[i].connectionId;
  }

  lemma StateKeepsSound(r: Registry, channel: string, status: string)
    requires Sound(r)
    ensures Sound(r.(channels := SetStatus(r.channels, channel, status)))
    ensures Sound(r.(channels := WithoutId(r.channels, channel)))
  {
    StatusKeepsDistinct(r.channels, channel, status);
    StatusKeepsLinks(r, channel, status);
    WithoutIdDistinct(r.channels, channel);
  }

  /** A state change never reaches another channel, nor a channel through a property that does not own it. */
  lemma OtherChannelsAreUntouched(channels: seq<Channel>, property: string, channel: string, op: Op, i: nat)
    requires DistinctChannels(channels) && i < |channels|
             && (channels[i].id != channel || channels[i].propertyId != property)
    ensures channels[i] in StateStep(channels, property, channel, op).0
  {
    FoundByIndex(channels, i);
    SetStatusAt(channels, channel, "paused", i);
    SetStatusAt(channels, channel, "active", i);
  }

  lemma SetStatusAt(channels: seq<Channel>, id: string, status: string, i: nat)
    requires i < |channels|
    ensures (if channels[i].id == id then channels[i].(status := status) else channels[i])
            in SetStatus(channels, id, status)
  {
    assert SetStatus(channels, id, status)[i] in SetStatus(channels, id, status);
  }

  lemma {:induction false} FoundByIndex(channels: seq<Channel>, i: nat)
    requires DistinctChannels(channels) && i < |channels|
    ensures FindChannel(channels, channels[i].id) == Some(channels[i])
  {
    if i > 0 {
      assert DistinctChannels(channels[1..]);
      FoundByIndex(channels[1..], i - 1);
    }
  }

  /** A property's own channel ends up paused, active or gone, as asked. */
  lemma OwnChannelChanges(channels: seq<Channel>, property: string, i: nat)
    requires DistinctChannels(channels) && i < |channels| && channels[i].propertyId == property && channels[i].id != ""
    ensures StateStep(channels, property, channels[i].id, Pause).1
    ensures channels[i].(status := "paused") in StateStep(channels, property, channels[i].id, Pause).0
    ensures channels[i].(status := "active") in StateStep(channels, property, channels[i].id, Resume).0
    ensures forall ch :: ch in StateStep(channels, property, channels[i].id, Disconnect).0 <==>
              ch in channels && ch.id != channels[i].id
  {
    FoundByIndex(channels, i);
    SetStatusAt(channels, channels[i].id, "paused", i);
    SetStatusAt(channels, channels[i].id, "active", i);
  }

  /** Connecting links exactly when the connection exists, no channel of the property uses it yet, and the write works;
      an existing link is reported and left alone. */
  lemma ConnectIff(r: Registry, property: string, connection: string, externalId: string, newId: string, up: bool)
    requires Sound(r) && connection != ""
    ensures var (after, reply) := ConnectStep(r, property, connection, externalId, newId, up);
            var linked := exists ch :: ch in r.channels && ch.propertyId == property && ch.connectionId == connection;
            && (reply.Linked? <==> !linked && up && exists c :: c in r.conns && c.id == connection)
            && (reply.AlreadyLinked? <==> linked)
            && (!reply.Linked? ==> after == r)
  {
    FindConnectionIs(r.conns, connection);
  }

  /** What a new link says: the asked property, connection and external id, the connection's provider, and active. */
  lemma LinkSays(r: Registry, property: string, connection: string, externalId: string, newId: string, up: bool)
    requires DistinctConns(r.conns)
    ensures var (after, ok) := LinkStep(r, property, connection, externalId, newId, up);
            && (ok <==> up && exists c :: c in r.conns && c.id == connection)
            && (!ok ==> after == r) && after.conns == r.conns
            && (ok ==> exists c ::
                         && c in r.conns && c.id == connection
                         && after.channels ==
                              r.channels + [Channel(newId, property, connection, c.provider, externalId, "active")])
  {
    FindConnectionIs(r.conns, connection);
  }

  /** Creating a connection: when it works, what is stored, and when it is linked to the property at once. */
  lemma CreateSays(r: Registry, property: string, provider: string, name: string, externalId: string, link: bool,
                   connId: string, chanId: string, connUp: bool, chanUp: bool)
    requires Sound(r) && forall c :: c in r.conns ==> c.id != connId
    ensures var a := CreateConnection(property, provider, name, externalId, link, connId, chanId, connUp, chanUp);
            var (after, reply) := ActStep(r, a);
            var linked := link && chanUp;
            && (reply.Created? <==> provider != "" && connUp)
            && (!reply.Created? ==> reply == Failed && after == r)
            && (reply.Created? ==>
                  && reply == Created(connId, if linked then Some(chanId) else None)
                  && after.conns == r.conns
                      + [Connection(connId, provider, if name != "" then name else provider, "active")]
                  && after.channels == r.channels + if linked
                       then [Channel(chanId, property, connId, provider, externalId, "active")] else [])
  {
    if provider != "" && connUp {
      FoundLast(r.conns, Connection(connId, provider, if name == "" then provider else name, "active"));
    }
  }

  lemma {:induction false} FoundLast(conns: seq<Connection>, c: Connection)
    requires forall other :: other in conns ==> other.id != c.id
    ensures FindConnection(conns + [c], c.id) == Some(c)
  {
    if conns != [] {
      assert (conns + [c])[1..] == conns[1..] + [c];
      assert conns[0] in conns;
      FoundLast(conns[1..], c);
    }
  }

  /** A property's channels keep their order in the table. */
  lemma {:induction false} OfPropertyAppends(a: seq<Channel>, b: seq<Channel>, property: string)
    ensures OfProperty(a + b, property) == OfProperty(a, property) + OfProperty(b, property)
  {
    if a == [] {
      assert a + b == b;
    } else {
      assert (a + b)[1..] == a[1..] + b;
      OfPropertyAppends(a[1..], b, property);
    }
  }

  /** An existing link is reported by its own id. */
  lemma ExistingLinkIsNamed(r: Registry, property: string, connection: string, externalId: string, newId: string,
                            up: bool, ch: Channel)
    requires Sound(r) && connection != "" && ch in r.channels && ch.propertyId == property
             && ch.connectionId == connection
    ensures ConnectStep(r, property, connection, externalId, newId, up) == (r, AlreadyLinked(ch.id))
  {
    var mine := OfProperty(r.channels, property);
    assert ch in mine;
    var found := FirstOn(mine, connection).value;
    assert found in r.channels;
    var i :| 0 <= i < |r.channels| && r.channels[i] == ch;
    var j :| 0 <= j < |r.channels| && r.channels[j] == found;
    assert i == j;
  }

  /** A state change works exactly for a channel of the property, and says so; otherwise nothing changes. */
  lemma StateChangesIff(r: Registry, property: string, channel: string, op: Op)
    requires DistinctChannels(r.channels)
    ensures var (after, reply) := ActStep(r, SetChannelState(property, channel, op));
            && (reply == Changed <==>
                channel != "" && exists ch :: ch in r.channels && ch.id == channel && ch.propertyId == property)
            && (reply != Changed ==> reply == Failed && after == r)
            && after.conns == r.conns
  {
    if ch :| ch in r.channels && ch.id == channel && ch.propertyId == property {
      var i :| 0 <= i < |r.channels| && r.channels[i] == ch;
      FoundByIndex(r.channels, i);
    }
    FoundIsListed(r.channels, channel);
  }

  lemma {:induction false} FoundIsListed(channels: seq<Channel>, id: string)
    ensures var found := FindChannel(channels, id);
            found.Some? ==> found.value in channels && found.value.id == id
  {
    if channels != [] {
      FoundIsListed(channels[1..], id);
    }
  }

  /** A connection that does not exist cannot be deleted. */
  lemma DeleteFailsIff(r: Registry, connection: string)
    ensures var (after, reply) := ActStep(r, DeleteConnection(connection));
            && (reply == Failed <==> connection == "" || forall c :: c in r.conns ==> c.id != connection)
            && (reply == Failed ==> after == r)
  {
    FindConnectionIs(r.conns, connection);
  }

  /** Deleting a connection takes exactly its channels with it. */
  lemma DeleteCascades(r: Registry, connection: string, ch: Channel)
    requires connection != "" && exists c :: c in r.conns && c.id == connection
    ensures var (after, reply) := ActStep(r, DeleteConnection(connection));
            reply == Deleted && (ch in after.channels <==> ch in r.channels && ch.connectionId != connection)
            && forall c :: c in after.conns <==> c in r.conns && c.id != connection
  {
    FindConnectionIs(r.conns, connection);
  }

  function Run(r: Registry, actions: seq<Action>): Registry
    decreases actions
  {
    if actions == [] then r else Run(ActStep(r, actions[0]).0, actions[1..])
  }

  ghost predicate FreshRun(r: Registry, actions: seq<Action>)
    decreases actions
  {
    actions == [] || (FreshIn(r, actions[0]) && FreshRun(ActStep(r, actions[0]).0, actions[1..]))
  }

  /** Any run of the connector actions keeps the registry sound; the tables' own unique index is not relied on. */
  lemma {:induction false} RunKeepsSound(r: Registry, actions: seq<Action>)
    requires Sound(r) && FreshRun(r, actions)
    ensures Sound(Run(r, actions))
    decreases actions
  {
    if actions != [] {
      ActKeepsSound(r, actions[0]);
      RunKeepsSound(ActStep(r, actions[0]).0, actions[1..]);
    }
  }

  // ---------------------------------------------------------------- the join

  /** The channels linked to one connection, in order. */
  function OnConnection(channels: seq<Channel>, connection: string): (r: seq<Channel>)
    ensures forall ch :: ch in r <==> ch in channels && ch.connectionId == connection
  {
    if channels == [] then []
    else
      OnConnection(channels[..|channels| - 1], connection)
      + (if channels[|channels| - 1].connectionId == connection then [channels[|channels| - 1]] else [])
  }

  function PairAll(c: Connection, channels: seq<Channel>): seq<(Connection, Channel)> {
    if channels == [] then [] else [(c, channels[0])] + PairAll(c, channels[1..])
  }

  /** The plain nested-loop join of connections and channels. */
  function NestedJoin(conns: seq<Connection>, channels: seq<Channel>): seq<(Connection, Channel)> {
    if conns == [] then []
       else PairAll(conns[0], OnConnection(channels, conns[0].id)) + NestedJoin(conns[1..], channels)
  }

  /** The linked rows of a listing, as pairs. */
  function LinkedPairs(rows: seq<Row>): seq<(Connection, Channel)> {
    if rows == [] then []
    else (if rows[0].channel.Some? then [(rows[0].conn, rows[0].channel.value)] else []) + LinkedPairs(rows[1..])
  }

  lemma {:induction false} LastByConnectionIs(channels: seq<Channel>, connection: string)
    ensures var on := OnConnection(channels, connection);
            && (connection in LastByConnection(channels) <==> on != [])
            && (on != [] ==> LastByConnection(channels)[connection] == on[|on| - 1])
  {
    if channels != [] {
      LastByConnectionIs(channels[..|channels| - 1], connection);
    }
  }

  lemma LinkedHead(conns: seq<Connection>, channels: seq<Channel>)
    requires conns != []
    ensures var on := OnConnection(channels, conns[0].id);
            LinkedPairs(MapJoin(conns, channels)) ==
              (if on == [] then [] else [(conns[0], on[|on| - 1])]) + LinkedPairs(MapJoin(conns[1..], channels))
  {
    LastByConnectionIs(channels, conns[0].id);
    assert MapJoin(conns, channels)[1..] == MapJoin(conns[1..], channels);
  }

  predicate Single(c: Connection, channels: seq<Channel>) {
    |OnConnection(channels, c.id)| <= 1
  }

  lemma {:induction false} JoinLengths(conns: seq<Connection>, channels: seq<Channel>)
    ensures |LinkedPairs(MapJoin(conns, channels))| <= |NestedJoin(conns, channels)|
    ensures |LinkedPairs(MapJoin(conns, channels))| == |NestedJoin(conns, channels)| <==>
              forall i :: 0 <= i < |conns| ==> Single(conns[i], channels)
    ensures (forall i :: 0 <= i < |conns| ==> Single(conns[i], channels)) ==>
              LinkedPairs(MapJoin(conns, channels)) == NestedJoin(conns, channels)
  {
    if conns != [] {
      var rest := conns[1..];
      JoinLengths(rest, channels);
      LinkedHead(conns, channels);
      PairAllPairs(conns[0], OnConnection(channels, conns[0].id));
      assert forall i :: 0 <= i < |rest| ==> rest[i] == conns[i + 1];
      assert (forall i :: 0 <= i < |conns| ==> Single(conns[i], channels))
             <==> Single(conns[0], channels) && forall i :: 0 <= i < |rest| ==> Single(rest[i], channels) by {
        assert forall i :: 0 < i < |conns| ==> conns[i] == rest[i - 1];
      }
    }
  }

  lemma {:induction false} PairAllPairs(c: Connection, channels: seq<Channel>)
    ensures |PairAll(c, channels)| == |channels|
    ensures forall i :: 0 <= i < |channels| ==> PairAll(c, channels)[i] == (c, channels[i])
  {
    if channels != [] {
      PairAllPairs(c, channels[1..]);
    }
  }

  /** The map join shows the same links as the nested-loop join exactly when no listed connection has two of the
      channels. */
  lemma MapJoinIsNestedJoinIff(conns: seq<Connection>, channels: seq<Channel>)
    ensures LinkedPairs(MapJoin(conns, channels)) == NestedJoin(conns, channels) <==>
              forall i :: 0 <= i < |conns| ==> Single(conns[i], channels)
  {
    JoinLengths(conns, channels);
  }

  ghost predicate DistinctLinks(channels: seq<Channel>) {
    forall i, j :: 0 <= i < j < |channels| ==> channels[i].connectionId != channels[j].connectionId
  }

  lemma {:induction false} OfPropertyDistinct(s: seq<Channel>, property: string)
    requires DistinctChannels(s)
    ensures DistinctLinks(OfProperty(s, property))
  {
    if s != [] {
      assert DistinctChannels(s[1..]);
      OfPropertyDistinct(s[1..], property);
      assert forall ch :: ch in OfProperty(s[1..], property) ==> ch in s[1..] && ch.propertyId == property;
    }
  }

  lemma {:induction false} NoneOn(channels: seq<Channel>, connection: string)
    requires forall k :: 0 <= k < |channels| ==> channels[k].connectionId != connection
    ensures OnConnection(channels, connection) == []
  {
    if channels != [] {
      NoneOn(channels[..|channels| - 1], connection);
    }
  }

  lemma {:induction false} AtMostOneOn(channels: seq<Channel>, connection: string)
    requires DistinctLinks(channels)
    ensures |OnConnection(channels, connection)| <= 1
    ensures forall i :: 0 <= i < |channels| && channels[i].connectionId == connection ==>
              OnConnection(channels, connection) == [channels[i]]
  {
    if channels != [] {
      var init := channels[..|channels| - 1];
      AtMostOneOn(init, connection);
      forall i | 0 <= i < |channels| && channels[i].connectionId == connection
          ensures OnConnection(channels, connection) == [channels[i]]
      {
        if i < |init| {
          assert init[i] == channels[i];
        } else {
          assert forall k :: 0 <= k < |init| ==> init[k].connectionId == channels[k].connectionId;
          NoneOn(init, connection);
        }
      }
    }
  }

  /** The channels of a join, in its order. */
  function Shown(pairs: seq<(Connection, Channel)>): seq<Channel> {
    seq(|pairs|, i requires 0 <= i < |pairs| => pairs[i].1)
  }

  lemma ShownConcat(a: seq<(Connection, Channel)>, b: seq<(Connection, Channel)>)
    ensures Shown(a + b) == Shown(a) + Shown(b)
  {
  }

  lemma ShownPairs(c: Connection, channels: seq<Channel>)
    ensures Shown(PairAll(c, channels)) == channels
  {
    PairAllPairs(c, channels);
  }

  lemma ShownHead(conns: seq<Connection>, channels: seq<Channel>)
    requires conns != []
    ensures Shown(NestedJoin(conns, channels)) ==
              OnConnection(channels, conns[0].id) + Shown(NestedJoin(conns[1..], channels))
  {
    ShownPairs(conns[0], OnConnection(channels, conns[0].id));
    ShownConcat(PairAll(conns[0], OnConnection(channels, conns[0].id)), NestedJoin(conns[1..], channels));
  }

  ghost predicate Listed(conns: seq<Connection>, id: string) {
    exists i :: 0 <= i < |conns| && conns[i].id == id
  }

  lemma ListedHead(conns: seq<Connection>, id: string)
    requires conns != [] && DistinctConns(conns)
    ensures Listed(conns, id) <==> conns[0].id == id || Listed(conns[1..], id)
    ensures conns[0].id == id ==> !Listed(conns[1..], id)
    ensures DistinctConns(conns[1..])
  {
    assert forall i :: 0 <= i < |conns[1..]| ==> conns[1..][i] == conns[i + 1];
    if i :| 0 < i < |conns| && conns[i].id == id {
      assert conns[1..][i - 1].id == id;
    }
  }

  lemma OnConnectionStep(channels: seq<Channel>, ch: Channel, id: string)
    ensures OnConnection(channels + [ch], id) ==
              OnConnection(channels, id) + if ch.connectionId == id then [ch] else []
  {
    assert (channels + [ch])[..|channels|] == channels;
  }

  /** A join over connections with different ids shows one more channel exactly once, if its connection is listed. */
  lemma {:induction false} OneMoreShown(conns: seq<Connection>, channels: seq<Channel>, ch: Channel)
    requires DistinctConns(conns)
    ensures multiset(Shown(NestedJoin(conns, channels + [ch]))) ==
              multiset(Shown(NestedJoin(conns, channels)))
              + if Listed(conns, ch.connectionId) then multiset{ch} else multiset{}
  {
    if conns != [] {
      ListedHead(conns, ch.connectionId);
      OneMoreShown(conns[1..], channels, ch);
      ShownHead(conns, channels);
      ShownHead(conns, channels + [ch]);
      OnConnectionStep(channels, ch, conns[0].id);
    }
  }

  lemma {:induction false} NothingShown(conns: seq<Connection>)
    ensures NestedJoin(conns, []) == []
  {
    if conns != [] {
      NothingShown(conns[1..]);
    }
  }

  /** Over connections with different ids the nested-loop join shows each channel of a listed connection once. */
  lemma {:induction false} JoinShowsAll(conns: seq<Connection>, channels: seq<Channel>)
    requires DistinctConns(conns)
    requires forall i :: 0 <= i < |channels| ==> Listed(conns, channels[i].connectionId)
    ensures multiset(Shown(NestedJoin(conns, channels))) == multiset(channels)
  {
    if channels == [] {
      NothingShown(conns);
    } else {
      var init, ch := channels[..|channels| - 1], channels[|channels| - 1];
      JoinShowsAll(conns, init);
      OneMoreShown(conns, init, ch);
      assert channels == init + [ch];
    }
  }

  /** Each pair of the join is a connection and a channel of it. */
  lemma {:induction false} JoinPairsMatch(conns: seq<Connection>, channels: seq<Channel>, i: nat)
    requires i < |NestedJoin(conns, channels)|
    ensures var pair := NestedJoin(conns, channels)[i]; pair.0 in conns && pair.0.id == pair.1.connectionId
  {
    var on := OnConnection(channels, conns[0].id);
    PairAllPairs(conns[0], on);
    if i < |on| {
      assert on[i] in on;
    } else {
      JoinPairsMatch(conns[1..], channels, i - |on|);
    }
  }

  /** In every sound registry the listing is the nested-loop join, and shows each channel of the property exactly once,
      beside its own connection. */
  lemma ListingIsComplete(r: Registry, property: string)
    requires Sound(r)
    ensures var channels := OfProperty(r.channels, property);
            var links := LinkedPairs(MapJoin(r.conns, channels));
            && links == NestedJoin(r.conns, channels)
            && multiset(Shown(links)) == multiset(channels)
            && forall i :: 0 <= i < |links| ==> links[i].0 in r.conns && links[i].0.id == links[i].1.connectionId
  {
    var channels := OfProperty(r.channels, property);
    SoundListing(r, property);
    JoinShowsAll(r.conns, channels);
    forall i | 0 <= i < |NestedJoin(r.conns, channels)|
      ensures var pair := NestedJoin(r.conns, channels)[i]; pair.0 in r.conns && pair.0.id == pair.1.connectionId
    {
      JoinPairsMatch(r.conns, channels, i);
    }
  }

  lemma SoundListing(r: Registry, property: string)
    requires Sound(r)
    ensures var channels := OfProperty(r.channels, property);
            && LinkedPairs(MapJoin(r.conns, channels)) == NestedJoin(r.conns, channels)
            && forall i :: 0 <= i < |channels| ==> Listed(r.conns, channels[i].connectionId)
  {
    var channels := OfProperty(r.channels, property);
    OfPropertyDistinct(r.channels, property);
    forall i | 0 <= i < |r.conns| ensures Single(r.conns[i], channels) {
      AtMostOneOn(channels, r.conns[i].id);
    }
    MapJoinIsNestedJoinIff(r.conns, channels);
    forall i | 0 <= i < |channels| ensures Listed(r.conns, channels[i].connectionId) {
      assert channels[i] in channels;
      var c :| c in r.conns && c.id == channels[i].connectionId && c.provider == channels[i].provider;
      var k :| 0 <= k < |r.conns| && r.conns[k] == c;
    }
  }
}
