/**
 * The multiplayer server's tick (server/server_main.py:31-194), without its
 * sockets: a client registry and player-id counter beside a World, and per tick
 * accept, receive and dispatch input, reap, move, snapshot, broadcast, reap.
 * What the sockets and the JSON codec report is passed in: whether a connection
 * is waiting, what each client's recv returns, how a line decodes, and which
 * sends fail.
 */
module Server {
  import opened Wrappers
  import opened Components
  import opened Store
  import opened Framing
  import Ecs
  import PlayerFactory
  import Movement

  /** One simulation step is 1/60 s (server/server_main.py:15-16). */
  const Dt: real := 1.0 / 60.0

  /** A registry record: the socket and address are left out, the rest kept. */
  datatype Client = Client(playerId: int, entity: nat, buffer: seq<byte>)

  /** A decoded line: an input message with its optional fields, any other message, or a decode error. */
  datatype Message = InputMsg(moveX: Option<real>, moveY: Option<real>) | OtherMsg | Undecodable

  /** What recv reports for one client this tick. */
  datatype RecvResult = Received(data: seq<byte>) | WouldBlock | RecvError

  /** One player's entry in the state message. */
  datatype Entry = Entry(id: int, x: real, y: real)

  /** The state message, before encoding. */
  datatype Payload = State(players: seq<Entry>)

  /** One send of a payload to the client with this player id. */
  datatype Delivery = Delivery(playerId: int, payload: Payload)

  // ---------------------------------------------------------------- accept

  /** The spawn column of a player: 200 for the first, 100 further right for each later id. */
  function SpawnX(id: int): real {
    (200 + (id - 1) * 100) as real
  }

  const SpawnY: real := 300.0

  /** Green for player 1, red for everyone else. */
  function ColorFor(id: int): Rgb {
    if id == 1 then Green else Red
  }

  /** Distinct ids spawn at distinct columns, further right for later ids. */
  lemma SpawnSeparates(id: int, id': int)
    requires id < id'
    ensures SpawnX(id) + 100.0 <= SpawnX(id')
  {
  }

  /** The colour is green exactly for player 1. */
  lemma GreenOnlyForFirst(id: int)
    ensures ColorFor(id) == Green <==> id == 1
    ensures ColorFor(id) == Green || ColorFor(id) == Rgb(200, 0, 0)
  {
  }

  // ---------------------------------------------------------------- dispatch

  /** The Input an input message writes; an absent field reads 0.0. */
  function InputOf(m: Message): Component
    requires m.InputMsg?
  {
    Input(m.moveX.GetOr(0.0), m.moveY.GetOr(0.0))
  }

  /** Every non-empty line decodes. */
  predicate Decodable(lines: seq<seq<byte>>, decode: seq<byte> -> Message) {
    forall i :: 0 <= i < |lines| && lines[i] != [] ==> !decode(lines[i]).Undecodable?
  }

  /** The effect of one line on the store: an input message overwrites `e`'s Input when it has one. */
  function ApplyLine(t: Tables, e: nat, line: seq<byte>, decode: seq<byte> -> Message): Tables {
    if line != [] && decode(line).InputMsg? && Lookup(t, e, InputKind).Some?
    then Insert(t, e, InputOf(decode(line)))
    else t
  }

  /** The effect of a client's lines, in order. */
  function ApplyLines(t: Tables, e: nat, lines: seq<seq<byte>>, decode: seq<byte> -> Message): Tables
    decreases |lines|
  {
    if lines == [] then t
    else ApplyLine(ApplyLines(t, e, lines[..|lines| - 1], decode), e, lines[|lines| - 1], decode)
  }

  /** The Input carried by the last input message among `lines`, if there is one. */
  function LastInput(lines: seq<seq<byte>>, decode: seq<byte> -> Message): Option<Component>
    decreases |lines|
  {
    if lines == [] then None
    else
      var line := lines[|lines| - 1];
      if line != [] && decode(line).InputMsg? then Some(InputOf(decode(line)))
      else LastInput(lines[..|lines| - 1], decode)
  }

  /**
   * Dispatching a client's lines writes only that client's entity's Input, and
   * only when it has one: it ends as the last input message's values; every
   * other entry reads as before.
   */
  lemma {:induction false} ApplyLinesEffect(t: Tables, e: nat, lines: seq<seq<byte>>,
                                            decode: seq<byte> -> Message, e': nat, k: Kind)
    ensures Lookup(ApplyLines(t, e, lines, decode), e', k) ==
      if e' == e && k == InputKind && Lookup(t, e, InputKind).Some? && LastInput(lines, decode).Some?
      then LastInput(lines, decode)
      else Lookup(t, e', k)
    decreases |lines|
  {
    if lines != [] {
      var prefix, line := lines[..|lines| - 1], lines[|lines| - 1];
      var before := ApplyLines(t, e, prefix, decode);
      ApplyLinesEffect(t, e, prefix, decode, e', k);
      ApplyLinesEffect(t, e, prefix, decode, e, InputKind);
      if line != [] && decode(line).InputMsg? && Lookup(before, e, InputKind).Some? {
        LookupInsert(before, e, InputOf(decode(line)), e', k);
      }
    }
  }

  /**
   * One non-empty line: decode it and, for an input message, overwrite the
   * entity's Input when it has one. An undecodable line raises.
   */
  method Dispatch(world: Ecs.World, entity: nat, line: seq<byte>, decode: seq<byte> -> Message)
    returns (crashed: bool)
    requires world.Valid() && line != []
    modifies world
    ensures world.Valid() && world.next == old(world.next)
    ensures forall e, k :: Lookup(old(world.tables), e, k).Some? ==> Lookup(world.tables, e, k).Some?
    ensures crashed <==> decode(line).Undecodable?
    ensures !crashed ==> world.tables == ApplyLine(old(world.tables), entity, line, decode)
  {
    var msg := decode(line);
    crashed := msg.Undecodable?;
    if msg.InputMsg? {
      var moveX, moveY := msg.moveX.GetOr(0.0), msg.moveY.GetOr(0.0);
      var current := world.GetComponent(entity, InputKind);
      if current.Some? {
        ghost var before := world.tables;
        world.AddComponent(entity, Input(moveX, moveY));
        forall e, k | Lookup(before, e, k).Some?
          ensures Lookup(world.tables, e, k).Some?
        {
          InsertKeepsEntries(before, entity, Input(moveX, moveY), e, k);
        }
      }
    }
  }

  /** The lines so far all decode after one more exactly when that line is empty or decodes. */
  lemma DecodableSnoc(done: seq<seq<byte>>, line: seq<byte>, decode: seq<byte> -> Message)
    requires Decodable(done, decode)
    ensures Decodable(done + [line], decode) <==> line == [] || !decode(line).Undecodable?
  {
    var done' := done + [line];
    assert done'[|done|] == line;
    assert forall i :: 0 <= i < |done| ==> done'[i] == done[i];
  }

  /** Dispatching one more line applies it to what the earlier lines left. */
  lemma ApplyLinesSnoc(t: Tables, e: nat, lines: seq<seq<byte>>, line: seq<byte>, decode: seq<byte> -> Message)
    ensures ApplyLines(t, e, lines + [line], decode) == ApplyLine(ApplyLines(t, e, lines, decode), e, line, decode)
  {
    assert (lines + [line])[..|lines|] == lines;
  }

  /** Drain one client's buffer: the server's split loop, dispatching each line as it goes. */
  method Drain(world: Ecs.World, entity: nat, buffer: seq<byte>, decode: seq<byte> -> Message)
    returns (rest: seq<byte>, crashed: bool)
    requires world.Valid()
    modifies world
    ensures world.Valid() && world.next == old(world.next)
    ensures forall e, k :: Lookup(old(world.tables), e, k).Some? ==> Lookup(world.tables, e, k).Some?
    ensures crashed <==> !Decodable(Lines(buffer), decode)
    ensures !crashed ==> rest == Remainder(buffer)
    ensures !crashed ==> world.tables == ApplyLines(old(world.tables), entity, Lines(buffer), decode)
  {
    rest, crashed := buffer, false;
    ghost var done: seq<seq<byte>> := [];
    while Newline in rest
      invariant world.Valid() && world.next == old(world.next)
      invariant forall e, k :: Lookup(old(world.tables), e, k).Some? ==> Lookup(world.tables, e, k).Some?
      invariant Lines(buffer) == done + Lines(rest) && Remainder(buffer) == Remainder(rest)
      invariant Decodable(done, decode)
      invariant world.tables == ApplyLines(old(world.tables), entity, done, decode)
      decreases |rest|
    {
      var k := FirstNewline(rest);
      var line := rest[..k];
      NextLine(Lines(buffer), Remainder(buffer), done, rest);
      DecodableSnoc(done, line, decode);
      ApplyLinesSnoc(old(world.tables), entity, done, line, decode);
      rest := rest[k + 1..];
      done := done + [line];
      if line == [] {
        continue;
      }
      crashed := Dispatch(world, entity, line, decode);
      if crashed {
        assert Lines(buffer)[|done| - 1] == line;
        return;
      }
    }
    NoLineWithoutNewline(rest);
    assert done + [] == done;
  }

  // ---------------------------------------------------------------- receive pass

  /** A client the receive pass drops: recv returned nothing (closed) or failed. */
  predicate Gone(r: RecvResult) {
    r == Received([]) || r.RecvError?
  }

  /** The buffer a client holds after the receive pass. */
  function NewBuffer(c: Client, r: RecvResult): seq<byte> {
    if r.Received? && r.data != [] then Remainder(c.buffer + r.data) else c.buffer
  }

  /** The registry after the receive pass: only buffers change. */
  function Refreshed(cs: seq<Client>, recv: int -> RecvResult): (cs': seq<Client>)
    ensures |cs'| == |cs|
  {
    seq(|cs|, i requires 0 <= i < |cs| => cs[i].(buffer := NewBuffer(cs[i], recv(cs[i].playerId))))
  }

  /** A client whose new data decodes line by line. */
  predicate ClientDecodable(c: Client, r: RecvResult, decode: seq<byte> -> Message) {
    r.Received? && r.data != [] ==> Decodable(Lines(c.buffer + r.data), decode)
  }

  /** No client's new data holds an undecodable line. */
  predicate AllDecodable(cs: seq<Client>, recv: int -> RecvResult, decode: seq<byte> -> Message) {
    forall i :: 0 <= i < |cs| ==> ClientDecodable(cs[i], recv(cs[i].playerId), decode)
  }

  /** The ids of the clients the receive pass drops, in registry order. */
  function Disconnected(cs: seq<Client>, recv: int -> RecvResult): seq<int>
    decreases |cs|
  {
    if cs == [] then []
    else
      var c := cs[|cs| - 1];
      Disconnected(cs[..|cs| - 1], recv) + if Gone(recv(c.playerId)) then [c.playerId] else []
  }

  /** The effect of one client's new data on the store. */
  function DispatchClient(t: Tables, c: Client, r: RecvResult, decode: seq<byte> -> Message): Tables {
    if r.Received? && r.data != [] then ApplyLines(t, c.entity, Lines(c.buffer + r.data), decode) else t
  }

  /** The effect of the whole receive pass on the store, client by client in registry order. */
  function Dispatched(t: Tables, cs: seq<Client>, recv: int -> RecvResult, decode: seq<byte> -> Message): Tables
    decreases |cs|
  {
    if cs == [] then t
    else
      var c := cs[|cs| - 1];
      DispatchClient(Dispatched(t, cs[..|cs| - 1], recv, decode), c, recv(c.playerId), decode)
  }

  /** Ids strictly increase along the registry, and so do entities. */
  predicate Increasing(cs: seq<Client>) {
    forall i, j :: 0 <= i < j < |cs| ==> cs[i].playerId < cs[j].playerId && cs[i].entity < cs[j].entity
  }

  /** The receive pass writes no entity outside the registry, and no kind but Input. */
  lemma {:induction false} DispatchedFrame(t: Tables, cs: seq<Client>, recv: int -> RecvResult,
                                           decode: seq<byte> -> Message, e: nat, k: Kind)
    requires k != InputKind || forall i :: 0 <= i < |cs| ==> cs[i].entity != e
    ensures Lookup(Dispatched(t, cs, recv, decode), e, k) == Lookup(t, e, k)
    decreases |cs|
  {
    if cs != [] {
      var c := cs[|cs| - 1];
      var before := Dispatched(t, cs[..|cs| - 1], recv, decode);
      DispatchedFrame(t, cs[..|cs| - 1], recv, decode, e, k);
      var r := recv(c.playerId);
      if r.Received? && r.data != [] {
        ApplyLinesEffect(before, c.entity, Lines(c.buffer + r.data), decode, e, k);
      }
    }
  }

  /**
   * With distinct entities, each client's entity ends with the Input its own
   * lines leave, as if it had been dispatched alone.
   */
  lemma {:induction false} DispatchedOwn(t: Tables, cs: seq<Client>, recv: int -> RecvResult,
                                         decode: seq<byte> -> Message, i: nat)
    requires Increasing(cs) && i < |cs|
    ensures Lookup(Dispatched(t, cs, recv, decode), cs[i].entity, InputKind) ==
            Lookup(DispatchClient(t, cs[i], recv(cs[i].playerId), decode), cs[i].entity, InputKind)
    decreases |cs|
  {
    var n := |cs| - 1;
    var c, prefix := cs[n], cs[..n];
    var before := Dispatched(t, prefix, recv, decode);
    var r := recv(c.playerId);
    if i == n {
      DispatchedFrame(t, prefix, recv, decode, c.entity, InputKind);
      if r.Received? && r.data != [] {
        var lines := Lines(c.buffer + r.data);
        ApplyLinesEffect(before, c.entity, lines, decode, c.entity, InputKind);
        ApplyLinesEffect(t, c.entity, lines, decode, c.entity, InputKind);
      }
    } else {
      assert Increasing(prefix);
      DispatchedOwn(t, prefix, recv, decode, i);
      if r.Received? && r.data != [] {
        ApplyLinesEffect(before, c.entity, Lines(c.buffer + r.data), decode, cs[i].entity, InputKind);
      }
    }
  }

  // ---------------------------------------------------------------- reap

  /** The registry without the clients whose id is in `gone`, order kept. */
  function Without(cs: seq<Client>, gone: set<int>): seq<Client>
    decreases |cs|
  {
    if cs == [] then []
    else (if cs[0].playerId in gone then [] else [cs[0]]) + Without(cs[1..], gone)
  }

  /** A client survives reaping exactly when it was registered and its id was not marked. */
  lemma {:induction false} WithoutMembers(cs: seq<Client>, gone: set<int>, c: Client)
    ensures c in Without(cs, gone) <==> c in cs && c.playerId !in gone
    decreases |cs|
  {
    if cs != [] {
      WithoutMembers(cs[1..], gone, c);
      assert cs == [cs[0]] + cs[1..];
    }
  }

  /** Reaping keeps ids and entities increasing. */
  lemma {:induction false} WithoutIncreasing(cs: seq<Client>, gone: set<int>)
    requires Increasing(cs)
    ensures Increasing(Without(cs, gone))
    decreases |cs|
  {
    if cs != [] {
      var tail := cs[1..];
      assert Increasing(tail);
      WithoutIncreasing(tail, gone);
      if cs[0].playerId !in gone {
        var w := Without(tail, gone);
        forall j | 0 <= j < |w|
          ensures cs[0].playerId < w[j].playerId && cs[0].entity < w[j].entity
        {
          WithoutMembers(tail, gone, w[j]);
          var m :| 0 <= m < |tail| && tail[m] == w[j];
          assert tail[m] == cs[m + 1];
        }
        assert Without(cs, gone) == [cs[0]] + w;
      }
    }
  }

  /** Marking ids one after another reaps their union. */
  lemma {:induction false} WithoutTwice(cs: seq<Client>, a: set<int>, b: set<int>)
    ensures Without(Without(cs, a), b) == Without(cs, a + b)
    decreases |cs|
  {
    if cs != [] {
      WithoutTwice(cs[1..], a, b);
      var head := if cs[0].playerId in a then [] else [cs[0]];
      var w := Without(cs[1..], a);
      assert Without(cs, a) == head + w;
      if head != [] {
        assert (head + w)[0] == cs[0] && (head + w)[1..] == w;
      } else {
        assert head + w == w;
      }
    }
  }

  /** Marking an id no client holds reaps nothing. */
  lemma {:induction false} WithoutAbsent(cs: seq<Client>, id: int)
    requires forall i :: 0 <= i < |cs| ==> cs[i].playerId != id
    ensures Without(cs, {id}) == cs
    decreases |cs|
  {
    if cs != [] {
      WithoutAbsent(cs[1..], id);
      assert cs == [cs[0]] + cs[1..];
    }
  }

  /** Removing the (only) client with an id is reaping that id. */
  lemma {:induction false} RemoveIsWithout(cs: seq<Client>, k: nat)
    requires Increasing(cs) && k < |cs|
    ensures cs[..k] + cs[k + 1..] == Without(cs, {cs[k].playerId})
    decreases |cs|
  {
    var id := cs[k].playerId;
    if k == 0 {
      WithoutAbsent(cs[1..], id);
    } else {
      assert Increasing(cs[1..]);
      RemoveIsWithout(cs[1..], k - 1);
      assert cs[1..][k - 1] == cs[k];
      assert cs[..k] + cs[k + 1..] == [cs[0]] + (cs[1..][..k - 1] + cs[1..][k..]);
    }
  }

  /** Reaping one more id of a list extends reaping the ids before it. */
  lemma ReapStep(cs0: seq<Client>, ids: seq<int>, j: nat, cs: seq<Client>)
    requires j < |ids| && Increasing(cs0) && cs == Without(cs0, IdSet(ids[..j]))
    ensures Without(cs, {ids[j]}) == Without(cs0, IdSet(ids[..j + 1]))
    ensures Increasing(Without(cs, {ids[j]}))
  {
    WithoutTwice(cs0, IdSet(ids[..j]), {ids[j]});
    assert IdSet(ids[..j + 1]) == IdSet(ids[..j]) + {ids[j]} by {
      assert ids[..j + 1] == ids[..j] + [ids[j]];
    }
    WithoutIncreasing(cs0, IdSet(ids[..j + 1]));
  }

  /**
   * The reap loop: for each marked id, remove the client holding it if it is
   * still registered. The result is the registry without every marked id.
   */
  method RemoveAll(cs0: seq<Client>, ids: seq<int>) returns (cs: seq<Client>)
    requires Increasing(cs0)
    ensures cs == Without(cs0, IdSet(ids)) && Increasing(cs)
  {
    cs := cs0;
    WithoutNothing(cs0);
    assert IdSet(ids[..0]) == {};
    var j := 0;
    while j < |ids|
      invariant 0 <= j <= |ids|
      invariant cs == Without(cs0, IdSet(ids[..j])) && Increasing(cs)
    {
      ghost var prev := cs;
      match IndexOf(cs, ids[j]) {
        case Some(k) =>
          RemoveIsWithout(cs, k);
          cs := cs[..k] + cs[k + 1..];
        case None =>
          WithoutAbsent(cs, ids[j]);
      }
      ReapStep(cs0, ids, j, prev);
      j := j + 1;
    }
    assert ids[..j] == ids;
  }

  /** The index of the client with this id, if any (Python's `in` and `remove` on the registry). */
  function IndexOf(cs: seq<Client>, id: int): (r: Option<nat>)
    ensures r.Some? ==> r.value < |cs| && cs[r.value].playerId == id
    ensures r.None? ==> forall i :: 0 <= i < |cs| ==> cs[i].playerId != id
    decreases |cs|
  {
    if cs == [] then None
    else if cs[0].playerId == id then Some(0)
    else match IndexOf(cs[1..], id)
      case None => None
      case Some(i) => Some(i + 1)
  }

  // ---------------------------------------------------------------- snapshot and broadcast

  /** The entries of the state message: one per client whose entity has a Position, in registry order. */
  function Snapshot(cs: seq<Client>, t: Tables): seq<Entry>
    decreases |cs|
  {
    if cs == [] then []
    else
      var c := cs[|cs| - 1];
      var pos := Lookup(t, c.entity, PositionKind);
      Snapshot(cs[..|cs| - 1], t) +
        if pos.Some? && pos.value.Position? then [Entry(c.playerId, pos.value.x, pos.value.y)] else []
  }

  /** Every client's entity holds a Position and an Input. */
  predicate AllHold(cs: seq<Client>, t: Tables) {
    forall i :: 0 <= i < |cs| ==> Lookup(t, cs[i].entity, PositionKind).Some? && Lookup(t, cs[i].entity, InputKind).Some?
  }

  /**
   * When every client's entity has a Position, the snapshot has exactly one entry
   * per client, in registry order, carrying its id and its entity's position.
   */
  lemma {:induction false} SnapshotPerClient(cs: seq<Client>, t: Tables)
    requires WellKinded(t) && AllHold(cs, t)
    ensures |Snapshot(cs, t)| == |cs|
    ensures forall i :: 0 <= i < |cs| ==>
      && t[PositionKind][cs[i].entity].Position?
      && Snapshot(cs, t)[i] ==
         Entry(cs[i].playerId, t[PositionKind][cs[i].entity].x, t[PositionKind][cs[i].entity].y)
    decreases |cs|
  {
    if cs != [] {
      var n := |cs| - 1;
      assert AllHold(cs[..n], t);
      SnapshotPerClient(cs[..n], t);
      forall i | 0 <= i < |cs|
        ensures PositionKind in t && cs[i].entity in t[PositionKind] && t[PositionKind][cs[i].entity].Position?
      {
        assert Lookup(t, cs[i].entity, PositionKind).Some?;
        assert KindOf(t[PositionKind][cs[i].entity]) == PositionKind;
      }
    }
  }

  /** The ids of the clients whose send fails, in registry order. */
  function FailedSends(cs: seq<Client>, fails: set<int>): seq<int>
    decreases |cs|
  {
    if cs == [] then []
    else
      var c := cs[|cs| - 1];
      FailedSends(cs[..|cs| - 1], fails) + if c.playerId in fails then [c.playerId] else []
  }

  /** Exactly the registered clients whose send fails are marked. */
  lemma {:induction false} FailedSendsExact(cs: seq<Client>, fails: set<int>)
    ensures forall i :: 0 <= i < |cs| && cs[i].playerId in fails ==> cs[i].playerId in FailedSends(cs, fails)
    ensures forall x :: x in FailedSends(cs, fails) ==>
      exists i :: 0 <= i < |cs| && cs[i].playerId == x && x in fails
    decreases |cs|
  {
    if cs != [] {
      var n := |cs| - 1;
      FailedSendsExact(cs[..n], fails);
      forall x | x in FailedSends(cs, fails)
        ensures exists i :: 0 <= i < |cs| && cs[i].playerId == x && x in fails
      {
        if x in FailedSends(cs[..n], fails) {
          var i :| 0 <= i < n && cs[..n][i].playerId == x && x in fails;
          assert cs[i] == cs[..n][i];
        } else {
          assert cs[n].playerId == x && x in fails;
        }
      }
    }
  }

  /** Exactly the registered clients whose recv reports a closed or failed connection are marked. */
  lemma {:induction false} DisconnectedExact(cs: seq<Client>, recv: int -> RecvResult)
    ensures forall i :: 0 <= i < |cs| && Gone(recv(cs[i].playerId)) ==> cs[i].playerId in Disconnected(cs, recv)
    ensures forall x :: x in Disconnected(cs, recv) ==>
      exists i :: 0 <= i < |cs| && cs[i].playerId == x && Gone(recv(x))
    decreases |cs|
  {
    if cs != [] {
      var n := |cs| - 1;
      DisconnectedExact(cs[..n], recv);
      forall x | x in Disconnected(cs, recv)
        ensures exists i :: 0 <= i < |cs| && cs[i].playerId == x && Gone(recv(x))
      {
        if x in Disconnected(cs[..n], recv) {
          var i :| 0 <= i < n && cs[..n][i].playerId == x && Gone(recv(x));
          assert cs[i] == cs[..n][i];
        } else {
          assert cs[n].playerId == x && Gone(recv(x));
        }
      }
    }
  }

  /** The ids in a list, as a set. */
  function IdSet(ids: seq<int>): (s: set<int>)
    ensures forall x :: x in s <==> x in ids
  {
    set x | x in ids
  }

  /** The registry invariant: increasing ids and entities, ids from 1 below the counter, bodies present. */
  predicate Registered(cs: seq<Client>, t: Tables, nextId: int, nextEntity: nat) {
    && Increasing(cs)
    && (forall i :: 0 <= i < |cs| ==> 1 <= cs[i].playerId < nextId && cs[i].entity < nextEntity)
    && AllHold(cs, t)
  }

  /** Reaping keeps the registry invariant. */
  lemma WithoutRegistered(cs: seq<Client>, gone: set<int>, t: Tables, nextId: int, nextEntity: nat)
    requires Registered(cs, t, nextId, nextEntity)
    ensures Registered(Without(cs, gone), t, nextId, nextEntity)
  {
    WithoutIncreasing(cs, gone);
    var w := Without(cs, gone);
    forall i | 0 <= i < |w|
      ensures 1 <= w[i].playerId < nextId && w[i].entity < nextEntity
      ensures Lookup(t, w[i].entity, PositionKind).Some? && Lookup(t, w[i].entity, InputKind).Some?
    {
      WithoutMembers(cs, gone, w[i]);
      var m :| 0 <= m < |cs| && cs[m] == w[i];
    }
  }

  /** Registering a new entity that holds a Position and an Input, in a store that lost no entry, keeps the registry invariant. */
  lemma AdmitRegistered(cs: seq<Client>, t: Tables, id: int, e: nat, t': Tables)
    requires id >= 1 && Registered(cs, t, id, e)
    requires forall e', k :: Lookup(t, e', k).Some? ==> Lookup(t', e', k).Some?
    requires Lookup(t', e, PositionKind).Some? && Lookup(t', e, InputKind).Some?
    ensures Registered(cs + [Client(id, e, [])], t', id + 1, e + 1)
  {
  }

  /** Spawning a player loses no entry and gives the new entity a Position and an Input. */
  lemma SpawnKeepsEntries(t: Tables, e: nat, id: int)
    ensures var t' := InsertAll(t, e, PlayerFactory.PlayerBundle(SpawnX(id), SpawnY, id, ColorFor(id)));
      && (forall e', k :: Lookup(t, e', k).Some? ==> Lookup(t', e', k).Some?)
      && Lookup(t', e, PositionKind).Some? && Lookup(t', e, InputKind).Some?
  {
    var bundle := PlayerFactory.PlayerBundle(SpawnX(id), SpawnY, id, ColorFor(id));
    PlayerFactory.PlayerHoldsBundle(t, e, SpawnX(id), SpawnY, id, ColorFor(id));
    forall e', k | Lookup(t, e', k).Some?
      ensures Lookup(InsertAll(t, e, bundle), e', k).Some?
    {
      InsertAllKeepsEntries(t, e, bundle, e', k);
    }
  }

  /** Reaping no id keeps the registry as it is. */
  lemma {:induction false} WithoutNothing(cs: seq<Client>)
    ensures Without(cs, {}) == cs
    decreases |cs|
  {
    if cs != [] {
      WithoutNothing(cs[1..]);
    }
  }

  /** Two registries that differ at most in their buffers. */
  predicate SameSlots(cs: seq<Client>, cs': seq<Client>) {
    |cs| == |cs'| && forall j :: 0 <= j < |cs| ==> cs[j].playerId == cs'[j].playerId && cs[j].entity == cs'[j].entity
  }

  /** Changing buffers, in a store that lost no entry, keeps the registry invariant. */
  lemma RegisteredKept(cs: seq<Client>, t: Tables, cs': seq<Client>, t': Tables, nextId: int, nextEntity: nat)
    requires Registered(cs, t, nextId, nextEntity) && SameSlots(cs, cs')
    requires forall e, k :: Lookup(t, e, k).Some? ==> Lookup(t', e, k).Some?
    ensures Registered(cs', t', nextId, nextEntity)
  {
  }

  /** The receive pass, one client at a time: the first i clients refreshed, the rest as they were. */
  lemma ReceiveStep(cs: seq<Client>, i: nat, t: Tables, recv: int -> RecvResult, decode: seq<byte> -> Message)
    requires i < |cs|
    ensures (Refreshed(cs[..i], recv) + cs[i..])[i := cs[i].(buffer := NewBuffer(cs[i], recv(cs[i].playerId)))] ==
      Refreshed(cs[..i + 1], recv) + cs[i + 1..]
    ensures Disconnected(cs[..i + 1], recv) ==
      Disconnected(cs[..i], recv) + if Gone(recv(cs[i].playerId)) then [cs[i].playerId] else []
    ensures Dispatched(t, cs[..i + 1], recv, decode) ==
      DispatchClient(Dispatched(t, cs[..i], recv, decode), cs[i], recv(cs[i].playerId), decode)
    ensures AllDecodable(cs[..i + 1], recv, decode) <==>
      AllDecodable(cs[..i], recv, decode) && ClientDecodable(cs[i], recv(cs[i].playerId), decode)
  {
    assert cs[..i + 1][..i] == cs[..i];
    var before := Refreshed(cs[..i], recv) + cs[i..];
    var after := Refreshed(cs[..i + 1], recv) + cs[i + 1..];
    assert |before| == |after|;
    forall j | 0 <= j < |after|
      ensures before[i := cs[i].(buffer := NewBuffer(cs[i], recv(cs[i].playerId)))][j] == after[j]
    {
    }
  }

  /**
   * One client's turn in the receive pass: recv, then on new data append it to
   * the buffer and drain it. Reports whether the client is to be dropped and
   * whether an undecodable line ended the server.
   */
  method ReceiveFrom(world: Ecs.World, c: Client, r: RecvResult, decode: seq<byte> -> Message)
    returns (buffer: seq<byte>, closed: bool, crashed: bool)
    requires world.Valid()
    modifies world
    ensures world.Valid() && world.next == old(world.next)
    ensures forall e, k :: Lookup(old(world.tables), e, k).Some? ==> Lookup(world.tables, e, k).Some?
    ensures closed <==> Gone(r)
    ensures crashed <==> !ClientDecodable(c, r, decode)
    ensures !crashed ==> buffer == NewBuffer(c, r)
    ensures !crashed ==> world.tables == DispatchClient(old(world.tables), c, r, decode)
  {
    buffer, closed, crashed := c.buffer, false, false;
    match r {
      case Received(data) =>
        if data == [] {
          closed := true;
        } else {
          buffer, crashed := Drain(world, c.entity, c.buffer + data, decode);
        }
      case WouldBlock =>
      case RecvError =>
        closed := true;
    }
  }

  /** After the first reap, no survivor of the receive pass had its connection closed or failed. */
  lemma ReapedNotGone(cs: seq<Client>, recv: int -> RecvResult)
    ensures forall c :: c in Without(Refreshed(cs, recv), IdSet(Disconnected(cs, recv))) ==> !Gone(recv(c.playerId))
  {
    DisconnectedExact(cs, recv);
    var cs' := Refreshed(cs, recv);
    forall c | c in Without(cs', IdSet(Disconnected(cs, recv)))
      ensures !Gone(recv(c.playerId))
    {
      WithoutMembers(cs', IdSet(Disconnected(cs, recv)), c);
      var i :| 0 <= i < |cs'| && cs'[i] == c;
      assert c.playerId == cs[i].playerId;
    }
  }

  /** After the second reap, no survivor is one whose send failed. */
  lemma ReapedNotFailed(cs: seq<Client>, fails: set<int>)
    ensures forall c :: c in Without(cs, IdSet(FailedSends(cs, fails))) ==> c.playerId !in fails
  {
    FailedSendsExact(cs, fails);
    forall c | c in Without(cs, IdSet(FailedSends(cs, fails)))
      ensures c.playerId !in fails
    {
      WithoutMembers(cs, IdSet(FailedSends(cs, fails)), c);
      var i :| 0 <= i < |cs| && cs[i] == c;
    }
  }

  /** Movement loses no entry, so every client's entity still holds a Position and an Input. */
  lemma MovedRegistered(cs: seq<Client>, t: Tables, nextId: int, nextEntity: nat)
    requires WellKinded(t) && Registered(cs, t, nextId, nextEntity)
    ensures Registered(cs, Movement.Moved(t, Dt), nextId, nextEntity)
  {
    forall i | 0 <= i < |cs|
      ensures Lookup(Movement.Moved(t, Dt), cs[i].entity, PositionKind).Some?
      ensures Lookup(Movement.Moved(t, Dt), cs[i].entity, InputKind).Some?
    {
      Movement.MovedKeepsEntries(t, Dt, cs[i].entity, PositionKind);
      Movement.MovedKeepsEntries(t, Dt, cs[i].entity, InputKind);
    }
  }

  // ---------------------------------------------------------------- one tick

  /** The registry after accept: a waiting connection is appended with an empty buffer. */
  function Admitted(cs: seq<Client>, incoming: bool, id: int, e: nat): seq<Client> {
    if incoming then cs + [Client(id, e, [])] else cs
  }

  /** The store after accept: a waiting connection's player is spawned on entity `e`. */
  function AdmittedTables(t: Tables, incoming: bool, id: int, e: nat): Tables {
    if incoming then InsertAll(t, e, PlayerFactory.PlayerBundle(SpawnX(id), SpawnY, id, ColorFor(id))) else t
  }

  /** The registry after the receive pass and the first reap. */
  function Connected(cs: seq<Client>, recv: int -> RecvResult): seq<Client> {
    Without(Refreshed(cs, recv), IdSet(Disconnected(cs, recv)))
  }

  /** The registry after the send pass and the second reap. */
  function Sent(cs: seq<Client>, fails: set<int>): seq<Client> {
    Without(cs, IdSet(FailedSends(cs, fails)))
  }

  /**
   * A client is still registered at the end of a tick exactly when it was
   * registered after accept, its recv neither closed nor failed, and its send
   * did not fail; it then carries its refreshed buffer.
   */
  lemma TickSurvivors(cs: seq<Client>, recv: int -> RecvResult, fails: set<int>, c: Client)
    ensures c in Sent(Connected(cs, recv), fails) <==>
      c in Refreshed(cs, recv) && !Gone(recv(c.playerId)) && c.playerId !in fails
  {
    var refreshed := Refreshed(cs, recv);
    var received := Connected(cs, recv);
    DisconnectedExact(cs, recv);
    FailedSendsExact(received, fails);
    WithoutMembers(refreshed, IdSet(Disconnected(cs, recv)), c);
    WithoutMembers(received, IdSet(FailedSends(received, fails)), c);
    if c in refreshed {
      var i :| 0 <= i < |refreshed| && refreshed[i] == c;
      assert c.playerId == cs[i].playerId;
      if c.playerId in Disconnected(cs, recv) {
        var j :| 0 <= j < |cs| && cs[j].playerId == c.playerId && Gone(recv(c.playerId));
      }
      if c in received && c.playerId !in fails {
        var k :| 0 <= k < |received| && received[k] == c;
      }
      if c in received && c.playerId in FailedSends(received, fails) {
        var k :| 0 <= k < |received| && received[k].playerId == c.playerId && c.playerId in fails;
      }
    }
  }

  /** The server's state in main: its world, the client registry and the next player id. */
  class ServerState {
    var world: Ecs.World
    var clients: seq<Client>
    var nextPlayerId: int

    ghost predicate Valid()
      reads this, world
    {
      world.Valid() && nextPlayerId >= 1 && Registered(clients, world.tables, nextPlayerId, world.next)
    }

    /** A fresh world, no clients, and player ids starting at 1. */
    constructor ()
      ensures Valid() && fresh(world)
      ensures clients == [] && nextPlayerId == 1
      ensures world.next == 0 && world.tables == map[]
    {
      world := new Ecs.World();
      clients := [];
      nextPlayerId := 1;
    }

    /**
     * A waiting connection: take the next id, spawn its player at the id's column
     * in its colour, and register it with an empty buffer.
     */
    method Accept() returns (id: int)
      requires Valid()
      modifies this, world
      ensures Valid() && world == old(world)
      ensures id == old(nextPlayerId) && nextPlayerId == id + 1
      ensures world.next == old(world.next) + 1
      ensures clients == old(clients) + [Client(id, old(world.next), [])]
      ensures world.tables ==
        InsertAll(old(world.tables), old(world.next), PlayerFactory.PlayerBundle(SpawnX(id), SpawnY, id, ColorFor(id)))
    {
      id := nextPlayerId;
      nextPlayerId := nextPlayerId + 1;
      var spawnX := 200 + (id - 1) * 100;
      var spawnY := 300;
      var color := if id == 1 then Green else Red;
      ghost var t0, cs0 := world.tables, clients;
      var entity := PlayerFactory.CreatePlayer(world, spawnX as real, spawnY as real, id, color);
      clients := clients + [Client(id, entity, [])];
      assert spawnX as real == SpawnX(id) && spawnY as real == SpawnY && color == ColorFor(id);
      SpawnKeepsEntries(t0, entity, id);
      AdmitRegistered(cs0, t0, id, entity, world.tables);
    }

    /**
     * The receive pass over the registry, in order: a closed or failed
     * connection is marked, new data is appended to the buffer and drained.
     * An undecodable line ends the pass (the exception escapes the server).
     */
    method ReceiveAll(recv: int -> RecvResult, decode: seq<byte> -> Message) returns (crashed: bool, gone: seq<int>)
      requires Valid()
      modifies this, world
      ensures Valid() && world == old(world) && world.next == old(world.next) && nextPlayerId == old(nextPlayerId)
      ensures crashed <==> !AllDecodable(old(clients), recv, decode)
      ensures !crashed ==> clients == Refreshed(old(clients), recv)
      ensures !crashed ==> gone == Disconnected(old(clients), recv)
      ensures !crashed ==> world.tables == Dispatched(old(world.tables), old(clients), recv, decode)
    {
      ghost var cs0, t0 := clients, world.tables;
      crashed, gone := false, [];
      var i := 0;
      while i < |clients|
        invariant world.Valid() && world == old(world) && world.next == old(world.next) && nextPlayerId == old(nextPlayerId)
        invariant forall e, k :: Lookup(t0, e, k).Some? ==> Lookup(world.tables, e, k).Some?
        invariant SameSlots(cs0, clients) && 0 <= i <= |clients|
        invariant clients == Refreshed(cs0[..i], recv) + cs0[i..]
        invariant gone == Disconnected(cs0[..i], recv)
        invariant AllDecodable(cs0[..i], recv, decode)
        invariant world.tables == Dispatched(t0, cs0[..i], recv, decode)
        decreases |cs0| - i
      {
        var c := clients[i];
        assert c == cs0[i];
        ReceiveStep(cs0, i, t0, recv, decode);
        var buffer, closed, bad := ReceiveFrom(world, c, recv(c.playerId), decode);
        if bad {
          crashed := true;
          RegisteredKept(cs0, t0, clients, world.tables, nextPlayerId, world.next);
          return;
        }
        if closed {
          gone := gone + [c.playerId];
        }
        clients := clients[i := c.(buffer := buffer)];
        i := i + 1;
      }
      assert cs0[..i] == cs0;
      RegisteredKept(cs0, t0, clients, world.tables, nextPlayerId, world.next);
    }

    /** Close and drop every registered client whose id is marked; the world keeps their entities. */
    method Reap(ids: seq<int>)
      requires Valid()
      modifies this
      ensures Valid() && world == old(world) && nextPlayerId == old(nextPlayerId)
      ensures clients == Without(old(clients), IdSet(ids))
    {
      WithoutRegistered(clients, IdSet(ids), world.tables, nextPlayerId, world.next);
      clients := RemoveAll(clients, ids);
    }

    /** The state entries, one per registered client with a Position, in registry order. */
    method BuildSnapshot() returns (entries: seq<Entry>)
      requires Valid()
      ensures entries == Snapshot(clients, world.tables)
    {
      entries := [];
      var i := 0;
      while i < |clients|
        invariant 0 <= i <= |clients|
        invariant entries == Snapshot(clients[..i], world.tables)
      {
        var c := clients[i];
        var pos := world.GetComponent(c.entity, PositionKind);
        assert clients[..i + 1][..i] == clients[..i];
        if pos.Some? {
          entries := entries + [Entry(c.playerId, pos.value.x, pos.value.y)];
        }
        i := i + 1;
      }
      assert clients[..i] == clients;
    }

    /** Offer the same payload to every registered client, marking those whose send fails. */
    method Broadcast(payload: Payload, fails: set<int>) returns (deliveries: seq<Delivery>, failed: seq<int>)
      ensures |deliveries| == |clients|
      ensures forall i :: 0 <= i < |clients| ==> deliveries[i] == Delivery(clients[i].playerId, payload)
      ensures failed == FailedSends(clients, fails)
    {
      deliveries, failed := [], [];
      var i := 0;
      while i < |clients|
        invariant 0 <= i <= |clients|
        invariant |deliveries| == i
        invariant forall j :: 0 <= j < i ==> deliveries[j] == Delivery(clients[j].playerId, payload)
        invariant failed == FailedSends(clients[..i], fails)
      {
        var c := clients[i];
        deliveries := deliveries + [Delivery(c.playerId, payload)];
        if c.playerId in fails {
          failed := failed + [c.playerId];
        }
        assert clients[..i + 1][..i] == clients[..i];
        i := i + 1;
      }
      assert clients[..i] == clients;
    }

    /** Send the payload to every client, then drop those whose send failed. */
    method SendAll(payload: Payload, fails: set<int>) returns (deliveries: seq<Delivery>)
      requires Valid()
      modifies this
      ensures Valid() && world == old(world) && nextPlayerId == old(nextPlayerId)
      ensures |deliveries| == |old(clients)|
      ensures forall i :: 0 <= i < |deliveries| ==> deliveries[i] == Delivery(old(clients)[i].playerId, payload)
      ensures clients == Sent(old(clients), fails)
      ensures forall c :: c in clients ==> c in old(clients) && c.playerId !in fails
    {
      var failed;
      deliveries, failed := Broadcast(payload, fails);
      ghost var sent := clients;
      Reap(failed);
      ReapedNotFailed(sent, fails);
      forall c | c in clients
        ensures c in sent
      {
        WithoutMembers(sent, IdSet(failed), c);
      }
    }

    /** Move every movable entity by one step and build the state message from the result. */
    method Advance() returns (payload: Payload)
      requires Valid()
      modifies world
      ensures Valid() && world.next == old(world.next)
      ensures world.tables == Movement.Moved(old(world.tables), Dt)
      ensures payload == State(Snapshot(clients, world.tables))
      ensures |payload.players| == |clients|
      ensures forall i :: 0 <= i < |clients| ==> payload.players[i].id == clients[i].playerId
    {
      ghost var t0 := world.tables;
      Movement.MovementSystem(world, Dt);
      MovedRegistered(clients, t0, nextPlayerId, world.next);
      var entries := BuildSnapshot();
      SnapshotPerClient(clients, world.tables);
      payload := State(entries);
    }

    /**
     * The second half of a tick: move, build the state message, send it to
     * every client and drop those whose send failed.
     */
    method Publish(fails: set<int>) returns (payload: Payload, deliveries: seq<Delivery>)
      requires Valid()
      modifies this, world
      ensures Valid() && world == old(world) && nextPlayerId == old(nextPlayerId)
      ensures world.next == old(world.next) && world.tables == Movement.Moved(old(world.tables), Dt)
      ensures payload == State(Snapshot(old(clients), world.tables))
      ensures |payload.players| == |old(clients)|
      ensures forall i :: 0 <= i < |old(clients)| ==> payload.players[i].id == old(clients)[i].playerId
      ensures |deliveries| == |payload.players|
      ensures forall i :: 0 <= i < |deliveries| ==> deliveries[i] == Delivery(payload.players[i].id, payload)
      ensures clients == Sent(old(clients), fails)
      ensures forall c :: c in clients ==> c in old(clients) && c.playerId !in fails
    {
      payload := Advance();
      deliveries := SendAll(payload, fails);
    }

    /**
     * One iteration of the main loop: accept at most one waiting connection,
     * receive from every client, drop the closed ones, then publish.
     * An undecodable line ends the server before anything is sent.
     */
    method Tick(incoming: bool, recv: int -> RecvResult, decode: seq<byte> -> Message, fails: set<int>)
      returns (crashed: bool, payload: Payload, deliveries: seq<Delivery>)
      requires Valid()
      modifies this, world
      ensures Valid() && world == old(world)
      ensures nextPlayerId == old(nextPlayerId) + if incoming then 1 else 0
      ensures world.next == old(world.next) + if incoming then 1 else 0
      ensures crashed <==> !AllDecodable(Admitted(old(clients), incoming, old(nextPlayerId), old(world.next)), recv, decode)
      ensures crashed ==> deliveries == []
      ensures !crashed ==>
        var admitted := Admitted(old(clients), incoming, old(nextPlayerId), old(world.next));
        var spawned := AdmittedTables(old(world.tables), incoming, old(nextPlayerId), old(world.next));
        var received := Connected(admitted, recv);
        && WellKinded(Dispatched(spawned, admitted, recv, decode))
        && world.tables == Movement.Moved(Dispatched(spawned, admitted, recv, decode), Dt)
        && payload == State(Snapshot(received, world.tables))
        && |payload.players| == |received|
        && (forall i :: 0 <= i < |received| ==> payload.players[i].id == received[i].playerId)
        && clients == Sent(received, fails)
      ensures !crashed ==> |deliveries| == |payload.players|
      ensures !crashed ==> forall i :: 0 <= i < |deliveries| ==> deliveries[i] == Delivery(payload.players[i].id, payload)
      ensures !crashed ==> forall c :: c in clients ==> !Gone(recv(c.playerId)) && c.playerId !in fails
    {
      ghost var cs0, t0, id0, e0 := clients, world.tables, nextPlayerId, world.next;
      payload, deliveries := State([]), [];
      if incoming {
        var _ := Accept();
      }
      ghost var admitted := clients;
      assert admitted == Admitted(cs0, incoming, id0, e0);
      assert world.tables == AdmittedTables(t0, incoming, id0, e0);
      ghost var e1 := world.next;
      assert e1 == e0 + if incoming then 1 else 0;
      var gone;
      crashed, gone := ReceiveAll(recv, decode);
      assert world.next == e1;
      if crashed {
        return;
      }
      Reap(gone);
      assert clients == Connected(admitted, recv);
      ReapedNotGone(admitted, recv);
      payload, deliveries := Publish(fails);
    }
  }
}
