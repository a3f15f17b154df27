/**
 Streams that come, name a client, reconnect and close in any order, over the client table. Every step is one critical
 section of the table's mutex or one action of a stream's own goroutine.
 */
module Lifecycle {
  import opened ClientTable
  import opened Wrappers

  /** An open stream holds at most one client, chosen once; a closing one may still have to clear its client. */
  datatype Stream = Open(held: Option<Ref>) | Clearing(client: Ref) | Closed

  datatype State = State(table: Table, streams: map<StreamId, Stream>)

  datatype Step =
    | Connect(s: StreamId)
    | InitClient(s: StreamId, id: ClientId)
    | Close(s: StreamId)
    | Cleanup(s: StreamId)

  function Init(maxSize: nat): State {
    State(Table(maxSize, [], map[], map[], [], 0), map[])
  }

  /** Stream ids are unique; only the stream itself acts for it. */
  predicate Enabled(x: State, t: Step) {
    match t
    case Connect(s) => s !in x.streams
    case InitClient(s, _) => s in x.streams && x.streams[s].Open?
    case Close(s) => s in x.streams && x.streams[s].Open?
                     && (x.streams[s].held.Some? ==> x.streams[s].held.value < |x.table.clients|)
    case Cleanup(s) => s in x.streams && x.streams[s].Clearing? && x.streams[s].client < |x.table.clients|
  }

  function Apply(x: State, t: Step): State
    requires Enabled(x, t)
  {
    match t
    case Connect(s) => x.(streams := x.streams[s := Open(None)])
    case InitClient(s, id) =>
      if x.streams[s].held.Some? then x
      else
        var (table, r) := Add(x.table, id, s);
        State(table, if r.Added? then x.streams[s := Open(Some(r.client))] else x.streams)
    case Close(s) =>
      (match x.streams[s].held
       case None => x.(streams := x.streams[s := Closed])
       case Some(c) =>
         var (table, removed) := Del(x.table, c, s);
         State(table, x.streams[s := if removed then Clearing(c) else Closed]))
    case Cleanup(s) =>
      var c := x.streams[s].client;
      State(Cleared(x.table, c), x.streams[s := Closed])
  }

  /** Whether a step runs into the wrapped cursor. */
  predicate Panics(x: State, t: Step)
    requires Enabled(x, t)
  {
    t.InitClient? && x.streams[t.s].held.None? && Add(x.table, t.id, t.s).1.Panic?
  }

  predicate Runs(x: State, steps: seq<Step>)
    decreases |steps|
  {
    steps == [] || (Enabled(x, steps[0]) && Runs(Apply(x, steps[0]), steps[1..]))
  }

  function Exec(x: State, steps: seq<Step>): State
    requires Runs(x, steps)
    decreases |steps|
  {
    if steps == [] then x else Exec(Apply(x, steps[0]), steps[1..])
  }

  /** Every client in the table is bound to an open stream that holds it. */
  ghost predicate Bound(x: State) {
    forall k :: k in x.table.slots ==> BoundAt(x, k)
  }

  ghost predicate BoundAt(x: State, k: nat)
    requires k in x.table.slots
  {
    var r := x.table.slots[k];
    && r < |x.table.clients|
    && var c := x.table.clients[r];
    c.stream.Some? && c.stream.value in x.streams && x.streams[c.stream.value] == Open(Some(r))
  }

  /** Streams refer to existing clients, and a client being cleared has left the table. */
  ghost predicate RefsGood(x: State) {
    && (forall s :: s in x.streams && x.streams[s].Open? && x.streams[s].held.Some? ==>
          x.streams[s].held.value < |x.table.clients|)
    && (forall s :: s in x.streams && x.streams[s].Clearing? ==>
          x.streams[s].client < |x.table.clients| && x.table.clients[x.streams[s].client].detached)
  }

  ghost predicate Inv(x: State) {
    TableInv(x.table) && Bound(x) && RefsGood(x)
  }

  lemma InitClientBound(x: State, t: Step)
    requires Inv(x) && t.InitClient? && Enabled(x, t) && x.streams[t.s].held.None?
    requires Add(x.table, t.id, t.s).1.Added?
    ensures Bound(Apply(x, t))
  {
    var x' := Apply(x, t);
    AddBinds(x.table, t.id, t.s);
    forall k | k in x'.table.slots ensures BoundAt(x', k) {
      AddFrame(x.table, t.id, t.s, k);
      assert k in x.table.slots ==> BoundAt(x, k);
    }
  }

  lemma InitClientRefs(x: State, t: Step)
    requires Inv(x) && t.InitClient? && Enabled(x, t) && x.streams[t.s].held.None?
    requires Add(x.table, t.id, t.s).1.Added? || Add(x.table, t.id, t.s).1.Refused?
    ensures RefsGood(Apply(x, t))
  {
    AddKeepsOthers(x.table, t.id, t.s);
    if Add(x.table, t.id, t.s).1.Added? {
      AddBinds(x.table, t.id, t.s);
    }
    var x' := Apply(x, t);
    forall s | s in x'.streams && s != t.s ensures s in x.streams && x'.streams[s] == x.streams[s] {}
  }

  lemma InitClientInv(x: State, t: Step)
    requires Inv(x) && t.InitClient? && Enabled(x, t) && !Panics(x, t)
    ensures Inv(Apply(x, t))
  {
    if x.streams[t.s].held.None? {
      AddKeepsInv(x.table, t.id, t.s);
      InitClientRefs(x, t);
      if Add(x.table, t.id, t.s).1.Added? {
        InitClientBound(x, t);
      } else {
        AddOutcome(x.table, t.id, t.s);
      }
    }
  }

  /** A closing stream owns at most the client it holds. */
  lemma HeldOnly(x: State, s: StreamId)
    requires Inv(x) && s in x.streams && x.streams[s].Open? && x.streams[s].held.Some?
    ensures forall k :: k in x.table.slots && x.table.clients[x.table.slots[k]].stream == Some(s) ==>
              x.table.slots[k] == x.streams[s].held.value
  {
  }

  lemma CloseBound(x: State, t: Step)
    requires Inv(x) && t.Close? && Enabled(x, t)
    ensures Bound(Apply(x, t))
  {
    var x' := Apply(x, t);
    if x.streams[t.s].held.Some? {
      HeldOnly(x, t.s);
      DelOutcome(x.table, x.streams[t.s].held.value, t.s);
    }
    forall k | k in x'.table.slots ensures BoundAt(x', k) {
      assert BoundAt(x, k);
    }
  }

  lemma CloseInv(x: State, t: Step)
    requires Inv(x) && t.Close? && Enabled(x, t)
    ensures Inv(Apply(x, t))
  {
    if x.streams[t.s].held.Some? {
      var c := x.streams[t.s].held.value;
      HeldOnly(x, t.s);
      DelOutcome(x.table, c, t.s);
      DelKeepsInv(x.table, c, t.s);
    }
    CloseBound(x, t);
  }

  lemma CleanupInv(x: State, t: Step)
    requires Inv(x) && t.Cleanup? && Enabled(x, t)
    ensures Inv(Apply(x, t))
  {
  }

  lemma StepInv(x: State, t: Step)
    requires Inv(x) && Enabled(x, t) && !Panics(x, t)
    ensures Inv(Apply(x, t)) && Apply(x, t).table.cursor <= x.table.cursor + 1
    ensures Apply(x, t).table.maxSize == x.table.maxSize
  {
    match t
    case Connect(_) =>
    case InitClient(_, _) => InitClientInv(x, t);
    case Close(_) => CloseInv(x, t);
    case Cleanup(_) => CleanupInv(x, t);
  }

  /** The hypothesis on the cursor: a run that keeps it below the wrap never panics. */
  lemma {:induction false} RunInv(x: State, steps: seq<Step>)
    requires Inv(x) && Runs(x, steps) && x.table.cursor + |steps| < TWO32
    ensures Inv(Exec(x, steps)) && Exec(x, steps).table.maxSize == x.table.maxSize
    ensures Exec(x, steps).table.cursor <= x.table.cursor + |steps|
    decreases |steps|
  {
    if steps != [] {
      if steps[0].InitClient? {
        AddOutcome(x.table, steps[0].id, steps[0].s);
      }
      StepInv(x, steps[0]);
      RunInv(Apply(x, steps[0]), steps[1..]);
    }
  }

  /** The states of all runs of fewer than 2^32 - 1 steps from an empty table. */
  ghost predicate Reachable(maxSize: nat, x: State) {
    maxSize < TWO32 && exists steps :: |steps| < TWO32 - 1 && Runs(Init(maxSize), steps) && Exec(Init(maxSize), steps) == x
  }

  lemma ReachableInv(maxSize: nat, x: State)
    requires Reachable(maxSize, x)
    ensures Inv(x) && x.table.maxSize == maxSize && x.table.cursor < TWO32 - 1
  {
    var steps :| |steps| < TWO32 - 1 && Runs(Init(maxSize), steps) && Exec(Init(maxSize), steps) == x;
    RunInv(Init(maxSize), steps);
  }

  /** No leak: when no stream is open, nobody is left in the table and every key handed out is free again. */
  lemma NoLeak(maxSize: nat, x: State)
    requires Reachable(maxSize, x)
    requires forall s :: s in x.streams ==> !x.streams[s].Open?
    ensures x.table.slots == map[] && x.table.ids == map[]
    ensures forall k :: k in x.table.free <==> 1 <= k <= Min(x.table.cursor, maxSize)
  {
    ReachableInv(maxSize, x);
    assert forall k :: k !in x.table.slots;
    assert forall id :: id !in x.table.ids;
  }

  /**
   A stream that closes after its client has moved to a newer stream changes nothing in the table; one that still owns
   its client frees exactly that client's key, which was not free before.
   */
  lemma CloseExact(maxSize: nat, x: State, s: StreamId)
    requires Reachable(maxSize, x) && Enabled(x, Close(s)) && x.streams[s].held.Some?
    ensures var c, after := x.streams[s].held.value, Apply(x, Close(s)).table;
            var k := x.table.clients[c].key;
            if k in x.table.slots && x.table.slots[k] == c && x.table.clients[c].stream == Some(s) then
              && k !in x.table.free && after.free == x.table.free + [k]
              && after.slots == x.table.slots - {k} && after.ids == x.table.ids - {x.table.clients[c].id}
            else after == x.table
  {
    ReachableInv(maxSize, x);
    HeldOnly(x, s);
    DelOutcome(x.table, x.streams[s].held.value, s);
  }

  /** A stream that holds no client and names a new id is refused exactly when maxSize clients are live. */
  lemma RefusedExactlyWhenFull(maxSize: nat, x: State, s: StreamId, id: ClientId)
    requires Reachable(maxSize, x) && Enabled(x, InitClient(s, id))
    requires x.streams[s].held.None? && id !in x.table.ids
    ensures Apply(x, InitClient(s, id)).streams[s] == Open(None) <==> |x.table.slots| == maxSize
  {
    ReachableInv(maxSize, x);
    AddOutcome(x.table, id, s);
  }

  /** A client that reconnects keeps its key and its object, and the close of any other stream leaves it in the table. */
  lemma ReconnectMoves(maxSize: nat, x: State, s: StreamId, id: ClientId, other: StreamId)
    requires Reachable(maxSize, x) && Enabled(x, InitClient(s, id))
    requires x.streams[s].held.None? && id in x.table.ids && x.table.ids[id] in x.table.slots && other != s
    ensures var x', k := Apply(x, InitClient(s, id)), x.table.ids[id];
            && x'.table.slots == x.table.slots && x'.table.ids == x.table.ids && x'.table.free == x.table.free
            && x'.streams == x.streams[s := Open(Some(x.table.slots[k]))]
            && (Enabled(x', Close(other)) ==> k in Apply(x', Close(other)).table.slots)
  {
    ReachableInv(maxSize, x);
    var x', k := Apply(x, InitClient(s, id)), x.table.ids[id];
    AddBinds(x.table, id, s);
    InitClientInv(x, InitClient(s, id));
    assert BoundAt(x', k);
    if Enabled(x', Close(other)) && x'.streams[other].held.Some? {
      HeldOnly(x', other);
      DelOutcome(x'.table, x'.streams[other].held.value, other);
    }
  }

  /** A client object is in the table, or has left it and lost its stream, or is about to be cleared by the one that closed. */
  ghost predicate Placed(x: State, c: Ref)
    requires c < |x.table.clients|
  {
    var r := x.table.clients[c];
    if !r.detached then r.key in x.table.slots && x.table.slots[r.key] == c
    else r.stream.None? || exists s :: s in x.streams && x.streams[s] == Clearing(c)
  }

  ghost predicate AllPlaced(x: State) {
    forall c: nat :: c < |x.table.clients| ==> Placed(x, c)
  }

  lemma InitClientPlaced(x: State, t: Step, c: nat)
    requires Inv(x) && AllPlaced(x) && t.InitClient? && Enabled(x, t) && !Panics(x, t)
    requires c < |Apply(x, t).table.clients|
    ensures Placed(Apply(x, t), c)
  {
    var x' := Apply(x, t);
    if x.streams[t.s].held.None? {
      AddPlaces(x.table, t.id, t.s, c);
    }
    if c < |x.table.clients| {
      assert Placed(x, c);
      if s :| s in x.streams && x.streams[s] == Clearing(c) {
        assert x'.streams[s] == Clearing(c);
      }
    }
  }

  lemma ClosePlaced(x: State, t: Step, c: nat)
    requires Inv(x) && AllPlaced(x) && t.Close? && Enabled(x, t) && c < |Apply(x, t).table.clients|
    ensures Placed(Apply(x, t), c)
  {
    var x' := Apply(x, t);
    if x.streams[t.s].held.Some? {
      HeldOnly(x, t.s);
      DelOutcome(x.table, x.streams[t.s].held.value, t.s);
      assert x'.streams[t.s].Clearing? ==> x'.streams[t.s] == Clearing(x.streams[t.s].held.value);
    }
    assert Placed(x, c);
    if s :| s in x.streams && x.streams[s] == Clearing(c) {
      assert x'.streams[s] == Clearing(c);
    }
  }

  lemma CleanupPlaced(x: State, t: Step, c: nat)
    requires Inv(x) && AllPlaced(x) && t.Cleanup? && Enabled(x, t) && c < |Apply(x, t).table.clients|
    ensures Placed(Apply(x, t), c)
  {
    var x' := Apply(x, t);
    assert Placed(x, c);
    if c != x.streams[t.s].client {
      if s :| s in x.streams && x.streams[s] == Clearing(c) {
        assert x'.streams[s] == Clearing(c);
      }
    }
  }

  lemma PlacedStep(x: State, t: Step)
    requires Inv(x) && AllPlaced(x) && Enabled(x, t) && !Panics(x, t)
    ensures AllPlaced(Apply(x, t))
  {
    var x' := Apply(x, t);
    forall c: nat | c < |x'.table.clients| ensures Placed(x', c) {
      match t
      case Connect(_) =>
        assert Placed(x, c);
        if s :| s in x.streams && x.streams[s] == Clearing(c) {
          assert x'.streams[s] == Clearing(c);
        }
      case InitClient(_, _) => InitClientPlaced(x, t, c);
      case Close(_) => ClosePlaced(x, t, c);
      case Cleanup(_) => CleanupPlaced(x, t, c);
    }
  }

  lemma {:induction false} PlacedRun(x: State, steps: seq<Step>)
    requires Inv(x) && AllPlaced(x) && Runs(x, steps) && x.table.cursor + |steps| < TWO32
    ensures AllPlaced(Exec(x, steps))
    decreases |steps|
  {
    if steps != [] {
      if steps[0].InitClient? {
        AddOutcome(x.table, steps[0].id, steps[0].s);
      }
      StepInv(x, steps[0]);
      PlacedStep(x, steps[0]);
      PlacedRun(Apply(x, steps[0]), steps[1..]);
    }
  }

  ghost predicate AllClosed(x: State) {
    forall s :: s in x.streams ==> x.streams[s].Closed?
  }

  /** And no client keeps a stream: once every stream has closed and cleaned up, all clients ever made are gone and cleared. */
  lemma AllCleared(maxSize: nat, steps: seq<Step>)
    requires maxSize < TWO32 && |steps| < TWO32 - 1 && Runs(Init(maxSize), steps)
    requires AllClosed(Exec(Init(maxSize), steps))
    ensures var x := Exec(Init(maxSize), steps);
            forall c: nat :: c < |x.table.clients| ==> x.table.clients[c].detached && x.table.clients[c].stream.None?
  {
    PlacedRun(Init(maxSize), steps);
    var x := Exec(Init(maxSize), steps);
    NoLeak(maxSize, x);
    forall c: nat | c < |x.table.clients| ensures x.table.clients[c].detached && x.table.clients[c].stream.None? {
      assert Placed(x, c);
    }
  }
}
