/**
 The client table: a bump allocator with a first-in-first-out list of freed keys, and the binding of a client to the
 stream it was last seen on. Values only; ClientManager.dfy refines it in place and Lifecycle.dfy runs it.
 */
module ClientTable {
  import opened Wrappers

  type ClientId = nat
  type StreamId = nat
  type Ref = nat

  datatype Client = Client(key: nat, id: ClientId, stream: Option<StreamId>, detached: bool)

  datatype Table = Table(
    maxSize: nat,
    clients: seq<Client>,     // every client object ever created
    slots: map<nat, Ref>,     // key to object
    ids: map<ClientId, nat>,  // client id to key
    free: seq<nat>,           // freed keys, oldest first
    cursor: nat)              // the last key the bump allocator tried, a 32-bit word

  datatype AddResult = Added(client: Ref) | Refused | Panic

  /** Adding one to a 32-bit word. */
  function Increment32(n: nat): nat {
    if n + 1 == TWO32 then 0 else n + 1
  }

  /** A stream that names a client id: rebinds the living client of that id or creates one. */
  function Add(t: Table, id: ClientId, s: StreamId): (r: (Table, AddResult)) {
    if id in t.ids && t.ids[id] in t.slots && t.slots[t.ids[id]] < |t.clients|
       && !t.clients[t.slots[t.ids[id]]].detached then
      var c := t.slots[t.ids[id]];
      (t.(clients := t.clients[c := t.clients[c].(stream := Some(s))]), Added(c))
    else if t.free != [] then
      (Place(t.(free := t.free[1..]), t.free[0], id, s), Added(|t.clients|))
    else
      var next := Increment32(t.cursor);
      var t' := t.(cursor := next);
      if next > t.maxSize then (t', Refused)
      else if next == 0 then (t', Panic)
      else (Place(t', next, id, s), Added(|t.clients|))
  }

  function Place(t: Table, key: nat, id: ClientId, s: StreamId): Table {
    t.(clients := t.clients + [Client(key, id, Some(s), false)], slots := t.slots[key := |t.clients|],
       ids := t.ids[id := key])
  }

  /** Whether a closing stream still owns the client in the slot of the client it holds. */
  predicate Owns(t: Table, c: Ref, s: StreamId)
    requires c < |t.clients|
  {
    var k := t.clients[c].key;
    && k in t.slots && t.slots[k] < |t.clients|
    && var cur := t.clients[t.slots[k]];
    cur.detached || (cur.id == t.clients[c].id && cur.stream == Some(s))
  }

  /** A stream that closes gives the key back if it still owns the client; otherwise it changes nothing. */
  function Del(t: Table, c: Ref, s: StreamId): (Table, bool)
    requires c < |t.clients|
  {
    if !Owns(t, c, s) then (t, false)
    else
      var k := t.clients[c].key;
      var cur := t.slots[k];
      (t.(clients := t.clients[cur := t.clients[cur].(detached := true)], slots := t.slots - {k},
          ids := t.ids - {t.clients[c].id}, free := t.free + [k]), true)
  }

  /** Live keys and free keys together are exactly the keys handed out so far, each once. */
  ghost predicate Partition(t: Table) {
    && (forall k :: k in t.slots || k in t.free <==> 1 <= k <= Min(t.cursor, t.maxSize))
    && (forall k :: k in t.free ==> k !in t.slots)
    && (forall i, j :: 0 <= i < j < |t.free| ==> t.free[i] != t.free[j])
  }

  /** Ids and live keys are in bijection, through undetached clients that carry both. */
  ghost predicate Coherent(t: Table) {
    && (forall k :: k in t.slots ==>
          && t.slots[k] < |t.clients|
          && var c := t.clients[t.slots[k]];
          c.key == k && !c.detached && c.id in t.ids && t.ids[c.id] == k)
    && (forall id :: id in t.ids ==> t.ids[id] in t.slots && t.clients[t.slots[t.ids[id]]].id == id)
  }

  ghost predicate TableInv(t: Table) {
    Partition(t) && Coherent(t) && t.cursor < TWO32 && t.maxSize < TWO32
  }

  function Keys(n: nat): (s: set<nat>)
    ensures forall k :: k in s <==> 1 <= k <= n
  {
    if n == 0 then {} else Keys(n - 1) + {n}
  }

  lemma {:induction false} KeysSize(n: nat)
    ensures |Keys(n)| == n
  {
    if n > 0 {
      KeysSize(n - 1);
    }
  }

  lemma SubsetSize<T>(a: set<T>, b: set<T>)
    requires a <= b
    ensures |a| <= |b| && (|a| == |b| ==> a == b)
  {
    var rest := b - a;
    assert b == a + rest;
  }

  lemma LiveWithinBounds(t: Table)
    requires Partition(t)
    ensures t.slots.Keys <= Keys(t.maxSize) && |t.slots| <= t.maxSize
    ensures |t.slots| == t.maxSize ==> t.free == []
    ensures |t.slots| == t.maxSize <==> t.slots.Keys == Keys(t.maxSize)
  {
    KeysSize(t.maxSize);
    SubsetSize(t.slots.Keys, Keys(t.maxSize));
    if t.free != [] {
      assert t.free[0] in t.free;
    }
  }

  /** Which stream a client is on does not matter to the order of the table. */
  lemma RebindKeepsInv(t: Table, c: Ref, stream: Option<StreamId>)
    requires TableInv(t) && c < |t.clients|
    ensures TableInv(t.(clients := t.clients[c := t.clients[c].(stream := stream)]))
  {
  }

  lemma PlaceKeepsCoherent(t: Table, key: nat, id: ClientId, s: StreamId)
    requires Coherent(t) && key !in t.slots && id !in t.ids
    ensures Coherent(Place(t, key, id, s))
  {
    var t' := Place(t, key, id, s);
    forall k | k in t'.slots
      ensures t'.slots[k] < |t'.clients| && t'.clients[t'.slots[k]].key == k && !t'.clients[t'.slots[k]].detached
           && t'.clients[t'.slots[k]].id in t'.ids && t'.ids[t'.clients[t'.slots[k]].id] == k {
      if k != key {
        assert t.slots[k] < |t.clients| && t'.clients[t'.slots[k]] == t.clients[t.slots[k]];
      }
    }
    forall i | i in t'.ids ensures t'.ids[i] in t'.slots && t'.clients[t'.slots[t'.ids[i]]].id == i {
      if i != id {
        assert t.ids[i] in t.slots && t.ids[i] != key;
      }
    }
  }

  /** A table takes a new client with the oldest freed key. */
  lemma ReuseKeepsPartition(t: Table, id: ClientId, s: StreamId)
    requires Partition(t) && t.free != []
    ensures t.free[0] !in t.slots && Partition(Place(t.(free := t.free[1..]), t.free[0], id, s))
  {
    assert t.free[0] in t.free;
    forall k ensures k in t.free <==> k == t.free[0] || k in t.free[1..] {}
  }

  /** Or, when no key is free, with the next key of the bump allocator. */
  lemma BumpKeepsPartition(t: Table, id: ClientId, s: StreamId)
    requires Partition(t) && t.free == []
    ensures t.cursor + 1 <= t.maxSize ==>
              t.cursor + 1 !in t.slots && Partition(Place(t.(cursor := t.cursor + 1), t.cursor + 1, id, s))
    ensures t.cursor + 1 > t.maxSize ==> Partition(t.(cursor := t.cursor + 1)) && t.slots.Keys == Keys(t.maxSize)
  {
  }

  lemma ReuseKeepsInv(t: Table, id: ClientId, s: StreamId)
    requires TableInv(t) && id !in t.ids && t.free != []
    ensures TableInv(Place(t.(free := t.free[1..]), t.free[0], id, s))
  {
    ReuseKeepsPartition(t, id, s);
    PlaceKeepsCoherent(t.(free := t.free[1..]), t.free[0], id, s);
  }

  lemma BumpKeepsInv(t: Table, id: ClientId, s: StreamId)
    requires TableInv(t) && id !in t.ids && t.free == [] && t.cursor + 1 < TWO32 && t.cursor + 1 <= t.maxSize
    ensures TableInv(Place(t.(cursor := t.cursor + 1), t.cursor + 1, id, s))
  {
    BumpKeepsPartition(t, id, s);
    PlaceKeepsCoherent(t.(cursor := t.cursor + 1), t.cursor + 1, id, s);
  }

  lemma RefusalKeepsInv(t: Table, id: ClientId, s: StreamId)
    requires TableInv(t) && t.free == [] && t.maxSize < t.cursor + 1 < TWO32
    ensures TableInv(t.(cursor := t.cursor + 1))
  {
    BumpKeepsPartition(t, id, s);
  }

  /** The three ways of an addition to a table in order. */
  lemma AddCases(t: Table, id: ClientId, s: StreamId)
    requires Coherent(t)
    ensures id in t.ids ==> t.ids[id] in t.slots && t.slots[t.ids[id]] < |t.clients|
    ensures id in t.ids ==>
              var c := t.slots[t.ids[id]];
              Add(t, id, s) == (t.(clients := t.clients[c := t.clients[c].(stream := Some(s))]), Added(c))
    ensures id !in t.ids && t.free != [] ==>
              Add(t, id, s) == (Place(t.(free := t.free[1..]), t.free[0], id, s), Added(|t.clients|))
    ensures id !in t.ids && t.free == [] && t.cursor + 1 < TWO32 ==>
              Add(t, id, s) == if t.cursor + 1 > t.maxSize then (t.(cursor := t.cursor + 1), Refused)
                               else (Place(t.(cursor := t.cursor + 1), t.cursor + 1, id, s), Added(|t.clients|))
    ensures id !in t.ids && t.free == [] && t.cursor + 1 == TWO32 ==> Add(t, id, s) == (t.(cursor := 0), Panic)
  {
  }

  /** Every addition that does not hit the wrap of the cursor keeps the table in order. */
  lemma AddKeepsInv(t: Table, id: ClientId, s: StreamId)
    requires TableInv(t) && !Add(t, id, s).1.Panic?
    ensures TableInv(Add(t, id, s).0)
  {
    AddCases(t, id, s);
    if id in t.ids {
      RebindKeepsInv(t, t.slots[t.ids[id]], Some(s));
    } else if t.free != [] {
      ReuseKeepsInv(t, id, s);
    } else if t.cursor + 1 <= t.maxSize {
      BumpKeepsInv(t, id, s);
    } else {
      RefusalKeepsInv(t, id, s);
    }
  }

  lemma DelKeepsInv(t: Table, c: Ref, s: StreamId)
    requires TableInv(t) && c < |t.clients|
    ensures TableInv(Del(t, c, s).0)
  {
  }

  /** The client of an addition carries the id and is bound to the stream. */
  lemma AddBinds(t: Table, id: ClientId, s: StreamId)
    requires TableInv(t) && Add(t, id, s).1.Added?
    ensures var (t', r) := Add(t, id, s);
            r.client < |t'.clients| && t'.clients[r.client].id == id && t'.clients[r.client].stream == Some(s)
    ensures id in t.ids ==> Add(t, id, s).1.client == t.slots[t.ids[id]]
    ensures id !in t.ids ==> Add(t, id, s).1.client == |t.clients|
  {
  }

  /** An addition touches no other client, and detaches none. */
  lemma AddFrame(t: Table, id: ClientId, s: StreamId, k: nat)
    requires TableInv(t) && Add(t, id, s).1.Added? && k in Add(t, id, s).0.slots
    ensures var (t', r) := Add(t, id, s);
            && t'.slots[k] < |t'.clients|
            && (t'.slots[k] != r.client ==>
                  k in t.slots && t'.slots[k] == t.slots[k] && t'.clients[t.slots[k]] == t.clients[t.slots[k]])
  {
    if k in t.slots {
      assert t.slots[k] < |t.clients|;
    }
  }

  lemma AddKeepsOthers(t: Table, id: ClientId, s: StreamId)
    ensures var t' := Add(t, id, s).0;
            |t.clients| <= |t'.clients|
            && forall c :: 0 <= c < |t.clients| ==> t'.clients[c].detached == t.clients[c].detached
  {
  }

  /** An addition leaves the objects that have left the table alone, and all others in their slots, the new one too. */
  lemma AddPlaces(t: Table, id: ClientId, s: StreamId, c: nat)
    requires TableInv(t) && !Add(t, id, s).1.Panic? && c < |Add(t, id, s).0.clients|
    ensures var r := Add(t, id, s).0.clients[c];
            && (c < |t.clients| && t.clients[c].detached ==> r == t.clients[c])
            && (c < |t.clients| ==> r.detached == t.clients[c].detached)
            && (c >= |t.clients| || (!r.detached && t.clients[c].key in t.slots && t.slots[t.clients[c].key] == c) ==>
                  !r.detached && r.key in Add(t, id, s).0.slots && Add(t, id, s).0.slots[r.key] == c)
  {
    AddCases(t, id, s);
    AddOutcome(t, id, s);
  }

  /**
   What a new id gets: a key whenever fewer than maxSize clients are live, however far earlier refusals have pushed the
   cursor, and a refusal when all are. The only exception is the wrap of the cursor itself.
   */
  lemma AddOutcome(t: Table, id: ClientId, s: StreamId)
    requires TableInv(t)
    ensures Add(t, id, s).1.Panic? <==> id !in t.ids && t.free == [] && t.cursor == TWO32 - 1
    ensures Add(t, id, s).1.Refused? <==> id !in t.ids && |t.slots| == t.maxSize && t.cursor != TWO32 - 1
    ensures !Add(t, id, s).1.Added? ==> Add(t, id, s).0 == t.(cursor := Add(t, id, s).0.cursor)
  {
    LiveWithinBounds(t);
    if id !in t.ids && t.free == [] {
      BumpKeepsPartition(t, id, s);
      if t.cursor + 1 <= t.maxSize {
        assert t.cursor + 1 in Keys(t.maxSize);
      }
    }
  }

  /** A close removes a client exactly when the closing stream is still the one the client is bound to. */
  lemma DelOutcome(t: Table, c: Ref, s: StreamId)
    requires TableInv(t) && c < |t.clients|
    requires forall k :: k in t.slots && t.clients[t.slots[k]].stream == Some(s) ==> t.slots[k] == c
    ensures var k, (t', removed) := t.clients[c].key, Del(t, c, s);
            && (removed <==> k in t.slots && t.slots[k] == c && t.clients[c].stream == Some(s))
            && (if removed then
                  && k !in t.free && t'.free == t.free + [k]
                  && t'.slots == t.slots - {k} && t'.ids == t.ids - {t.clients[c].id}
                  && t'.clients == t.clients[c := t.clients[c].(detached := true)]
                else t' == t)
  {
  }

  /** The clean-up after a close: the client object loses its stream. */
  function Cleared(t: Table, c: Ref): Table
    requires c < |t.clients|
  {
    t.(clients := t.clients[c := t.clients[c].(stream := None)])
  }

  /** A client that closes leaves its key to the next client that comes. */
  lemma KeyIsReused(maxSize: nat, a: ClientId, b: ClientId)
    requires 1 <= maxSize && a != b
    ensures var (t1, r1) := Add(Table(maxSize, [], map[], map[], [], 0), a, 1);
            && r1 == Added(0) && t1.clients == [Client(1, a, Some(1), false)]
            && var (t2, removed) := Del(t1, 0, 1);
            && removed
            && var (t3, r3) := Add(Cleared(t2, 0), b, 2);
            r3 == Added(1) && t3.clients == [Client(1, a, None, true), Client(1, b, Some(2), false)]
  {
  }

  /** A client that closes after another one and comes back gets that one's key, not its own. */
  lemma ReconnectChangesKey(maxSize: nat, x: ClientId, a: ClientId)
    requires 2 <= maxSize && x != a
    ensures var (t1, r1) := Add(Table(maxSize, [], map[], map[], [], 0), x, 1);
            && r1 == Added(0) && t1.clients == [Client(1, x, Some(1), false)]
            && var (t2, r2) := Add(t1, a, 2);
            && r2 == Added(1) && t2.clients == [Client(1, x, Some(1), false), Client(2, a, Some(2), false)]
            && var (t3, removed) := Del(t2, 0, 1);
            && removed
            && var (t4, gone) := Del(Cleared(t3, 0), 1, 2);
            && gone
            && var (t5, r5) := Add(Cleared(t4, 1), a, 3);
            r5 == Added(2) && t5.clients == [Client(1, x, None, true), Client(2, a, None, true), Client(1, a, Some(3), false)]
  {
  }
}
