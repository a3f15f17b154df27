/** The client table in place: client objects, the slot array, the id map and the free list of ratelimitv2. */
module ClientManagers {
  import opened ClientTable
  import opened Wrappers

  /** One client, bound to one stream at a time until it is detached. */
  class ClientObject {
    const clientKey: nat
    const clientId: ClientId
    var streamCtx: Option<StreamId>
    var detached: bool

    constructor (clientKey: nat, clientId: ClientId, streamCtx: StreamId)
      ensures Record() == Client(clientKey, clientId, Some(streamCtx), false)
    {
      this.clientKey, this.clientId := clientKey, clientId;
      this.streamCtx, this.detached := Some(streamCtx), false;
    }

    function Record(): Client
      reads this
    {
      Client(clientKey, clientId, streamCtx, detached)
    }

    /** Rebinds the client unless it has been detached; says whether it could be used. */
    method UpdateStreamContext(s: StreamId) returns (usable: bool)
      modifies this
      ensures usable == !old(detached)
      ensures Record() == if usable then old(Record()).(stream := Some(s)) else old(Record())
    {
      if detached {
        return false;
      }
      if streamCtx != Some(s) {
        streamCtx := Some(s);
      }
      return true;
    }

    /** Detaches the client if it is the one meant and still on the closing stream; says whether it is detached now. */
    method Detach(id: ClientId, s: StreamId) returns (nowDetached: bool)
      modifies this
      ensures nowDetached == (old(detached) || (clientId == id && streamCtx == Some(s)))
      ensures Record() == old(Record()).(detached := nowDetached)
    {
      if clientId == id && streamCtx == Some(s) {
        detached := true;
      }
      nowDetached := detached;
    }

    method Cleanup()
      modifies this
      ensures Record() == old(Record()).(stream := None)
    {
      streamCtx := None;
    }
  }

  ghost function Records(cs: seq<ClientObject>): (r: seq<Client>)
    reads cs
    ensures |r| == |cs| && forall i :: 0 <= i < |cs| ==> r[i] == cs[i].Record()
  {
    seq(|cs|, i requires 0 <= i < |cs| reads cs => cs[i].Record())
  }

  class ClientManager {
    const maxSize: nat
    const clients: array<ClientObject?>
    var clientMap: map<ClientId, nat>
    var freeClientKeys: seq<nat>
    var clientIdx: nat
    /** Every client object ever created, and for each live key which of them sits in its slot. */
    ghost var created: seq<ClientObject>
    ghost var refs: map<nat, Ref>

    ghost function View(): Table
      reads this, created
    {
      Table(maxSize, Records(created), refs, clientMap, freeClientKeys, clientIdx)
    }

    /** The array shows what refs says, and the objects are distinct. */
    ghost predicate Slots()
      reads this, clients
    {
      && clients.Length == maxSize
      && (forall i, j :: 0 <= i < j < |created| ==> created[i] != created[j])
      && (forall k :: k in refs ==> 1 <= k <= maxSize && refs[k] < |created| && clients[k - 1] == created[refs[k]])
      && (forall i :: 0 <= i < maxSize && i + 1 !in refs ==> clients[i] == null)
    }

    ghost predicate Valid()
      reads this, clients, created
    {
      Slots() && TableInv(View())
    }

    constructor (maxSize: nat)
      requires maxSize < TWO32
      ensures Valid() && View() == Table(maxSize, [], map[], map[], [], 0)
    {
      this.maxSize := maxSize;
      clients := new ClientObject?[maxSize](_ => null);
      clientMap, freeClientKeys, clientIdx := map[], [], 0;
      created, refs := [], map[];
    }

    /** Refines the addition to the table; the returned object is the one the table names. */
    method AddClient(clientId: ClientId, s: StreamId) returns (client: ClientObject?)
      requires Valid() && !Add(View(), clientId, s).1.Panic?
      modifies this, clients, created
      ensures Valid() && old(created) <= created
      ensures View() == Add(old(View()), clientId, s).0
      ensures match Add(old(View()), clientId, s).1
              case Added(c) => c < |created| && client == created[c]
              case _ => client == null
    {
      ghost var before := View();
      AddKeepsInv(before, clientId, s);
      if clientId in clientMap {
        AddCases(before, clientId, s);
        client := Rebind(clientId, s);
      } else {
        client := AddNew(clientId, s);
      }
      assert View() == Add(before, clientId, s).0;
    }

    /** An addition of a client that has no key yet. */
    method AddNew(clientId: ClientId, s: StreamId) returns (client: ClientObject?)
      requires Valid() && clientId !in clientMap && !Add(View(), clientId, s).1.Panic?
      modifies this, clients
      ensures Slots() && View() == Add(old(View()), clientId, s).0
      ensures old(created) <= created
      ensures match Add(old(View()), clientId, s).1
              case Added(c) => c < |created| && client == created[c]
              case _ => client == null
    {
      ghost var before := View();
      AddCases(before, clientId, s);
      var targetIndexKey := NextKey();
      client := null;
      if targetIndexKey != 0 {
        client := Place(targetIndexKey, clientId, s);
      }
      assert View() == Add(before, clientId, s).0;
    }

    /** Moves a living client to another stream. */
    method Rebind(clientId: ClientId, s: StreamId) returns (client: ClientObject)
      requires Slots() && TableInv(View()) && clientId in clientMap
      modifies created
      ensures Slots()
      ensures var c := refs[clientMap[clientId]];
              && c < |created| && client == created[c]
              && View() == old(View()).(clients := old(View()).clients[c := old(View()).clients[c].(stream := Some(s))])
    {
      ghost var before := View();
      client := clients[clientMap[clientId] - 1];
      ghost var c := refs[clientMap[clientId]];
      assert client == created[c] && before.clients[c] == client.Record();
      var usable := client.UpdateStreamContext(s);
      assert Records(created) == before.clients[c := before.clients[c].(stream := Some(s))];
    }

    /** The oldest freed key, else the next one of the bump allocator; 0 when that is out of range. */
    method NextKey() returns (key: nat)
      requires Slots() && TableInv(View()) && (freeClientKeys == [] ==> clientIdx + 1 < TWO32)
      modifies this`freeClientKeys, this`clientIdx
      ensures if old(freeClientKeys) != [] then
                && key == old(freeClientKeys[0]) && key != 0
                && View() == old(View()).(free := old(freeClientKeys)[1..])
              else
                && View() == old(View()).(cursor := old(clientIdx) + 1)
                && key == if clientIdx > maxSize then 0 else clientIdx
      ensures Slots() && (key != 0 ==> key !in refs && 1 <= key <= maxSize)
    {
      if |freeClientKeys| > 0 {
        key := freeClientKeys[0];
        assert key in View().free;
        freeClientKeys := freeClientKeys[1..];
      } else {
        clientIdx := Increment32(clientIdx);
        key := if clientIdx > maxSize then 0 else clientIdx;
      }
    }

    method Place(key: nat, clientId: ClientId, s: StreamId) returns (client: ClientObject)
      requires Slots() && 1 <= key <= maxSize && key !in refs
      modifies this`clientMap, this`created, this`refs, clients
      ensures Slots() && View() == ClientTable.Place(old(View()), key, clientId, s)
      ensures created == old(created) + [client]
    {
      ghost var before := View();
      client := new ClientObject(key, clientId, s);
      clientMap := clientMap[clientId := key];
      clients[key - 1] := client;
      refs := refs[key := |created|];
      created := created + [client];
      assert Records(created) == before.clients + [Client(key, clientId, Some(s), false)];
    }

    /** Refines the removal by a closing stream. */
    method DelClient(client: ClientObject, ghost c: Ref, s: StreamId) returns (removed: bool)
      requires Valid() && c < |created| && created[c] == client && 1 <= client.clientKey <= maxSize
      modifies this, clients, created
      ensures Valid() && created == old(created)
      ensures (View(), removed) == Del(old(View()), c, s)
    {
      ghost var before := View();
      DelKeepsInv(before, c, s);
      var idx := client.clientKey - 1;
      var curClient := clients[idx];
      if curClient == null {
        return false;
      }
      ghost var cur := refs[client.clientKey];
      assert curClient == created[cur] && before.clients[cur] == curClient.Record() && before.clients[c] == client.Record();
      assert Owns(before, c, s) <==> before.clients[cur].detached
                                     || (before.clients[cur].id == client.clientId && before.clients[cur].stream == Some(s));
      removed := curClient.Detach(client.clientId, s);
      assert Records(created) == before.clients[cur := before.clients[cur].(detached := removed)];
      if removed {
        Release(client.clientKey, client.clientId);
      } else {
        assert Records(created) == before.clients;
      }
    }

    /** Frees the slot of a key. */
    method Release(key: nat, clientId: ClientId)
      requires Slots() && key in refs
      modifies this`clientMap, this`freeClientKeys, this`refs, clients
      ensures Slots()
      ensures View() == old(View()).(slots := old(View()).slots - {key}, ids := old(View()).ids - {clientId},
                                     free := old(View()).free + [key])
    {
      clientMap := clientMap - {clientId};
      clients[key - 1] := null;
      refs := refs - {key};
      freeClientKeys := freeClientKeys + [key];
    }

    /** A key that is out of range or not live finds nobody. */
    method GetClient(clientKey: nat) returns (client: ClientObject?)
      requires Valid()
      ensures (client != null) <==> clientKey in refs
      ensures client != null ==> client.clientKey == clientKey && !client.detached && client.clientId in clientMap
                                 && clientMap[client.clientId] == clientKey
    {
      if clientKey == 0 || clientKey > maxSize {
        return null;
      }
      client := clients[clientKey - 1];
      assert clientKey in refs ==> Records(created)[refs[clientKey]] == created[refs[clientKey]].Record();
    }
  }

  /** The closing half of a stream: take the client out of the table, and clear it only if that succeeded. */
  method CleanupClient(manager: ClientManager, client: ClientObject, ghost c: Ref, s: StreamId)
    requires manager.Valid() && c < |manager.created| && manager.created[c] == client
    requires 1 <= client.clientKey <= manager.maxSize
    modifies manager, manager.clients, manager.created
    ensures manager.Valid() && manager.created == old(manager.created)
    ensures var (t, removed) := Del(old(manager.View()), c, s);
            manager.View() == if removed then Cleared(t, c) else t
  {
    var removed := manager.DelClient(client, c, s);
    if removed {
      ClearStream(manager, client, c);
    }
  }

  method ClearStream(manager: ClientManager, client: ClientObject, ghost c: Ref)
    requires manager.Valid() && c < |manager.created| && manager.created[c] == client
    modifies client
    ensures manager.Valid() && manager.View() == Cleared(old(manager.View()), c)
  {
    ghost var before := manager.View();
    RebindKeepsInv(before, c, None);
    client.Cleanup();
    assert Records(manager.created) == before.clients[c := before.clients[c].(stream := None)];
    assert manager.View() == Cleared(before, c);
  }
}
