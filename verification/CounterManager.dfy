/**
 The counter table of ratelimitv2/manager.go: allocation with a circular cursor, and the single cleaner that reads pairs
 without the mutex. Every method is one critical section (or one unlocked read of the cleaner), so that Valid holding
 across each of them is an invariant of every interleaving.
 */
module CounterManagers {
  import Sums
  import ClientTable
  import opened WindowSpec
  import opened Wrappers
  import opened ClientManagers
  import opened Counters

  datatype Code =
    | ExecuteSuccess | ExceedMaxCounter | NotFoundLimiter
    | InvalidCounterKey | InvalidClientKey | InvalidTimestamp | InvalidUsedLimit

  datatype Pair = NoPair | Pair(id: Identifier, key: nat)

  datatype InitRequest = InitRequest(maxAmount: U32, mode: QuotaMode, durationMs: nat, expireMs: int, sender: ClientObject) {

    /** A counter has the rule of this registration in force, and its client subscribed and counted. */
    ghost predicate Registered(counter: Counter, nowMs: int)
      reads counter
    {
      && counter.ruleMaxAmount == maxAmount && counter.amountMode == mode
      && counter.durationMs == durationMs && counter.expireDurationMilli == expireMs && counter.lastMTimeMilli == nowMs
      && sender.clientKey in counter.clientSenders && counter.clientSenders[sender.clientKey] == sender
      && sender.clientId in counter.clientIds
    }
  }

  /** A key handed out at a given number of cursor advances. */
  datatype Grant = Grant(at: nat, key: nat)

  /** The key that the n-th advance of the cursor looks at. */
  function KeyAt(n: nat, maxSize: nat): (k: nat)
    requires n > 0 && maxSize > 0
    ensures 1 <= k <= maxSize
  {
    (n - 1) % maxSize + 1
  }

  ghost predicate GrantLog(grants: seq<Grant>, advances: nat, maxSize: nat) {
    && (forall i :: 0 <= i < |grants| ==>
          maxSize > 0 && 0 < grants[i].at <= advances && grants[i].key == KeyAt(grants[i].at, maxSize))
    && (forall i, j :: 0 <= i < j < |grants| ==> grants[i].at < grants[j].at)
  }

  /** A key is not handed out again before the cursor has passed every other key. */
  lemma GrantsApart(grants: seq<Grant>, advances: nat, maxSize: nat, i: nat, j: nat)
    requires GrantLog(grants, advances, maxSize) && i < j < |grants| && grants[i].key == grants[j].key
    ensures grants[j].at - grants[i].at >= maxSize
  {
    SameSlotApart(grants[i].at - 1, grants[j].at - 1, maxSize);
  }

  /** maxSize consecutive advances look at every key. */
  lemma ScanVisitsAll(start: nat, maxSize: nat, k: nat) returns (d: nat)
    requires 1 <= k <= maxSize
    ensures 1 <= d <= maxSize && KeyAt(start + d, maxSize) == k
  {
    var w := SlotWindow(k - 1, maxSize, start + maxSize - 1);
    d := w - start + 1;
  }

  /** And no key twice. */
  lemma ScanVisitsOnce(start: nat, maxSize: nat, d: nat, e: nat)
    requires 1 <= d < e <= maxSize
    ensures KeyAt(start + d, maxSize) != KeyAt(start + e, maxSize)
  {
    if KeyAt(start + d, maxSize) == KeyAt(start + e, maxSize) {
      SameSlotApart(start + d - 1, start + e - 1, maxSize);
    }
  }

  /** Incrementing modulo n. */
  lemma NextRemainder(a: nat, n: nat)
    requires n > 0
    ensures (a + 1) % n == if a % n + 1 == n then 0 else a % n + 1
  {
    var q, r := a / n, a % n;
    if r + 1 == n {
      Sums.QuotientUnique(a + 1, q + 1, 0, n);
    } else {
      Sums.QuotientUnique(a + 1, q, r + 1, n);
    }
  }

  /** One more grant, made by the latest advance. */
  lemma GrantKeepsLog(grants: seq<Grant>, advances: nat, later: nat, maxSize: nat)
    requires GrantLog(grants, advances, maxSize) && advances < later && maxSize > 0
    ensures GrantLog(grants + [Grant(later, KeyAt(later, maxSize))], later, maxSize)
  {
  }

  /** Every key from 1 to the number of slots is in the set. */
  ghost predicate AllTaken(keys: set<nat>, maxSize: nat) {
    forall k :: 1 <= k <= maxSize ==> k in keys
  }

  /** Identifier map, allocated keys and slots say the same, and each counter knows its key and identifier. */
  ghost predicate Bijective(slots: seq<Counter?>, ids: map<Identifier, nat>, keys: set<nat>) {
    && (forall k :: k in keys ==> 1 <= k <= |slots|)
    && (forall i :: 0 <= i < |slots| ==> SlotOk(slots[i], i + 1, ids, keys))
    && (forall id :: id in ids ==> IdOk(id, ids[id], slots))
  }

  ghost predicate SlotOk(counter: Counter?, key: nat, ids: map<Identifier, nat>, keys: set<nat>) {
    && (key in keys <==> counter != null)
    && (counter != null ==> counter.counterKey == key && counter.identifier in ids && ids[counter.identifier] == key)
  }

  ghost predicate IdOk(id: Identifier, key: nat, slots: seq<Counter?>) {
    && 1 <= key <= |slots|
    && var counter := slots[key - 1]; counter != null && counter.identifier == id
  }

  lemma InstallKeepsBijective(slots: seq<Counter?>, ids: map<Identifier, nat>, keys: set<nat>, counter: Counter)
    requires Bijective(slots, ids, keys) && counter.identifier !in ids
    requires 1 <= counter.counterKey <= |slots| && counter.counterKey !in keys
    ensures Bijective(slots[counter.counterKey - 1 := counter], ids[counter.identifier := counter.counterKey],
                      keys + {counter.counterKey})
  {
    var key, id := counter.counterKey, counter.identifier;
    var slots', ids' := slots[key - 1 := counter], ids[id := key];
    forall i | 0 <= i < |slots| ensures SlotOk(slots'[i], i + 1, ids', keys + {key}) {
      assert SlotOk(slots[i], i + 1, ids, keys);
    }
    forall other | other in ids' ensures IdOk(other, ids'[other], slots') {
      if other != id {
        assert IdOk(other, ids[other], slots);
        assert SlotOk(slots[ids[other] - 1], ids[other], ids, keys);
      }
    }
  }

  lemma RemoveKeepsBijective(slots: seq<Counter?>, ids: map<Identifier, nat>, keys: set<nat>, id: Identifier)
    requires Bijective(slots, ids, keys) && id in ids
    ensures IdOk(id, ids[id], slots)
    ensures Bijective(slots[ids[id] - 1 := null], ids - {id}, keys - {ids[id]})
  {
    var key := ids[id];
    assert IdOk(id, key, slots);
    var slots', ids' := slots[key - 1 := null], ids - {id};
    forall i | 0 <= i < |slots| ensures SlotOk(slots'[i], i + 1, ids', keys - {key}) {
      assert SlotOk(slots[i], i + 1, ids, keys);
    }
    forall other | other in ids' ensures IdOk(other, ids'[other], slots') {
      assert IdOk(other, ids[other], slots);
    }
  }

  /** Identifiers and allocated keys are in bijection. */
  lemma Bijection(slots: seq<Counter?>, ids: map<Identifier, nat>, keys: set<nat>)
    requires Bijective(slots, ids, keys)
    ensures forall id, other :: id in ids && other in ids && ids[id] == ids[other] ==> id == other
    ensures ids.Values == keys && |keys| <= |slots|
  {
    forall id, other | id in ids && other in ids && ids[id] == ids[other] ensures id == other {
      assert IdOk(id, ids[id], slots) && IdOk(other, ids[other], slots);
    }
    forall id | id in ids ensures ids[id] in keys {
      assert IdOk(id, ids[id], slots) && SlotOk(slots[ids[id] - 1], ids[id], ids, keys);
    }
    forall k | k in keys ensures k in ids.Values {
      assert SlotOk(slots[k - 1], k, ids, keys);
    }
    ClientTable.KeysSize(|slots|);
    ClientTable.SubsetSize(keys, ClientTable.Keys(|slots|));
  }

  /** Below capacity some key is free. */
  lemma SomeKeyFree(keys: set<nat>, maxSize: nat)
    requires forall k :: k in keys ==> 1 <= k <= maxSize
    ensures AllTaken(keys, maxSize) <==> |keys| == maxSize
  {
    ClientTable.KeysSize(maxSize);
    var all := ClientTable.Keys(maxSize);
    if AllTaken(keys, maxSize) {
      assert keys == all;
    } else {
      var k :| 1 <= k <= maxSize && k !in keys;
      ClientTable.SubsetSize(keys + {k}, all);
    }
  }

  class CounterManager {
    const maxSize: nat
    const counters: array<Counter?>
    var allocatedKeys: set<nat>
    var counterMap: map<Identifier, nat>
    var counterIdx: nat
    /** The pair in the hand of the cleaner's loop, between its unlocked read and its critical section. */
    var pending: Pair
    /** How often the cursor has moved, and every key it has handed out. */
    ghost var advances: nat
    ghost var grants: seq<Grant>

    ghost predicate Coherent()
      reads this, counters
    {
      counters.Length == maxSize && Bijective(counters[..], counterMap, allocatedKeys)
    }

    ghost predicate CursorOk()
      reads this
    {
      && GrantLog(grants, advances, maxSize)
      && counterIdx == if maxSize == 0 then 0 else advances % maxSize
    }

    ghost predicate PendingOk()
      reads this
    {
      pending.Pair? ==> pending.id in counterMap && counterMap[pending.id] == pending.key
    }

    ghost predicate Valid()
      reads this, counters
    {
      Coherent() && CursorOk() && PendingOk()
    }

    constructor (maxSize: nat)
      ensures Valid() && this.maxSize == maxSize && counterMap == map[] && allocatedKeys == {}
      ensures fresh(counters)
    {
      this.maxSize := maxSize;
      counters := new Counter?[maxSize](_ => null);
      allocatedKeys, counterMap, counterIdx, pending := {}, map[], 0, NoPair;
      advances, grants := 0, [];
    }

    /** One advance of the cursor, which starts over at maxSize. */
    method Advance() returns (key: nat)
      requires CursorOk() && maxSize > 0
      modifies this`counterIdx, this`advances
      ensures CursorOk() && advances == old(advances) + 1 && key == KeyAt(advances, maxSize)
    {
      key := counterIdx + 1;
      counterIdx := key;
      if key == maxSize {
        counterIdx := 0;
      }
      NextRemainder(advances, maxSize);
      advances := advances + 1;
    }

    /** Moves the cursor until it meets a key that is not allocated; misses only if there is none. */
    method LookupCounterKey() returns (code: Code, key: nat)
      requires CursorOk()
      modifies this`allocatedKeys, this`counterIdx, this`advances, this`grants
      ensures CursorOk()
      ensures code == (if AllTaken(old(allocatedKeys), maxSize) then ExceedMaxCounter else ExecuteSuccess)
      ensures code == ExecuteSuccess ==>
                && 1 <= key <= maxSize && key !in old(allocatedKeys) && allocatedKeys == old(allocatedKeys) + {key}
                && grants == old(grants) + [Grant(advances, key)]
                && old(advances) < advances <= old(advances) + maxSize
      ensures code == ExecuteSuccess ==>
                forall d :: old(advances) < d < advances ==> KeyAt(d, maxSize) in old(allocatedKeys)
      ensures code != ExecuteSuccess ==> allocatedKeys == old(allocatedKeys) && grants == old(grants)
    {
      ghost var start, taken, log := advances, allocatedKeys, grants;
      for i := 0 to maxSize
        invariant CursorOk() && advances == start + i
        invariant allocatedKeys == taken && grants == log
        invariant forall d :: start < d <= advances ==> KeyAt(d, maxSize) in taken
      {
        var nextCounterKey := Advance();
        if nextCounterKey !in allocatedKeys {
          allocatedKeys := allocatedKeys + {nextCounterKey};
          GrantKeepsLog(grants, start + i, advances, maxSize);
          grants := grants + [Grant(advances, nextCounterKey)];
          return ExecuteSuccess, nextCounterKey;
        }
      }
      forall k | 1 <= k <= maxSize ensures k in taken {
        var d := ScanVisitsAll(start, maxSize, k);
      }
      return ExceedMaxCounter, 0;
    }

    /** The counters that are in a slot. */
    ghost function Live(): set<Counter>
      reads this, counters
    {
      set i | 0 <= i < counters.Length && counters[i] != null :: counters[i]
    }

    /** Every counter in a slot counts its clients right and has the right amount in force. */
    ghost predicate Sound()
      reads this, counters, Live()
    {
      forall c :: c in Live() ==> c.Valid()
    }

    /**
     A registration: whether the identifier is new or not, on success its counter has the request's rule in force and its
     client subscribed and counted.
     */
    method AddCounter(id: Identifier, request: InitRequest, nowMs: int) returns (code: Code, counter: Counter?)
      requires Valid() && Sound()
      modifies this, counters, Live()
      ensures Valid() && Sound() && pending == old(pending)
      ensures code == (if id !in old(counterMap) && |old(allocatedKeys)| == maxSize then ExceedMaxCounter else ExecuteSuccess)
      ensures code == ExecuteSuccess <==> counter != null
      ensures counter != null ==> id in counterMap && counters[counterMap[id] - 1] == counter
      ensures counter != null ==> counter.Valid() && request.Registered(counter, nowMs)
      ensures forall c :: c in old(Live()) && c != counter ==> unchanged(c)
      ensures id in old(counterMap) || counter == null ==> counterMap == old(counterMap) && counters[..] == old(counters[..])
      ensures counter != null && id !in old(counterMap) ==>
                && fresh(counter) && counterMap == old(counterMap)[id := counter.counterKey]
                && counters[..] == old(counters[..])[counter.counterKey - 1 := counter]
    {
      var existed;
      code, counter, existed := AllocateCounterKey(id, request, nowMs);
      if counter != null && existed {
        ReloadCounter(counter, request, nowMs);
      }
    }

    /** A registration for a counter that is there already brings its rule up to date. */
    method ReloadCounter(counter: Counter, request: InitRequest, nowMs: int)
      requires Valid() && Sound() && counter in Live()
      modifies counter
      ensures Valid() && Sound() && counter.Valid() && request.Registered(counter, nowMs)
    {
      counter.Reload(request.maxAmount, request.mode, request.durationMs, request.expireMs, request.sender, nowMs);
    }

    /** One round of the cleaner: the counter of the pair leaves the table if it has expired, and drops its lost clients. */
    method CleanPair(nowMs: int) returns (counter: Counter, expired: bool)
      requires Valid() && Sound() && pending.Pair?
      modifies this`counterMap, this`allocatedKeys, this`pending, counters, Live()
      ensures Valid() && Sound() && pending == NoPair
      ensures counter in old(Live()) && counter.identifier == old(pending.id) && counter.Valid()
      ensures expired <==> nowMs - counter.lastMTimeMilli > counter.expireDurationMilli
      ensures old(pending.id) in counterMap <==> !expired
      ensures counter.clientIds
           == Remaining(old(counter.clientIds), old(counter.clientSenders), old(counter.Removable(expired)))
      ensures forall c :: c in old(Live()) && c != counter ==> unchanged(c)
    {
      counter, expired := CleanupCounter(nowMs);
      counter.CleanupSenders(expired);
    }

    /** Finds or creates the counter of an identifier; fails exactly when it is new and every key is taken. */
    method AllocateCounterKey(id: Identifier, request: InitRequest, nowMs: int)
      returns (code: Code, counter: Counter?, exists_: bool)
      requires Valid()
      modifies this, counters, Live()
      ensures Valid() && pending == old(pending)
      ensures exists_ <==> id in old(counterMap)
      ensures code == (if id !in old(counterMap) && |old(allocatedKeys)| == maxSize then ExceedMaxCounter else ExecuteSuccess)
      ensures code == ExecuteSuccess <==> counter != null
      ensures counter != null ==> id in counterMap && counters[counterMap[id] - 1] == counter
      ensures exists_ || counter == null ==> counterMap == old(counterMap) && allocatedKeys == old(allocatedKeys)
                                             && counters[..] == old(counters[..])
      ensures exists_ ==> counter in old(Live()) && counter.lastMTimeMilli == nowMs
      ensures forall c :: c in old(Live()) && c != counter ==> unchanged(c)
      ensures old(Sound()) ==> Sound()
      ensures counter != null && !exists_ ==>
                && counter.Valid() && request.Registered(counter, nowMs)
      ensures counter != null && !exists_ ==>
                && fresh(counter) && counterMap == old(counterMap)[id := counter.counterKey]
                && allocatedKeys == old(allocatedKeys) + {counter.counterKey} && counter.counterKey !in old(allocatedKeys)
                && counters[..] == old(counters[..])[counter.counterKey - 1 := counter]
    {
      if id in counterMap {
        assert IdOk(id, counterMap[id], counters[..]);
        counter := counters[counterMap[id] - 1];
        counter.Update(nowMs);
        return ExecuteSuccess, counter, true;
      }
      SomeKeyFree(allocatedKeys, maxSize);
      if |allocatedKeys| == maxSize {
        return ExceedMaxCounter, null, false;
      }
      counter := Install(id, request, nowMs);
      return ExecuteSuccess, counter, false;
    }

    /** The creating half of an allocation. */
    method Install(id: Identifier, request: InitRequest, nowMs: int) returns (counter: Counter)
      requires Valid() && id !in counterMap && !AllTaken(allocatedKeys, maxSize)
      modifies this, counters
      ensures Valid() && pending == old(pending)
      ensures fresh(counter) && counter.identifier == id
      ensures counter.Valid() && request.Registered(counter, nowMs)
      ensures old(Sound()) ==> Sound()
      ensures 1 <= counter.counterKey <= maxSize && counter.counterKey !in old(allocatedKeys)
      ensures counterMap == old(counterMap)[id := counter.counterKey]
      ensures allocatedKeys == old(allocatedKeys) + {counter.counterKey}
      ensures counters[..] == old(counters[..])[counter.counterKey - 1 := counter]
    {
      ghost var slots, ids, keys := counters[..], counterMap, allocatedKeys;
      var _, key := LookupCounterKey();
      counter := NewCounter(key, id, request, nowMs);
      assert counters[..] == slots;
      InstallKeepsBijective(slots, ids, keys, counter);
      Put(counter);
    }

    method Put(counter: Counter)
      requires counters.Length == maxSize && 1 <= counter.counterKey <= maxSize
      modifies this`counterMap, counters
      ensures counterMap == old(counterMap)[counter.identifier := counter.counterKey]
      ensures counters[..] == old(counters[..])[counter.counterKey - 1 := counter]
    {
      counterMap := counterMap[counter.identifier := counter.counterKey];
      counters[counter.counterKey - 1] := counter;
    }

    /** The cleaner reads its next pair without the mutex. */
    method ReadPair(id: Identifier)
      requires Valid() && id in counterMap
      modifies this`pending
      ensures Valid() && pending == Pair(id, counterMap[id])
    {
      pending := Pair(id, counterMap[id]);
    }

    /**
     The cleaner's critical section. Whatever was allocated since the read, the pair is still there and its slot is not
     empty; an expired counter leaves all three structures at once.
     */
    method CleanupCounter(nowMs: int) returns (counter: Counter, expired: bool)
      requires Valid() && pending.Pair?
      modifies this`counterMap, this`allocatedKeys, this`pending, counters
      ensures Valid() && pending == NoPair
      ensures 1 <= old(pending.key) <= maxSize
      ensures counter == old(counters[..])[old(pending.key) - 1] && counter.identifier == old(pending.id)
      ensures expired <==> nowMs - counter.lastMTimeMilli > counter.expireDurationMilli
      ensures if !expired then
                counterMap == old(counterMap) && allocatedKeys == old(allocatedKeys) && counters[..] == old(counters[..])
              else
                && counterMap == old(counterMap) - {old(pending.id)}
                && allocatedKeys == old(allocatedKeys) - {old(pending.key)}
                && counters[..] == old(counters[..])[old(pending.key) - 1 := null]
    {
      RemoveKeepsBijective(counters[..], counterMap, allocatedKeys, pending.id);
      ghost var slots := counters[..];
      var idx := pending.key - 1;
      counter := counters[idx];
      expired := counter.IsExpired(nowMs);
      if expired {
        counters[idx] := null;
        assert counters[..] == slots[idx := null];
        counterMap := counterMap - {pending.id};
        allocatedKeys := allocatedKeys - {pending.key};
      }
      pending := NoPair;
    }

    /** Looks a counter up by a key of at least 1, as every caller passes it. */
    method GetCounter(counterKey: nat) returns (code: Code, counter: Counter?)
      requires Valid() && counterKey >= 1
      ensures code == (if counterKey in allocatedKeys then ExecuteSuccess else NotFoundLimiter)
      ensures (counter != null) <==> code == ExecuteSuccess
      ensures counter != null ==> counterKey <= maxSize && counter == counters[counterKey - 1]
      ensures counter != null ==> counter.counterKey == counterKey
                                  && counter.identifier in counterMap && counterMap[counter.identifier] == counterKey
    {
      if counterKey > maxSize {
        return NotFoundLimiter, null;
      }
      assert SlotOk(counters[..][counterKey - 1], counterKey, counterMap, allocatedKeys);
      counter := counters[counterKey - 1];
      code := if counter == null then NotFoundLimiter else ExecuteSuccess;
    }
  }

  method NewCounter(key: nat, id: Identifier, request: InitRequest, nowMs: int) returns (counter: Counter)
    ensures fresh(counter) && counter.counterKey == key && counter.identifier == id
    ensures counter.Valid() && request.Registered(counter, nowMs)
  {
    counter := new Counter(key, id, request.maxAmount, request.mode, request.durationMs, request.expireMs,
                           request.sender, nowMs);
  }
}
