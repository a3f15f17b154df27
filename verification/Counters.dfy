/** One counter of ratelimitv2/counter.go: its rule, its clients and the amount that is in force. */
module Counters {
  import opened Wrappers
  import opened ClientTable
  import opened ClientManagers
  import Sums

  type Label = nat

  datatype Identifier = Identifier(service: Label, namespace: Label, labels: Label, durationMs: nat)

  datatype QuotaMode = Whole | Divide

  /** What an amount in force has to be for n clients: the rule's own, or one rule amount per client cut to 32 bits. */
  ghost predicate InForce(amount: U32, mode: QuotaMode, n: nat, ruleMaxAmount: U32) {
    && (mode == Whole ==> amount == ruleMaxAmount)
    && (mode == Divide ==> amount == n * ruleMaxAmount % TWO32)
  }

  /** Cutting the number of clients to a word first makes no difference. */
  lemma InForceCut(amount: U32, mode: QuotaMode, n: nat, ruleMaxAmount: U32)
    ensures InForce(amount, mode, n % TWO32, ruleMaxAmount) <==> InForce(amount, mode, n, ruleMaxAmount)
  {
    CutProduct(n, ruleMaxAmount, TWO32);
  }

  lemma CutProduct(n: nat, x: nat, m: nat)
    requires m > 0
    ensures (n % m) * x % m == n * x % m
  {
    var q := n / m;
    assert n * x == (n % m) * x + (q * x) * m;
    Sums.ModShift((n % m) * x, q * x, m);
  }

  /** The recorded ids after one key of an id is taken out; an id without keys goes. */
  function Without(ids: map<ClientId, set<nat>>, id: ClientId, key: nat): (r: map<ClientId, set<nat>>)
    requires id in ids
    ensures (forall i :: i in ids ==> ids[i] != {}) ==> forall i :: i in r ==> r[i] != {}
    ensures r.Keys <= ids.Keys
  {
    var left := ids[id] - {key};
    if left == {} then ids - {id} else ids[id := left]
  }

  /** Every subscribed client is counted: its key is recorded under its id. */
  ghost predicate Mirrored(ids: map<ClientId, set<nat>>, senders: map<nat, ClientObject>) {
    forall k :: k in senders ==> Recorded(ids, senders, k)
  }

  /** Every counted client is subscribed: each key recorded under an id is a subscription of that id. */
  ghost predicate Backed(ids: map<ClientId, set<nat>>, senders: map<nat, ClientObject>) {
    forall id, k :: id in ids && k in ids[id] ==> k in senders && senders[k].clientId == id
  }

  /** The keys recorded under an id once the given subscriptions have been taken out. */
  ghost function KeysLeft(recorded: set<nat>, id: ClientId, senders: map<nat, ClientObject>, gone: set<nat>): set<nat> {
    set k | k in recorded && !(k in gone && k in senders && senders[k].clientId == id)
  }

  /** The ids that are still counted then. */
  ghost function Remaining(ids: map<ClientId, set<nat>>, senders: map<nat, ClientObject>, gone: set<nat>):
    map<ClientId, set<nat>>
  {
    map id | id in ids && KeysLeft(ids[id], id, senders, gone) != {} :: KeysLeft(ids[id], id, senders, gone)
  }

  lemma RemainingAll(ids: map<ClientId, set<nat>>, senders: map<nat, ClientObject>)
    requires forall id :: id in ids ==> ids[id] != {}
    ensures Remaining(ids, senders, {}) == ids
  {
    forall id | id in ids ensures KeysLeft(ids[id], id, senders, {}) == ids[id] {}
  }

  /** Taking out one more subscription changes the record of its own id only. */
  lemma RemainingStep(ids: map<ClientId, set<nat>>, senders: map<nat, ClientObject>, gone: set<nat>, k: nat)
    requires k in senders
    ensures var left, id := Remaining(ids, senders, gone), senders[k].clientId;
            Remaining(ids, senders, gone + {k}) == if id in left then Without(left, id, k) else left
  {
    var left, id := Remaining(ids, senders, gone), senders[k].clientId;
    var now, aim := Remaining(ids, senders, gone + {k}), if id in left then Without(left, id, k) else left;
    forall i | i in ids ensures (i in now <==> i in aim) && (i in now ==> now[i] == aim[i]) {
      var was := KeysLeft(ids[i], i, senders, gone);
      assert KeysLeft(ids[i], i, senders, gone + {k}) == if i == id then was - {k} else was;
    }
    assert now.Keys == aim.Keys;
  }

  /** How far the cleaner has come: which of the removable subscriptions it has taken out, and what is left. */
  ghost predicate Swept(ids: map<ClientId, set<nat>>, senders: map<nat, ClientObject>, removable: set<nat>,
                        now: map<ClientId, set<nat>>, left: map<nat, ClientObject>, done: set<nat>, todo: set<nat>) {
    && todo <= left.Keys && done <= removable && done !! todo && removable <= done + todo
    && now == Remaining(ids, senders, done)
    && (forall k :: k in left ==> k in senders && left[k] == senders[k])
    && (forall k :: k in senders && k !in removable ==> k in left)
    && (forall k :: k in left && k in done ==> left[k].clientId !in now)
    && (forall k :: k in left && k in done ==> !Recorded(ids, senders, k))
  }

  /** A subscription that is counted. */
  ghost predicate Recorded(ids: map<ClientId, set<nat>>, senders: map<nat, ClientObject>, k: nat) {
    k in senders && senders[k].clientId in ids && k in ids[senders[k].clientId]
  }

  lemma SweptStep(ids: map<ClientId, set<nat>>, senders: map<nat, ClientObject>, removable: set<nat>,
                  now: map<ClientId, set<nat>>, left: map<nat, ClientObject>, done: set<nat>, todo: set<nat>, k: nat)
    requires Swept(ids, senders, removable, now, left, done, todo) && k in todo
    ensures var id := left[k].clientId;
            var goes := k in removable && id in now;
            Swept(ids, senders, removable, if goes then Without(now, id, k) else now, if goes then left - {k} else left,
                  if k in removable then done + {k} else done, todo - {k})
  {
    RemainingStep(ids, senders, done, k);
    assert Recorded(ids, senders, k) ==> k in KeysLeft(ids[left[k].clientId], left[k].clientId, senders, done);
  }

  /** The one counted client of a counter stays exactly if its subscription is not among those taken out. */
  lemma RemainingSingle(id: ClientId, k: nat, senders: map<nat, ClientObject>, gone: set<nat>)
    ensures Remaining(map[id := {k}], senders, gone)
         == if k in gone && k in senders && senders[k].clientId == id then map[] else map[id := {k}]
  {
    assert KeysLeft({k}, id, senders, gone) == if k in gone && k in senders && senders[k].clientId == id then {} else {k};
  }

  /** After the removal of all subscriptions nobody is counted exactly if every counted client was subscribed. */
  lemma AllGoneIffBacked(ids: map<ClientId, set<nat>>, senders: map<nat, ClientObject>)
    ensures Remaining(ids, senders, senders.Keys) == map[] <==> Backed(ids, senders)
  {
    var left := Remaining(ids, senders, senders.Keys);
    if Backed(ids, senders) {
      forall id | id in ids ensures KeysLeft(ids[id], id, senders, senders.Keys) == {} {}
      assert left.Keys == {};
    } else {
      var id, k :| id in ids && k in ids[id] && !(k in senders && senders[k].clientId == id);
      assert k in KeysLeft(ids[id], id, senders, senders.Keys);
      assert id in left;
    }
  }

  /** Clients that are in step stay so when subscriptions are taken out, and then only clients left are counted. */
  lemma RemainingInStep(ids: map<ClientId, set<nat>>, senders: map<nat, ClientObject>, gone: set<nat>)
    requires Mirrored(ids, senders) && Backed(ids, senders)
    ensures Mirrored(Remaining(ids, senders, gone), senders - gone)
    ensures Backed(Remaining(ids, senders, gone), senders - gone)
  {
    forall k | k in senders - gone ensures k in KeysLeft(ids[senders[k].clientId], senders[k].clientId, senders, gone) {}
  }

  lemma SubscriptionInStep(ids: map<ClientId, set<nat>>, senders: map<nat, ClientObject>, sender: ClientObject)
    requires Mirrored(ids, senders) && Backed(ids, senders)
    ensures var ids' := if sender.clientId in ids then ids else ids[sender.clientId := {sender.clientKey}];
            var senders' := senders[sender.clientKey := sender];
            Mirrored(ids', senders') && Backed(ids', senders') <==>
              && (sender.clientId !in ids || sender.clientKey in ids[sender.clientId])
              && (sender.clientKey !in senders || senders[sender.clientKey].clientId == sender.clientId)
  {
    var key, id := sender.clientKey, sender.clientId;
    var ids' := if id in ids then ids else ids[id := {key}];
    var senders' := senders[key := sender];
    assert senders'[key] == sender;
    if key in senders && senders[key].clientId != id {
      assert key in ids'[senders[key].clientId];
    }
  }

  class Counter {
    const counterKey: nat
    const identifier: Identifier
    var ruleMaxAmount: U32
    var maxAmount: U32
    var amountMode: QuotaMode
    var durationMs: nat
    var expireDurationMilli: int
    var lastMTimeMilli: int
    var clientSenders: map<nat, ClientObject>
    var clientIds: map<ClientId, set<nat>>
    var clientCount: U32

    /** No id is without a key, and every subscription sits under its client's own key. */
    ghost predicate Kept()
      reads this
    {
      && (forall id :: id in clientIds ==> clientIds[id] != {})
      && (forall k :: k in clientSenders ==> clientSenders[k].clientKey == k)
    }

    /** The count is the number of ids, and the amount in force follows from it. */
    ghost predicate Valid()
      reads this
    {
      && Kept()
      && clientCount == |clientIds| % TWO32
      && InForce(maxAmount, amountMode, |clientIds|, ruleMaxAmount)
    }

    /** Subscriptions and counted ids are in step, one way and the other. */
    ghost predicate InStep()
      reads this
    {
      Mirrored(clientIds, clientSenders) && Backed(clientIds, clientSenders)
    }

    constructor (counterKey: nat, identifier: Identifier, maxAmount: U32, mode: QuotaMode, durationMs: nat,
                 expireMs: int, sender: ClientObject, nowMs: int)
      ensures Valid() && this.counterKey == counterKey && this.identifier == identifier
      ensures ruleMaxAmount == maxAmount && amountMode == mode && clientCount == 1
      ensures clientIds == map[sender.clientId := {sender.clientKey}] && clientSenders == map[sender.clientKey := sender]
      ensures lastMTimeMilli == nowMs && expireDurationMilli == expireMs && this.durationMs == durationMs
    {
      this.counterKey, this.identifier := counterKey, identifier;
      this.ruleMaxAmount, this.amountMode := maxAmount, mode;
      this.durationMs, this.expireDurationMilli, this.lastMTimeMilli := durationMs, expireMs, nowMs;
      clientSenders, clientIds, clientCount, this.maxAmount := map[], map[], 0, 0;
      new;
      AddSender(sender);
    }

    method ReloadMaxAmount(count: U32)
      modifies this`maxAmount
      ensures InForce(maxAmount, amountMode, count, ruleMaxAmount)
    {
      if amountMode != Divide {
        maxAmount := ruleMaxAmount;
      } else {
        maxAmount := count * ruleMaxAmount % TWO32;
      }
    }

    /** Subscribes a client; only the first key of an id is recorded under it. */
    method AddSender(sender: ClientObject)
      requires Kept()
      modifies this`clientSenders, this`clientIds, this`clientCount, this`maxAmount
      ensures Valid()
      ensures clientSenders == old(clientSenders)[sender.clientKey := sender]
      ensures clientIds == if sender.clientId in old(clientIds) then old(clientIds)
                           else old(clientIds)[sender.clientId := {sender.clientKey}]
      ensures amountMode == Whole ==> maxAmount == ruleMaxAmount
      ensures amountMode == Divide ==> maxAmount == |clientIds| * ruleMaxAmount % TWO32
    {
      clientSenders := clientSenders[sender.clientKey := sender];
      if sender.clientId !in clientIds {
        clientIds := clientIds[sender.clientId := {sender.clientKey}];
      }
      var count: U32 := |clientIds| % TWO32;
      clientCount := count;
      ReloadMaxAmount(count);
      InForceCut(maxAmount, amountMode, |clientIds|, ruleMaxAmount);
    }

    /** A new rule for the same counter takes effect at once. */
    method Reload(newMaxAmount: U32, mode: QuotaMode, newDurationMs: nat, expireMs: int, sender: ClientObject, nowMs: int)
      requires Valid()
      modifies this
      ensures Valid() && ruleMaxAmount == newMaxAmount && amountMode == mode
      ensures lastMTimeMilli == nowMs && expireDurationMilli == expireMs && durationMs == newDurationMs
      ensures clientSenders == old(clientSenders)[sender.clientKey := sender]
      ensures clientIds == if sender.clientId in old(clientIds) then old(clientIds)
                           else old(clientIds)[sender.clientId := {sender.clientKey}]
      ensures amountMode == Whole ==> maxAmount == ruleMaxAmount
      ensures amountMode == Divide ==> maxAmount == |clientIds| * ruleMaxAmount % TWO32
    {
      ruleMaxAmount := newMaxAmount;
      expireDurationMilli := expireMs;
      amountMode := mode;
      durationMs := newDurationMs;
      lastMTimeMilli := nowMs;
      AddSender(sender);
    }

    /** Whether an unsubscription goes through: the id is known, and the counter is gone or the client detached. */
    predicate Removes(sender: ClientObject, counterExpired: bool)
      reads this, sender
    {
      sender.clientId in clientIds && (counterExpired || sender.detached)
    }

    /** Unsubscribes a client; the id goes with its last recorded key, and the amount follows the count. */
    method DelSender(sender: ClientObject, counterExpired: bool)
      requires Valid()
      modifies this`clientSenders, this`clientIds, this`clientCount, this`maxAmount
      ensures Valid()
      ensures if !old(Removes(sender, counterExpired)) then
                clientSenders == old(clientSenders) && clientIds == old(clientIds)
              else
                && clientSenders == old(clientSenders) - {sender.clientKey}
                && clientIds == Without(old(clientIds), sender.clientId, sender.clientKey)
      ensures amountMode == Whole ==> maxAmount == ruleMaxAmount
      ensures amountMode == Divide ==> maxAmount == |clientIds| * ruleMaxAmount % TWO32
    {
      if sender.clientId !in clientIds {
        return;
      }
      if !counterExpired && !sender.detached {
        return;
      }
      InForceCut(maxAmount, amountMode, |clientIds|, ruleMaxAmount);
      clientSenders := clientSenders - {sender.clientKey};
      clientIds := Without(clientIds, sender.clientId, sender.clientKey);
      Recount();
    }

    /** Brings the cached count and the amount in force up to date with the ids. */
    method Recount()
      requires Kept()
      requires InForce(maxAmount, amountMode, clientCount, ruleMaxAmount)
      modifies this`clientCount, this`maxAmount
      ensures Valid()
    {
      var count: U32 := |clientIds| % TWO32;
      var lastClientCount := clientCount;
      clientCount := count;
      if count != lastClientCount {
        ReloadMaxAmount(count);
      }
      InForceCut(maxAmount, amountMode, |clientIds|, ruleMaxAmount);
    }

    /**
     The cleaner's loop: offers every subscribed client for removal. Every recorded key whose subscription is removable
     goes, in whatever order; keys without a subscription of their id are never offered and stay.
     */
    method CleanupSenders(expired: bool)
      requires Valid()
      modifies this`clientSenders, this`clientIds, this`clientCount, this`maxAmount
      ensures Valid()
      ensures clientIds == Remaining(old(clientIds), old(clientSenders), old(Removable(expired)))
      ensures forall k :: k in clientSenders ==> k in old(clientSenders) && clientSenders[k] == old(clientSenders)[k]
      ensures forall k :: k in old(clientSenders) && k !in old(Removable(expired)) ==> k in clientSenders
      ensures forall k :: k in clientSenders && k in old(Removable(expired)) ==>
                clientSenders[k].clientId !in clientIds && !Recorded(old(clientIds), old(clientSenders), k)
      ensures amountMode == Whole ==> maxAmount == ruleMaxAmount
      ensures amountMode == Divide ==> maxAmount == |clientIds| * ruleMaxAmount % TWO32
    {
      ghost var ids, senders, removable := clientIds, clientSenders, Removable(expired);
      var todo := clientSenders.Keys;
      RemainingAll(ids, senders);
      ghost var done: set<nat> := {};
      while todo != {}
        invariant Valid() && Swept(ids, senders, removable, clientIds, clientSenders, done, todo)
        decreases |todo|
      {
        var k :| k in todo;
        OfferForRemoval(k, expired, ids, senders, removable, done, todo);
        todo := todo - {k};
        done := if k in removable then done + {k} else done;
      }
      assert done == removable;
    }

    /** One round of the cleaner's loop. */
    method OfferForRemoval(k: nat, expired: bool, ghost ids: map<ClientId, set<nat>>, ghost senders: map<nat, ClientObject>,
                           ghost removable: set<nat>, ghost done: set<nat>, ghost todo: set<nat>)
      requires Valid() && k in todo && Swept(ids, senders, removable, clientIds, clientSenders, done, todo)
      requires k in removable <==> expired || clientSenders[k].detached
      modifies this`clientSenders, this`clientIds, this`clientCount, this`maxAmount
      ensures Valid()
      ensures Swept(ids, senders, removable, clientIds, clientSenders, if k in removable then done + {k} else done, todo - {k})
    {
      SweptStep(ids, senders, removable, clientIds, clientSenders, done, todo, k);
      DelSender(clientSenders[k], expired);
    }

    /** The subscriptions that the cleaner takes out: all once the counter is gone, otherwise those of detached clients. */
    ghost function Removable(expired: bool): set<nat>
      reads this, clientSenders.Values
    {
      set k | k in clientSenders && (expired || clientSenders[k].detached)
    }

    /** Between updates a counter is never older than its expiry without being expired. */
    predicate IsExpired(nowMs: int)
      reads this
    {
      nowMs - lastMTimeMilli > expireDurationMilli
    }

    method Update(nowMs: int)
      modifies this`lastMTimeMilli
      ensures lastMTimeMilli == nowMs
    {
      lastMTimeMilli := nowMs;
    }
  }

  /**
   When registering keeps subscriptions and counted ids in step: exactly if the id is new or recorded with this very key,
   and the key is free here or subscribed by the same id. A client that reconnects under a new key breaks the first, a
   client that got the key of one that is gone breaks the second.
   */
  method Subscribe(counter: Counter, sender: ClientObject)
    requires counter.Valid() && counter.InStep()
    modifies counter
    ensures counter.Valid()
    ensures counter.InStep() <==>
              && (sender.clientId !in old(counter.clientIds) || sender.clientKey in old(counter.clientIds)[sender.clientId])
              && (sender.clientKey !in old(counter.clientSenders)
                  || old(counter.clientSenders)[sender.clientKey].clientId == sender.clientId)
  {
    ghost var ids, senders := counter.clientIds, counter.clientSenders;
    counter.AddSender(sender);
    SubscriptionInStep(ids, senders, sender);
  }

  /**
   The first way out of step: a client that reconnects under a new key before the cleaner comes by. Removing its old
   subscription takes the id with it, so the counter goes on serving a living client that it no longer counts.
   */
  method ReconnectedClientIsNotCounted(counter: Counter, gone: ClientObject, living: ClientObject)
    requires counter.Valid() && gone.clientId == living.clientId && gone.clientKey != living.clientKey
    requires gone.clientId in counter.clientIds && counter.clientIds[gone.clientId] == {gone.clientKey}
    requires gone.clientKey in counter.clientSenders && counter.clientSenders[gone.clientKey] == gone
    requires gone.detached && !living.detached
    modifies counter
    ensures counter.Valid() && living.clientId !in counter.clientIds
    ensures counter.ruleMaxAmount == old(counter.ruleMaxAmount) && counter.amountMode == old(counter.amountMode)
    ensures living.clientKey in counter.clientSenders && counter.clientSenders[living.clientKey] == living
  {
    counter.AddSender(living);
    ghost var ids, senders, removable := counter.clientIds, counter.clientSenders, counter.Removable(false);
    assert gone.clientKey in removable;
    assert KeysLeft(ids[gone.clientId], gone.clientId, senders, removable) == {};
    counter.CleanupSenders(false);
  }

  /**
   The second way: a client that gets the key of a client that is gone, before the cleaner comes by. It takes over the
   subscription, and no cleaning ever offers the gone client again, not even when the counter expires.
   */
  method OverwrittenClientStaysCounted(counter: Counter, gone: ClientObject, living: ClientObject, expired: bool)
    requires counter.Valid() && gone.clientId != living.clientId && gone.clientKey == living.clientKey
    requires gone.clientId in counter.clientIds && gone.clientKey in counter.clientIds[gone.clientId]
    modifies counter
    ensures counter.Valid() && gone.clientId in counter.clientIds
    ensures gone.clientKey in counter.clientSenders ==> counter.clientSenders[gone.clientKey] == living
  {
    counter.AddSender(living);
    ghost var ids, senders, removable := counter.clientIds, counter.clientSenders, counter.Removable(expired);
    assert gone.clientKey in KeysLeft(ids[gone.clientId], gone.clientId, senders, removable);
    counter.CleanupSenders(expired);
  }

  lemma FewIds(ids: map<ClientId, set<nat>>, a: ClientId, b: ClientId)
    ensures ids.Keys == {a} ==> |ids| == 1
    ensures ids.Keys == {a, b} && a != b ==> |ids| == 2
  {
    assert |ids| == |ids.Keys|;
  }

  lemma AmountOf(counter: Counter, n: nat)
    requires counter.Valid() && counter.amountMode == Divide && |counter.clientIds| == n
    ensures counter.maxAmount == n * counter.ruleMaxAmount % TWO32
  {
  }

  lemma FewShares(rule: U32)
    ensures 0 * rule % TWO32 == 0 && 1 * rule % TWO32 == rule
  {
  }

  /** A counter whose only client, named a, has closed its stream since. */
  method Deserted(a: ClientId, key: nat, id: Identifier, rule: U32, nowMs: int) returns (counter: Counter, gone: ClientObject)
    ensures fresh(counter) && counter.Valid() && counter.ruleMaxAmount == rule && counter.amountMode == Divide
    ensures counter.clientSenders == map[key := gone] && counter.clientIds == map[a := {key}]
    ensures gone.Record() == Client(key, a, None, true)
  {
    gone := new ClientObject(key, a, 1);
    counter := new Counter(1, id, rule, Divide, 1000, 2000, gone, nowMs);
    var detached := gone.Detach(a, 1);
    gone.Cleanup();
  }

  /**
   A run into the first: the gone client had key 2 and comes back with key 1 (ClientTable.ReconnectChangesKey). In divide
   mode the amount in force ends at 0 although a client is there.
   */
  method ReconnectRun(a: ClientId, id: Identifier, rule: U32, nowMs: int) returns (counter: Counter, living: ClientObject)
    ensures counter.Valid() && counter.ruleMaxAmount == rule && counter.amountMode == Divide
    ensures counter.clientSenders == map[1 := living] && living.Record() == Client(1, a, Some(3), false)
    ensures counter.clientIds == map[] && counter.maxAmount == 0
  {
    var gone;
    counter, gone := Deserted(a, 2, id, rule, nowMs);
    living := new ClientObject(1, a, 3);
    counter.AddSender(living);
    ghost var senders := map[2 := gone, 1 := living];
    assert counter.clientSenders == senders && counter.Removable(false) == {2};
    RemainingSingle(a, 2, senders, {2});
    assert Recorded(map[a := {2}], senders, 2);
    counter.CleanupSenders(false);
    AmountOf(counter, 0);
    FewShares(rule);
  }

  /**
   A run into the second: the living client has the key 1 of the gone one (ClientTable.KeyIsReused). The cleaner takes out
   nobody, and two clients are counted while one is there.
   */
  method ReuseRun(a: ClientId, b: ClientId, id: Identifier, rule: U32, nowMs: int)
    returns (counter: Counter, living: ClientObject)
    requires a != b
    ensures fresh(counter) && counter.Valid() && counter.ruleMaxAmount == rule && counter.amountMode == Divide
    ensures counter.clientSenders == map[1 := living] && living.Record() == Client(1, b, Some(2), false)
    ensures counter.clientIds == map[a := {1}, b := {1}] && counter.maxAmount == 2 * rule % TWO32
  {
    var gone;
    counter, gone := Deserted(a, 1, id, rule, nowMs);
    living := new ClientObject(1, b, 2);
    counter.AddSender(living);
    assert counter.Removable(false) == {};
    RemainingAll(counter.clientIds, counter.clientSenders);
    counter.CleanupSenders(false);
    FewIds(counter.clientIds, a, b);
    AmountOf(counter, 2);
  }

  /** And when that counter expires, one client is still counted while nobody is there. */
  method ReuseRunExpires(a: ClientId, b: ClientId, id: Identifier, rule: U32, nowMs: int) returns (counter: Counter)
    requires a != b
    ensures counter.Valid() && counter.ruleMaxAmount == rule && counter.amountMode == Divide
    ensures counter.clientSenders == map[] && counter.clientIds == map[a := {1}]
    ensures counter.maxAmount == rule
  {
    var living;
    counter, living := ReuseRun(a, b, id, rule, nowMs);
    ghost var ids, senders := counter.clientIds, counter.clientSenders;
    assert counter.Removable(true) == {1};
    RemainingAll(ids, senders);
    RemainingStep(ids, senders, {}, 1);
    assert Recorded(ids, senders, 1) && {} + {1} == {1};
    counter.CleanupSenders(true);
    FewIds(counter.clientIds, a, b);
    AmountOf(counter, 1);
    FewShares(rule);
  }
}
