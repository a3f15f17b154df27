/**
 Pushing to the subscribers of a counter, of ratelimitv2/counter.go and ratelimitv2/client.go: a subscription remembers the
 time of the latest message it accepted and refuses older ones. Calls are uninterrupted here; CasLoops.dfy has the
 interleavings of the compare-and-swap inside.
 */
module Pushes {
  import opened ClientTable
  import opened ClientManagers
  import opened Wrappers

  /** A subscription: its client, and the time of the latest message it accepted. */
  datatype ClientSendTime = ClientSendTime(curClient: ClientObject, lastSentMicro: int)

  /** Another client than the one that caused the push, and with a stream. */
  predicate Listens(s: ClientSendTime, excludeClient: ClientId)
    reads s.curClient
  {
    s.curClient.clientId != excludeClient && s.curClient.streamCtx.Some?
  }

  /** A subscription after a message that it may listen to. */
  function After(s: ClientSendTime, listens: bool, t: int): ClientSendTime {
    if listens && s.lastSentMicro < t then s.(lastSentMicro := t) else s
  }

  /** Messages in any order leave a listener at the latest of them, and what it accepts strictly increases. */
  function AfterAll(s: ClientSendTime, ts: seq<int>): ClientSendTime {
    if ts == [] then s else After(AfterAll(s, ts[..|ts| - 1]), true, ts[|ts| - 1])
  }

  function AcceptedOf(s: ClientSendTime, ts: seq<int>): (a: seq<int>) {
    if ts == [] then []
    else
      var before, t := ts[..|ts| - 1], ts[|ts| - 1];
      AcceptedOf(s, before) + if AfterAll(s, before).lastSentMicro < t then [t] else []
  }

  lemma {:induction false} PushesInOrder(s: ClientSendTime, ts: seq<int>)
    ensures var a, last := AcceptedOf(s, ts), AfterAll(s, ts).lastSentMicro;
            && (forall i, j :: 0 <= i < j < |a| ==> a[i] < a[j])
            && (forall i :: 0 <= i < |a| ==> s.lastSentMicro < a[i] && a[i] in ts)
            && last == (if a == [] then s.lastSentMicro else a[|a| - 1])
            && (forall i :: 0 <= i < |ts| ==> ts[i] <= last)
  {
    if ts != [] {
      var before, t := ts[..|ts| - 1], ts[|ts| - 1];
      PushesInOrder(s, before);
      var a := AcceptedOf(s, ts);
      forall i | 0 <= i < |a| ensures s.lastSentMicro < a[i] && a[i] in ts {
        if i < |AcceptedOf(s, before)| {
          assert a[i] in before;
        }
      }
      forall i | 0 <= i < |ts| ensures ts[i] <= AfterAll(s, ts).lastSentMicro {
        if i < |before| {
          assert before[i] == ts[i];
        }
      }
    }
  }

  /** The subscriptions of one counter by client key. */
  class Subscriptions {
    var clientSenders: map<nat, ClientSendTime>

    constructor ()
      ensures clientSenders == map[]
    {
      clientSenders := map[];
    }

    /** Every registration starts a new subscription, which has accepted nothing yet. */
    method Subscribe(sender: ClientObject)
      modifies this
      ensures clientSenders == old(clientSenders)[sender.clientKey := ClientSendTime(sender, 0)]
    {
      clientSenders := clientSenders[sender.clientKey := ClientSendTime(sender, 0)];
    }

    /** Only a message later than the latest accepted one is accepted. */
    method UpdateLastSendTime(k: nat, value: int) returns (ok: bool)
      requires k in clientSenders
      modifies this
      ensures ok == (old(clientSenders)[k].lastSentMicro < value)
      ensures clientSenders == old(clientSenders)[k := After(old(clientSenders)[k], true, value)]
    {
      var curValue := clientSenders[k].lastSentMicro;
      if curValue >= value {
        return false;
      }
      clientSenders := clientSenders[k := clientSenders[k].(lastSentMicro := value)];
      return true;
    }

    /** A push is lost on a client without a stream, and refused when it is out of date. */
    method SendAndUpdate(k: nat, msgTimeMicro: int) returns (sent: bool)
      requires k in clientSenders
      modifies this
      ensures var s, listens := old(clientSenders)[k], old(clientSenders)[k].curClient.streamCtx.Some?;
              sent == (listens && s.lastSentMicro < msgTimeMicro)
              && clientSenders == old(clientSenders)[k := After(s, listens, msgTimeMicro)]
    {
      sent := false;
      if clientSenders[k].curClient.streamCtx.Some? {
        sent := UpdateLastSendTime(k, msgTimeMicro);
      }
    }

    /** Pushes to one subscriber, unless it belongs to the client that caused the push. */
    method PushTo(k: nat, excludeClient: ClientId, msgTimeMicro: int) returns (ok: bool)
      requires k in clientSenders
      modifies this
      ensures var s := old(clientSenders)[k]; var s' := After(s, Listens(s, excludeClient), msgTimeMicro);
              clientSenders == old(clientSenders)[k := s'] && ok == (s'.lastSentMicro != s.lastSentMicro)
    {
      ok := false;
      if clientSenders[k].curClient.clientId != excludeClient {
        ok := SendAndUpdate(k, msgTimeMicro);
      }
    }

    /** Pushes a message to every listener that has accepted nothing as late, once, and to nobody else. */
    method PushMessage(excludeClient: ClientId, msgTimeMicro: int) returns (sent: set<nat>)
      modifies this
      ensures clientSenders.Keys == old(clientSenders).Keys
      ensures forall k | k in clientSenders :: var s := old(clientSenders)[k];
                clientSenders[k] == After(s, Listens(s, excludeClient), msgTimeMicro)
                && (k in sent <==> clientSenders[k].lastSentMicro != s.lastSentMicro)
      ensures sent <= clientSenders.Keys
      ensures forall k | k in clientSenders && clientSenders[k].curClient.clientId == excludeClient ::
                clientSenders[k] == old(clientSenders)[k]
      ensures forall k | k in clientSenders :: var c := clientSenders[k].curClient;
                c.clientId != excludeClient && c.streamCtx.Some? ==> clientSenders[k].lastSentMicro >= msgTimeMicro
    {
      sent := {};
      ghost var before := clientSenders;
      ghost var listeners := set k | k in before && Listens(before[k], excludeClient);
      var todo := clientSenders.Keys;
      while todo != {}
        invariant Halfway(before, clientSenders, sent, todo, listeners, msgTimeMicro)
        decreases |todo|
      {
        var k :| k in todo;
        sent := Visit(k, excludeClient, msgTimeMicro, sent, before, todo, listeners);
        todo := todo - {k};
      }
    }

    /** One round of the push loop. */
    method Visit(k: nat, excludeClient: ClientId, msgTimeMicro: int, sent: set<nat>, ghost before: map<nat, ClientSendTime>,
                 ghost todo: set<nat>, ghost listeners: set<nat>) returns (sent': set<nat>)
      requires Halfway(before, clientSenders, sent, todo, listeners, msgTimeMicro) && k in todo
      requires k in listeners <==> Listens(clientSenders[k], excludeClient)
      modifies this
      ensures Halfway(before, clientSenders, sent', todo - {k}, listeners, msgTimeMicro)
    {
      HalfwayStep(before, clientSenders, sent, todo, listeners, msgTimeMicro, k);
      var ok := PushTo(k, excludeClient, msgTimeMicro);
      sent' := if ok then sent + {k} else sent;
    }
  }

  /** How far a push has come: whom it has reached, and who is still to be visited. */
  ghost predicate Halfway(before: map<nat, ClientSendTime>, now: map<nat, ClientSendTime>, sent: set<nat>, todo: set<nat>,
                          listeners: set<nat>, t: int) {
    && todo <= before.Keys == now.Keys && sent <= before.Keys - todo
    && (forall k :: k in before ==> now[k] == if k in todo then before[k] else After(before[k], k in listeners, t))
    && (forall k :: k in before ==> (k in sent <==> now[k].lastSentMicro != before[k].lastSentMicro))
  }

  lemma HalfwayStep(before: map<nat, ClientSendTime>, now: map<nat, ClientSendTime>, sent: set<nat>, todo: set<nat>,
                    listeners: set<nat>, t: int, k: nat)
    requires Halfway(before, now, sent, todo, listeners, t) && k in todo
    ensures var s' := After(now[k], k in listeners, t);
            var sent' := if s'.lastSentMicro != now[k].lastSentMicro then sent + {k} else sent;
            Halfway(before, now[k := s'], sent', todo - {k}, listeners, t)
  {
  }

  /**
   The order holds per subscription only: a client that registers again is sent a message that is older than one it
   accepted before, exactly if the message has a positive time.
   */
  method ResubscribedGoesBack(subs: Subscriptions, sender: ClientObject, excludeClient: ClientId, older: int)
    returns (sent: set<nat>)
    requires sender.clientKey in subs.clientSenders && sender.streamCtx.Some?
    requires sender.clientId != excludeClient && older < subs.clientSenders[sender.clientKey].lastSentMicro
    modifies subs
    ensures sender.clientKey in sent <==> older > 0
  {
    subs.Subscribe(sender);
    sent := subs.PushMessage(excludeClient, older);
  }
}
