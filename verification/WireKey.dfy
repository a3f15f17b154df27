/**
 The counter key on the wire, of ratelimitv2/core.go and pkg/config/config.go: eight bits of node number over 24 bits of
 table key, and the report loop that takes such keys apart and answers with them.
 */
module WireKeys {
  import opened Bits
  import opened Wrappers
  import opened Counters
  import opened CounterManagers

  const KeyBits: nat := 24
  const LowBits: U32 := 0x00FF_FFFF

  datatype Config = Config(myid: nat, maxCounter: U32)

  /** The configuration as it was given; NoConfig stands for a missing one. */
  datatype Given = NoConfig | Given(config: Config)

  datatype Parsed = Parsed(config: Config) | BadMyid | BadMaxCounter

  const DefaultConfig := Config(1, LowBits)

  function ParseConfig(given: Given): Parsed {
    match given
    case NoConfig => Parsed(DefaultConfig)
    case Given(c) =>
      if c.myid == 0 || c.myid > 255 then BadMyid
      else if c.maxCounter > LowBits then BadMaxCounter
      else Parsed(Config(c.myid, if c.maxCounter > 0 then c.maxCounter else DefaultConfig.maxCounter))
  }

  /** What the wire format needs of a configuration: node and table keys fit their bits, and there is a key. */
  predicate Fitting(c: Config) {
    1 <= c.myid <= 255 && 1 <= c.maxCounter <= LowBits
  }

  /** Every configuration that is let through fits; one is turned away exactly when no larger key limit would make it fit. */
  lemma ParsedConfigFits(given: Given)
    ensures ParseConfig(given).Parsed? ==> Fitting(ParseConfig(given).config)
    ensures ParseConfig(given).Parsed? <==>
              given.NoConfig? || exists m: U32 :: Fitting(Config(given.config.myid, m)) && given.config.maxCounter <= m
    ensures given.Given? && Fitting(given.config) ==> ParseConfig(given) == Parsed(given.config)
    ensures given.NoConfig? ==> ParseConfig(given) == Parsed(Config(1, 16_777_215))
    ensures given.Given? && 1 <= given.config.myid <= 255 && given.config.maxCounter == 0 ==>
              ParseConfig(given) == Parsed(Config(given.config.myid, 16_777_215))
  {
    if given.Given? && ParseConfig(given).Parsed? {
      assert Fitting(Config(given.config.myid, LowBits));
    }
  }

  function BoxCounterKey(c: Config, counterKey: U32): U32 {
    var node := Shl(c.myid % TWO32, KeyBits) % TWO32;
    OnesLiterals();
    OrBound(node, counterKey, 32);
    Or(node, counterKey)
  }

  datatype Unboxed = Key(counterKey: U32) | Refused

  function UnboxCounterKey(c: Config, counterKey: U32): Unboxed {
    var myid := Shr(counterKey, KeyBits) % 256;
    if myid != c.myid % 256 then Refused
    else
      var realCounterKey := And(counterKey, LowBits);
      if realCounterKey == 0 || realCounterKey > c.maxCounter then Refused else Key(realCounterKey)
  }

  /** The packing of a table key of 24 bits under a fitting configuration. */
  lemma BoxedShort(c: Config, wire: U32, key: U32)
    requires Fitting(c) && key <= LowBits
    ensures Shr(wire, KeyBits) == c.myid && And(wire, LowBits) == key <==> wire == BoxCounterKey(c, key)
  {
    Boxed(c, key);
    OnesLiterals();
    Packed(c.myid, key, wire, KeyBits);
  }

  /** The node number of a fitting configuration is shifted without overflow. */
  lemma Boxed(c: Config, key: U32)
    requires Fitting(c)
    ensures BoxCounterKey(c, key) == Or(Shl(c.myid, KeyBits), key)
  {
    ShlLiteral(c.myid);
  }

  /** On the wire, the node number counts in units of 2^24. */
  lemma BoxedNumber(c: Config, key: U32)
    requires Fitting(c) && key < 16_777_216
    ensures BoxCounterKey(c, key) == 16_777_216 * c.myid + key
  {
    Boxed(c, key);
    ShlLiteral(c.myid);
    OnesLiterals();
    OrAdds(c.myid, key, KeyBits);
  }

  lemma OneByteLeft(wire: U32)
    ensures Shr(wire, KeyBits) < 256
  {
    OnesLiterals();
    ShrBound(wire, KeyBits, 8);
  }

  /** Unboxing accepts exactly the boxed keys 1 to maxCounter of this node, and gives back the key that was boxed. */
  lemma UnboxExact(c: Config, wire: U32, key: U32)
    requires Fitting(c)
    ensures UnboxCounterKey(c, wire) == Key(key) <==> 1 <= key <= c.maxCounter && wire == BoxCounterKey(c, key)
  {
    UnboxParts(c, wire, key);
    if key <= LowBits {
      BoxedShort(c, wire, key);
    }
  }

  lemma UnboxParts(c: Config, wire: U32, key: U32)
    requires Fitting(c)
    ensures UnboxCounterKey(c, wire) == Key(key) <==>
              1 <= key <= c.maxCounter && Shr(wire, KeyBits) == c.myid && And(wire, LowBits) == key
  {
    OneByteLeft(wire);
    ByteStays(Shr(wire, KeyBits));
    ByteStays(c.myid);
  }

  lemma ByteStays(n: nat)
    requires n < 256
    ensures n % 256 == n
  {
  }

  /** A key that is on the wire already is not changed by boxing it again. */
  lemma BoxIdempotent(c: Config, key: U32)
    ensures BoxCounterKey(c, BoxCounterKey(c, key)) == BoxCounterKey(c, key)
  {
    OrAgain(Shl(c.myid % TWO32, KeyBits) % TWO32, key);
  }

  /** Distinct keys of fitting nodes are distinct on the wire, and no node accepts a key of another. */
  lemma NodesApart(here: Config, there: Config, key: U32, other: U32)
    requires Fitting(here) && Fitting(there) && 1 <= key <= here.maxCounter && 1 <= other <= there.maxCounter
    ensures BoxCounterKey(here, key) == BoxCounterKey(there, other) <==> here.myid == there.myid && key == other
    ensures here.myid != there.myid ==> UnboxCounterKey(there, BoxCounterKey(here, key)) == Refused
  {
    BoxedShort(here, BoxCounterKey(here, key), key);
    BoxedShort(there, BoxCounterKey(there, other), other);
    if here.myid != there.myid {
      OthersRefused(there, BoxCounterKey(here, key));
    }
  }

  lemma OthersRefused(c: Config, wire: U32)
    requires Fitting(c) && Shr(wire, KeyBits) != c.myid
    ensures UnboxCounterKey(c, wire) == Refused
  {
    OneByteLeft(wire);
    ByteStays(Shr(wire, KeyBits));
    ByteStays(c.myid);
  }

  // ---- The report loop ----

  datatype QuotaSum = QuotaSum(counterKey: U32, used: U32, limited: U32)

  datatype ReportRequest = ReportRequest(clientKey: U32, timestamp: int, quotaUses: seq<QuotaSum>)

  /** A use that was handed to the allocator of its counter, and the wire key that its answer carries. */
  datatype QuotaLeft = QuotaLeft(counter: Counter, use: QuotaSum, counterKey: U32)

  function CheckReport(request: ReportRequest): (code: Code)
    ensures code == ExecuteSuccess <==>
              && request.clientKey != 0 && request.timestamp != 0 && request.quotaUses != []
              && forall use :: use in request.quotaUses ==> use.counterKey != 0
    ensures code == InvalidClientKey <==> request.clientKey == 0
    ensures code == InvalidTimestamp <==> request.clientKey != 0 && request.timestamp == 0
    ensures code == InvalidUsedLimit <==> request.clientKey != 0 && request.timestamp != 0 && request.quotaUses == []
  {
    if request.clientKey == 0 then InvalidClientKey
    else if request.timestamp == 0 then InvalidTimestamp
    else if request.quotaUses == [] then InvalidUsedLimit
    else if exists i :: 0 <= i < |request.quotaUses| && request.quotaUses[i].counterKey == 0 then InvalidCounterKey
    else ExecuteSuccess
  }

  /** The code that a wire key is answered with, given the allocated table keys. */
  function CodeOf(c: Config, keys: set<nat>, wire: U32): Code {
    match UnboxCounterKey(c, wire)
    case Refused => InvalidCounterKey
    case Key(k) => if k in keys then ExecuteSuccess else NotFoundLimiter
  }

  /** The counter sits in the table, and the wire key is the boxed form of its key. */
  ghost predicate Leads(c: Config, slots: seq<Counter?>, wire: U32, counter: Counter) {
    && 1 <= counter.counterKey <= c.maxCounter && counter.counterKey <= |slots|
    && wire == BoxCounterKey(c, counter.counterKey)
    && slots[counter.counterKey - 1] == counter
  }

  ghost predicate Answered(c: Config, slots: seq<Counter?>, use: QuotaSum, left: QuotaLeft) {
    left.use == use && left.counterKey == use.counterKey && Leads(c, slots, use.counterKey, left.counter)
  }

  /** The first uses of a report, each with the counter its key leads to, answered under its own key. */
  ghost predicate Answers(c: Config, slots: seq<Counter?>, uses: seq<QuotaSum>, lefts: seq<QuotaLeft>) {
    |lefts| <= |uses| && forall i :: 0 <= i < |lefts| ==> Answered(c, slots, uses[i], lefts[i])
  }

  ghost predicate Answering(lefts: seq<QuotaLeft>, counter: Counter) {
    exists i :: 0 <= i < |lefts| && lefts[i].counter == counter
  }

  lemma AnswersAppend(c: Config, slots: seq<Counter?>, uses: seq<QuotaSum>, lefts: seq<QuotaLeft>, left: seq<QuotaLeft>)
    requires Answers(c, slots, uses, lefts) && |left| <= 1 && |lefts| < |uses|
    requires |left| == 1 ==> Answered(c, slots, uses[|lefts|], left[0])
    ensures Answers(c, slots, uses, lefts + left)
  {
  }

  lemma AnsweringAppend(a: seq<QuotaLeft>, b: seq<QuotaLeft>)
    ensures forall counter :: Answering(a + b, counter) <==> Answering(a, counter) || Answering(b, counter)
  {
    forall counter ensures Answering(a + b, counter) <==> Answering(a, counter) || Answering(b, counter) {
      if i :| 0 <= i < |a| && a[i].counter == counter {
        assert (a + b)[i] == a[i];
      }
      if i :| 0 <= i < |b| && b[i].counter == counter {
        assert (a + b)[|a| + i] == b[i];
      }
    }
  }

  /** A counter in the table is found under the boxed form of its key, under nothing else, and nothing else is there. */
  lemma LeadsExact(c: Config, slots: seq<Counter?>, ids: map<Identifier, nat>, keys: set<nat>, wire: U32, counter: Counter)
    requires Fitting(c) && |slots| == c.maxCounter && Bijective(slots, ids, keys)
    ensures Leads(c, slots, wire, counter) <==>
              UnboxCounterKey(c, wire).Key? && slots[UnboxCounterKey(c, wire).counterKey - 1] == counter
    ensures Leads(c, slots, wire, counter) ==> CodeOf(c, keys, wire) == ExecuteSuccess
    ensures CodeOf(c, keys, wire) == ExecuteSuccess ==> slots[UnboxCounterKey(c, wire).counterKey - 1] != null
  {
    var u := UnboxCounterKey(c, wire);
    if u.Key? {
      UnboxExact(c, wire, u.counterKey);
      assert SlotOk(slots[u.counterKey - 1], u.counterKey, ids, keys);
    }
    if 1 <= counter.counterKey <= c.maxCounter {
      UnboxExact(c, wire, counter.counterKey);
    }
  }

  /** Two counters in the table never share a wire key. */
  lemma OneCounterPerKey(c: Config, slots: seq<Counter?>, wire: U32, one: Counter, other: Counter)
    requires Fitting(c) && Leads(c, slots, wire, one) && Leads(c, slots, wire, other)
    ensures one == other
  {
    UnboxExact(c, wire, one.counterKey);
    UnboxExact(c, wire, other.counterKey);
  }

  class Server {
    const cfg: Config
    const counterMng: CounterManager

    ghost predicate Valid()
      reads this, counterMng, counterMng.counters
    {
      Fitting(cfg) && counterMng.Valid() && counterMng.maxSize == cfg.maxCounter
    }

    ghost function Slots(): seq<Counter?>
      reads counterMng.counters
    {
      counterMng.counters[..]
    }

    constructor (given: Given)
      requires ParseConfig(given).Parsed?
      ensures Valid() && cfg == ParseConfig(given).config && fresh(counterMng) && fresh(counterMng.counters)
    {
      var config := ParseConfig(given).config;
      ParsedConfigFits(given);
      cfg := config;
      counterMng := new CounterManager(config.maxCounter);
    }

    /** Takes one use of a report: resolves its key, marks the counter as alive and boxes the key of the answer. */
    method AcquireOne(use: QuotaSum, nowMs: int) returns (code: Code, left: seq<QuotaLeft>)
      requires Valid()
      modifies counterMng.Live()`lastMTimeMilli
      ensures Valid() && code == CodeOf(cfg, counterMng.allocatedKeys, use.counterKey)
      ensures |left| == if code == ExecuteSuccess then 1 else 0
      ensures code == ExecuteSuccess ==> Answered(cfg, Slots(), use, left[0])
      ensures forall c | c in counterMng.Live() ::
                c.lastMTimeMilli == if Answering(left, c) then nowMs else old(c.lastMTimeMilli)
    {
      var u := UnboxCounterKey(cfg, use.counterKey);
      if u.Refused? {
        return InvalidCounterKey, [];
      }
      UnboxExact(cfg, use.counterKey, u.counterKey);
      var counter: Counter?;
      code, counter := counterMng.GetCounter(u.counterKey);
      if code != ExecuteSuccess {
        return code, [];
      }
      counter.Update(nowMs);
      BoxIdempotent(cfg, u.counterKey);
      left := [QuotaLeft(counter, use, BoxCounterKey(cfg, use.counterKey))];
      assert left[0].counter == counter;
    }

    /**
     Answers a report: with an error and nothing else if the request is malformed, otherwise with the uses up to the
     first key that leads to no counter, under the keys the request has them under, and with that key's code. Exactly
     the counters answered for are marked as alive.
     */
    method AcquireQuota(request: ReportRequest, nowMs: int) returns (code: Code, quotaLefts: seq<QuotaLeft>)
      requires Valid()
      modifies counterMng.Live()`lastMTimeMilli
      ensures Valid()
      ensures CheckReport(request) != ExecuteSuccess ==> code == CheckReport(request) && quotaLefts == []
      ensures CheckReport(request) == ExecuteSuccess ==>
                && Answers(cfg, Slots(), request.quotaUses, quotaLefts)
                && code == if |quotaLefts| == |request.quotaUses| then ExecuteSuccess
                           else CodeOf(cfg, counterMng.allocatedKeys, request.quotaUses[|quotaLefts|].counterKey)
      ensures |quotaLefts| < |request.quotaUses| ==> code != ExecuteSuccess
      ensures forall c | c in counterMng.Live() ::
                c.lastMTimeMilli == if Answering(quotaLefts, c) then nowMs else old(c.lastMTimeMilli)
    {
      code := CheckReport(request);
      if code != ExecuteSuccess {
        return code, [];
      }
      code, quotaLefts := AcquireUses(request.quotaUses, nowMs);
    }

    /** The loop over the uses of a report, up to the first that fails. */
    method AcquireUses(uses: seq<QuotaSum>, nowMs: int) returns (code: Code, quotaLefts: seq<QuotaLeft>)
      requires Valid()
      modifies counterMng.Live()`lastMTimeMilli
      ensures Valid() && Answers(cfg, Slots(), uses, quotaLefts)
      ensures code == if |quotaLefts| == |uses| then ExecuteSuccess
                      else CodeOf(cfg, counterMng.allocatedKeys, uses[|quotaLefts|].counterKey)
      ensures |quotaLefts| < |uses| ==> code != ExecuteSuccess
      ensures forall c | c in counterMng.Live() ::
                c.lastMTimeMilli == if Answering(quotaLefts, c) then nowMs else old(c.lastMTimeMilli)
    {
      code, quotaLefts := ExecuteSuccess, [];
      for i := 0 to |uses|
        invariant Valid() && code == ExecuteSuccess && |quotaLefts| == i
        invariant Answers(cfg, Slots(), uses, quotaLefts)
        invariant forall c | c in counterMng.Live() ::
          c.lastMTimeMilli == if Answering(quotaLefts, c) then nowMs else old(c.lastMTimeMilli)
      {
        var left;
        code, left := AcquireOne(uses[i], nowMs);
        AnsweringAppend(quotaLefts, left);
        AnswersAppend(cfg, Slots(), uses, quotaLefts, left);
        quotaLefts := quotaLefts + left;
        if code != ExecuteSuccess {
          return;
        }
      }
    }

    /** A counter is found under the wire key that its client gets, whether it is new or was there already. */
    method IssueKey(id: Identifier, request: InitRequest, nowMs: int) returns (code: Code, counter: Counter?, wire: U32)
      requires Valid() && counterMng.Sound()
      modifies counterMng, counterMng.counters, counterMng.Live()
      ensures Valid() && counterMng.Sound()
      ensures code == (if id !in old(counterMng.counterMap) && |old(counterMng.allocatedKeys)| == cfg.maxCounter
                       then ExceedMaxCounter else ExecuteSuccess)
      ensures code == ExecuteSuccess <==> counter != null
      ensures counter != null ==> counter.identifier == id && Leads(cfg, Slots(), wire, counter)
                                  && CodeOf(cfg, counterMng.allocatedKeys, wire) == ExecuteSuccess
      ensures counter != null ==> counter.Valid() && request.Registered(counter, nowMs)
    {
      code, counter := counterMng.AddCounter(id, request, nowMs);
      wire := 0;
      if counter != null {
        var key := counterMng.counterMap[id];
        assert IdOk(id, key, Slots());
        assert SlotOk(Slots()[key - 1], key, counterMng.counterMap, counterMng.allocatedKeys);
        wire := BoxCounterKey(cfg, counter.counterKey);
        LeadsExact(cfg, Slots(), counterMng.counterMap, counterMng.allocatedKeys, wire, counter);
      }
    }
  }
}
