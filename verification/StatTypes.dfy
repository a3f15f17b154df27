/** Keys and amounts shared by the usage-accounting models. */
module StatTypes {

  /** A tag value; only its identity matters here. */
  type Label = nat

  /** The rule dimension that becomes the label set of a metric series. */
  datatype Dim = Dim(namespace: Label, service: Label, method_: Label, appId: Label, uin: Label, labels: Label,
                     duration: Label)

  /** The key of an entry inside a collector: counter key and client address. */
  datatype StatKey = StatKey(counterKey: nat, clientIp: nat)

  datatype Stats = Stats(passed: nat, limited: nat) {
    function Plus(s: Stats): Stats {
      Stats(passed + s.passed, limited + s.limited)
    }

    predicate Covers(s: Stats) {
      s.passed <= passed && s.limited <= limited
    }

    function Minus(s: Stats): Stats
      requires Covers(s)
    {
      Stats(passed - s.passed, limited - s.limited)
    }
  }

  /** The two components of every amount, so that one statement covers both. */
  datatype Channel = Passed | Limited

  function Pick(s: Stats, ch: Channel): nat {
    if ch == Passed then s.passed else s.limited
  }

  /** A ledger of amounts per dimension; an absent dimension has none. */
  type Ledger = map<Dim, Stats>

  function At(m: Ledger, d: Dim, ch: Channel): nat {
    if d in m then Pick(m[d], ch) else 0
  }

  function Credit(m: Ledger, d: Dim, s: Stats): Ledger {
    m[d := if d in m then m[d].Plus(s) else s]
  }

  lemma CreditAt(m: Ledger, e: Dim, s: Stats, d: Dim, ch: Channel)
    ensures At(Credit(m, e, s), d, ch) == At(m, d, ch) + if d == e then Pick(s, ch) else 0
  {
  }

  /** Adds one ledger into another. */
  function Merge(m: Ledger, n: Ledger): Ledger {
    map d | d in m.Keys + n.Keys :: if d !in n then m[d] else if d !in m then n[d] else m[d].Plus(n[d])
  }

  lemma MergeAt(m: Ledger, n: Ledger, d: Dim, ch: Channel)
    ensures At(Merge(m, n), d, ch) == At(m, d, ch) + At(n, d, ch)
  {
  }
}
