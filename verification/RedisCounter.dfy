/** Redis counters with a deadline, as INCR and EXPIRE see them.  A key is readable strictly before its
    deadline, and for ever without one. */
module RedisCounter {
  import opened Decimal

  datatype Counter = Counter(count: nat, deadline: Option<nat>)

  predicate Has<K>(counters: map<K, Counter>, key: K, now: nat) {
    key in counters && (counters[key].deadline.None? || now < counters[key].deadline.value)
  }

  /** What GET reads; 0 without the key. */
  function Live<K>(counters: map<K, Counter>, key: K, now: nat): nat {
    if Has(counters, key, now) then counters[key].count else 0
  }

  /** INCR; a new key has no deadline. */
  function Incremented<K>(counters: map<K, Counter>, key: K, now: nat): map<K, Counter> {
    var c := if Has(counters, key, now) then counters[key] else Counter(0, None);
    counters[key := c.(count := c.count + 1)]
  }

  /** EXPIRE. */
  function Expiring<K>(counters: map<K, Counter>, key: K, now: nat, window: nat): map<K, Counter> {
    if !Has(counters, key, now) then counters
    else counters[key := counters[key].(deadline := Some(now + window))]
  }
}
