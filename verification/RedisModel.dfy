/**
 The shared ledger: one scored set "id:amount" per user, with a key expiry, driven by
 three atomic scripts.  Amounts are stored in units of 1e-10 USD, as the `%.10f` text is.
 */
module RedisModel {
  import opened Arithmetic
  import opened LedgerModel

  const UNITS_PER_USD: real := 10000000000.0

  datatype Member = Member(id: Id, units: int)

  // A key of the store: its members with their scores, and when it expires.
  datatype Key = Key(members: map<Member, real>, expireAt: real)

  datatype RedisState = RedisState(store: map<User, Key>, closed: set<Id>, grants: seq<Hold>)

  function Units(usd: real): int {
    (usd * UNITS_PER_USD + 0.5).Floor
  }

  function Usd(units: int): real {
    units as real / UNITS_PER_USD
  }

  function Ttl(window: real): real {
    (Ceil(window) + 60) as real
  }

  // An absent key reads like an empty one.
  function KeyOf(store: map<User, Key>, u: User): Key {
    if u in store then store[u] else Key(map[], 0.0)
  }

  // The members a command sees: none once the key has expired.
  function Visible(k: Key, now: real): map<Member, real> {
    if now < k.expireAt then k.members else map[]
  }

  // ZREMRANGEBYSCORE key -inf cutoff: the bound is inclusive.
  function Trim(ms: map<Member, real>, cutoff: real): map<Member, real> {
    map m | m in ms && ms[m] > cutoff :: ms[m]
  }

  function Without(ms: map<Member, real>, id: Id): map<Member, real> {
    map m | m in ms && m.id != id :: ms[m]
  }

  // A key without members does not exist; the expiry survives a plain removal.
  function Put(store: map<User, Key>, u: User, k: Key): map<User, Key> {
    if k.members == map[] then store - {u} else store[u := k]
  }

  ghost function UnitTotal(ms: set<Member>): int {
    if ms == {} then 0 else var m :| m in ms; m.units + UnitTotal(ms - {m})
  }

  ghost function WindowTotal(k: Key, now: real, window: real): real {
    Usd(UnitTotal(Trim(Visible(k, now), now - window).Keys))
  }

  predicate Skipped(s: RedisState, op: Op) {
    (op.Settle? || op.Release?) && op.hold.id in s.closed
  }

  ghost function NextKey(k: Key, op: Op, window: real): Key {
    var seen := Visible(k, op.now);
    match op
    case Spent(now, _) => Key(Trim(seen, now - window), k.expireAt)
    case Reserve(now, _, amount, limit, id) =>
      var kept := Trim(seen, now - window);
      if Fits(WindowTotal(k, now, window), amount, limit)
      then Key(kept[Member(id, Units(amount)) := now], now + Ttl(window))
      else Key(kept, k.expireAt)
    case Settle(now, h, cost, _, _, _) =>
      Key(Without(seen, h.id)[Member(h.id, Units(cost)) := now], now + Ttl(window))
    case Release(_, h) => Key(Without(seen, h.id), k.expireAt)
  }

  ghost function RedisStep(s: RedisState, op: Op, window: real): RedisState {
    var u := UserOf(op);
    var k := KeyOf(s.store, u);
    if Skipped(s, op) then s else
    var t := s.(store := Put(s.store, u, NextKey(k, op, window)));
    match op
    case Spent(_, _) => t
    case Reserve(now, _, amount, limit, id) =>
      if Fits(WindowTotal(k, now, window), amount, limit)
      then t.(grants := s.grants + [Hold(id, u, amount, now)])
      else t
    case _ => t.(closed := s.closed + {op.hold.id})
  }

  ghost function RedisReply(s: RedisState, op: Op, window: real): Answer {
    match op
    case Spent(now, u) => Amount(WindowTotal(KeyOf(s.store, u), now, window))
    case Reserve(now, u, amount, limit, _) =>
      var spent := WindowTotal(KeyOf(s.store, u), now, window);
      Decision(Fits(spent, amount, limit), spent)
    case _ => Nothing
  }

  ghost function RedisRun(ops: seq<Op>, window: real): RedisState {
    if ops == [] then RedisState(map[], {}, [])
    else RedisStep(RedisRun(ops[..|ops| - 1], window), ops[|ops| - 1], window)
  }

  ghost function RedisReplies(ops: seq<Op>, window: real): seq<Answer> {
    if ops == [] then []
    else
      var before := ops[..|ops| - 1];
      RedisReplies(before, window) + [RedisReply(RedisRun(before, window), ops[|ops| - 1], window)]
  }
}
