/**
 The rolling-window spend ledger as a state machine over values.

 One step function serves two ledgers.  With `keepAll == false` it is the ledger of
 app/cost/memory.py, which prunes a user's list whenever it reads it.  With
 `keepAll == true` it is a reference ledger that never forgets an entry and only sums
 those inside the window.  `grants` and `journal` are history: the reservations handed
 out and the closings that took effect, in order.
 */
module LedgerModel {

  type User = string
  type Id = nat

  // Slack of the budget comparison, so that landing exactly on the limit is allowed.
  const SLACK: real := 0.000000001

  datatype Entry = Entry(at: real, amount: real, id: Id)

  // The immutable part of a reservation; whether it is closed is ledger state.
  datatype Hold = Hold(id: Id, user: User, amount: real, at: real)

  datatype UsageRecord =
    UsageRecord(user: User, model: string, inputTokens: nat, outputTokens: nat, cost: real, at: real)

  datatype Closing =
    | Charged(hold: Hold, record: UsageRecord)
    | Refunded(hold: Hold)

  datatype State = State(spend: map<User, seq<Entry>>,
                         records: seq<UsageRecord>,
                         closed: set<Id>,
                         grants: seq<Hold>,
                         journal: seq<Closing>)

  datatype Op =
    | Spent(now: real, user: User)
    | Reserve(now: real, user: User, amount: real, limit: real, id: Id)
    | Settle(now: real, hold: Hold, cost: real, model: string, inputTokens: nat, outputTokens: nat)
    | Release(now: real, hold: Hold)

  datatype Answer =
    | Amount(spent: real)
    | Decision(granted: bool, spent: real)
    | Nothing

  // ---- one user's list ---------------------------------------------------

  function Entries(s: State, u: User): seq<Entry> {
    if u in s.spend then s.spend[u] else []
  }

  function Total(es: seq<Entry>): real {
    if es == [] then 0.0 else es[0].amount + Total(es[1..])
  }

  // Entries no older than the cutoff.
  function Live(es: seq<Entry>, cutoff: real): seq<Entry> {
    if es == [] then []
    else if es[0].at >= cutoff then [es[0]] + Live(es[1..], cutoff)
    else Live(es[1..], cutoff)
  }

  // Removes the first entry carrying `id`, if there is one.
  function Drop(es: seq<Entry>, id: Id): seq<Entry> {
    if es == [] then []
    else if es[0].id == id then es[1..]
    else [es[0]] + Drop(es[1..], id)
  }

  // ---- steps -------------------------------------------------------------

  predicate Fits(spent: real, amount: real, limit: real) {
    spent + amount <= limit + SLACK
  }

  function WindowSpend(es: seq<Entry>, now: real, window: real): real {
    Total(Live(es, now - window))
  }

  function UserOf(op: Op): User {
    if op.Settle? || op.Release? then op.hold.user else op.user
  }

  // The list of the op's user afterwards.
  function NextEntries(es: seq<Entry>, op: Op, window: real, keepAll: bool): seq<Entry> {
    match op
    case Spent(now, _) => if keepAll then es else Live(es, now - window)
    case Reserve(now, _, amount, limit, id) =>
      var kept := if keepAll then es else Live(es, now - window);
      if Fits(WindowSpend(es, now, window), amount, limit) then kept + [Entry(now, amount, id)] else kept
    case Settle(now, h, cost, _, _, _) => Drop(es, h.id) + [Entry(now, cost, h.id)]
    case Release(_, h) => Drop(es, h.id)
  }

  // A closed reservation is left alone.
  predicate Ignored(s: State, op: Op) {
    (op.Settle? || op.Release?) && op.hold.id in s.closed
  }

  function Step(s: State, op: Op, window: real, keepAll: bool): State {
    var u := UserOf(op);
    if Ignored(s, op) then s
    else
      var t := s.(spend := s.spend[u := NextEntries(Entries(s, u), op, window, keepAll)]);
      match op
      case Spent(_, _) => t
      case Reserve(now, _, amount, limit, id) =>
        if Fits(WindowSpend(Entries(s, u), now, window), amount, limit)
        then t.(grants := s.grants + [Hold(id, u, amount, now)])
        else t
      case Settle(now, h, cost, model, inputTokens, outputTokens) =>
        var record := UsageRecord(u, model, inputTokens, outputTokens, cost, now);
        t.(records := s.records + [record],
           closed := s.closed + {h.id},
           journal := s.journal + [Charged(h, record)])
      case Release(_, h) =>
        t.(closed := s.closed + {h.id}, journal := s.journal + [Refunded(h)])
  }

  function Reply(s: State, op: Op, window: real): Answer {
    match op
    case Spent(now, u) => Amount(WindowSpend(Entries(s, u), now, window))
    case Reserve(now, u, amount, limit, _) =>
      var spent := WindowSpend(Entries(s, u), now, window);
      Decision(Fits(spent, amount, limit), spent)
    case _ => Nothing
  }

  // ---- runs --------------------------------------------------------------

  const INIT := State(map[], [], {}, [], [])

  function Run(ops: seq<Op>, window: real, keepAll: bool): State {
    if ops == [] then INIT
    else Step(Run(ops[..|ops| - 1], window, keepAll), ops[|ops| - 1], window, keepAll)
  }

  function Replies(ops: seq<Op>, window: real, keepAll: bool): seq<Answer> {
    if ops == [] then []
    else
      var before := ops[..|ops| - 1];
      Replies(before, window, keepAll) + [Reply(Run(before, window, keepAll), ops[|ops| - 1], window)]
  }

  // What the callers respect: reservation ids are fresh, and only a reservation that
  // was handed out can be settled or released.
  predicate Legal(s: State, op: Op) {
    match op
    case Spent(_, _) => true
    case Reserve(_, _, _, _, id) => forall h <- s.grants :: h.id != id
    case Settle(_, h, _, _, _, _) => h in s.grants
    case Release(_, h) => h in s.grants
  }

  // A run of the ledger whose clock never goes back.
  predicate LegalRun(ops: seq<Op>, window: real, keepAll: bool) {
    ops != [] ==>
      var n := |ops| - 1;
      && LegalRun(ops[..n], window, keepAll)
      && Legal(Run(ops[..n], window, keepAll), ops[n])
      && (n > 0 ==> ops[n - 1].now <= ops[n].now)
  }
}
