/**
 Model routing: the cheapest capable model, or under budget pressure the cheapest cheaper
 model that fits.  Complexity scoring and token counting are inputs.
 */
module Router {

  datatype Model = Model(name: string, tier: nat, inputPrice: real, outputPrice: real, maxContext: nat)

  // `force` is empty when the caller pins no model, as the code's truth test has it.
  datatype Query = Query(tier: nat, inputTokens: nat, outputTokens: nat, budget: real, force: string)

  datatype Outcome =
    | Routed(model: Model, cost: real, downgraded: bool)
    | NoModelAvailable
    | UnknownModel
    | NoCapableModel
    | ContextTooLarge(model: Model)
    | BudgetExceeded(projected: real)

  // USD for a call; prices are per 1000 tokens.
  function Cost(m: Model, inputTokens: nat, outputTokens: nat): real {
    inputTokens as real / 1000.0 * m.inputPrice + outputTokens as real / 1000.0 * m.outputPrice
  }

  // What a price is: so much for every thousand tokens in and every thousand out.
  lemma CostIsPerThousand(m: Model, inputTokens: nat, outputTokens: nat)
    ensures 1000.0 * Cost(m, inputTokens, outputTokens)
         == inputTokens as real * m.inputPrice + outputTokens as real * m.outputPrice
  {
    Thousandth(inputTokens as real, m.inputPrice);
    Thousandth(outputTokens as real, m.outputPrice);
  }

  lemma Thousandth(a: real, price: real)
    ensures 1000.0 * (a / 1000.0 * price) == a * price
  {
  }

  // So a thousand tokens cost their price, and costs add up.
  lemma CostByUnits(m: Model, a: nat, b: nat, c: nat, d: nat)
    ensures Cost(m, 1000, 0) == m.inputPrice && Cost(m, 0, 1000) == m.outputPrice
    ensures Cost(m, a + c, b + d) == Cost(m, a, b) + Cost(m, c, d)
  {
    Distribute(a as real, c as real, m.inputPrice);
    Distribute(b as real, d as real, m.outputPrice);
  }

  lemma Distribute(a: real, c: real, price: real)
    ensures (a + c) / 1000.0 * price == a / 1000.0 * price + c / 1000.0 * price
  {
  }

  // The nominal call that ranks models.
  function Price(m: Model): real {
    Cost(m, 1000, 1000)
  }

  function Projected(m: Model, q: Query): real {
    Cost(m, q.inputTokens, q.outputTokens)
  }

  predicate FitsContext(m: Model, q: Query) {
    q.inputTokens + q.outputTokens <= m.maxContext
  }

  function Filter(ms: seq<Model>, p: Model -> bool): seq<Model> {
    if ms == [] then []
    else if p(ms[0]) then [ms[0]] + Filter(ms[1..], p)
    else Filter(ms[1..], p)
  }

  function NotIn(excluded: set<string>): Model -> bool {
    (m: Model) => m.name !in excluded
  }

  function AtLeast(tier: nat): Model -> bool {
    (m: Model) => m.tier >= tier
  }

  function Available(catalog: seq<Model>, excluded: set<string>): seq<Model> {
    Filter(catalog, NotIn(excluded))
  }

  function Capable(ms: seq<Model>, tier: nat): seq<Model> {
    Filter(ms, AtLeast(tier))
  }

  // Stable sort by price.
  function Insert(m: Model, ms: seq<Model>): seq<Model> {
    if ms == [] || Price(m) <= Price(ms[0]) then [m] + ms
    else [ms[0]] + Insert(m, ms[1..])
  }

  function ByPrice(ms: seq<Model>): seq<Model> {
    if ms == [] then [] else Insert(ms[0], ByPrice(ms[1..]))
  }

  // A name maps to its last catalog entry.
  function ByName(ms: seq<Model>, name: string): seq<Model> {
    if ms == [] then []
    else
      var later := ByName(ms[1..], name);
      if later != [] then later else if ms[0].name == name then [ms[0]] else []
  }

  // A candidate the downgrade accepts.
  predicate Usable(c: Model, primary: Model, q: Query) {
    Price(c) < Price(primary) && FitsContext(c, q) && Projected(c, q) <= q.budget
  }

  function FirstUsable(ms: seq<Model>, primary: Model, q: Query): seq<Model> {
    if ms == [] then []
    else if Usable(ms[0], primary, q) then [ms[0]]
    else FirstUsable(ms[1..], primary, q)
  }

  function RouteForced(ms: seq<Model>, q: Query): Outcome {
    var found := ByName(ms, q.force);
    if found == [] then UnknownModel
    else if !FitsContext(found[0], q) then ContextTooLarge(found[0])
    else if Projected(found[0], q) > q.budget then BudgetExceeded(Projected(found[0], q))
    else Routed(found[0], Projected(found[0], q), false)
  }

  function RouteFree(ms: seq<Model>, q: Query): Outcome {
    var capable := ByPrice(Capable(ms, q.tier));
    if capable == [] then NoCapableModel else
    var primary := capable[0];
    if !FitsContext(primary, q) then ContextTooLarge(primary)
    else if Projected(primary, q) <= q.budget then Routed(primary, Projected(primary, q), false)
    else
      var found := FirstUsable(ByPrice(ms), primary, q);
      if found != [] then Routed(found[0], Projected(found[0], q), true)
      else BudgetExceeded(Projected(primary, q))
  }

  function Route(catalog: seq<Model>, q: Query, excluded: set<string>): Outcome {
    var ms := Available(catalog, excluded);
    if ms == [] then NoModelAvailable
    else if q.force != "" then RouteForced(ms, q)
    else RouteFree(ms, q)
  }

  // The routing call, scanning the price list with early exits.
  method RouteRequest(catalog: seq<Model>, q: Query, excluded: set<string>) returns (r: Outcome)
    ensures r == Route(catalog, q, excluded)
  {
    var ms := Available(catalog, excluded);
    if ms == [] {
      return NoModelAvailable;
    }
    if q.force != "" {
      var found := ByName(ms, q.force);
      if found == [] {
        return UnknownModel;
      }
      var chosen := found[0];
      if !FitsContext(chosen, q) {
        return ContextTooLarge(chosen);
      }
      var cost := Projected(chosen, q);
      if cost > q.budget {
        return BudgetExceeded(cost);
      }
      return Routed(chosen, cost, false);
    }
    var capable := ByPrice(Capable(ms, q.tier));
    if capable == [] {
      return NoCapableModel;
    }
    var primary := capable[0];
    if !FitsContext(primary, q) {
      return ContextTooLarge(primary);
    }
    var primaryCost := Projected(primary, q);
    if primaryCost <= q.budget {
      return Routed(primary, primaryCost, false);
    }
    var cheaperFirst := ByPrice(ms);
    for i := 0 to |cheaperFirst|
      invariant FirstUsable(cheaperFirst, primary, q) == FirstUsable(cheaperFirst[i..], primary, q)
    {
      var candidate := cheaperFirst[i];
      if Price(candidate) < Price(primary) && FitsContext(candidate, q) {
        var cost := Projected(candidate, q);
        if cost <= q.budget {
          return Routed(candidate, cost, true);
        }
      }
    }
    r := BudgetExceeded(primaryCost);
  }

  // ---- optimality --------------------------------------------------------

  // The first of the cheapest models of a list, by the nominal price.
  ghost predicate Cheapest(m: Model, ms: seq<Model>) {
    exists i :: 0 <= i < |ms| && ms[i] == m && FirstMin(ms, i)
  }

  ghost predicate FirstMin(ms: seq<Model>, i: nat)
    requires i < |ms|
  {
    && (forall j :: 0 <= j < |ms| ==> Price(ms[i]) <= Price(ms[j]))
    && (forall j :: 0 <= j < i ==> Price(ms[i]) < Price(ms[j]))
  }

  ghost predicate Ordered(ms: seq<Model>) {
    forall i, j :: 0 <= i < j < |ms| ==> Price(ms[i]) <= Price(ms[j])
  }

  lemma {:induction false} InsertMembers(m: Model, ms: seq<Model>)
    ensures multiset(Insert(m, ms)) == multiset(ms) + multiset{m}
  {
    if ms == [] || Price(m) <= Price(ms[0]) {
    } else {
      InsertMembers(m, ms[1..]);
      assert ms == [ms[0]] + ms[1..];
    }
  }

  lemma OrderedCons(m: Model, ms: seq<Model>)
    requires Ordered(ms) && forall x <- ms :: Price(m) <= Price(x)
    ensures Ordered([m] + ms)
  {
    var all := [m] + ms;
    forall i, j | 0 <= i < j < |all| ensures Price(all[i]) <= Price(all[j]) {
      assert all[j] == ms[j - 1];
      if i > 0 { assert all[i] == ms[i - 1]; }
    }
  }

  lemma {:induction false} InsertOrdered(m: Model, ms: seq<Model>)
    requires Ordered(ms)
    ensures Ordered(Insert(m, ms))
  {
    if ms == [] {
    } else if Price(m) <= Price(ms[0]) {
      OrderedCons(m, ms);
    } else {
      var rest := Insert(m, ms[1..]);
      InsertOrdered(m, ms[1..]);
      InsertMembers(m, ms[1..]);
      forall x <- rest ensures Price(ms[0]) <= Price(x) {
        assert x in multiset(rest);
        assert x == m || x in ms[1..];
      }
      OrderedCons(ms[0], rest);
    }
  }

  lemma {:induction false} ByPriceOrdered(ms: seq<Model>)
    ensures Ordered(ByPrice(ms)) && multiset(ByPrice(ms)) == multiset(ms)
  {
    if ms != [] {
      ByPriceOrdered(ms[1..]);
      InsertOrdered(ms[0], ByPrice(ms[1..]));
      InsertMembers(ms[0], ByPrice(ms[1..]));
      assert ms == [ms[0]] + ms[1..];
    }
  }

  lemma FirstMinCons(ms: seq<Model>, i: nat)
    requires i + 1 < |ms| && FirstMin(ms[1..], i)
    ensures if Price(ms[0]) <= Price(ms[i + 1]) then FirstMin(ms, 0) else FirstMin(ms, i + 1)
  {
    assert forall j :: 0 < j < |ms| ==> ms[j] == ms[1..][j - 1];
  }

  // The head of the price list is the first of the cheapest.
  lemma {:induction false} HeadIsCheapest(ms: seq<Model>)
    requires ms != []
    ensures ByPrice(ms) != [] && Cheapest(ByPrice(ms)[0], ms)
  {
    var rest := ms[1..];
    if rest == [] {
      assert FirstMin(ms, 0);
    } else {
      HeadIsCheapest(rest);
      var i :| 0 <= i < |rest| && rest[i] == ByPrice(rest)[0] && FirstMin(rest, i);
      FirstMinCons(ms, i);
    }
  }

  lemma {:induction false} FilterMembers(ms: seq<Model>, p: Model -> bool)
    ensures forall m :: m in Filter(ms, p) <==> m in ms && p(m)
  {
    if ms != [] {
      FilterMembers(ms[1..], p);
      assert ms == [ms[0]] + ms[1..];
    }
  }

  // Sorting and filtering commute, because the sort is stable.
  lemma {:induction false} InsertFilter(m: Model, ms: seq<Model>, p: Model -> bool)
    requires Ordered(ms)
    ensures Filter(Insert(m, ms), p) == if p(m) then Insert(m, Filter(ms, p)) else Filter(ms, p)
  {
    if ms == [] || Price(m) <= Price(ms[0]) {
      assert ([m] + ms)[1..] == ms;
      FilterMembers(ms, p);
      if Filter(ms, p) != [] { assert Filter(ms, p)[0] in ms; }
    } else {
      InsertFilter(m, ms[1..], p);
      assert ([ms[0]] + Insert(m, ms[1..]))[1..] == Insert(m, ms[1..]);
      assert p(ms[0]) ==> Filter(ms, p)[1..] == Filter(ms[1..], p);
    }
  }

  lemma {:induction false} SortFilter(ms: seq<Model>, p: Model -> bool)
    ensures ByPrice(Filter(ms, p)) == Filter(ByPrice(ms), p)
  {
    if ms != [] {
      SortFilter(ms[1..], p);
      ByPriceOrdered(ms[1..]);
      InsertFilter(ms[0], ByPrice(ms[1..]), p);
      assert p(ms[0]) ==> Filter(ms, p)[1..] == Filter(ms[1..], p);
    }
  }

  function UsableFor(primary: Model, q: Query): Model -> bool {
    (c: Model) => Usable(c, primary, q)
  }

  // The models a downgrade may choose from.
  function Downgrades(ms: seq<Model>, primary: Model, q: Query): seq<Model> {
    Filter(ms, UsableFor(primary, q))
  }

  lemma {:induction false} FirstUsableIsHead(ms: seq<Model>, primary: Model, q: Query)
    ensures var fs := Filter(ms, UsableFor(primary, q));
            FirstUsable(ms, primary, q) == if fs == [] then [] else [fs[0]]
  {
    if ms != [] { FirstUsableIsHead(ms[1..], primary, q); }
  }

  lemma {:induction false} FirstUsableIsCheapest(ms: seq<Model>, primary: Model, q: Query)
    ensures var found := FirstUsable(ByPrice(ms), primary, q);
            if found == [] then Downgrades(ms, primary, q) == [] else Cheapest(found[0], Downgrades(ms, primary, q))
  {
    SortFilter(ms, UsableFor(primary, q));
    FirstUsableIsHead(ByPrice(ms), primary, q);
    ByPriceOrdered(Downgrades(ms, primary, q));
    if Downgrades(ms, primary, q) != [] { HeadIsCheapest(Downgrades(ms, primary, q)); }
  }

  // What an unpinned routing answer means, in terms of the catalog alone.
  ghost predicate Justified(ms: seq<Model>, q: Query, r: Outcome) {
    var capable := Capable(ms, q.tier);
    match r
    case NoCapableModel => capable == []
    case ContextTooLarge(primary) => Cheapest(primary, capable) && !FitsContext(primary, q)
    case Routed(m, cost, false) =>
      Cheapest(m, capable) && FitsContext(m, q) && cost == Projected(m, q) && cost <= q.budget
    case Routed(m, cost, true) =>
      && cost == Projected(m, q)
      && exists primary ::
           && Cheapest(primary, capable) && FitsContext(primary, q) && Projected(primary, q) > q.budget
           && Cheapest(m, Downgrades(ms, primary, q))
    case BudgetExceeded(projected) =>
      exists primary ::
        && Cheapest(primary, capable) && FitsContext(primary, q) && projected == Projected(primary, q) > q.budget
        && Downgrades(ms, primary, q) == []
    case _ => false
  }

  lemma CheapestIsUnique(m: Model, m': Model, ms: seq<Model>)
    requires Cheapest(m, ms) && Cheapest(m', ms)
    ensures m == m'
  {
    var i :| 0 <= i < |ms| && ms[i] == m && FirstMin(ms, i);
    var j :| 0 <= j < |ms| && ms[j] == m' && FirstMin(ms, j);
    assert Price(ms[i]) <= Price(ms[j]) && Price(ms[j]) <= Price(ms[i]);
    assert !(i < j) && !(j < i);
  }

  // Routing gives the justified answer, and only one answer is justified: so each answer,
  // errors included, occurs exactly when its condition holds.
  lemma RouteIsJustified(ms: seq<Model>, q: Query, r: Outcome)
    ensures Justified(ms, q, r) <==> r == RouteFree(ms, q)
  {
    var capable := Capable(ms, q.tier);
    ByPriceOrdered(capable);
    if capable != [] {
      HeadIsCheapest(capable);
      var primary := ByPrice(capable)[0];
      FirstUsableIsCheapest(ms, primary, q);
      forall p | Cheapest(p, capable) ensures p == primary { CheapestIsUnique(p, primary, capable); }
      if r.Routed? && r.downgraded && Cheapest(r.model, Downgrades(ms, primary, q)) {
        var found := FirstUsable(ByPrice(ms), primary, q);
        CheapestIsUnique(r.model, found[0], Downgrades(ms, primary, q));
      }
    } else {
      forall p ensures !Cheapest(p, capable) {}
    }
  }

  // A downgrade is a real one: below the task's tier and strictly cheaper.
  lemma DowngradeIsBelowTier(ms: seq<Model>, q: Query)
    requires RouteFree(ms, q).Routed? && RouteFree(ms, q).downgraded
    ensures var r := RouteFree(ms, q); r.model.tier < q.tier && r.model in ms
  {
    var r := RouteFree(ms, q);
    RouteIsJustified(ms, q, r);
    var primary :| Cheapest(primary, Capable(ms, q.tier)) && Cheapest(r.model, Downgrades(ms, primary, q));
    FilterMembers(ms, AtLeast(q.tier));
    FilterMembers(ms, UsableFor(primary, q));
    assert r.model in Downgrades(ms, primary, q);
    assert r.model !in Capable(ms, q.tier);
  }

  lemma {:induction false} ByNameFinds(ms: seq<Model>, name: string)
    ensures forall m <- ByName(ms, name) :: m in ms && m.name == name
    ensures ByName(ms, name) == [] <==> forall m <- ms :: m.name != name
  {
    if ms != [] {
      ByNameFinds(ms[1..], name);
      assert ms == [ms[0]] + ms[1..];
    }
  }

  // The catalog entry a name stands for: the last one carrying it.
  ghost predicate LastNamed(m: Model, ms: seq<Model>, name: string) {
    exists i :: 0 <= i < |ms| && ms[i] == m && IsLastNamed(ms, i, name)
  }

  ghost predicate IsLastNamed(ms: seq<Model>, i: nat, name: string)
    requires i < |ms|
  {
    ms[i].name == name && forall j :: i < j < |ms| ==> ms[j].name != name
  }

  lemma {:induction false} ByNameIsLast(ms: seq<Model>, name: string)
    ensures ByName(ms, name) != [] ==> LastNamed(ByName(ms, name)[0], ms, name)
    ensures forall m, m' :: LastNamed(m, ms, name) && LastNamed(m', ms, name) ==> m == m'
  {
    ByNameFinds(ms, name);
    if ms != [] {
      var rest := ms[1..];
      ByNameIsLast(rest, name);
      ByNameFinds(rest, name);
      if ByName(rest, name) != [] {
        var i :| 0 <= i < |rest| && rest[i] == ByName(rest, name)[0] && IsLastNamed(rest, i, name);
        assert ms[i + 1] == rest[i] && IsLastNamed(ms, i + 1, name);
      } else if ms[0].name == name {
        assert IsLastNamed(ms, 0, name);
      }
    }
  }

  // What a pinned routing answer means; a pinned model is never replaced.
  ghost predicate PinJustified(ms: seq<Model>, q: Query, r: Outcome) {
    match r
    case UnknownModel => forall m <- ms :: m.name != q.force
    case ContextTooLarge(m) => LastNamed(m, ms, q.force) && !FitsContext(m, q)
    case BudgetExceeded(projected) =>
      exists m :: LastNamed(m, ms, q.force) && FitsContext(m, q) && projected == Projected(m, q) > q.budget
    case Routed(m, cost, downgraded) =>
      !downgraded && LastNamed(m, ms, q.force) && FitsContext(m, q) && cost == Projected(m, q) <= q.budget
    case _ => false
  }

  lemma PinIsJustified(ms: seq<Model>, q: Query, r: Outcome)
    ensures PinJustified(ms, q, r) <==> r == RouteForced(ms, q)
  {
    ByNameFinds(ms, q.force);
    ByNameIsLast(ms, q.force);
  }

  // Whatever path it takes, a routed model is in the catalog, not excluded, within budget
  // and inside its context window; a pinned request gets the pinned model.
  lemma RoutedIsLegal(catalog: seq<Model>, q: Query, excluded: set<string>)
    requires Route(catalog, q, excluded).Routed?
    ensures var r := Route(catalog, q, excluded);
            && r.model in catalog && r.model.name !in excluded
            && FitsContext(r.model, q) && r.cost == Projected(r.model, q) <= q.budget
            && (q.force != "" ==> r.model.name == q.force && !r.downgraded)
  {
    var ms := Available(catalog, excluded);
    FilterMembers(catalog, NotIn(excluded));
    if q.force != "" {
      ByNameFinds(ms, q.force);
      assert ByName(ms, q.force)[0] in ByName(ms, q.force);
    } else {
      var r := RouteFree(ms, q);
      RouteIsJustified(ms, q, r);
      FilterMembers(ms, AtLeast(q.tier));
      if r.downgraded {
        var primary :| Cheapest(primary, Capable(ms, q.tier)) && Cheapest(r.model, Downgrades(ms, primary, q));
        FilterMembers(ms, UsableFor(primary, q));
        assert r.model in Downgrades(ms, primary, q);
      } else {
        assert r.model in Capable(ms, q.tier);
      }
    }
  }

  // ---- routing in terms of the catalog's own fields ------------------------

  ghost predicate Offered(m: Model, catalog: seq<Model>, excluded: set<string>) {
    m in catalog && m.name !in excluded
  }

  // 1000 times what the request is projected to cost on `m`.
  function Charge(m: Model, q: Query): real {
    q.inputTokens as real * m.inputPrice + q.outputTokens as real * m.outputPrice
  }

  ghost predicate Eligible(m: Model, q: Query) {
    q.inputTokens + q.outputTokens <= m.maxContext && Charge(m, q) <= 1000.0 * q.budget
  }

  // The model tried first: the pinned one, or a nominally cheapest one of the tier or above.
  ghost predicate First(m: Model, catalog: seq<Model>, excluded: set<string>, q: Query) {
    && Offered(m, catalog, excluded)
    && if q.force != "" then m.name == q.force
       else && m.tier >= q.tier
            && forall x <- catalog :: Offered(x, catalog, excluded) && x.tier >= q.tier ==>
                 m.inputPrice + m.outputPrice <= x.inputPrice + x.outputPrice
  }

  ghost predicate Meant(catalog: seq<Model>, q: Query, excluded: set<string>, r: Outcome) {
    match r
    case NoModelAvailable => forall m <- catalog :: m.name in excluded
    case UnknownModel =>
      && q.force != "" && (exists m :: Offered(m, catalog, excluded))
      && forall m <- catalog :: Offered(m, catalog, excluded) ==> m.name != q.force
    case NoCapableModel =>
      && q.force == "" && (exists m :: Offered(m, catalog, excluded))
      && forall m <- catalog :: Offered(m, catalog, excluded) ==> m.tier < q.tier
    case ContextTooLarge(m) => First(m, catalog, excluded, q) && q.inputTokens + q.outputTokens > m.maxContext
    case Routed(m, cost, downgraded) =>
      && 1000.0 * cost == Charge(m, q) && Eligible(m, q)
      && if !downgraded then First(m, catalog, excluded, q)
         else exists p :: BestBelow(m, p, catalog, excluded, q)
    case BudgetExceeded(cost) =>
      exists p :: OverBudget(p, catalog, excluded, q) && 1000.0 * cost == Charge(p, q)
               && (q.force == "" ==> forall x <- catalog :: !Stands(x, p, catalog, excluded, q))
  }

  // The first model fits the context but not the budget.
  ghost predicate OverBudget(p: Model, catalog: seq<Model>, excluded: set<string>, q: Query) {
    && First(p, catalog, excluded, q)
    && q.inputTokens + q.outputTokens <= p.maxContext && Charge(p, q) > 1000.0 * q.budget
  }

  // `x` can stand in for the first model `p`: nominally cheaper, and it fits.
  ghost predicate Stands(x: Model, p: Model, catalog: seq<Model>, excluded: set<string>, q: Query) {
    && Offered(x, catalog, excluded) && Eligible(x, q)
    && x.inputPrice + x.outputPrice < p.inputPrice + p.outputPrice
  }

  // `m` is below the tier and the nominally cheapest that can stand in.
  ghost predicate BestBelow(m: Model, p: Model, catalog: seq<Model>, excluded: set<string>, q: Query) {
    && q.force == "" && m.tier < q.tier
    && OverBudget(p, catalog, excluded, q) && Stands(m, p, catalog, excluded, q)
    && forall x <- catalog :: Stands(x, p, catalog, excluded, q) ==>
         m.inputPrice + m.outputPrice <= x.inputPrice + x.outputPrice
  }

  lemma PriceIsSum(m: Model)
    ensures Price(m) == m.inputPrice + m.outputPrice
  {
    CostIsPerThousand(m, 1000, 1000);
  }

  lemma ProjectedIsCharge(m: Model, q: Query)
    ensures 1000.0 * Projected(m, q) == Charge(m, q)
    ensures FitsContext(m, q) && Projected(m, q) <= q.budget <==> Eligible(m, q)
  {
    CostIsPerThousand(m, q.inputTokens, q.outputTokens);
  }

  lemma CheapestIsFirst(m: Model, catalog: seq<Model>, excluded: set<string>, q: Query)
    requires q.force == "" && Cheapest(m, Capable(Available(catalog, excluded), q.tier))
    ensures First(m, catalog, excluded, q)
  {
    var ms := Available(catalog, excluded);
    FilterMembers(catalog, NotIn(excluded));
    FilterMembers(ms, AtLeast(q.tier));
    PriceIsSum(m);
    forall x <- catalog | Offered(x, catalog, excluded) && x.tier >= q.tier
      ensures m.inputPrice + m.outputPrice <= x.inputPrice + x.outputPrice
    {
      assert x in Capable(ms, q.tier);
      PriceIsSum(x);
    }
  }

  // Who can stand in for the first model.
  lemma DowngradesStand(ms: seq<Model>, p: Model, x: Model, catalog: seq<Model>, excluded: set<string>, q: Query)
    requires ms == Available(catalog, excluded)
    ensures x in Downgrades(ms, p, q) <==> Stands(x, p, catalog, excluded, q)
  {
    FilterMembers(catalog, NotIn(excluded));
    FilterMembers(ms, UsableFor(p, q));
    PriceIsSum(x);
    PriceIsSum(p);
    ProjectedIsCharge(x, q);
  }

  lemma DowngradeIsBest(catalog: seq<Model>, excluded: set<string>, q: Query, p: Model, m: Model)
    requires q.force == "" && OverBudget(p, catalog, excluded, q)
    requires Cheapest(m, Downgrades(Available(catalog, excluded), p, q))
    requires m.tier < q.tier
    ensures BestBelow(m, p, catalog, excluded, q)
  {
    var ms := Available(catalog, excluded);
    DowngradesStand(ms, p, m, catalog, excluded, q);
    PriceIsSum(m);
    forall x <- catalog | Stands(x, p, catalog, excluded, q)
      ensures m.inputPrice + m.outputPrice <= x.inputPrice + x.outputPrice
    {
      DowngradesStand(ms, p, x, catalog, excluded, q);
      PriceIsSum(x);
    }
  }

  lemma FreeIsMeant(catalog: seq<Model>, q: Query, excluded: set<string>)
    requires q.force == "" && Available(catalog, excluded) != []
    ensures Meant(catalog, q, excluded, RouteFree(Available(catalog, excluded), q))
  {
    var ms := Available(catalog, excluded);
    var capable, r := Capable(ms, q.tier), RouteFree(ms, q);
    FilterMembers(catalog, NotIn(excluded));
    assert ms[0] in ms && Offered(ms[0], catalog, excluded);
    FilterMembers(ms, AtLeast(q.tier));
    RouteIsJustified(ms, q, r);
    match r {
      case Routed(m, _, false) =>
        CheapestIsFirst(m, catalog, excluded, q);
        ProjectedIsCharge(m, q);
      case Routed(m, _, true) =>
        var p :| Cheapest(p, capable) && FitsContext(p, q) && Projected(p, q) > q.budget
          && Cheapest(m, Downgrades(ms, p, q));
        CheapestIsFirst(p, catalog, excluded, q);
        ProjectedIsCharge(p, q);
        ProjectedIsCharge(m, q);
        DowngradeIsBelowTier(ms, q);
        DowngradeIsBest(catalog, excluded, q, p, m);
        DowngradesStand(ms, p, m, catalog, excluded, q);
      case BudgetExceeded(_) =>
        var p :| Cheapest(p, capable) && FitsContext(p, q) && r.projected == Projected(p, q) > q.budget
          && Downgrades(ms, p, q) == [];
        CheapestIsFirst(p, catalog, excluded, q);
        ProjectedIsCharge(p, q);
        forall x <- catalog ensures !Stands(x, p, catalog, excluded, q) {
          DowngradesStand(ms, p, x, catalog, excluded, q);
        }
        assert OverBudget(p, catalog, excluded, q);
      case ContextTooLarge(m) => CheapestIsFirst(m, catalog, excluded, q);
      case _ =>
    }
  }

  lemma ForcedIsMeant(catalog: seq<Model>, q: Query, excluded: set<string>)
    requires q.force != "" && Available(catalog, excluded) != []
    ensures Meant(catalog, q, excluded, RouteForced(Available(catalog, excluded), q))
  {
    var ms := Available(catalog, excluded);
    FilterMembers(catalog, NotIn(excluded));
    assert ms[0] in ms && Offered(ms[0], catalog, excluded);
    ByNameFinds(ms, q.force);
    var found := ByName(ms, q.force);
    if found != [] {
      assert found[0] in found && First(found[0], catalog, excluded, q);
      ProjectedIsCharge(found[0], q);
      if FitsContext(found[0], q) && Projected(found[0], q) > q.budget {
        assert OverBudget(found[0], catalog, excluded, q);
      }
    }
  }

  // Routing to this model at this cost is what the catalog means.
  ghost predicate MeantRoute(catalog: seq<Model>, q: Query, excluded: set<string>, m: Model, cost: real) {
    exists downgraded :: Meant(catalog, q, excluded, Routed(m, cost, downgraded))
  }

  lemma RouteMeansModel(catalog: seq<Model>, q: Query, excluded: set<string>)
    requires Route(catalog, q, excluded).Routed?
    ensures MeantRoute(catalog, q, excluded, Route(catalog, q, excluded).model, Route(catalog, q, excluded).cost)
  {
    RouteIsMeant(catalog, q, excluded);
    IsMeantRoute(catalog, q, excluded, Route(catalog, q, excluded));
  }

  lemma IsMeantRoute(catalog: seq<Model>, q: Query, excluded: set<string>, r: Outcome)
    requires r.Routed? && Meant(catalog, q, excluded, r)
    ensures MeantRoute(catalog, q, excluded, r.model, r.cost)
  {
    assert r == Routed(r.model, r.cost, r.downgraded);
  }

  // Every routing answer, in the catalog's own terms.
  lemma RouteIsMeant(catalog: seq<Model>, q: Query, excluded: set<string>)
    ensures Meant(catalog, q, excluded, Route(catalog, q, excluded))
  {
    FilterMembers(catalog, NotIn(excluded));
    if Available(catalog, excluded) == [] {
      forall m <- catalog ensures m.name in excluded { assert m !in Available(catalog, excluded); }
    } else if q.force != "" {
      ForcedIsMeant(catalog, q, excluded);
    } else {
      FreeIsMeant(catalog, q, excluded);
    }
  }
}
