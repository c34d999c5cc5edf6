/** The customer merge forest: tombstone pointers, depth-capped resolution, and the re-homing of
    the transaction rows that name a customer. */
module Customers {
  import opened Tables

  type CustomerId = int

  datatype CustomerState = Active | Inactive | Merged | Anonymized

  datatype Customer = Customer(state: CustomerState, mergedInto: Option<CustomerId>)

  /** A row of cust.merge. */
  datatype Merge = Merge(survivor: CustomerId, away: CustomerId)

  /** A row of one of the tables that carry a customer id. */
  datatype RowId = RowId(table: nat, id: int)

  datatype World = World(customers: map<CustomerId, Customer>, merges: seq<Merge>, linked: map<RowId, CustomerId>)

  datatype Action =
    | Create(id: CustomerId)
    | MergeAway(survivor: CustomerId, away: CustomerId)
    | SetState(id: CustomerId, to: CustomerState)   // deactivate and reactivate
    | Anonymize(id: CustomerId)
    | Link(row: RowId, id: CustomerId)              // a transaction is recorded for a customer

  // ---------- the calls ----------

  /** The checks of `merge_customers`, in order; the last one is the unique index on the log. */
  function MergeError(w: World, survivor: CustomerId, away: CustomerId): Option<Error> {
    if survivor == away then Some(BusinessRuleConflict)
    else if survivor !in w.customers || away !in w.customers then Some(NotFound)
    else if w.customers[away].state == Merged || w.customers[away].mergedInto.Some? then Some(BusinessRuleConflict)
    else if w.customers[survivor].state == Merged then Some(BusinessRuleConflict)
    else if exists i :: 0 <= i < |w.merges| && w.merges[i].away == away then Some(IntegrityError)
    else None
  }

  function Rehomed(linked: map<RowId, CustomerId>, survivor: CustomerId, away: CustomerId): map<RowId, CustomerId> {
    map r | r in linked :: if linked[r] == away then survivor else linked[r]
  }

  function AfterMerge(w: World, survivor: CustomerId, away: CustomerId): World
    requires away in w.customers
  {
    World(w.customers[away := Customer(Merged, Some(survivor))],
          w.merges + [Merge(survivor, away)],
          Rehomed(w.linked, survivor, away))
  }

  function AfterState(w: World, id: CustomerId, to: CustomerState): World
    requires id in w.customers
  {
    w.(customers := w.customers[id := w.customers[id].(state := to)])
  }

  function Apply(w: World, a: Action): Outcome<World> {
    match a
    case Create(id) =>
      if id in w.customers then Raise(IntegrityError)
        else Ok(w.(customers := w.customers[id := Customer(Active, None)]))
    case MergeAway(survivor, away) =>
      var error := MergeError(w, survivor, away);
      if error.Some? then Raise(error.value) else Ok(AfterMerge(w, survivor, away))
    case SetState(id, to) =>
      if id !in w.customers then Raise(NotFound) else Ok(AfterState(w, id, to))
    case Anonymize(id) =>
      if id !in w.customers then Raise(NotFound) else Ok(AfterState(w, id, Anonymized))
    case Link(row, id) =>
      if row in w.linked || id !in w.customers then Raise(IntegrityError) else Ok(w.(linked := w.linked[row := id]))
  }

  function Step(w: World, a: Action): World {
    Committed(w, Apply(w, a))
  }

  function Run(w: World, actions: seq<Action>): World
    decreases |actions|
  {
    if actions == [] then w else Run(Step(w, actions[0]), actions[1..])
  }

  function Empty(): World {
    World(map[], [], map[])
  }

  /** The customer a row was first recorded for. */
  function FirstOwners(w: World, first: map<RowId, CustomerId>, actions: seq<Action>): map<RowId, CustomerId>
    decreases |actions|
  {
    if actions == [] then first
    else
      var next := if actions[0].Link? && Apply(w, actions[0]).Ok? then first[actions[0].row := actions[0].id]
          else first;
      FirstOwners(Step(w, actions[0]), next, actions[1..])
  }

  /** The pointers followed by `resolve_customer_id`, `depth` rows at most. */
  function Walk(customers: map<CustomerId, Customer>, id: CustomerId, depth: int): Outcome<CustomerId>
    decreases depth
  {
    if depth <= 0 then Raise(BusinessRuleConflict)
    else if id !in customers || customers[id].mergedInto.None? then Ok(id)
    else Walk(customers, customers[id].mergedInto.value, depth - 1)
  }

  // ---------- the service ----------

  class Registry {
    var customers: map<CustomerId, Customer>
    var merges: seq<Merge>
    var linked: map<RowId, CustomerId>
    /** How many of the tables that may carry a customer id exist. */
    const tables: nat

    constructor (tables: nat)
      ensures State() == Empty() && Valid() && this.tables == tables
    {
      customers, merges, linked := map[], [], map[];
      this.tables := tables;
    }

    function State(): World
      reads this
    {
      World(customers, merges, linked)
    }

    /** Rows exist only in tables that do. */
    ghost predicate Valid()
      reads this
    {
      forall r :: r in linked ==> r.table < tables
    }

    method MergeCustomers(survivor: CustomerId, away: CustomerId) returns (r: Outcome<int>)
      requires Valid()
      modifies this
      ensures Valid() && State() == Step(old(State()), MergeAway(survivor, away))
      ensures r.Ok? <==> Apply(old(State()), MergeAway(survivor, away)).Ok?
      ensures r.Raise? ==> Apply(old(State()), MergeAway(survivor, away)) == Raise(r.error)
    {
      if survivor == away {
        return Raise(BusinessRuleConflict);
      }
      if survivor !in customers || away !in customers {
        return Raise(NotFound);
      }
      if customers[away].state == Merged || customers[away].mergedInto.Some? {
        return Raise(BusinessRuleConflict);
      }
      if customers[survivor].state == Merged {
        return Raise(BusinessRuleConflict);
      }
      if exists i :: 0 <= i < |merges| && merges[i].away == away {
        return Raise(IntegrityError);
      }
      merges := merges + [Merge(survivor, away)];
      for t := 0 to tables
        invariant linked.Keys == old(linked).Keys
        invariant forall r :: r in linked ==>
          linked[r] == if r.table < t && old(linked)[r] == away then survivor else old(linked)[r]
        invariant customers == old(customers) && merges == old(merges) + [Merge(survivor, away)]
      {
        linked := map r | r in linked :: if r.table == t && linked[r] == away then survivor else linked[r];
      }
      assert linked == Rehomed(old(linked), survivor, away);
      customers := customers[away := Customer(Merged, Some(survivor))];
      return Ok(0);
    }

    method SetState(id: CustomerId, to: CustomerState) returns (r: Outcome<Customer>)
      modifies this`customers
      ensures State() == Step(old(State()), Action.SetState(id, to))
      ensures r == if id in old(customers) then Ok(customers[id]) else Raise(NotFound)
    {
      if id !in customers {
        return Raise(NotFound);
      }
      if customers[id].state == to {
        assert customers[id := customers[id].(state := to)] == customers;
        return Ok(customers[id]);
      }
      customers := customers[id := customers[id].(state := to)];
      return Ok(customers[id]);
    }

    method AnonymizeCustomer(id: CustomerId) returns (r: Outcome<Customer>)
      modifies this`customers
      ensures State() == Step(old(State()), Anonymize(id))
      ensures r == if id in old(customers) then Ok(customers[id]) else Raise(NotFound)
    {
      r := SetState(id, Anonymized);
    }

    /** The loop over at most `maxDepth` rows. */
    method ResolveCustomerId(id: CustomerId, maxDepth: int) returns (r: Outcome<CustomerId>)
      ensures r == Walk(customers, id, maxDepth)
    {
      var current, i := id, 0;
      while i < maxDepth
        invariant 0 <= i && (i <= maxDepth || i == 0)
        invariant Walk(customers, id, maxDepth) == Walk(customers, current, maxDepth - i)
      {
        if current !in customers || customers[current].mergedInto.None? {
          return Ok(current);
        }
        current := customers[current].mergedInto.value;
        i := i + 1;
      }
      return Raise(BusinessRuleConflict);
    }
  }

  // ---------- the forest ----------

  /** When a customer was merged away: one more than its place in the log, or zero. */
  function Stamp(merges: seq<Merge>, id: CustomerId): nat
    ensures Stamp(merges, id) <= |merges|
  {
    if merges == [] then 0
    else if merges[|merges| - 1].away == id then |merges|
    else Stamp(merges[..|merges| - 1], id)
  }

  /** The pointer of a customer is that of its one merge, to a customer merged away later or never. */
  ghost predicate Pointed(w: World, id: CustomerId)
    requires id in w.customers
  {
    var c, stamp := w.customers[id], Stamp(w.merges, id);
    && (c.state == Merged <==> c.mergedInto.Some?)
    && (c.mergedInto.None? <==> stamp == 0)
    && (c.mergedInto.Some? ==>
          var into := c.mergedInto.value;
          && into in w.customers && stamp <= |w.merges| && w.merges[stamp - 1] == Merge(into, id)
          && (Stamp(w.merges, into) == 0 || Stamp(w.merges, into) > stamp))
  }

  /** The i-th merge of the log is the one its merged-away customer remembers. */
  ghost predicate Logged(w: World, i: nat)
    requires i < |w.merges|
  {
    w.merges[i].away in w.customers && Stamp(w.merges, w.merges[i].away) == i + 1
  }

  ghost predicate Forest(w: World) {
    && (forall id {:trigger Pointed(w, id)} :: id in w.customers ==> Pointed(w, id))
    && (forall i :: 0 <= i < |w.merges| ==> Logged(w, i))
    && (forall r :: r in w.linked ==> w.linked[r] in w.customers)
  }

  function Height(w: World, id: CustomerId): nat {
    if Stamp(w.merges, id) == 0 then 0 else |w.merges| + 1 - Stamp(w.merges, id)
  }

  ghost function Root(w: World, id: CustomerId): CustomerId
    requires Forest(w)
    decreases Height(w, id)
  {
    if id in w.customers && w.customers[id].mergedInto.Some? then
      assert Pointed(w, id);
      Root(w, w.customers[id].mergedInto.value)
    else id
  }

  /** How many pointers lie between a customer and its root. */
  ghost function Hops(w: World, id: CustomerId): nat
    requires Forest(w)
    decreases Height(w, id)
  {
    if id in w.customers && w.customers[id].mergedInto.Some? then
      assert Pointed(w, id);
      1 + Hops(w, w.customers[id].mergedInto.value)
    else 0
  }

  /** Resolution finds the root exactly when it is fewer than `depth` pointers away. */
  lemma {:induction false} ResolvesExactly(w: World, id: CustomerId, depth: int)
    requires Forest(w)
    ensures Walk(w.customers, id, depth) == if Hops(w, id) < depth then Ok(Root(w, id)) else Raise(BusinessRuleConflict)
    decreases Height(w, id)
  {
    if id in w.customers && w.customers[id].mergedInto.Some? && depth > 0 {
      assert Pointed(w, id);
      ResolvesExactly(w, w.customers[id].mergedInto.value, depth - 1);
    }
  }

  /** The customer `n` pointers away. */
  function Follow(customers: map<CustomerId, Customer>, id: CustomerId, n: nat): Option<CustomerId>
    decreases n
  {
    if n == 0 then Some(id)
    else if id !in customers || customers[id].mergedInto.None? then None
    else Follow(customers, customers[id].mergedInto.value, n - 1)
  }

  lemma {:induction false} FollowDescends(w: World, id: CustomerId, n: nat)
    requires Forest(w) && n > 0 && Follow(w.customers, id, n).Some?
    ensures Height(w, Follow(w.customers, id, n).value) < Height(w, id)
    decreases n
  {
    assert Pointed(w, id);
    if n > 1 {
      FollowDescends(w, w.customers[id].mergedInto.value, n - 1);
    }
  }

  /** No customer reaches itself. */
  lemma Acyclic(w: World, id: CustomerId, n: nat)
    requires Forest(w) && n > 0
    ensures Follow(w.customers, id, n) != Some(id)
  {
    if Follow(w.customers, id, n).Some? {
      FollowDescends(w, id, n);
    }
  }

  // ---------- every call keeps the forest ----------

  lemma StampAppend(merges: seq<Merge>, m: Merge, id: CustomerId)
    ensures Stamp(merges + [m], id) == if m.away == id then |merges| + 1 else Stamp(merges, id)
  {
    assert (merges + [m])[..|merges|] == merges;
  }

  lemma MergeKeepsForest(w: World, survivor: CustomerId, away: CustomerId)
    requires Forest(w) && MergeError(w, survivor, away).None?
    ensures Forest(AfterMerge(w, survivor, away))
  {
    var w', m := AfterMerge(w, survivor, away), Merge(survivor, away);
    forall id | id in w'.customers ensures Pointed(w', id) {
      assert Pointed(w, id) && Pointed(w, survivor) && Pointed(w, away);
      StampAppend(w.merges, m, id);
      StampAppend(w.merges, m, survivor);
      if id != away && w.customers[id].mergedInto.Some? {
        StampAppend(w.merges, m, w.customers[id].mergedInto.value);
      }
    }
    forall i: nat | i < |w'.merges| ensures Logged(w', i) {
      StampAppend(w.merges, m, w'.merges[i].away);
      if i < |w.merges| {
        assert Logged(w, i) && Pointed(w, away);
      }
    }
  }

  lemma {:induction false} StampFound(merges: seq<Merge>, id: CustomerId)
    ensures Stamp(merges, id) > 0 ==> merges[Stamp(merges, id) - 1].away == id
    decreases |merges|
  {
    if merges != [] {
      StampFound(merges[..|merges| - 1], id);
    }
  }

  lemma PlainStepKeepsForest(w: World, a: Action)
    requires Forest(w) && (a.Create? || a.Link?) && Apply(w, a).Ok?
    ensures Forest(Apply(w, a).value)
  {
    var w' := Apply(w, a).value;
    forall id | id in w'.customers ensures Pointed(w', id) {
      if id in w.customers {
        assert Pointed(w, id);
      } else {
        StampFound(w.merges, id);
        assert Stamp(w.merges, id) > 0 ==> Logged(w, Stamp(w.merges, id) - 1);
      }
    }
    forall i: nat | i < |w'.merges| ensures Logged(w', i) {
      assert Logged(w, i);
    }
  }

  /** A lifecycle call keeps the forest exactly when its target was not merged away; the code does
      not ask. */
  lemma LifecycleKeepsExactly(w: World, id: CustomerId, to: CustomerState)
    requires Forest(w) && id in w.customers && to != Merged
    ensures Forest(AfterState(w, id, to)) <==> w.customers[id].state != Merged
  {
    var w' := AfterState(w, id, to);
    assert Pointed(w, id);
    if w.customers[id].state != Merged {
      forall other | other in w'.customers ensures Pointed(w', other) {
        assert Pointed(w, other);
      }
      forall i: nat | i < |w'.merges| ensures Logged(w', i) {
        assert Logged(w, i);
      }
    } else {
      assert !Pointed(w', id);
    }
  }

  /** Lifecycle calls only on customers that were not merged away. */
  predicate Proper(w: World, a: Action) {
    match a
    case SetState(id, to) => to in {Active, Inactive} && (id in w.customers ==> w.customers[id].state != Merged)
    case Anonymize(id) => id in w.customers ==> w.customers[id].state != Merged
    case _ => true
  }

  /** New transactions name customers that were not merged away. */
  predicate LinksLive(w: World, a: Action) {
    a.Link? && a.id in w.customers ==> w.customers[a.id].state != Merged
  }

  predicate RunLinksLive(w: World, actions: seq<Action>)
    decreases |actions|
  {
    actions == [] || (LinksLive(w, actions[0]) && RunLinksLive(Step(w, actions[0]), actions[1..]))
  }

  predicate RunProper(w: World, actions: seq<Action>)
    decreases |actions|
  {
    actions == [] || (Proper(w, actions[0]) && RunProper(Step(w, actions[0]), actions[1..]))
  }

  lemma StepKeepsForest(w: World, a: Action)
    requires Forest(w) && Proper(w, a)
    ensures Forest(Step(w, a))
  {
    if Apply(w, a).Ok? {
      match a
      case MergeAway(survivor, away) => MergeKeepsForest(w, survivor, away);
      case SetState(id, to) => LifecycleKeepsExactly(w, id, to);
      case Anonymize(id) => LifecycleKeepsExactly(w, id, Anonymized);
      case _ => PlainStepKeepsForest(w, a);
    }
  }

  lemma {:induction false} RunKeepsForest(w: World, actions: seq<Action>)
    requires Forest(w) && RunProper(w, actions)
    ensures Forest(Run(w, actions))
    decreases |actions|
  {
    if actions != [] {
      StepKeepsForest(w, actions[0]);
      RunKeepsForest(Step(w, actions[0]), actions[1..]);
    }
  }

  // ---------- same root means connected by merges ----------

  ghost predicate Paired(merges: seq<Merge>, a: CustomerId, b: CustomerId) {
    exists i :: 0 <= i < |merges| && (merges[i] == Merge(a, b) || merges[i] == Merge(b, a))
  }

  ghost predicate IsPath(merges: seq<Merge>, p: seq<CustomerId>) {
    p != [] && forall i :: 0 <= i < |p| - 1 ==> Paired(merges, p[i], p[i + 1])
  }

  /** Some merges lead from one customer to the other. */
  ghost predicate Connected(merges: seq<Merge>, a: CustomerId, b: CustomerId) {
    exists p :: IsPath(merges, p) && p[0] == a && p[|p| - 1] == b
  }

  lemma {:induction false} SameRootAlong(w: World, p: seq<CustomerId>)
    requires Forest(w) && IsPath(w.merges, p)
    ensures Root(w, p[0]) == Root(w, p[|p| - 1])
    decreases |p|
  {
    if |p| > 1 {
      assert Paired(w.merges, p[0], p[1]);
      var i :| 0 <= i < |w.merges| && (w.merges[i] == Merge(p[0], p[1]) || w.merges[i] == Merge(p[1], p[0]));
      assert Logged(w, i) && Pointed(w, w.merges[i].away);
      var rest := p[1..];
      forall j | 0 <= j < |rest| - 1 ensures Paired(w.merges, rest[j], rest[j + 1]) {
        assert Paired(w.merges, p[j + 1], p[j + 2]);
      }
      SameRootAlong(w, rest);
    }
  }

  lemma {:induction false} PathToRoot(w: World, id: CustomerId) returns (p: seq<CustomerId>)
    requires Forest(w)
    ensures IsPath(w.merges, p) && p[0] == id && p[|p| - 1] == Root(w, id)
    decreases Height(w, id)
  {
    p := [id];
    if id in w.customers && w.customers[id].mergedInto.Some? {
      assert Pointed(w, id);
      var into := w.customers[id].mergedInto.value;
      assert w.merges[Stamp(w.merges, id) - 1] == Merge(into, id);
      assert Paired(w.merges, id, into);
      var rest := PathToRoot(w, into);
      p := [id] + rest;
      forall i | 0 <= i < |p| - 1 ensures Paired(w.merges, p[i], p[i + 1]) {
        if i > 0 {
          assert Paired(w.merges, rest[i - 1], rest[i]);
        }
      }
    }
  }

  function Reversed(p: seq<CustomerId>): seq<CustomerId> {
    seq(|p|, i requires 0 <= i < |p| => p[|p| - 1 - i])
  }

  lemma JoinAtRoot(merges: seq<Merge>, p: seq<CustomerId>, q: seq<CustomerId>)
    requires IsPath(merges, p) && IsPath(merges, q) && p[|p| - 1] == q[|q| - 1]
    ensures Connected(merges, p[0], q[0])
  {
    var back := Reversed(q);
    forall i | 0 <= i < |back| - 1 ensures Paired(merges, back[i], back[i + 1]) {
      assert Paired(merges, q[|q| - 2 - i], q[|q| - 1 - i]);
    }
    var all := p + back[1..];
    forall i | 0 <= i < |all| - 1 ensures Paired(merges, all[i], all[i + 1]) {
      if i < |p| - 1 {
        assert all[i] == p[i] && all[i + 1] == p[i + 1];
      } else {
        assert all[i] == back[i - |p| + 1] && all[i + 1] == back[i - |p| + 2];
      }
    }
    assert IsPath(merges, all) && all[0] == p[0] && all[|all| - 1] == q[0];
  }

  /** The merge forest is a union-find: two customers share a root exactly when merges connect them. */
  lemma SameRootExactly(w: World, a: CustomerId, b: CustomerId)
    requires Forest(w)
    ensures Root(w, a) == Root(w, b) <==> Connected(w.merges, a, b)
  {
    if Root(w, a) == Root(w, b) {
      var p := PathToRoot(w, a);
      var q := PathToRoot(w, b);
      JoinAtRoot(w.merges, p, q);
    }
    if Connected(w.merges, a, b) {
      var p :| IsPath(w.merges, p) && p[0] == a && p[|p| - 1] == b;
      SameRootAlong(w, p);
    }
  }

  // ---------- re-homing ----------

  lemma {:induction false} RootIsLive(w: World, id: CustomerId)
    requires Forest(w) && id in w.customers
    ensures Root(w, id) in w.customers && w.customers[Root(w, id)].mergedInto.None?
    decreases Height(w, id)
  {
    if w.customers[id].mergedInto.Some? {
      assert Pointed(w, id);
      RootIsLive(w, w.customers[id].mergedInto.value);
    }
  }

  lemma {:induction false} RootAfterMerge(w: World, survivor: CustomerId, away: CustomerId, id: CustomerId)
    requires Forest(w) && MergeError(w, survivor, away).None? && Forest(AfterMerge(w, survivor, away))
    ensures Root(AfterMerge(w, survivor, away), id) == if Root(w, id) == away then survivor else Root(w, id)
    decreases Height(w, id)
  {
    var w' := AfterMerge(w, survivor, away);
    assert Pointed(w, survivor) && Pointed(w, away);
    if id in w.customers && w.customers[id].mergedInto.Some? {
      assert Pointed(w, id);
      RootAfterMerge(w, survivor, away, w.customers[id].mergedInto.value);
    } else if id == away {
      assert Root(w', survivor) == survivor;
    }
  }

  /** Calls other than merges leave every root alone. */
  lemma {:induction false} RootStays(w: World, w': World, id: CustomerId)
    requires Forest(w) && Forest(w') && w.merges == w'.merges
    requires forall c :: c in w.customers ==>
        c in w'.customers && w'.customers[c].mergedInto == w.customers[c].mergedInto
    requires forall c :: c in w'.customers && c !in w.customers ==> w'.customers[c].mergedInto.None?
    ensures Root(w', id) == Root(w, id)
    decreases Height(w, id)
  {
    if id in w.customers && w.customers[id].mergedInto.Some? {
      assert Pointed(w, id);
      RootStays(w, w', w.customers[id].mergedInto.value);
    }
  }

  /** Every linked row names the root of the customer it was first recorded for. */
  ghost predicate Housed(w: World, first: map<RowId, CustomerId>)
    requires Forest(w)
  {
    && w.linked.Keys == first.Keys
    && (forall r :: r in w.linked ==> first[r] in w.customers && w.linked[r] == Root(w, first[r]))
  }

  lemma MergeRehomes(w: World, first: map<RowId, CustomerId>, survivor: CustomerId, away: CustomerId)
    requires Forest(w) && Housed(w, first) && MergeError(w, survivor, away).None?
    ensures Forest(AfterMerge(w, survivor, away)) && Housed(AfterMerge(w, survivor, away), first)
  {
    MergeKeepsForest(w, survivor, away);
    var w' := AfterMerge(w, survivor, away);
    forall r | r in w'.linked ensures first[r] in w'.customers && w'.linked[r] == Root(w', first[r]) {
      RootAfterMerge(w, survivor, away, first[r]);
    }
  }

  lemma PlainStepHoused(w: World, first: map<RowId, CustomerId>, a: Action)
    requires Forest(w) && Housed(w, first) && Proper(w, a) && LinksLive(w, a) && !a.MergeAway? && Apply(w, a).Ok?
    ensures Forest(Step(w, a))
    ensures Housed(Step(w, a), if a.Link? then first[a.row := a.id] else first)
  {
    StepKeepsForest(w, a);
    var w', first' := Step(w, a), if a.Link? then first[a.row := a.id] else first;
    forall r | r in w'.linked ensures first'[r] in w'.customers && w'.linked[r] == Root(w', first'[r]) {
      RootStays(w, w', first'[r]);
      if a.Link? && r == a.row {
        assert Pointed(w, a.id);
      }
    }
  }

  lemma {:induction false} RunHoused(w: World, first: map<RowId, CustomerId>, actions: seq<Action>)
    requires Forest(w) && Housed(w, first) && RunProper(w, actions) && RunLinksLive(w, actions)
    ensures Forest(Run(w, actions)) && Housed(Run(w, actions), FirstOwners(w, first, actions))
    decreases |actions|
  {
    if actions != [] {
      var a := actions[0];
      if Apply(w, a).Ok? {
        if a.MergeAway? {
          MergeRehomes(w, first, a.survivor, a.away);
        } else {
          PlainStepHoused(w, first, a);
        }
      }
      RunHoused(Step(w, a), if a.Link? && Apply(w, a).Ok? then first[a.row := a.id] else first, actions[1..]);
    }
  }

  // ---------- the results ----------

  /** After any run: no pointer cycle, roots are the classes of merged customers, and resolution
      returns the root exactly when it is near enough. */
  lemma MergeForest(actions: seq<Action>, a: CustomerId, b: CustomerId, depth: int, n: nat)
    requires RunProper(Empty(), actions) && n > 0
    ensures var w := Run(Empty(), actions);
            && Forest(w)
            && Follow(w.customers, a, n) != Some(a)
            && (Root(w, a) == Root(w, b) <==> Connected(w.merges, a, b))
            && Walk(w.customers, a, depth) == if Hops(w, a) < depth then Ok(Root(w, a)) else Raise(BusinessRuleConflict)
  {
    RunKeepsForest(Empty(), actions);
    var w := Run(Empty(), actions);
    Acyclic(w, a, n);
    SameRootExactly(w, a, b);
    ResolvesExactly(w, a, depth);
  }

  /** After any run: no linked row was lost, none names a customer that was merged away, and the
      rows of a customer are those first recorded for the customers whose root it is. */
  lemma RowsFollowTheirCustomer(actions: seq<Action>, r: RowId)
    requires RunProper(Empty(), actions) && RunLinksLive(Empty(), actions)
    ensures var w, first := Run(Empty(), actions), FirstOwners(Empty(), map[], actions);
            && Forest(w)
            && (r in w.linked <==> r in first)
            && (r in w.linked ==>
                  && w.linked[r] in w.customers && w.customers[w.linked[r]].mergedInto.None?
                  && w.linked[r] == Root(w, first[r]))
  {
    RunHoused(Empty(), map[], actions);
    var w, first := Run(Empty(), actions), FirstOwners(Empty(), map[], actions);
    assert r in w.linked.Keys <==> r in first.Keys;
    if r in w.linked {
      RootIsLive(w, first[r]);
    }
  }

  // ---------- a lifecycle call on a merged customer ----------

  lemma {:induction false} NeverMerged(merges: seq<Merge>, id: CustomerId)
    requires Stamp(merges, id) == 0
    ensures forall i :: 0 <= i < |merges| ==> merges[i].away != id
    decreases |merges|
  {
    if merges != [] {
      NeverMerged(merges[..|merges| - 1], id);
      assert forall i :: 0 <= i < |merges| - 1 ==> merges[i] == merges[..|merges| - 1][i];
    }
  }

  /** Customers that point only at each other are never resolved. */
  lemma {:induction false} ClosedNeverResolves(customers: map<CustomerId, Customer>, inside: set<CustomerId>,
                                               id: CustomerId, depth: int)
    requires id in inside
    requires forall c :: c in inside ==>
        c in customers && customers[c].mergedInto.Some? && customers[c].mergedInto.value in inside
    ensures Walk(customers, id, depth) == Raise(BusinessRuleConflict)
    decreases depth
  {
    if depth > 0 {
      ClosedNeverResolves(customers, inside, customers[id].mergedInto.value, depth - 1);
    }
  }

  /** The customers on the way from `id` to its root, and the root. */
  ghost function Way(w: World, id: CustomerId): set<CustomerId>
    requires Forest(w)
    decreases Height(w, id)
  {
    if id in w.customers && w.customers[id].mergedInto.Some? then
      assert Pointed(w, id);
      {id} + Way(w, w.customers[id].mergedInto.value)
    else {id}
  }

  ghost predicate OnWay(w: World, id: CustomerId, c: CustomerId)
    requires Forest(w)
  {
    && c in w.customers
    && (c == Root(w, id) || (w.customers[c].mergedInto.Some? && w.customers[c].mergedInto.value in Way(w, id)))
  }

  lemma {:induction false} WayPoints(w: World, id: CustomerId)
    requires Forest(w) && id in w.customers
    ensures id in Way(w, id) && Root(w, id) in Way(w, id)
    ensures forall c :: c in Way(w, id) ==> OnWay(w, id, c)
    decreases Height(w, id)
  {
    if w.customers[id].mergedInto.Some? {
      assert Pointed(w, id);
      var into := w.customers[id].mergedInto.value;
      WayPoints(w, into);
      forall c | c in Way(w, id) ensures OnWay(w, id, c) {
        assert c != id ==> OnWay(w, into, c);
      }
    }
  }

  // ---------- pointers alone ----------

  /** No customer reaches itself, whatever the state column says. */
  ghost predicate AcyclicPointers(customers: map<CustomerId, Customer>) {
    forall id: CustomerId, n: nat :: n > 0 ==> Follow(customers, id, n) != Some(id)
  }

  lemma {:induction false} FollowAdds(customers: map<CustomerId, Customer>, id: CustomerId, n: nat, m: nat)
    requires Follow(customers, id, n).Some?
    ensures Follow(customers, id, n + m) == Follow(customers, Follow(customers, id, n).value, m)
    decreases n
  {
    if n > 0 {
      FollowAdds(customers, customers[id].mergedInto.value, n - 1, m);
    }
  }

  ghost predicate Leads(customers: map<CustomerId, Customer>, from: CustomerId, to: CustomerId) {
    exists n: nat :: n > 0 && Follow(customers, from, n) == Some(to)
  }

  /** Without cycles the walk ends: it never meets a customer again, and there are only so many. */
  lemma {:induction false} WalkEnds(customers: map<CustomerId, Customer>, id: CustomerId, seen: set<CustomerId>,
                                    depth: nat)
    requires AcyclicPointers(customers)
    requires seen <= customers.Keys && depth > |customers.Keys - seen|
    requires forall c :: c in seen ==> Leads(customers, c, id)
    ensures Walk(customers, id, depth).Ok?
    decreases depth
  {
    if id in customers && customers[id].mergedInto.Some? {
      var next := customers[id].mergedInto.value;
      assert !Leads(customers, id, id) && id !in seen;
      var more := seen + {id};
      assert customers.Keys - seen == (customers.Keys - more) + {id};
      forall c | c in more ensures Leads(customers, c, next) {
        if c in seen {
          var n: nat :| n > 0 && Follow(customers, c, n) == Some(id);
          FollowAdds(customers, c, n, 1);
          assert Follow(customers, c, n + 1) == Follow(customers, id, 1) == Some(next);
        } else {
          assert Follow(customers, id, 1) == Some(next);
        }
      }
      WalkEnds(customers, next, more, depth - 1);
    }
  }

  /** Where a walk ends is where following the pointers ends. */
  lemma {:induction false} WalkFollows(customers: map<CustomerId, Customer>, id: CustomerId, depth: nat)
    returns (n: nat)
    requires Walk(customers, id, depth).Ok?
    ensures var end := Walk(customers, id, depth).value;
            && Follow(customers, id, n) == Some(end)
            && (end in customers ==> customers[end].mergedInto.None?)
    decreases depth
  {
    if id in customers && customers[id].mergedInto.Some? {
      n := WalkFollows(customers, customers[id].mergedInto.value, depth - 1);
      n := n + 1;
    } else {
      n := 0;
    }
  }

  /** Two customers without a pointer that the same one leads to are the same. */
  lemma {:induction false} EndsAgree(customers: map<CustomerId, Customer>, id: CustomerId, n: nat, m: nat)
    requires Follow(customers, id, n).Some? && Follow(customers, id, m).Some?
    requires var a, b := Follow(customers, id, n).value, Follow(customers, id, m).value;
             && (a in customers ==> customers[a].mergedInto.None?) && (b in customers ==> customers[b].mergedInto.None?)
    ensures Follow(customers, id, n) == Follow(customers, id, m)
    decreases n
  {
    if n > 0 && m > 0 {
      EndsAgree(customers, customers[id].mergedInto.value, n - 1, m - 1);
    }
  }

  // ---------- when a merge makes a cycle ----------

  /** Pointers that are still there lead where they led. */
  lemma {:induction false} FollowKept(before: map<CustomerId, Customer>, after: map<CustomerId, Customer>,
                                      id: CustomerId, n: nat)
    requires forall c :: c in before && before[c].mergedInto.Some? ==>
        c in after && after[c].mergedInto == before[c].mergedInto
    requires Follow(before, id, n).Some?
    ensures Follow(after, id, n) == Follow(before, id, n)
    decreases n
  {
    if n > 0 {
      FollowKept(before, after, before[id].mergedInto.value, n - 1);
    }
  }

  /** A way that exists once `away` points somewhere existed before, or leads to `away`. */
  lemma {:induction false} NewWay(before: map<CustomerId, Customer>, away: CustomerId, x: Customer, id: CustomerId,
                                  n: nat)
    returns (k: nat)
    requires Follow(before[away := x], id, n).Some?
    ensures Follow(before, id, n) == Follow(before[away := x], id, n) || Follow(before, id, k) == Some(away)
    decreases n
  {
    k := 0;
    if n > 0 && id != away {
      k := NewWay(before, away, x, before[id].mergedInto.value, n - 1);
      k := k + 1;
    }
  }

  /** The way from the survivor to the customer merged into it, on a cycle that the merge closes. */
  lemma CycleGoesThrough(w: World, survivor: CustomerId, away: CustomerId, id: CustomerId, n: nat) returns (k: nat)
    requires AcyclicPointers(w.customers) && MergeError(w, survivor, away).None? && n > 0
    requires Follow(AfterMerge(w, survivor, away).customers, id, n) == Some(id)
    ensures Follow(w.customers, survivor, k) == Some(away)
  {
    var c, x := w.customers, Customer(Merged, Some(survivor));
    var after := c[away := x];
    assert after == AfterMerge(w, survivor, away).customers;
    k := NewWay(c, away, x, id, n);
    FollowKept(c, after, id, k);
    FollowAdds(after, id, n, k);
    FollowAdds(after, id, k, n);
    assert Follow(after, away, n) == Some(away);
    assert Follow(after, survivor, n - 1) == Some(away);
    var m := NewWay(c, away, x, survivor, n - 1);
    k := if Follow(c, survivor, n - 1) == Some(away) then n - 1 else m;
  }

  /** Resolving the survivor first, as many rows deep as there are customers, tells whether an
      accepted merge makes a cycle: it does exactly when the walk ends at the customer that is to be
      merged away. */
  lemma MergeKeepsAcyclicExactly(w: World, survivor: CustomerId, away: CustomerId)
    requires AcyclicPointers(w.customers) && MergeError(w, survivor, away).None?
    ensures AcyclicPointers(AfterMerge(w, survivor, away).customers)
       <==> Walk(w.customers, survivor, |w.customers| + 1) != Ok(away)
  {
    var c, after := w.customers, AfterMerge(w, survivor, away).customers;
    if Walk(c, survivor, |c| + 1) == Ok(away) {
      var n := WalkFollows(c, survivor, |c| + 1);
      FollowKept(c, after, survivor, n);
      FollowAdds(after, survivor, n, 1);
      assert Follow(after, survivor, n + 1) == Follow(after, away, 1) == Some(survivor);
    } else {
      forall id: CustomerId, n: nat | n > 0 ensures Follow(after, id, n) != Some(id) {
        if Follow(after, id, n) == Some(id) {
          ClosesNoCycle(w, survivor, away, id, n);
        }
      }
    }
  }

  lemma ClosesNoCycle(w: World, survivor: CustomerId, away: CustomerId, id: CustomerId, n: nat)
    requires AcyclicPointers(w.customers) && MergeError(w, survivor, away).None? && n > 0
    requires Follow(AfterMerge(w, survivor, away).customers, id, n) == Some(id)
    ensures Walk(w.customers, survivor, |w.customers| + 1) == Ok(away)
  {
    var c := w.customers;
    var k := CycleGoesThrough(w, survivor, away, id, n);
    assert c.Keys - {} == c.Keys && |c.Keys| == |c|;
    WalkEnds(c, survivor, {}, |c| + 1);
    var m := WalkFollows(c, survivor, |c| + 1);
    EndsAgree(c, survivor, k, m);
  }

  /** A merge is safe when resolving its survivor does not end at the customer merged away. */
  predicate Safe(w: World, a: Action) {
    a.MergeAway? && Apply(w, a).Ok? ==> Walk(w.customers, a.survivor, |w.customers| + 1) != Ok(a.away)
  }

  predicate RunSafe(w: World, actions: seq<Action>)
    decreases |actions|
  {
    actions == [] || (Safe(w, actions[0]) && RunSafe(Step(w, actions[0]), actions[1..]))
  }

  lemma StepKeepsAcyclicExactly(w: World, a: Action)
    requires AcyclicPointers(w.customers)
    ensures AcyclicPointers(Step(w, a).customers) <==> Safe(w, a)
  {
    if a.MergeAway? && Apply(w, a).Ok? {
      MergeKeepsAcyclicExactly(w, a.survivor, a.away);
    } else {
      var after := Step(w, a).customers;
      forall id: CustomerId, n: nat | n > 0 ensures Follow(after, id, n) != Some(id) {
        if Follow(after, id, n).Some? {
          FollowKept(after, w.customers, id, n);
        }
      }
    }
  }

  /** A cycle stays: no call clears a pointer. */
  lemma CycleStays(w: World, a: Action)
    requires !AcyclicPointers(w.customers)
    ensures !AcyclicPointers(Step(w, a).customers)
  {
    var id: CustomerId, n: nat :| n > 0 && Follow(w.customers, id, n) == Some(id);
    FollowKept(w.customers, Step(w, a).customers, id, n);
  }

  lemma {:induction false} CycleStaysRun(w: World, actions: seq<Action>)
    requires !AcyclicPointers(w.customers)
    ensures !AcyclicPointers(Run(w, actions).customers)
    decreases |actions|
  {
    if actions != [] {
      CycleStays(w, actions[0]);
      CycleStaysRun(Step(w, actions[0]), actions[1..]);
    }
  }

  lemma {:induction false} RunKeepsAcyclicExactly(w: World, actions: seq<Action>)
    requires AcyclicPointers(w.customers)
    ensures AcyclicPointers(Run(w, actions).customers) <==> RunSafe(w, actions)
    decreases |actions|
  {
    if actions != [] {
      StepKeepsAcyclicExactly(w, actions[0]);
      if Safe(w, actions[0]) {
        RunKeepsAcyclicExactly(Step(w, actions[0]), actions[1..]);
      } else {
        CycleStaysRun(Step(w, actions[0]), actions[1..]);
      }
    }
  }

  /** Over every run of every call, lifecycle calls on merged customers included: the pointers are
      acyclic exactly when each merge that was accepted was safe when it was made. */
  lemma AcyclicExactlyWhenSafe(actions: seq<Action>)
    ensures AcyclicPointers(Run(Empty(), actions).customers) <==> RunSafe(Empty(), actions)
  {
    forall id: CustomerId, n: nat | n > 0 ensures Follow(Empty().customers, id, n) != Some(id) {
    }
    RunKeepsAcyclicExactly(Empty(), actions);
  }

  // ---------- a lifecycle call on a merged customer ----------

  /** It moves no pointer: every resolution answers what it answered before. */
  lemma {:induction false} LifecycleMovesNothing(w: World, id: CustomerId, to: CustomerState, other: CustomerId,
                                                 depth: int)
    requires id in w.customers
    ensures Walk(AfterState(w, id, to).customers, other, depth) == Walk(w.customers, other, depth)
    decreases depth
  {
    if depth > 0 && other in w.customers && w.customers[other].mergedInto.Some? {
      LifecycleMovesNothing(w, id, to, w.customers[other].mergedInto.value, depth - 1);
    }
  }

  /** A merge that would be accepted now and make a cycle. */
  ghost predicate CycleOpen(w: World, survivor: CustomerId, away: CustomerId) {
    MergeError(w, survivor, away).None? && !AcyclicPointers(AfterMerge(w, survivor, away).customers)
  }

  /** Any state other than merged, on any customer that was merged away, lets its own root be merged
      into it: the merge is accepted, and the customer can never be resolved again, at any depth. */
  lemma ReactivatedMakesCycle(w: World, id: CustomerId, to: CustomerState, depth: int)
    requires Forest(w) && id in w.customers && w.customers[id].state == Merged && to != Merged
    ensures var root := Root(w, id);
            var w1 := AfterState(w, id, to);
            && MergeError(w1, id, root).None?
            && Walk(AfterMerge(w1, id, root).customers, id, depth) == Raise(BusinessRuleConflict)
  {
    var root := Root(w, id);
    assert Pointed(w, id);
    RootIsLive(w, id);
    assert Pointed(w, root);
    NeverMerged(w.merges, root);
    var w1 := AfterState(w, id, to);
    WayPoints(w, id);
    assert forall c :: c in Way(w, id) ==> OnWay(w, id, c);
    ClosedNeverResolves(AfterMerge(w1, id, root).customers, Way(w, id), id, depth);
  }

  /** What a lifecycle call on a forest does is open the door to a cycle, exactly when its target was
      merged away: only then is there a merge that would be accepted and make one. */
  lemma LifecycleOpensCycleExactly(w: World, id: CustomerId, to: CustomerState)
    requires Forest(w) && id in w.customers && to != Merged
    ensures (exists survivor, away :: CycleOpen(AfterState(w, id, to), survivor, away))
        <==> w.customers[id].state == Merged
  {
    var w1 := AfterState(w, id, to);
    if w.customers[id].state == Merged {
      var root := Root(w, id);
      RootIsLive(w, id);
      var after := AfterMerge(w1, id, root).customers;
      ReactivatedMakesCycle(w, id, to, |after| + 1);
      if AcyclicPointers(after) {
        assert after.Keys - {} == after.Keys;
        WalkEnds(after, id, {}, |after| + 1);
      }
      assert CycleOpen(w1, id, root);
    } else {
      LifecycleKeepsExactly(w, id, to);
      forall survivor, away | MergeError(w1, survivor, away).None? ensures !CycleOpen(w1, survivor, away) {
        MergeKeepsForest(w1, survivor, away);
        ForestIsAcyclic(AfterMerge(w1, survivor, away));
      }
    }
  }

  lemma ForestIsAcyclic(w: World)
    requires Forest(w)
    ensures AcyclicPointers(w.customers)
  {
    forall id: CustomerId, n: nat | n > 0 ensures Follow(w.customers, id, n) != Some(id) {
      Acyclic(w, id, n);
    }
  }

  /** The shortest run that ends in a cycle. */
  function CycleRun(): seq<Action> {
    [Create(0), Create(1), MergeAway(1, 0), SetState(0, Active), MergeAway(0, 1)]
  }

  lemma CycleRunGoes()
    ensures var w := Run(Empty(), CycleRun());
            && w.customers == map[0 := Customer(Active, Some(1)), 1 := Customer(Merged, Some(0))]
            && w.merges == [Merge(1, 0), Merge(0, 1)]
  {
    var a := CycleRun();
    var w1 := Step(Empty(), a[0]);
    var w2 := Step(w1, a[1]);
    assert w2 == World(map[0 := Customer(Active, None), 1 := Customer(Active, None)], [], map[]);
    var w3 := Step(w2, a[2]);
    assert w3.customers == map[0 := Customer(Merged, Some(1)), 1 := Customer(Active, None)]
        && w3.merges == [Merge(1, 0)];
    var w4 := Step(w3, a[3]);
    assert w4.customers == map[0 := Customer(Active, Some(1)), 1 := Customer(Active, None)]
        && w4.merges == [Merge(1, 0)];
    assert MergeError(w4, 0, 1).None?;
    var w5 := Step(w4, a[4]);
    assert w5 == AfterMerge(w4, 0, 1);
    assert w5.customers == map[0 := Customer(Active, Some(1)), 1 := Customer(Merged, Some(0))];
    assert a[1..][0] == a[1] && a[1..][1..] == a[2..] && a[2..][1..] == a[3..] && a[3..][1..] == a[4..]
        && a[4..][1..] == [];
    assert Run(w4, a[4..]) == Run(w5, []) == w5;
    assert Run(w3, a[3..]) == Run(w4, a[4..]);
    assert Run(w2, a[2..]) == Run(w3, a[3..]);
    assert Run(w1, a[1..]) == Run(w2, a[2..]);
  }

  // ---------- when a call is accepted, and what it sets ----------

  /** On a forest a merge is accepted exactly between two different customers that exist and were not
      merged away before. */
  lemma MergeGoesExactly(w: World, survivor: CustomerId, away: CustomerId)
    requires Forest(w)
    ensures Apply(w, MergeAway(survivor, away)).Ok? <==>
              && survivor != away && survivor in w.customers && away in w.customers
              && forall i :: 0 <= i < |w.merges| ==> w.merges[i].away != survivor && w.merges[i].away != away
  {
    if survivor in w.customers && away in w.customers {
      assert Pointed(w, survivor) && Pointed(w, away);
      forall i | 0 <= i < |w.merges| && w.merges[i].away in {survivor, away}
        ensures Stamp(w.merges, w.merges[i].away) == i + 1
      {
        assert Logged(w, i);
      }
    }
  }

  /** A lifecycle call is accepted for every customer that exists. It sets the state that was asked for,
      or anonymized, and touches no pointer, no other customer and no row. */
  lemma LifecycleSets(w: World, id: CustomerId, to: CustomerState)
    ensures Apply(w, SetState(id, to)).Ok? <==> id in w.customers
    ensures Apply(w, Anonymize(id)).Ok? <==> id in w.customers
    ensures id in w.customers ==>
              && Step(w, SetState(id, to))
                   == w.(customers := w.customers[id := Customer(to, w.customers[id].mergedInto)])
              && Step(w, Anonymize(id))
                   == w.(customers := w.customers[id := Customer(Anonymized, w.customers[id].mergedInto)])
  {
  }

  /** A customer is created once, active and pointing nowhere; a row is recorded once, for a customer
      that exists. */
  lemma CreateAndLinkExactly(w: World, id: CustomerId, row: RowId)
    ensures Apply(w, Create(id)).Ok? <==> id !in w.customers
    ensures id !in w.customers ==> Step(w, Create(id)) == w.(customers := w.customers[id := Customer(Active, None)])
    ensures Apply(w, Link(row, id)).Ok? <==> row !in w.linked && id in w.customers
    ensures row !in w.linked && id in w.customers ==> Step(w, Link(row, id)) == w.(linked := w.linked[row := id])
  {
  }
}
