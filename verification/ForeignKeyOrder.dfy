/** The loop that rewrites foreign keys in the map it iterates over
    (serializer/serializer.go:238-259), for every order of iteration: keys come
    in any order, and a key inserted on the way may be visited or not. */
module ForeignKeyOrders {
  import opened JsonStrings
  import opened JsonValues
  import opened JsonLd

  type Item = map<Text, Scalar>

  predicate IsRewritten(item: Item, key: Text) {
    key in item && Rewrites((key, item[key]))
  }

  function Link(item: Item, key: Text): Scalar
    requires IsRewritten(item, key)
  {
    Plain(RelationIri(key, item[key].text))
  }

  /** The item after a key was visited. */
  function Visited(item: Item, key: Text): Item {
    if IsRewritten(item, key) then item[RelationName(key) := Link(item, key)] - {key} else item
  }

  // --------------------------------------------------- walks of the loop

  /** The item and the keys still to come. */
  datatype State = State(item: Item, work: set<Text>)

  /** One round: which key comes, and whether a key it inserts will come too. */
  datatype Visit = Visit(key: Text, again: bool)

  function Next(s: State, v: Visit): State {
    if v.key !in s.work then s
    else
      var rest := s.work - {v.key};
      State(Visited(s.item, v.key),
            if v.again && IsRewritten(s.item, v.key) && RelationName(v.key) !in s.item then rest + {RelationName(v.key)} else rest)
  }

  function After(s: State, visits: seq<Visit>): State {
    if visits == [] then s else Next(After(s, visits[..|visits| - 1]), visits[|visits| - 1])
  }

  function Start(item: Item): State {
    State(item, item.Keys)
  }

  ghost predicate Leads(s: State, s': State) {
    exists visits :: After(s, visits) == s'
  }

  /** What the loop may end with. */
  ghost predicate CanEnd(item: Item, result: Item) {
    Leads(Start(item), State(result, {}))
  }

  lemma LeadsNowhere(s: State)
    ensures Leads(s, s)
  {
    assert After(s, []) == s;
  }

  lemma LeadsOn(s: State, s': State, v: Visit)
    requires Leads(s, s')
    ensures Leads(s, Next(s', v))
  {
    var visits :| After(s, visits) == s';
    var more := visits + [v];
    assert more[..|more| - 1] == visits;
    assert After(s, more) == Next(s', v);
  }

  /** Every invariant of the rounds holds in every state they lead to. */
  lemma {:induction false} Invariant(s: State, visits: seq<Visit>, inv: State -> bool)
    requires inv(s) && forall t, v :: inv(t) ==> inv(Next(t, v))
    ensures inv(After(s, visits))
  {
    if visits != [] { Invariant(s, visits[..|visits| - 1], inv); }
  }

  // --------------------------------------------------- the loop

  /** The bytes of some keys: rewriting only ever shortens a key. */
  ghost function Lengths(keys: set<Text>): nat {
    if keys == {} then 0
    else
      var k :| k in keys;
      |k| + 1 + Lengths(keys - {k})
  }

  lemma {:induction false} LengthsRemove(keys: set<Text>, key: Text)
    requires key in keys
    ensures Lengths(keys) == |key| + 1 + Lengths(keys - {key})
  {
    var k :| k in keys && Lengths(keys) == |k| + 1 + Lengths(keys - {k});
    if k != key {
      LengthsRemove(keys - {k}, key);
      LengthsRemove(keys - {key}, k);
      assert keys - {k} - {key} == keys - {key} - {k};
    }
  }

  lemma LengthsAdd(keys: set<Text>, key: Text)
    requires key !in keys
    ensures Lengths(keys + {key}) == |key| + 1 + Lengths(keys)
  {
    LengthsRemove(keys + {key}, key);
    assert keys + {key} - {key} == keys;
  }

  lemma RelationIsShorter(key: Text)
    requires IsForeignKey(key)
    ensures |RelationName(key)| < |key|
  {
    assert HasSuffix(key, FkSuffix(key));
  }

  lemma WorkShrinks(s: State, v: Visit)
    requires v.key in s.work
    ensures Lengths(Next(s, v).work) < Lengths(s.work)
  {
    var rest := s.work - {v.key};
    LengthsRemove(s.work, v.key);
    if Next(s, v).work != rest {
      RelationIsShorter(v.key);
      LengthsAdd(rest, RelationName(v.key));
    }
  }

  /** The loop itself. It ends, with one of the results its rounds can have. */
  method RewriteForeignKeys(item0: Item) returns (item: Item)
    ensures CanEnd(item0, item)
  {
    item := item0;
    var work := item0.Keys;
    LeadsNowhere(Start(item0));
    while work != {}
      invariant Leads(Start(item0), State(item, work))
      decreases Lengths(work)
    {
      var key :| key in work;
      var again: bool := *;
      ghost var before := State(item, work);
      WorkShrinks(before, Visit(key, again));
      LeadsOn(Start(item0), before, Visit(key, again));
      item, work := VisitKey(item, work, key, again);
    }
  }

  /** One round; a key that is gone does not come. */
  method VisitKey(item0: Item, work0: set<Text>, key: Text, again: bool) returns (item: Item, work: set<Text>)
    requires key in work0
    ensures State(item, work) == Next(State(item0, work0), Visit(key, again))
  {
    item, work := item0, work0 - {key};
    if key !in item {
      return;
    }
    var value := item[key];
    if IsForeignKey(key) && value.Plain? && value.text != [] {
      var relationName := RelationName(key);
      if again && relationName !in item {
        work := work + {relationName};
      }
      item := item[relationName := Plain(RelationIri(key, value.text))] - {key};
    }
  }

  // --------------------------------------------------- when order does not matter

  /** No relation name is a foreign key again, and keys of one relation agree. */
  ghost predicate Settled(item: Item) {
    && (forall k :: IsRewritten(item, k) ==> !IsForeignKey(RelationName(k)))
    && (forall k, l :: IsRewritten(item, k) && IsRewritten(item, l) && RelationName(k) == RelationName(l) ==> item[k] == item[l])
  }

  /** What becomes of the rewritten keys: their names and links. */
  type Plan = map<Text, (Text, Scalar)>

  function PlanOf(item: Item): Plan {
    map k | k in item && IsRewritten(item, k) :: (RelationName(k), Link(item, k))
  }

  /** A plan that does not depend on order: names are no keys, and agree. */
  ghost predicate Firm(plan: Plan) {
    && (forall k :: k in plan ==> plan[k].0 !in plan)
    && (forall k, l :: k in plan && l in plan && plan[k].0 == plan[l].0 ==> plan[k].1 == plan[l].1)
  }

  lemma SettledIsFirm(item: Item)
    requires Settled(item)
    ensures Firm(PlanOf(item))
  {}

  /** A key that was rewritten and gave this name. */
  ghost predicate Gives(plan: Plan, work: set<Text>, k: Text, name: Text) {
    k in plan && k !in work && plan[k].0 == name
  }

  ghost predicate Given(plan: Plan, work: set<Text>, name: Text) {
    exists k :: Gives(plan, work, k, name)
  }

  /** The item when of the original keys these are still to come. */
  ghost predicate PartlyRewritten(plan: Plan, item0: Item, work: set<Text>, item: Item) {
    && (forall n :: n in item <==> (n in item0 && (n in plan ==> n in work)) || Given(plan, work, n))
    && (forall n, k :: n in item && Gives(plan, work, k, n) ==> item[n] == plan[k].1)
    && (forall n :: n in item && !Given(plan, work, n) ==> n in item0 && item[n] == item0[n])
  }

  /** A key comes that is rewritten. */
  lemma OneMoreGives(plan: Plan, work: set<Text>, work': set<Text>, key: Text)
    requires Firm(plan) && key in plan && key in work && (work' == work - {key} || work' == work - {key} + {plan[key].0})
    ensures forall k, n :: Gives(plan, work', k, n) <==> Gives(plan, work, k, n) || (k == key && n == plan[key].0)
    ensures forall k :: k in plan ==> (k in work' <==> k in work && k != key)
    ensures forall n :: Given(plan, work', n) <==> Given(plan, work, n) || n == plan[key].0
  {
    forall n ensures Given(plan, work', n) <==> Given(plan, work, n) || n == plan[key].0 {
      if n == plan[key].0 { assert Gives(plan, work', key, n); }
      if k :| Gives(plan, work, k, n) { assert Gives(plan, work', k, n); }
      if k :| Gives(plan, work', k, n) && n != plan[key].0 { assert Gives(plan, work, k, n); }
    }
  }

  lemma OneRewritten(plan: Plan, item0: Item, work: set<Text>, work': set<Text>, item: Item, key: Text)
    requires Firm(plan) && key in plan && key in work && (work' == work - {key} || work' == work - {key} + {plan[key].0})
    requires PartlyRewritten(plan, item0, work, item)
    ensures PartlyRewritten(plan, item0, work', item[plan[key].0 := plan[key].1] - {key})
  {
    OneMoreGives(plan, work, work', key);
    OneRewrittenValue(plan, item0, work, work', item, key);
    assert !Given(plan, work', key);
  }

  lemma OneRewrittenValue(plan: Plan, item0: Item, work: set<Text>, work': set<Text>, item: Item, key: Text)
    requires Firm(plan) && key in plan && PartlyRewritten(plan, item0, work, item)
    requires forall k, n :: Gives(plan, work', k, n) <==> Gives(plan, work, k, n) || (k == key && n == plan[key].0)
    requires forall n :: Given(plan, work', n) <==> Given(plan, work, n) || n == plan[key].0
    ensures
      var item' := item[plan[key].0 := plan[key].1] - {key};
      && (forall n, k :: n in item' && Gives(plan, work', k, n) ==> item'[n] == plan[k].1)
      && (forall n :: n in item' && !Given(plan, work', n) ==> n in item0 && item'[n] == item0[n])
  {}

  /** A key comes that is not. */
  lemma OnePassed(plan: Plan, item0: Item, work: set<Text>, item: Item, key: Text)
    requires key !in plan && PartlyRewritten(plan, item0, work, item)
    ensures PartlyRewritten(plan, item0, work - {key}, item)
  {
    var work' := work - {key};
    forall n ensures Given(plan, work', n) <==> Given(plan, work, n) {
      if k :| Gives(plan, work, k, n) { assert Gives(plan, work', k, n); }
      if k :| Gives(plan, work', k, n) { assert Gives(plan, work, k, n); }
    }
    forall n, k ensures Gives(plan, work', k, n) <==> Gives(plan, work, k, n) {}
  }

  ghost predicate OnTheWay(item0: Item, s: State) {
    PartlyRewritten(PlanOf(item0), item0, s.work, s.item) && forall k :: k in s.work && k !in item0 ==> !IsForeignKey(k)
  }

  lemma StartIsOnTheWay(item0: Item)
    ensures OnTheWay(item0, Start(item0))
  {}

  /** A foreign key that is no name is as it was. */
  lemma KeyIsAsBefore(plan: Plan, item0: Item, work: set<Text>, item: Item, key: Text)
    requires PartlyRewritten(plan, item0, work, item) && key in work && !Given(plan, work, key)
    ensures key in item0 && (key in plan || key in item) ==> key in item && item[key] == item0[key]
    ensures key in item ==> key in item0 && item[key] == item0[key]
  {}

  /** Keys that were not rewritten at first never are. */
  lemma OthersStay(item0: Item, s: State, key: Text)
    requires Settled(item0) && OnTheWay(item0, s) && key in s.work
    ensures IsRewritten(s.item, key) <==> key in PlanOf(item0)
    ensures key in PlanOf(item0) ==> s.item[key] == item0[key]
  {
    if IsForeignKey(key) {
      forall k ensures !Gives(PlanOf(item0), s.work, k, key) {}
      KeyIsAsBefore(PlanOf(item0), item0, s.work, s.item, key);
    }
  }

  lemma RoundStaysOnTheWay(item0: Item, s: State, v: Visit)
    requires Settled(item0) && OnTheWay(item0, s)
    ensures OnTheWay(item0, Next(s, v))
  {
    if v.key in s.work {
      var plan := PlanOf(item0);
      OthersStay(item0, s, v.key);
      SettledIsFirm(item0);
      NextIs(item0, s, v);
      if v.key in plan {
        OneRewritten(plan, item0, s.work, Next(s, v).work, s.item, v.key);
      } else {
        OnePassed(plan, item0, s.work, s.item, v.key);
      }
    }
  }

  lemma NextIs(item0: Item, s: State, v: Visit)
    requires Settled(item0) && OnTheWay(item0, s) && v.key in s.work
    requires IsRewritten(s.item, v.key) <==> v.key in PlanOf(item0)
    requires v.key in PlanOf(item0) ==> s.item[v.key] == item0[v.key]
    ensures
      var plan, s' := PlanOf(item0), Next(s, v);
      if v.key in plan then
        && s'.item == s.item[plan[v.key].0 := plan[v.key].1] - {v.key}
        && (s'.work == s.work - {v.key} || s'.work == s.work - {v.key} + {plan[v.key].0})
      else
        s'.item == s.item && s'.work == s.work - {v.key}
    ensures forall k :: k in Next(s, v).work && k !in item0 ==> !IsForeignKey(k)
  {}

  lemma EndIsRewritten(item0: Item, result: Item)
    requires Settled(item0) && CanEnd(item0, result)
    ensures PartlyRewritten(PlanOf(item0), item0, {}, result)
  {
    var visits :| After(Start(item0), visits) == State(result, {});
    var inv := s => OnTheWay(item0, s);
    StartIsOnTheWay(item0);
    forall t, v | inv(t) ensures inv(Next(t, v)) { RoundStaysOnTheWay(item0, t, v); }
    Invariant(Start(item0), visits, inv);
  }

  lemma RewrittenIsOne(plan: Plan, item0: Item, a: Item, b: Item)
    requires PartlyRewritten(plan, item0, {}, a) && PartlyRewritten(plan, item0, {}, b)
    ensures a == b
  {
    forall n | n in a ensures n in b && a[n] == b[n] {
      if k :| Gives(plan, {}, k, n) {
        assert a[n] == plan[k].1 && b[n] == plan[k].1;
      }
    }
    assert forall n :: n in b ==> n in a;
  }

  /** Every loop ends, with at least one result. */
  lemma {:induction false} SomeEnd(s: State, now: State) returns (result: Item)
    requires Leads(s, now)
    ensures Leads(s, State(result, {}))
    decreases now.work
  {
    if now.work == {} {
      result := now.item;
    } else {
      var key :| key in now.work;
      LeadsOn(s, now, Visit(key, false));
      result := SomeEnd(s, Next(now, Visit(key, false)));
    }
  }

  // --------------------------------------------------- when it does

  /** Only these two keys have a name as their relation. */
  predicate Writes(key: Text, name: Text) {
    IsForeignKey(key) && RelationName(key) == name
  }

  lemma TwoForms(key: Text, name: Text)
    requires Writes(key, name)
    ensures key == name + Ascii("_id") || key == name + Ascii("Id")
  {
    assert key == key[..|key| - |FkSuffix(key)|] + key[|key| - |FkSuffix(key)|..];
  }

  /** A third key does not write it. */
  lemma NoThird(f: Text, g: Text, key: Text, name: Text)
    requires Writes(f, name) && Writes(g, name) && f != g && key != f && key != g
    ensures !Writes(key, name)
  {
    TwoForms(f, name);
    TwoForms(g, name);
    if Writes(key, name) { TwoForms(key, name); }
  }

  /** The walk may go on so that a name nothing more writes stays as it is. */
  lemma {:induction false} NameStays(s: State, now: State, name: Text, value: Scalar) returns (result: Item)
    requires Leads(s, now) && name in now.item && now.item[name] == value && !IsForeignKey(name)
    requires forall k :: k in now.work ==> !Writes(k, name)
    ensures Leads(s, State(result, {})) && name in result && result[name] == value
    decreases now.work
  {
    if now.work == {} {
      result := now.item;
    } else {
      var key :| key in now.work;
      LeadsOn(s, now, Visit(key, false));
      result := NameStays(s, Next(now, Visit(key, false)), name, value);
    }
  }

  /** Or absent, if it is. */
  lemma {:induction false} NameStaysAway(s: State, now: State, name: Text) returns (result: Item)
    requires Leads(s, now) && name !in now.item && forall k :: k in now.work ==> !Writes(k, name)
    ensures Leads(s, State(result, {})) && name !in result
    decreases now.work
  {
    if now.work == {} {
      result := now.item;
    } else {
      var key :| key in now.work;
      LeadsOn(s, now, Visit(key, false));
      result := NameStaysAway(s, Next(now, Visit(key, false)), name);
    }
  }

  /** Of two keys with one relation the later one wins. */
  lemma LaterWins(item: Item, f: Text, g: Text, name: Text) returns (result: Item)
    requires IsRewritten(item, f) && IsRewritten(item, g) && f != g && RelationName(f) == RelationName(g) == name && !IsForeignKey(name)
    ensures CanEnd(item, result) && name in result && result[name] == Link(item, g)
  {
    var s := Start(item);
    var one := Next(s, Visit(f, false));
    var two := Next(one, Visit(g, false));
    LeadsNowhere(s);
    LeadsOn(s, s, Visit(f, false));
    LeadsOn(s, one, Visit(g, false));
    SecondOverwrites(item, f, g, name);
    forall k | k in two.work ensures !Writes(k, name) { NoThird(f, g, k, name); }
    result := NameStays(s, two, name, Link(item, g));
  }

  lemma SecondOverwrites(item: Item, f: Text, g: Text, name: Text)
    requires IsRewritten(item, f) && IsRewritten(item, g) && f != g && RelationName(f) == RelationName(g) == name && !IsForeignKey(name)
    ensures
      var two := Next(Next(Start(item), Visit(f, false)), Visit(g, false));
      name in two.item && two.item[name] == Link(item, g) && f !in two.work && g !in two.work
  {}

  lemma LinksDiffer(f: Text, a: Text, g: Text, b: Text)
    requires RelationName(f) == RelationName(g) && a != b
    ensures RelationIri(f, a) != RelationIri(g, b)
  {
    var front := [SLASH] + Pluralize(RelationName(f)) + [SLASH];
    assert RelationIri(f, a) == front + a && RelationIri(g, b) == front + b;
    assert (front + a)[|front|..] == a && (front + b)[|front|..] == b;
  }

  /** A key whose turn comes last leaves its name behind. */
  lemma {:induction false} LastLeavesName(s: State, now: State, f: Text) returns (result: Item)
    requires Leads(s, now) && f in now.work && IsRewritten(now.item, f)
    ensures Leads(s, State(result, {})) && RelationName(f) in result
    decreases now.work
  {
    if key :| key in now.work && key != f {
      LeadsOn(s, now, Visit(key, false));
      StaysRewritten(now, key, f);
      result := LastLeavesName(s, Next(now, Visit(key, false)), f);
    } else {
      LeadsOn(s, now, Visit(f, false));
      RelationIsShorter(f);
      assert now.work - {f} == {};
      result := Next(now, Visit(f, false)).item;
    }
  }

  lemma StaysRewritten(now: State, key: Text, f: Text)
    requires f in now.work && key in now.work && key != f && IsRewritten(now.item, f)
    ensures IsRewritten(Next(now, Visit(key, false)).item, f)
  {}

  /** The key, then the name it wrote: the name is gone. */
  lemma NameComes(now: State, f: Text, name: Text)
    requires f in now.work && IsRewritten(now.item, f) && RelationName(f) == name && IsForeignKey(name)
    requires name in now.item ==> name in now.work
    ensures
      var one := Next(now, Visit(f, true));
      one.work == now.work - {f} + {name} && IsRewritten(one.item, name)
  {
    RelationIsShorter(f);
    var rest := now.work - {f};
    if name in now.item { assert rest + {name} == rest; }
  }

  lemma NameGoes(one: State, name: Text)
    requires name in one.work && IsRewritten(one.item, name)
    ensures name !in Next(one, Visit(name, false)).item && Next(one, Visit(name, false)).work == one.work - {name}
  {
    RelationIsShorter(name);
  }

  /** A walk that visits every name a key of this relation writes. */
  lemma NameIsRemoved(item: Item, f: Text, name: Text) returns (result: Item)
    requires IsRewritten(item, f) && RelationName(f) == name && IsForeignKey(name)
    ensures CanEnd(item, result) && name !in result
  {
    var s := Start(item);
    LeadsNowhere(s);
    var now := RemoveOnce(s, s, f, name);
    TwoForms(f, name);
    var g := if f == name + Ascii("_id") then name + Ascii("Id") else name + Ascii("_id");
    if g in now.work {
      if IsRewritten(now.item, g) && RelationName(g) == name {
        now := RemoveOnce(s, now, g, name);
      } else {
        LeadsOn(s, now, Visit(g, false));
        PassedOver(now, g, name);
        now := Next(now, Visit(g, false));
      }
    }
    forall k | k in now.work ensures !Writes(k, name) {
      if Writes(k, name) { TwoForms(k, name); }
    }
    result := NameStaysAway(s, now, name);
  }

  lemma RemoveOnce(s: State, now: State, f: Text, name: Text) returns (later: State)
    requires Leads(s, now) && f in now.work && IsRewritten(now.item, f) && RelationName(f) == name && IsForeignKey(name)
    requires name in now.item ==> name in now.work
    ensures Leads(s, later) && name !in later.item && later.work == now.work - {f} - {name}
  {
    LeadsOn(s, now, Visit(f, true));
    LeadsOn(s, Next(now, Visit(f, true)), Visit(name, false));
    NameComes(now, f, name);
    NameGoes(Next(now, Visit(f, true)), name);
    later := Next(Next(now, Visit(f, true)), Visit(name, false));
  }

  lemma PassedOver(now: State, g: Text, name: Text)
    requires g in now.work && name !in now.item && !(IsRewritten(now.item, g) && RelationName(g) == name)
    ensures name !in Next(now, Visit(g, false)).item && Next(now, Visit(g, false)).work == now.work - {g}
  {}

  /** Where keys clash so, there are two orders with two results. */
  lemma UnsettledDiffers(item: Item) returns (a: Item, b: Item)
    requires !Settled(item)
    ensures CanEnd(item, a) && CanEnd(item, b) && a != b
  {
    LeadsNowhere(Start(item));
    if f :| IsRewritten(item, f) && IsForeignKey(RelationName(f)) {
      a := LastLeavesName(Start(item), Start(item), f);
      b := NameIsRemoved(item, f, RelationName(f));
    } else {
      var f, g :| IsRewritten(item, f) && IsRewritten(item, g) && RelationName(f) == RelationName(g) && item[f] != item[g];
      a := LaterWins(item, f, g, RelationName(f));
      b := LaterWins(item, g, f, RelationName(f));
      LinksDiffer(f, item[f].text, g, item[g].text);
    }
  }

  /** Main result: the loop has one result, whatever the order, exactly when no
      relation name is a foreign key again and keys of one relation agree. */
  lemma OrderMatters(item: Item)
    ensures (forall a, b :: CanEnd(item, a) && CanEnd(item, b) ==> a == b) <==> Settled(item)
  {
    if Settled(item) {
      forall a, b | CanEnd(item, a) && CanEnd(item, b) ensures a == b {
        EndIsRewritten(item, a);
        EndIsRewritten(item, b);
        RewrittenIsOne(PlanOf(item), item, a, b);
      }
    } else {
      var a, b := UnsettledDiffers(item);
    }
  }
}
