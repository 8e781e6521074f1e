/** Why naming the marked paths in any order, and then the paths the changed
    names can move, ends in the names the whole session decides (`settle` in
    src/buffer_registry.rs). The index is left out: a plan says what each path is
    shown by, who holds it, and what each buffer held when the event began. */
module Settling {
  import opened NameText
  import opened HolderNaming
  import opened NameIndex

  /** Each path's name and holders, the reserved names, and the names held when
      the event began. */
  datatype Plan = Plan(base: map<string, string>, holders: map<string, seq<Holder>>, res: set<string>,
                       before: map<Id, string>) {
    ghost predicate Valid() {
      && base.Keys == holders.Keys
      && (forall v :: v in base ==> holders[v] != [])
      && (forall u, v :: u in base && v in base && base[u] == base[v] ==> u == v)
      && (forall v, t :: v in base && 0 <= t < |holders[v]| ==> holders[v][t].1 in before)
      && (forall u, v {:trigger Apart(u, v)} :: u in base && v in base ==> Apart(u, v))
    }

    /** No buffer holds two paths, or one twice. */
    ghost predicate Apart(u: string, v: string)
      requires u in holders && v in holders
    {
      forall s, t :: 0 <= s < |holders[u]| && 0 <= t < |holders[v]| && holders[u][s].1 == holders[v][t].1 ==>
        u == v && s == t
    }

    /** Buffers the plan does not move hold the names they held, and just those are
        the reserved names. */
    ghost predicate Fits(holding: map<Id, string>) {
      && holding.Keys == before.Keys
      && (forall id :: id in holding && !Moves(id) ==> holding[id] in res && holding[id] == before[id])
      && (forall n :: n in res ==> exists id :: id in holding && !Moves(id) && holding[id] == n)
    }

    ghost predicate Moves(id: Id) {
      exists v :: v in base && v in holders && id in IdsOf(holders[v])
    }

    /** The names of the holders of `v` when others hold `taken`. */
    ghost function Target(v: string, taken: set<string>): (names: seq<string>)
      requires Valid() && v in base
      ensures |names| == |holders[v]|
    {
      HolderNames(base[v], NamesAt(before, holders[v]), base[v] !in res, taken)
    }

    /** What nobody but a path's own buffers may be given, once all is settled. */
    ghost function Taken(): set<string> {
      res + set v | v in base :: base[v]
    }

    ghost predicate Held(holding: map<Id, string>, v: string, names: seq<string>)
      requires v in base && v in holders
    {
      && |names| == |holders[v]|
      && forall t :: 0 <= t < |names| ==> holders[v][t].1 in holding && holding[holders[v][t].1] == names[t]
    }

    /** Naming `v` now would change nothing. */
    ghost predicate Stable(holding: map<Id, string>, v: string)
      requires Valid() && v in base
    {
      Held(holding, v, Target(v, Others(holding, holders[v])))
    }

    /** The holders of `v` are named by the rule, against some other names. */
    ghost predicate Formed(holding: map<Id, string>, v: string)
      requires Valid() && v in base
    {
      exists taken: set<string> :: Held(holding, v, Target(v, taken))
    }

    /** The holders of `v` are named as the whole session decides. */
    ghost predicate Final(holding: map<Id, string>, v: string)
      requires Valid() && v in base
    {
      Held(holding, v, Target(v, Taken()))
    }

    ghost predicate AllFormed(holding: map<Id, string>)
      requires Valid()
    {
      forall v :: v in base ==> Formed(holding, v)
    }
  }

  lemma FormedName(plan: Plan, holding: map<Id, string>, v: string, t: nat)
    requires plan.Valid() && v in plan.base && plan.Formed(holding, v) && t < |plan.holders[v]|
    ensures plan.holders[v][t].1 in holding && Own(plan.base[v], holding[plan.holders[v][t].1])
    ensures holding[plan.holders[v][t].1] == plan.base[v] <==>
      t == Keeper(plan.base[v], NamesAt(plan.before, plan.holders[v]), plan.base[v] !in plan.res)
  {
    var taken: set<string> :| plan.Held(holding, v, plan.Target(v, taken));
    HolderNamesOwn(plan.base[v], NamesAt(plan.before, plan.holders[v]), plan.base[v] !in plan.res, taken, t);
  }

  lemma OwnedByOne(b: string, b': string, n: string)
    requires IsSuffixed(b, n) && IsSuffixed(b', n)
    ensures b == b'
  {
    var k := SuffixedNumber(b, n);
    var k' := SuffixedNumber(b', n);
    SuffixedInjective(b, k, b', k');
  }

  lemma MovedBy(plan: Plan, id: Id) returns (v: string, t: nat)
    requires plan.Valid() && plan.Moves(id)
    ensures v in plan.base && t < |plan.holders[v]| && plan.holders[v][t].1 == id
  {
    v :| v in plan.base && v in plan.holders && id in IdsOf(plan.holders[v]);
    t :| 0 <= t < |plan.holders[v]| && plan.holders[v][t].1 == id;
  }

  /** A `<N>` of `v` another buffer holds is reserved, or another path's name. */
  lemma OthersAreTaken(plan: Plan, holding: map<Id, string>, v: string, n: string)
    requires plan.Valid() && plan.Fits(holding) && plan.AllFormed(holding) && v in plan.base
    requires IsSuffixed(plan.base[v], n) && n in Others(holding, plan.holders[v])
    ensures n in plan.Taken()
  {
    var id :| id in holding && id !in IdsOf(plan.holders[v]) && holding[id] == n;
    if plan.Moves(id) {
      var u, t := MovedBy(plan, id);
      FormedName(plan, holding, u, t);
      if n != plan.base[u] {
        OwnedByOne(plan.base[u], plan.base[v], n);
      }
    }
  }

  /** A reserved `<N>` of `v`, or one that is another path's name, is held. */
  lemma TakenAreOthers(plan: Plan, holding: map<Id, string>, v: string, n: string)
    requires plan.Valid() && plan.Fits(holding) && plan.AllFormed(holding) && v in plan.base
    requires IsSuffixed(plan.base[v], n) && n in plan.Taken()
    ensures n in Others(holding, plan.holders[v])
  {
    if n in plan.res {
      var id :| id in holding && !plan.Moves(id) && holding[id] == n;
      assert id !in IdsOf(plan.holders[v]);
    } else {
      var u :| u in plan.base && plan.base[u] == n;
      NotItsOwnSuffix(plan.base[v]);
      var k := Keeper(plan.base[u], NamesAt(plan.before, plan.holders[u]), plan.base[u] !in plan.res);
      FormedName(plan, holding, u, k);
      var id := plan.holders[u][k].1;
      assert plan.Apart(u, v);
      assert id !in IdsOf(plan.holders[v]);
      assert holding[id] == n;
    }
  }

  /** Once every path is named by the rule, the names others hold are the final
      ones, so naming a path gives what the whole session decides. */
  lemma FormedAgree(plan: Plan, holding: map<Id, string>, v: string)
    requires plan.Valid() && plan.Fits(holding) && plan.AllFormed(holding) && v in plan.base
    ensures Agree(plan.base[v], Others(holding, plan.holders[v]), plan.Taken())
    ensures plan.Target(v, Others(holding, plan.holders[v])) == plan.Target(v, plan.Taken())
  {
    forall n | IsSuffixed(plan.base[v], n)
      ensures n in Others(holding, plan.holders[v]) <==> n in plan.Taken()
    {
      if n in Others(holding, plan.holders[v]) {
        OthersAreTaken(plan, holding, v, n);
      }
      if n in plan.Taken() {
        TakenAreOthers(plan, holding, v, n);
      }
    }
    HolderNamesAgree(plan.base[v], NamesAt(plan.before, plan.holders[v]), plan.base[v] !in plan.res,
                     Others(holding, plan.holders[v]), plan.Taken());
  }

  // ----- naming one path -----

  /** `holding'` is `holding` with the holders of `w` given `names`. */
  ghost predicate Regiven(plan: Plan, holding: map<Id, string>, holding': map<Id, string>, w: string,
                          names: seq<string>)
    requires w in plan.base && w in plan.holders
  {
    && holding'.Keys == holding.Keys
    && plan.Held(holding', w, names)
    && forall id :: id in holding && id !in IdsOf(plan.holders[w]) ==> holding'[id] == holding[id]
  }

  /** `name` came or went when `holding` became `holding'`. */
  ghost predicate Moved(plan: Plan, holding: map<Id, string>, holding': map<Id, string>, w: string, name: string)
    requires w in plan.base && w in plan.holders
  {
    exists t :: 0 <= t < |plan.holders[w]| && plan.holders[w][t].1 in holding && plan.holders[w][t].1 in holding'
      && holding[plan.holders[w][t].1] != holding'[plan.holders[w][t].1]
      && (name == holding[plan.holders[w][t].1] || name == holding'[plan.holders[w][t].1])
  }

  lemma RegivenFits(plan: Plan, holding: map<Id, string>, holding': map<Id, string>, w: string, names: seq<string>)
    requires plan.Valid() && plan.Fits(holding) && w in plan.base && Regiven(plan, holding, holding', w, names)
    ensures plan.Fits(holding')
  {
    forall id | id in holding && !plan.Moves(id) ensures holding'[id] == holding[id] {
      assert id !in IdsOf(plan.holders[w]);
    }
    forall n | n in plan.res ensures exists id :: id in holding' && !plan.Moves(id) && holding'[id] == n {
      var id :| id in holding && !plan.Moves(id) && holding[id] == n;
      assert holding'[id] == n;
    }
  }

  /** Other paths' holders keep their names. */
  lemma RegivenOther(plan: Plan, holding: map<Id, string>, holding': map<Id, string>, w: string, names: seq<string>,
                     v: string, held: seq<string>)
    requires plan.Valid() && w in plan.base && Regiven(plan, holding, holding', w, names)
    requires v in plan.base && v != w && plan.Held(holding, v, held)
    ensures plan.Held(holding', v, held)
  {
    assert plan.Apart(v, w);
    forall t | 0 <= t < |held| ensures holding'[plan.holders[v][t].1] == held[t] {
      assert plan.holders[v][t].1 !in IdsOf(plan.holders[w]);
    }
  }

  lemma RegivenFormed(plan: Plan, holding: map<Id, string>, holding': map<Id, string>, w: string, names: seq<string>,
                      v: string)
    requires plan.Valid() && w in plan.base && Regiven(plan, holding, holding', w, names)
    requires v in plan.base && v != w && plan.Formed(holding, v)
    ensures plan.Formed(holding', v)
  {
    var taken: set<string> :| plan.Held(holding, v, plan.Target(v, taken));
    RegivenOther(plan, holding, holding', w, names, v, plan.Target(v, taken));
  }

  /** The buffers outside `w` are the same, so naming `w` again gives the same. */
  lemma RegivenSelf(plan: Plan, holding: map<Id, string>, holding': map<Id, string>, w: string, names: seq<string>)
    requires plan.Valid() && w in plan.base && Regiven(plan, holding, holding', w, names)
    ensures Others(holding', plan.holders[w]) == Others(holding, plan.holders[w])
  {
  }

  /** A name another path's buffers meet only if it came or went. */
  lemma MovedOthers(plan: Plan, holding: map<Id, string>, holding': map<Id, string>, w: string, names: seq<string>,
                    v: string, n: string)
    requires plan.Valid() && plan.Fits(holding) && w in plan.base && v in plan.base && v != w
    requires Regiven(plan, holding, holding', w, names)
    requires !Moved(plan, holding, holding', w, n)
    ensures n in Others(holding, plan.holders[v]) <==> n in Others(holding', plan.holders[v])
  {
    forall id | id in holding && (holding[id] == n || holding'[id] == n)
      ensures holding[id] == holding'[id]
    {
      if id in IdsOf(plan.holders[w]) {
        var t :| 0 <= t < |plan.holders[w]| && plan.holders[w][t].1 == id;
      }
    }
    if n in Others(holding, plan.holders[v]) {
      var id :| id in holding && id !in IdsOf(plan.holders[v]) && holding[id] == n;
      assert holding'[id] == n;
    }
    if n in Others(holding', plan.holders[v]) {
      var id :| id in holding' && id !in IdsOf(plan.holders[v]) && holding'[id] == n;
      assert holding[id] == n;
    }
  }

  /** A path none of whose `<N>` came or went is as stable as before. */
  lemma RegivenStable(plan: Plan, holding: map<Id, string>, holding': map<Id, string>, w: string, names: seq<string>,
                      v: string)
    requires plan.Valid() && plan.Fits(holding) && w in plan.base && v in plan.base && v != w
    requires Regiven(plan, holding, holding', w, names)
    requires plan.Stable(holding, v)
    requires forall n :: IsSuffixed(plan.base[v], n) ==> !Moved(plan, holding, holding', w, n)
    ensures plan.Stable(holding', v)
  {
    var h := plan.holders[v];
    forall n | IsSuffixed(plan.base[v], n) ensures n in Others(holding, h) <==> n in Others(holding', h) {
      MovedOthers(plan, holding, holding', w, names, v, n);
    }
    HolderNamesAgree(plan.base[v], NamesAt(plan.before, h), plan.base[v] !in plan.res, Others(holding, h),
                     Others(holding', h));
    RegivenOther(plan, holding, holding', w, names, v, plan.Target(v, Others(holding, h)));
  }

  /** Between two namings by the rule the plain name stays with its keeper: only
      a `<N>` comes or goes. */
  lemma MovedIsSuffix(plan: Plan, holding: map<Id, string>, holding': map<Id, string>, w: string, n: string)
    requires plan.Valid() && w in plan.base && plan.Formed(holding, w) && plan.Formed(holding', w)
    requires Moved(plan, holding, holding', w, n)
    ensures IsSuffixed(plan.base[w], n)
  {
    var t :| 0 <= t < |plan.holders[w]| && plan.holders[w][t].1 in holding && plan.holders[w][t].1 in holding'
      && holding[plan.holders[w][t].1] != holding'[plan.holders[w][t].1]
      && (n == holding[plan.holders[w][t].1] || n == holding'[plan.holders[w][t].1]);
    FormedName(plan, holding, w, t);
    FormedName(plan, holding', w, t);
  }

  lemma FinalUnmoved(plan: Plan, holding: map<Id, string>, holding': map<Id, string>, w: string, n: string)
    requires plan.Valid() && w in plan.base && plan.Final(holding, w) && plan.Final(holding', w)
    ensures !Moved(plan, holding, holding', w, n)
  {
  }

  /** At the event's start a path with well-formed names is named by the rule. */
  lemma StartFormed(plan: Plan, v: string)
    requires plan.Valid() && v in plan.base
    requires Shaped(plan.base[v], NamesAt(plan.before, plan.holders[v]), plan.base[v] !in plan.res)
    ensures plan.Formed(plan.before, v)
  {
    var names := NamesAt(plan.before, plan.holders[v]);
    HolderNamesStable(plan.base[v], names, plan.base[v] !in plan.res, {});
    assert plan.Held(plan.before, v, plan.Target(v, {}));
  }
}
