/** A settling index, between one path named and the next: what every step of
    `settle` (src/buffer_registry.rs) keeps, in whatever order paths are taken. */
module SettleRun {
  import opened Options
  import opened NameText
  import opened BufferNames
  import opened HolderNaming
  import opened SessionNames
  import opened NameIndex
  import opened IndexMarks
  import opened Settling

  /** What a settling index aims at: the plan, and the paths no change will reach. */
  datatype Aim = Aim(plan: Plan, spared: set<string>)

  /** A path still to be named will give or take away a name that reads as `<N>` of
      `v`'s. */
  ghost predicate Due(plan: Plan, holding: map<Id, string>, unnamed: set<string>, v: string)
    requires plan.Valid() && v in plan.base
  {
    exists w :: w in unnamed && w in plan.base && !Calm(plan, holding, v, w)
  }

  /** Naming `v` would change nothing, or no change will reach it, or one will. */
  ghost predicate AtRest(aim: Aim, holding: map<Id, string>, unnamed: set<string>, v: string)
    requires aim.plan.Valid() && v in aim.plan.base
  {
    aim.plan.Stable(holding, v) || v in aim.spared || Due(aim.plan, holding, unnamed, v)
  }

  /** Every path named so far is named by the rule, and every path not waiting to
      be named is at rest. */
  ghost predicate Progress(aim: Aim, open: Open, holding: map<Id, string>, cur: Dirty, next: Dirty,
                           unnamed: set<string>) {
    var plan := aim.plan;
    && plan.Valid() && plan.Fits(holding) && plan.base.Keys == open.Keys
    && (forall v :: v in open && v !in unnamed ==> NameAt(open[v]) == Some(plan.base[v]) && plan.Formed(holding, v))
    && (forall v :: v in open && !Marked(open, cur, v) && !Marked(open, next, v) ==> AtRest(aim, holding, unnamed, v))
    && (forall v :: v in unnamed ==> v in open && Marked(open, cur, v))
  }

  /** What naming `w` changes, and the paths the changed names mark. */
  ghost predicate Named(plan: Plan, open: Open, holding: map<Id, string>, open': Open, holding': map<Id, string>,
                        w: string, next: Dirty, next': Dirty)
    requires plan.Valid() && w in plan.base && plan.base.Keys == open.Keys
  {
    && open'.Keys == open.Keys
    && (forall v :: v in open && v != w ==> open'[v] == open[v])
    && open'[w].names == open[w].names && NameAt(open'[w]) == Some(plan.base[w])
    && Regiven(plan, holding, holding', w, plan.Target(w, Others(holding, plan.holders[w])))
    && next <= next'
    && (forall n, v :: Moved(plan, holding, holding', w, n) && v in open' && SuffixOf(open'[v], n) ==>
        Marked(open', next', v))
    && (forall d :: d in next' && d !in next ==> MarkedFor(plan, holding, open', holding', w, d))
  }

  /** A name that moved is a `<N>` of the marked path's. */
  ghost predicate MarkedFor(plan: Plan, holding: map<Id, string>, open': Open, holding': map<Id, string>, w: string,
                            d: (string, string))
    requires w in plan.base && w in plan.holders
  {
    exists n ::
      Moved(plan, holding, holding', w, n) && d.1 in open' && NameAt(open'[d.1]).Some?
      && NameAt(open'[d.1]) == WithoutSuffix(n)
  }

  lemma NamedSelf(plan: Plan, open: Open, holding: map<Id, string>, open': Open, holding': map<Id, string>, w: string,
                  next: Dirty, next': Dirty)
    requires plan.Valid() && w in plan.base && plan.base.Keys == open.Keys
    requires Named(plan, open, holding, open', holding', w, next, next')
    ensures plan.Stable(holding', w) && plan.Formed(holding', w)
  {
    RegivenSelf(plan, holding, holding', w, plan.Target(w, Others(holding, plan.holders[w])));
    assert plan.Held(holding', w, plan.Target(w, Others(holding, plan.holders[w])));
  }

  lemma StillStable(plan: Plan, open: Open, holding: map<Id, string>, open': Open, holding': map<Id, string>,
                    w: string, next: Dirty, next': Dirty, v: string)
    requires plan.Valid() && plan.Fits(holding) && w in plan.base && plan.base.Keys == open.Keys
    requires Named(plan, open, holding, open', holding', w, next, next')
    requires v in open && v != w && NameAt(open[v]) == Some(plan.base[v]) && plan.Stable(holding, v)
    requires !Marked(open', next', v)
    ensures plan.Stable(holding', v)
  {
    forall n | IsSuffixed(plan.base[v], n) ensures !Moved(plan, holding, holding', w, n) {
      if Moved(plan, holding, holding', w, n) {
        SuffixedCut(plan.base[v], n);
        assert SuffixOf(open'[v], n);
      }
    }
    RegivenStable(plan, holding, holding', w, plan.Target(w, Others(holding, plan.holders[w])), v);
  }

  lemma StepFormed(plan: Plan, open: Open, holding: map<Id, string>, open': Open, holding': map<Id, string>,
                   w: string, next: Dirty, next': Dirty, v: string)
    requires plan.Valid() && plan.Fits(holding) && w in plan.base && plan.base.Keys == open.Keys
    requires Named(plan, open, holding, open', holding', w, next, next')
    requires v in open && (v != w ==> NameAt(open[v]) == Some(plan.base[v]) && plan.Formed(holding, v))
    ensures NameAt(open'[v]) == Some(plan.base[v]) && plan.Formed(holding', v)
  {
    if v == w {
      NamedSelf(plan, open, holding, open', holding', w, next, next');
    } else {
      RegivenFormed(plan, holding, holding', w, plan.Target(w, Others(holding, plan.holders[w])), v);
    }
  }

  /** Naming a path that is not calm moves a name that reads as `<N>` of the other's. */
  lemma NotCalmMoves(plan: Plan, holding: map<Id, string>, holding': map<Id, string>, v: string, w: string)
    returns (n: string)
    requires plan.Valid() && v in plan.base && w in plan.base && v != w && plan.Fits(holding) && plan.Fits(holding')
    requires !Calm(plan, holding, v, w) && plan.Formed(holding', w)
    ensures Moved(plan, holding, holding', w, n) && WithoutSuffix(n) == Some(plan.base[v])
  {
    var t :| 0 <= t < |plan.holders[w]| && !CalmAt(plan, holding, v, w, t);
    var id := plan.holders[w][t].1;
    FormedName(plan, holding', w, t);
    if holding'[id] != plan.base[w] {
      SuffixedCut(plan.base[w], holding'[id]);
    }
    n := if WithoutSuffix(holding[id]) == Some(plan.base[v]) then holding[id] else plan.base[w];
  }

  lemma NotCalmMarks(plan: Plan, open: Open, holding: map<Id, string>, open': Open, holding': map<Id, string>,
                     w: string, next: Dirty, next': Dirty, v: string)
    requires plan.Valid() && plan.Fits(holding) && plan.Fits(holding') && w in plan.base && plan.base.Keys == open.Keys
    requires Named(plan, open, holding, open', holding', w, next, next') && plan.Formed(holding', w)
    requires v in open && v != w && NameAt(open[v]) == Some(plan.base[v]) && !Calm(plan, holding, v, w)
    ensures Marked(open', next', v)
  {
    var n := NotCalmMoves(plan, holding, holding', v, w);
    assert SuffixOf(open'[v], n);
  }

  lemma StillDue(plan: Plan, open: Open, holding: map<Id, string>, open': Open, holding': map<Id, string>,
                 w: string, next: Dirty, next': Dirty, unnamed: set<string>, v: string)
    requires plan.Valid() && plan.Fits(holding) && plan.Fits(holding') && w in plan.base && plan.base.Keys == open.Keys
    requires Named(plan, open, holding, open', holding', w, next, next') && plan.Formed(holding', w)
    requires v in open && v != w && NameAt(open[v]) == Some(plan.base[v]) && Due(plan, holding, unnamed, v)
    requires !Marked(open', next', v)
    ensures Due(plan, holding', unnamed - {w}, v)
  {
    var u :| u in unnamed && u in plan.base && !Calm(plan, holding, v, u);
    if u == w {
      NotCalmMarks(plan, open, holding, open', holding', w, next, next', v);
    } else if Calm(plan, holding', v, u) {
      CalmBack(plan, holding, holding', w, plan.Target(w, Others(holding, plan.holders[w])), v, u);
    }
  }

  lemma StepsFormed(plan: Plan, open: Open, holding: map<Id, string>, open': Open, holding': map<Id, string>, w: string,
                    next: Dirty, next': Dirty, unnamed: set<string>)
    requires plan.Valid() && plan.Fits(holding) && w in plan.base && plan.base.Keys == open.Keys
    requires Named(plan, open, holding, open', holding', w, next, next')
    requires forall v :: v in open && v !in unnamed ==> NameAt(open[v]) == Some(plan.base[v]) && plan.Formed(holding, v)
    ensures forall v :: v in open' && v !in unnamed - {w} ==>
      NameAt(open'[v]) == Some(plan.base[v]) && plan.Formed(holding', v)
  {
    forall v | v in open' && v !in unnamed - {w} ensures NameAt(open'[v]) == Some(plan.base[v])
      && plan.Formed(holding', v) {
      StepFormed(plan, open, holding, open', holding', w, next, next', v);
    }
  }

  lemma StepsRest(aim: Aim, open: Open, holding: map<Id, string>, open': Open, holding': map<Id, string>, w: string,
                  cur: Dirty, next: Dirty, next': Dirty, unnamed: set<string>)
    requires Progress(aim, open, holding, cur, next, unnamed) && w in open && aim.plan.Fits(holding')
    requires Named(aim.plan, open, holding, open', holding', w, next, next')
    ensures forall v :: v in open' && !Marked(open', cur - {(GroupAt(open, w), w)}, v) && !Marked(open', next', v) ==>
      AtRest(aim, holding', unnamed - {w}, v)
  {
    forall v | v in open' && !Marked(open', cur - {(GroupAt(open, w), w)}, v) && !Marked(open', next', v)
      ensures AtRest(aim, holding', unnamed - {w}, v)
    {
      StepRests(aim, open, holding, open', holding', w, cur, next, next', unnamed, v);
    }
  }

  /** Naming one path is progress, whichever path it is. */
  lemma Step(aim: Aim, open: Open, holding: map<Id, string>, open': Open, holding': map<Id, string>, w: string,
             cur: Dirty, next: Dirty, next': Dirty, unnamed: set<string>)
    requires Progress(aim, open, holding, cur, next, unnamed) && w in open
    requires Named(aim.plan, open, holding, open', holding', w, next, next')
    ensures Progress(aim, open', holding', cur - {(GroupAt(open, w), w)}, next', unnamed - {w})
  {
    var plan := aim.plan;
    assert plan.Fits(holding') by {
      RegivenFits(plan, holding, holding', w, plan.Target(w, Others(holding, plan.holders[w])));
    }
    StepsFormed(plan, open, holding, open', holding', w, next, next', unnamed);
    StepsRest(aim, open, holding, open', holding', w, cur, next, next', unnamed);
    StepsMarks(open, open', w, cur, unnamed);
  }

  lemma StepsMarks(open: Open, open': Open, w: string, cur: Dirty, unnamed: set<string>)
    requires w in open && open'.Keys == open.Keys && forall v :: v in open ==> open'[v].names == open[v].names
    requires forall v :: v in unnamed ==> v in open && Marked(open, cur, v)
    ensures forall v :: v in unnamed - {w} ==> v in open' && Marked(open', cur - {(GroupAt(open, w), w)}, v)
  {
  }

  lemma RestStill(aim: Aim, open: Open, holding: map<Id, string>, open': Open, holding': map<Id, string>, w: string,
                  next: Dirty, next': Dirty, unnamed: set<string>, v: string)
    requires aim.plan.Valid() && aim.plan.Fits(holding) && aim.plan.Fits(holding') && w in aim.plan.base
      && aim.plan.base.Keys == open.Keys
    requires Named(aim.plan, open, holding, open', holding', w, next, next') && aim.plan.Formed(holding', w)
    requires v in open && v != w && NameAt(open[v]) == Some(aim.plan.base[v]) && AtRest(aim, holding, unnamed, v)
      && !Marked(open', next', v)
    ensures AtRest(aim, holding', unnamed - {w}, v)
  {
    if aim.plan.Stable(holding, v) {
      StillStable(aim.plan, open, holding, open', holding', w, next, next', v);
    } else if v !in aim.spared {
      StillDue(aim.plan, open, holding, open', holding', w, next, next', unnamed, v);
    }
  }

  lemma StepRests(aim: Aim, open: Open, holding: map<Id, string>, open': Open, holding': map<Id, string>, w: string,
                  cur: Dirty, next: Dirty, next': Dirty, unnamed: set<string>, v: string)
    requires Progress(aim, open, holding, cur, next, unnamed) && w in open && aim.plan.Fits(holding')
    requires Named(aim.plan, open, holding, open', holding', w, next, next')
    requires v in open' && !Marked(open', cur - {(GroupAt(open, w), w)}, v) && !Marked(open', next', v)
    ensures AtRest(aim, holding', unnamed - {w}, v)
  {
    var plan := aim.plan;
    assert plan.Stable(holding', w) && plan.Formed(holding', w) by {
      NamedSelf(plan, open, holding, open', holding', w, next, next');
    }
    if v != w {
      assert !Marked(open, cur, v) && !Marked(open, next, v);
      assert AtRest(aim, holding, unnamed, v) && v !in unnamed;
      RestStill(aim, open, holding, open', holding', w, next, next', unnamed, v);
    }
  }

  // ----- rounds -----

  /** Every path is named as the whole session decides. */
  ghost predicate AllFinal(plan: Plan, holding: map<Id, string>)
    requires plan.Valid()
  {
    forall v :: v in plan.base ==> plan.Final(holding, v)
  }

  /** The paths waiting for the next round are named as they will stay. */
  ghost predicate NextFinal(plan: Plan, open: Open, holding: map<Id, string>, next: Dirty)
    requires plan.Valid() && plan.base.Keys == open.Keys
  {
    forall d :: d in next ==> d.1 in open && plan.Final(holding, d.1)
  }

  lemma FormedFinal(plan: Plan, holding: map<Id, string>, v: string)
    requires plan.Valid() && plan.Fits(holding) && plan.AllFormed(holding) && v in plan.base && plan.Stable(holding, v)
    ensures plan.Final(holding, v)
  {
    FormedAgree(plan, holding, v);
  }

  /** Once every path is named by the rule, naming one gives its final names. */
  lemma CleanFinal(plan: Plan, open: Open, holding: map<Id, string>, open': Open, holding': map<Id, string>, w: string,
                   next: Dirty, next': Dirty)
    requires plan.Valid() && plan.Fits(holding) && plan.AllFormed(holding) && w in plan.base
      && plan.base.Keys == open.Keys
    requires Named(plan, open, holding, open', holding', w, next, next')
    ensures plan.Final(holding', w)
  {
    FormedAgree(plan, holding, w);
  }

  /** From the second round on, a path is marked again only by its own `<N>`. */
  lemma CleanStep(plan: Plan, open: Open, holding: map<Id, string>, open': Open, holding': map<Id, string>, w: string,
                  next: Dirty, next': Dirty)
    requires plan.Valid() && plan.Fits(holding) && plan.AllFormed(holding) && w in plan.base
      && plan.base.Keys == open.Keys
    requires forall v :: v in open ==> NameAt(open[v]) == Some(plan.base[v])
    requires Named(plan, open, holding, open', holding', w, next, next')
    requires NextFinal(plan, open, holding, next)
    ensures NextFinal(plan, open', holding', next')
  {
    assert plan.Final(holding', w) by { CleanFinal(plan, open, holding, open', holding', w, next, next'); }
    assert NextFinal(plan, open', holding', next) by {
      FinalKept(plan, open, holding, open', holding', w, next, next', next);
    }
    forall d | d in next' && d !in next ensures d.1 == w {
      CleanMark(plan, open, holding, open', holding', w, next, next', d);
    }
  }

  lemma CleanMark(plan: Plan, open: Open, holding: map<Id, string>, open': Open, holding': map<Id, string>, w: string,
                  next: Dirty, next': Dirty, d: (string, string))
    requires plan.Valid() && w in plan.base && plan.Formed(holding, w) && plan.base.Keys == open.Keys
    requires forall v :: v in open ==> NameAt(open[v]) == Some(plan.base[v])
    requires Named(plan, open, holding, open', holding', w, next, next') && d in next' && d !in next
    ensures d.1 == w
  {
    NamedSelf(plan, open, holding, open', holding', w, next, next');
    var n :| Moved(plan, holding, holding', w, n) && d.1 in open' && NameAt(open'[d.1]).Some?
      && NameAt(open'[d.1]) == WithoutSuffix(n);
    MovedIsSuffix(plan, holding, holding', w, n);
    var k := SuffixedNumber(plan.base[w], n);
    WithoutSuffixOfSuffixed(plan.base[w], k);
    assert plan.base[d.1] == plan.base[w];
  }

  /** Named once more, a path named as it will stay changes nothing. */
  lemma FinalStep(plan: Plan, open: Open, holding: map<Id, string>, open': Open, holding': map<Id, string>, w: string,
                  next: Dirty, next': Dirty)
    requires plan.Valid() && plan.Fits(holding) && plan.AllFormed(holding) && w in plan.base
      && plan.base.Keys == open.Keys
    requires plan.Final(holding, w)
    requires Named(plan, open, holding, open', holding', w, next, next')
    ensures next' == next && plan.Final(holding', w)
  {
    assert plan.Final(holding', w) by { CleanFinal(plan, open, holding, open', holding', w, next, next'); }
    forall n ensures !Moved(plan, holding, holding', w, n) {
      FinalUnmoved(plan, holding, holding', w, n);
    }
    NothingMarked(plan, open, holding, open', holding', w, next, next');
  }

  lemma NothingMarked(plan: Plan, open: Open, holding: map<Id, string>, open': Open, holding': map<Id, string>,
                      w: string, next: Dirty, next': Dirty)
    requires plan.Valid() && w in plan.base && plan.base.Keys == open.Keys
    requires Named(plan, open, holding, open', holding', w, next, next')
      && forall n :: !Moved(plan, holding, holding', w, n)
    ensures next' == next
  {
  }

  /** Naming a path leaves what is marked, and named as it will stay, so. */
  lemma FinalKept(plan: Plan, open: Open, holding: map<Id, string>, open': Open, holding': map<Id, string>, w: string,
                  next: Dirty, next': Dirty, marks: Dirty)
    requires plan.Valid() && w in plan.base && plan.base.Keys == open.Keys
    requires Named(plan, open, holding, open', holding', w, next, next') && plan.Final(holding', w)
    requires NextFinal(plan, open, holding, marks)
    ensures NextFinal(plan, open', holding', marks)
  {
    forall d | d in marks ensures d.1 in open' && plan.Final(holding', d.1) {
      if d.1 != w {
        RegivenOther(plan, holding, holding', w, plan.Target(w, Others(holding, plan.holders[w])), d.1,
                     plan.Target(d.1, plan.Taken()));
      }
    }
  }

  // ----- a path no change reaches -----

  ghost function KeeperOf(plan: Plan, w: string): int
    requires plan.Valid() && w in plan.base
  {
    Keeper(plan.base[w], NamesAt(plan.before, plan.holders[w]), plan.base[w] !in plan.res)
  }

  /** Naming `w` neither gives nor takes away a name that reads as `<N>` of `v`'s:
      only its keeper has one, and keeps it. */
  ghost predicate Calm(plan: Plan, holding: map<Id, string>, v: string, w: string)
    requires plan.Valid() && v in plan.base && w in plan.base
  {
    forall t :: 0 <= t < |plan.holders[w]| ==> CalmAt(plan, holding, v, w, t)
  }

  ghost predicate CalmAt(plan: Plan, holding: map<Id, string>, v: string, w: string, t: nat)
    requires plan.Valid() && v in plan.base && w in plan.base && t < |plan.holders[w]|
  {
    var id := plan.holders[w][t].1;
    id in holding
    && ((WithoutSuffix(holding[id]) == Some(plan.base[v])
         || (t == KeeperOf(plan, w) && WithoutSuffix(plan.base[w]) == Some(plan.base[v])))
        ==> t == KeeperOf(plan, w) && holding[id] == plan.base[w])
  }

  /** `v` is not marked, its holders' names are as they were, and no path still to
      be named will change that. */
  ghost predicate Spared(plan: Plan, open: Open, holding: map<Id, string>, cur: Dirty, next: Dirty,
                         unnamed: set<string>, v: string)
    requires plan.Valid() && plan.base.Keys == open.Keys
  {
    && v in open && v !in unnamed && !Marked(open, cur, v) && !Marked(open, next, v)
    && plan.Held(holding, v, NamesAt(plan.before, plan.holders[v]))
    && forall w :: w in unnamed ==> w in plan.base && Calm(plan, holding, v, w)
  }

  lemma CalmUnmoved(plan: Plan, holding: map<Id, string>, holding': map<Id, string>, v: string, w: string, n: string)
    requires plan.Valid() && v in plan.base && w in plan.base && v != w
    requires Calm(plan, holding, v, w) && plan.Formed(holding', w) && WithoutSuffix(n) == Some(plan.base[v])
    ensures !Moved(plan, holding, holding', w, n)
  {
    forall t | 0 <= t < |plan.holders[w]|
      ensures var id := plan.holders[w][t].1;
        id in holding && id in holding' && (n == holding[id] || n == holding'[id] ==> holding[id] == holding'[id])
    {
      CalmHolder(plan, holding, holding', v, w, n, t);
    }
  }

  lemma CalmHolder(plan: Plan, holding: map<Id, string>, holding': map<Id, string>, v: string, w: string, n: string,
                   t: nat)
    requires plan.Valid() && v in plan.base && w in plan.base && v != w && t < |plan.holders[w]|
    requires CalmAt(plan, holding, v, w, t) && plan.Formed(holding', w) && WithoutSuffix(n) == Some(plan.base[v])
    ensures var id := plan.holders[w][t].1;
      id in holding && id in holding' && (n == holding[id] || n == holding'[id] ==> holding[id] == holding'[id])
  {
    FormedName(plan, holding', w, t);
    if n == holding'[plan.holders[w][t].1] && n != plan.base[w] {
      SuffixedCut(plan.base[w], n);
    }
  }

  lemma FormedUnmoved(plan: Plan, holding: map<Id, string>, holding': map<Id, string>, v: string, w: string, n: string)
    requires plan.Valid() && v in plan.base && w in plan.base && v != w
    requires plan.Formed(holding, w) && plan.Formed(holding', w) && WithoutSuffix(n) == Some(plan.base[v])
    ensures !Moved(plan, holding, holding', w, n)
  {
    if Moved(plan, holding, holding', w, n) {
      MovedIsSuffix(plan, holding, holding', w, n);
      var k := SuffixedNumber(plan.base[w], n);
      WithoutSuffixOfSuffixed(plan.base[w], k);
    }
  }

  lemma HoldersUnmoved(plan: Plan, holding: map<Id, string>, holding': map<Id, string>, w: string, names: seq<string>,
                       u: string, t: nat)
    requires plan.Valid() && w in plan.base && Regiven(plan, holding, holding', w, names) && u in plan.base && u != w
      && t < |plan.holders[u]|
    ensures var id := plan.holders[u][t].1;
      (id in holding <==> id in holding') && (id in holding ==> holding'[id] == holding[id])
  {
    assert plan.Apart(u, w);
    assert plan.holders[u][t].1 !in IdsOf(plan.holders[w]);
  }

  lemma CalmKept(plan: Plan, holding: map<Id, string>, holding': map<Id, string>, w: string, names: seq<string>,
                 v: string, u: string)
    requires plan.Valid() && w in plan.base && Regiven(plan, holding, holding', w, names)
    requires v in plan.base && u in plan.base && u != w && Calm(plan, holding, v, u)
    ensures Calm(plan, holding', v, u)
  {
    forall t | 0 <= t < |plan.holders[u]| ensures CalmAt(plan, holding', v, u, t) {
      assert CalmAt(plan, holding, v, u, t);
      HoldersUnmoved(plan, holding, holding', w, names, u, t);
    }
  }

  lemma CalmBack(plan: Plan, holding: map<Id, string>, holding': map<Id, string>, w: string, names: seq<string>,
                 v: string, u: string)
    requires plan.Valid() && w in plan.base && Regiven(plan, holding, holding', w, names)
    requires v in plan.base && u in plan.base && u != w && Calm(plan, holding', v, u)
    ensures Calm(plan, holding, v, u)
  {
    forall t | 0 <= t < |plan.holders[u]| ensures CalmAt(plan, holding, v, u, t) {
      assert CalmAt(plan, holding', v, u, t);
      HoldersUnmoved(plan, holding, holding', w, names, u, t);
    }
  }

  /** Naming a path keeps the spared one spared. */
  lemma SparedStep(plan: Plan, open: Open, holding: map<Id, string>, open': Open, holding': map<Id, string>, w: string,
                   cur: Dirty, next: Dirty, next': Dirty, unnamed: set<string>, v: string)
    requires plan.Valid() && plan.base.Keys == open.Keys && w in open && (GroupAt(open, w), w) in cur
    requires v in open && NameAt(open[v]) == Some(plan.base[v])
    requires w !in unnamed ==> plan.Formed(holding, w)
    requires Named(plan, open, holding, open', holding', w, next, next')
    requires Spared(plan, open, holding, cur, next, unnamed, v)
    ensures Spared(plan, open', holding', cur - {(GroupAt(open, w), w)}, next', unnamed - {w}, v)
  {
    assert v != w;
    var names := plan.Target(w, Others(holding, plan.holders[w]));
    assert plan.Formed(holding', w) by { NamedSelf(plan, open, holding, open', holding', w, next, next'); }
    assert plan.Held(holding', v, NamesAt(plan.before, plan.holders[v])) by {
      RegivenOther(plan, holding, holding', w, names, v, NamesAt(plan.before, plan.holders[v]));
    }
    forall u | u in unnamed && u != w ensures Calm(plan, holding', v, u) {
      CalmKept(plan, holding, holding', w, names, v, u);
    }
    forall n | WithoutSuffix(n) == Some(plan.base[v]) ensures !Moved(plan, holding, holding', w, n) {
      if w in unnamed {
        CalmUnmoved(plan, holding, holding', v, w, n);
      } else {
        FormedUnmoved(plan, holding, holding', v, w, n);
      }
    }
    assert !Marked(open', next', v);
  }
}
