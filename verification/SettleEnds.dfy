/** How settling starts and where it ends: from an index whose unmarked paths need
    no renaming to one in which no path does, named as the whole session decides. */
module SettleEnds {
  import opened Options
  import opened Sealing
  import opened NameText
  import opened BufferNames
  import opened HolderNaming
  import opened SessionNames
  import opened NameIndex
  import opened IndexSteps
  import opened IndexMarks
  import opened IndexFiling
  import opened IndexCounts
  import opened Settling
  import opened SettlePlan
  import opened SettleRun
  import opened RegistrySteps
  import opened PathNaming
  import opened SettleLoop

  // ----- the start -----

  ghost function MarkedPaths(open: Open, dirty: Dirty): set<string> {
    set v | v in open && Marked(open, dirty, v)
  }

  lemma StartNamed(open: Open, res: set<string>, holding: map<Id, string>, dirty: Dirty, excuse: set<string>, v: string)
    requires HoldersHold(holding, open) && AllGood(open, res, holding, dirty, excuse) && v in open
      && !Marked(open, dirty, v)
    requires PlanOf(open, res, holding).Valid()
    ensures NameAt(open[v]) == Some(PlanOf(open, res, holding).base[v]) && PlanOf(open, res, holding).Formed(holding, v)
  {
    StartFormed(PlanOf(open, res, holding), v);
  }

  lemma StartPlan(ix: Index, open: Open, holding: map<Id, string>)
    requires IndexOk(ix, open, holding)
    ensures var plan := PlanOf(open, ix.reserved.Keys, holding);
      plan.Valid() && plan.Fits(holding) && PlanFor(plan, open, ix.reserved.Keys) && plan.base.Keys == open.Keys
  {
    PlanValid(ix, open, holding);
    PlanFits(ix, open, holding);
  }

  /** No marked path can move a name of the holders of `v`. */
  ghost predicate SparesPath(open: Open, res: set<string>, holding: map<Id, string>, dirty: Dirty, v: string) {
    var plan := PlanOf(open, res, holding);
    plan.Valid() && Spared(plan, open, holding, dirty, {}, MarkedPaths(open, dirty), v)
  }

  ghost function SparedPaths(open: Open, res: set<string>, holding: map<Id, string>, dirty: Dirty): set<string> {
    set v | v in open && SparesPath(open, res, holding, dirty, v)
  }

  lemma StartRests(aim: Aim, open: Open, res: set<string>, holding: map<Id, string>, dirty: Dirty, v: string)
    requires aim.plan == PlanOf(open, res, holding) && aim.plan.Valid() && aim.plan.Fits(holding)
    requires aim.spared == SparedPaths(open, res, holding, dirty) && v in open && !Marked(open, dirty, v)
    ensures AtRest(aim, holding, MarkedPaths(open, dirty), v)
  {
    if forall w :: w in MarkedPaths(open, dirty) ==> w in aim.plan.base && Calm(aim.plan, holding, v, w) {
      UnreachedSpared(aim.plan, open, holding, dirty, v);
      assert SparesPath(open, res, holding, dirty, v);
    } else {
      var w :| w in MarkedPaths(open, dirty) && !(w in aim.plan.base && Calm(aim.plan, holding, v, w));
      assert w in open && w in aim.plan.base;
      assert Due(aim.plan, holding, MarkedPaths(open, dirty), v);
    }
  }

  lemma UnreachedSpared(plan: Plan, open: Open, holding: map<Id, string>, dirty: Dirty, v: string)
    requires plan.Valid() && plan.base.Keys == open.Keys && plan.before == holding && v in open
    requires !Marked(open, dirty, v)
    requires forall w :: w in MarkedPaths(open, dirty) ==> w in plan.base && Calm(plan, holding, v, w)
    ensures Spared(plan, open, holding, dirty, {}, MarkedPaths(open, dirty), v)
  {
    assert !Marked(open, {}, v);
  }

  ghost function AimOf(ix: Index, open: Open, holding: map<Id, string>, dirty: Dirty): Aim {
    Aim(PlanOf(open, ix.reserved.Keys, holding), SparedPaths(open, ix.reserved.Keys, holding, dirty))
  }

  lemma StartProgress(aim: Aim, open: Open, res: set<string>, holding: map<Id, string>, dirty: Dirty,
                      excuse: set<string>)
    requires HoldersHold(holding, open) && AllGood(open, res, holding, dirty, excuse)
    requires aim.plan == PlanOf(open, res, holding) && aim.plan.Valid() && aim.plan.Fits(holding)
    requires aim.spared == SparedPaths(open, res, holding, dirty)
    ensures Progress(aim, open, holding, dirty, {}, MarkedPaths(open, dirty))
  {
    var plan := aim.plan;
    forall v | v in open && v !in MarkedPaths(open, dirty)
      ensures NameAt(open[v]) == Some(plan.base[v]) && plan.Formed(holding, v)
        && AtRest(aim, holding, MarkedPaths(open, dirty), v)
    {
      StartNamed(open, res, holding, dirty, excuse, v);
      StartRests(aim, open, res, holding, dirty, v);
    }
  }

  /** What settling needs of the index: every path not marked is named by the rule. */
  ghost predicate Startable(ix: Index, buffers: map<Id, Buffer>, open: Open, holding: map<Id, string>, dirty: Dirty,
                            excuse: set<string>) {
    && IndexOk(ix, open, holding) && BuffersHold(buffers, holding) && HoldersHold(holding, open)
    && AllGood(open, ix.reserved.Keys, holding, dirty, excuse)
  }

  lemma StartSettles(ix: Index, buffers: map<Id, Buffer>, open: Open, holding: map<Id, string>)
    requires IndexOk(ix, open, holding) && BuffersHold(buffers, holding)
    ensures Settles(ix, buffers, map[], open, holding, PlanOf(open, ix.reserved.Keys, holding))
  {
    assert PlanFor(PlanOf(open, ix.reserved.Keys, holding), open, ix.reserved.Keys);
  }

  /** The index is exact and every path not marked is named by the rule, for whoever looks. */
  ghost predicate Begun(ix: Index, open: Open, holding: map<Id, string>, dirty: Dirty, excuse: set<string>)
    requires HoldersHold(holding, open)
  {
    forall k: nat {:trigger Look(k)} ::
      Look(k) ==> IndexOk(ix, open, holding) && AllGood(open, ix.reserved.Keys, holding, dirty, excuse)
  }

  lemma StartInRound(ix: Index, open: Open, holding: map<Id, string>, dirty: Dirty, excuse: set<string>)
    requires HoldersHold(holding, open) && Begun(ix, open, holding, dirty, excuse)
    ensures Progress(AimOf(ix, open, holding, dirty), open, holding, dirty, {}, MarkedPaths(open, dirty))
  {
    var res, aim := ix.reserved.Keys, AimOf(ix, open, holding, dirty);
    assert aim.plan.Valid() && aim.plan.Fits(holding) by {
      assert Look(0);
      StartPlan(ix, open, holding);
    }
    assert AllGood(open, res, holding, dirty, excuse) by { assert Look(0); }
    StartProgress(aim, open, res, holding, dirty, excuse);
  }

  /** Settling begins. */
  lemma StartRound(ix: Index, buffers: map<Id, Buffer>, open: Open, holding: map<Id, string>, dirty: Dirty,
                   excuse: set<string>)
    requires Startable(ix, buffers, open, holding, dirty, excuse)
    ensures Carried(ix, buffers, map[], open, holding, AimOf(ix, open, holding, dirty), dirty, {},
                    MarkedPaths(open, dirty), 0)
  {
    var aim := AimOf(ix, open, holding, dirty);
    assert Settles(ix, buffers, map[], open, holding, aim.plan) by { StartSettles(ix, buffers, open, holding); }
    assert Progress(aim, open, holding, dirty, {}, MarkedPaths(open, dirty)) by {
      StartInRound(ix, open, holding, dirty, excuse);
    }
    assert InRound(aim, open, holding, dirty, {}, MarkedPaths(open, dirty), 0);
  }

  // ----- the end -----

  /** Every name is an excuse: what is left is that holders are named by the rule. */
  ghost function AllNames(holding: map<Id, string>): set<string> {
    holding.Values
  }

  lemma TargetShaped(plan: Plan, holding: map<Id, string>, v: string, taken: set<string>)
    requires plan.Valid() && v in plan.base && plan.Held(holding, v, plan.Target(v, taken))
    ensures Shaped(plan.base[v], NamesAt(holding, plan.holders[v]), plan.base[v] !in plan.res)
    ensures forall n :: n in NamesAt(holding, plan.holders[v]) && n != plan.base[v] ==> n !in taken
  {
    assert NamesAt(holding, plan.holders[v]) == plan.Target(v, taken);
    HolderNamesShaped(plan.base[v], NamesAt(plan.before, plan.holders[v]), plan.base[v] !in plan.res, taken);
  }

  lemma FormedGood(plan: Plan, open: Open, res: set<string>, holding: map<Id, string>, v: string)
    requires plan.Valid() && PlanFor(plan, open, res) && HoldersHold(holding, open) && v in open
    requires plan.Formed(holding, v)
    ensures Good(open, res, holding, AllNames(holding), v)
  {
    var taken: set<string> :| plan.Held(holding, v, plan.Target(v, taken));
    TargetShaped(plan, holding, v, taken);
  }

  lemma EndCurrent(open: Open, nextPath: nat, res: set<string>, v: string)
    requires EntriesOk(open, nextPath) && Spelt(open) && v in open && NameAt(open[v]) == Some(BaseOf(open, res, v))
    ensures Current(open, res, v)
  {
    var d, e := Depth(OpenSet(open), res, open[v].names), open[v].depth.value;
    if d != e {
      SpellingDistinct(open[v].names, if d < e then d else e, if d < e then e else d);
    }
  }

  lemma EndRest(aim: Aim, open: Open, holding: map<Id, string>, unnamed: set<string>)
    requires Progress(aim, open, holding, {}, {}, unnamed)
    ensures aim.plan.AllFormed(holding)
    ensures forall v :: v in open ==>
      NameAt(open[v]) == Some(aim.plan.base[v]) && aim.plan.Formed(holding, v)
      && (aim.plan.Stable(holding, v) || v in aim.spared)
  {
    NoneUnnamed(aim, open, holding, {}, unnamed);
    forall v | v in open ensures aim.plan.Stable(holding, v) || v in aim.spared {
      assert !Marked(open, {}, v);
    }
  }

  lemma EndAllGood(plan: Plan, open: Open, nextPath: nat, res: set<string>, holding: map<Id, string>)
    requires plan.Valid() && PlanFor(plan, open, res) && HoldersHold(holding, open) && EntriesOk(open, nextPath)
      && Spelt(open)
    requires forall v :: v in open ==> NameAt(open[v]) == Some(plan.base[v]) && plan.Formed(holding, v)
    ensures AllGood(open, res, holding, {}, AllNames(holding))
  {
    forall v | v in open ensures Current(open, res, v) && Good(open, res, holding, AllNames(holding), v) {
      FormedGood(plan, open, res, holding, v);
      EndCurrent(open, nextPath, res, v);
    }
  }

  /** Every path is named by the rule, those no change reached as they were, and naming
      any other again would change nothing. */
  ghost predicate Ended(aim: Aim, holding: map<Id, string>) {
    && aim.plan.Valid() && aim.plan.Fits(holding) && aim.plan.AllFormed(holding)
    && (forall v :: v in aim.plan.base ==> aim.plan.Stable(holding, v) || v in aim.spared)
    && (forall v :: v in aim.spared ==>
        v in aim.plan.base && aim.plan.Held(holding, v, NamesAt(aim.plan.before, aim.plan.holders[v])))
  }

  /** Where settling ends: the index is exact, and so are the names. */
  ghost predicate Settled(ix: Index, buffers: map<Id, Buffer>, open: Open, holding: map<Id, string>, aim: Aim) {
    && IndexOk(ix, open, holding) && BuffersHold(buffers, holding) && HoldersHold(holding, open)
    && PlanFor(aim.plan, open, ix.reserved.Keys) && Ended(aim, holding)
    && AllGood(open, ix.reserved.Keys, holding, {}, AllNames(holding))
  }

  /** Nothing waits. */
  lemma EndRound(ix: Index, buffers: map<Id, Buffer>, prior: map<Id, string>, open: Open, holding: map<Id, string>,
                 aim: Aim,
                 unnamed: set<string>, rounds: nat)
    requires Carried(ix, buffers, prior, open, holding, aim, {}, {}, unnamed, rounds)
    ensures Settled(ix, buffers, open, holding, aim)
  {
    assert Look(0);
    IndexHolds(ix, open, holding);
    EndRest(aim, open, holding, unnamed);
    assert AllGood(open, ix.reserved.Keys, holding, {}, AllNames(holding)) by {
      EndAllGood(aim.plan, open, ix.files.nextPath, ix.reserved.Keys, holding);
    }
  }

  /** Settle the marked paths, in at most three rounds. */
  method Settle(ix: Index, buffers: map<Id, Buffer>, dirty: Dirty, ghost open: Open, ghost holding: map<Id, string>,
                ghost excuse: set<string>)
    returns (ix': Index, buffers': map<Id, Buffer>, rounds: nat, ghost open': Open, ghost holding': map<Id, string>)
    requires Startable(ix, buffers, open, holding, dirty, excuse)
    ensures Settled(ix', buffers', open', holding', AimOf(ix, open, holding, dirty))
    ensures OnlyNames(ix, buffers, open, ix', buffers', open')
    ensures rounds <= 3
  {
    StartRound(ix, buffers, open, holding, dirty, excuse);
    ghost var aim := AimOf(ix, open, holding, dirty);
    ghost var prior, unnamed;
    ix', buffers', rounds, prior, open', holding',
      unnamed := SettleMarked(ix, buffers, dirty, open, holding, aim, MarkedPaths(open, dirty));
    EndRound(ix', buffers', prior, open', holding', aim, unnamed, rounds);
  }
}
