/** Settling the marked paths of an index (`settle` in src/buffer_registry.rs):
    in at most three rounds, whichever order the paths are taken in, every path
    is named as the whole session decides. */
module SettleLoop {
  import opened Options
  import opened Sealing
  import opened NameText
  import opened BufferNames
  import opened HolderNaming
  import opened SessionNames
  import opened NameIndex
  import opened IndexSteps
  import opened IndexMarks
  import opened IndexFiling
  import opened IndexCounts
  import opened Settling
  import opened SettlePlan
  import opened SettleRun
  import opened RegistrySteps
  import opened PathNaming

  /** The index, the buffers and the names held at the event's start agree, and
      the plan is of the index's paths. */
  ghost predicate Settles(ix: Index, buffers: map<Id, Buffer>, prior: map<Id, string>, open: Open,
                          holding: map<Id, string>, plan: Plan) {
    && IndexOk(ix, open, holding)
    && Consistent(ix.held, buffers, prior, holding, plan.before)
    && PlanFor(plan, open, ix.reserved.Keys)
  }

  /** The names the holders of `w` are given. */
  ghost function NamesGiven(plan: Plan, holding: map<Id, string>, w: string): (names: seq<string>)
    requires plan.Valid() && w in plan.base
    ensures |names| == |plan.holders[w]|
  {
    plan.Target(w, Others(holding, plan.holders[w]))
  }

  ghost function HoldingNamed(plan: Plan, holding: map<Id, string>, w: string): map<Id, string>
    requires plan.Valid() && w in plan.base
  {
    Given(holding, plan.holders[w], NamesGiven(plan, holding, w), |plan.holders[w]|)
  }

  /** What `NameEntry` needs of the index. */
  lemma EntryReads(ix: Index, buffers: map<Id, Buffer>, prior: map<Id, string>, open: Open, holding: map<Id, string>,
                   plan: Plan, w: string)
    requires Settles(ix, buffers, prior, open, holding, plan) && plan.Valid() && w in open
    ensures var g, h := GroupAt(open, w), plan.holders[w];
      && g in ix.files.groups && w in ix.files.groups[g].paths && ix.files.groups[g].paths[w] == open[w]
      && open[w].holders == h
      && DistinctIds(h) && (forall t :: 0 <= t < |h| ==> h[t].1 in holding && h[t].1 in buffers)
      && EntryNames(ix, buffers, g, w, prior) == NamesGiven(plan, holding, w)
  {
    EntryTaken(ix, buffers, open, holding, w);
    EntryNamesAre(ix, buffers, w, prior, open, holding, plan);
  }

  lemma GivenExplicit(ix: Index, open: Open, holding: map<Id, string>, plan: Plan, w: string)
    requires IndexOk(ix, open, holding) && PlanFor(plan, open, ix.reserved.Keys)
    requires plan.Valid() && plan.Fits(holding) && w in open
    ensures var holding' := HoldingNamed(plan, holding, w);
      holding'.Keys == holding.Keys && forall id ::
      id in holding && id !in ix.files.member ==> holding'[id] == holding[id]
  {
    var holding', h := HoldingNamed(plan, holding, w), plan.holders[w];
    assert Regiven(plan, holding, holding', w, NamesGiven(plan, holding, w)) by {
      GivenRegiven(plan, holding, w, NamesGiven(plan, holding, w));
    }
    forall id | id in holding && id !in ix.files.member ensures holding'[id] == holding[id] {
      if id in IdsOf(h) { HoldersAreMembers(ix, open, holding, w, id); }
    }
  }

  ghost function IndexNamed(ix: Index, open: Open, w: string, held: map<string, nat>): Index
    requires w in open && GroupAt(open, w) in ix.files.groups && w in ix.files.groups[GroupAt(open, w)].paths
  {
    var g := GroupAt(open, w);
    ix.(files := ix.files.(groups := Refiled(ix.files.groups, g, w, EntryDepth(ix, g, w))), held := held)
  }

  /** Naming a path keeps the index. */
  lemma SettlesNamed(ix: Index, buffers: map<Id, Buffer>, prior: map<Id, string>, open: Open, holding: map<Id, string>,
                     plan: Plan, w: string,
                     held: map<string, nat>, buffers': map<Id, Buffer>, prior': map<Id, string>)
    requires Settles(ix, buffers, prior, open, holding, plan) && plan.Valid() && plan.Fits(holding) && w in open
    requires Consistent(held, buffers', prior', HoldingNamed(plan, holding, w), plan.before)
    ensures GroupAt(open, w) in ix.files.groups && w in ix.files.groups[GroupAt(open, w)].paths
    ensures Settles(IndexNamed(ix, open, w, held), buffers', prior', OpenNamed(open, ix.reserved.Keys, w),
                    HoldingNamed(plan, holding, w), plan)
  {
    var open', holding' := OpenNamed(open, ix.reserved.Keys, w), HoldingNamed(plan, holding, w);
    assert holding'.Keys == holding.Keys && forall id ::
      id in holding && id !in ix.files.member ==> holding'[id] == holding[id] by {
      GivenExplicit(ix, open, holding, plan, w);
    }
    EntryFiled(ix, open, holding, w, held, holding');
    assert PlanFor(plan, open', ix.reserved.Keys) by { PlanKept(plan, open, ix.reserved.Keys, w, open'[w]); }
  }

  lemma OpenNamedIs(plan: Plan, open: Open, res: set<string>, w: string)
    requires PlanFor(plan, open, res) && w in open
    ensures var open' := OpenNamed(open, res, w);
      && open'.Keys == open.Keys && (forall v :: v in open && v != w ==> open'[v] == open[v])
      && open'[w].names == open[w].names && NameAt(open'[w]) == Some(plan.base[w])
  {
  }

  /** Naming a path and marking what its names can move is a step of settling. */
  lemma EntryNamed(plan: Plan, groups: map<string, Group>, open: Open, res: set<string>, holding: map<Id, string>,
                   w: string, next: Dirty)
    requires plan.Valid() && plan.Fits(holding) && PlanFor(plan, open, res) && w in open
    requires GroupsOk(groups, OpenNamed(open, res, w)) && Spelt(OpenNamed(open, res, w))
    ensures plan.holders[w] == open[w].holders
    ensures forall t :: 0 <= t < |plan.holders[w]| ==> plan.holders[w][t].1 in holding
    ensures var renamed := Changes(holding, plan.holders[w], NamesGiven(plan, holding, w), |plan.holders[w]|);
      Named(plan, open, holding, OpenNamed(open, res, w), HoldingNamed(plan, holding, w), w, next,
            next + RenamedDirty(groups, renamed))
  {
    assert forall t :: 0 <= t < |plan.holders[w]| ==> plan.holders[w][t].1 in holding;
    var renamed := Changes(holding, plan.holders[w], NamesGiven(plan, holding, w), |plan.holders[w]|);
    assert Lists(plan, holding, HoldingNamed(plan, holding, w), w, renamed) by {
      GivenLists(plan, holding, w, NamesGiven(plan, holding, w));
    }
    assert Regiven(plan, holding, HoldingNamed(plan, holding, w), w, NamesGiven(plan, holding, w)) by {
      GivenRegiven(plan, holding, w, NamesGiven(plan, holding, w));
    }
    OpenNamedIs(plan, open, res, w);
    NamedFrom(plan, groups, open, holding, OpenNamed(open, res, w), HoldingNamed(plan, holding, w), w, renamed, next);
  }

  // ----- rounds -----

  /** Within a round: from the second on, every path is named by the rule and
      what waits is named as it will stay; from the third on, all that is marked
      is. */
  ghost predicate InRound(aim: Aim, open: Open, holding: map<Id, string>, cur: Dirty, next: Dirty, unnamed: set<string>,
                          rounds: nat) {
    && Progress(aim, open, holding, cur, next, unnamed)
    && (rounds >= 1 ==> unnamed == {} && NextFinal(aim.plan, open, holding, next))
    && (rounds >= 2 ==> NextFinal(aim.plan, open, holding, cur) && next == {})
    && (forall v :: v in aim.spared ==> Spared(aim.plan, open, holding, cur, next, unnamed, v))
  }

  /** From the second round on, naming a path. */
  lemma CleanRound(aim: Aim, open: Open, holding: map<Id, string>, open': Open, holding': map<Id, string>, w: string,
                   cur: Dirty, next: Dirty, next': Dirty)
    requires Progress(aim, open, holding, cur, next, {}) && w in open
    requires Named(aim.plan, open, holding, open', holding', w, next, next') && NextFinal(aim.plan, open, holding, next)
    ensures NextFinal(aim.plan, open', holding', next')
    ensures NextFinal(aim.plan, open, holding, cur) && (GroupAt(open, w), w) in cur && next == {} ==>
      NextFinal(aim.plan, open', holding', cur - {(GroupAt(open, w), w)}) && next' == {}
  {
    var plan, cur' := aim.plan, cur - {(GroupAt(open, w), w)};
    assert plan.AllFormed(holding);
    assert NextFinal(plan, open', holding', next') by {
      CleanStep(plan, open, holding, open', holding', w, next, next');
    }
    if NextFinal(plan, open, holding, cur) && (GroupAt(open, w), w) in cur && next == {} {
      FinalStep(plan, open, holding, open', holding', w, next, next');
      assert NextFinal(plan, open', holding', cur') by {
        FinalKept(plan, open, holding, open', holding', w, next, next', cur');
      }
    }
  }

  lemma RoundStep(aim: Aim, open: Open, holding: map<Id, string>, open': Open, holding': map<Id, string>, w: string,
                  cur: Dirty, next: Dirty, next': Dirty, unnamed: set<string>, rounds: nat)
    requires InRound(aim, open, holding, cur, next, unnamed, rounds) && w in open && (GroupAt(open, w), w) in cur
    requires Named(aim.plan, open, holding, open', holding', w, next, next')
    ensures InRound(aim, open', holding', cur - {(GroupAt(open, w), w)}, next', unnamed - {w}, rounds)
  {
    assert Progress(aim, open', holding', cur - {(GroupAt(open, w), w)}, next', unnamed - {w}) by {
      Step(aim, open, holding, open', holding', w, cur, next, next', unnamed);
    }
    if rounds >= 1 {
      CleanRound(aim, open, holding, open', holding', w, cur, next, next');
    }
    forall v | v in aim.spared ensures Spared(aim.plan, open', holding', cur - {(GroupAt(open, w), w)}, next',
                                              unnamed - {w}, v) {
      SparedStep(aim.plan, open, holding, open', holding', w, cur, next, next', unnamed, v);
    }
  }

  /** A mark on a path no longer open names nothing. */
  lemma SkipProgress(aim: Aim, open: Open, holding: map<Id, string>, cur: Dirty, cur': Dirty, next: Dirty,
                     unnamed: set<string>)
    requires Progress(aim, open, holding, cur, next, unnamed)
    requires forall v :: v in open ==> (Marked(open, cur, v) <==> Marked(open, cur', v))
    ensures Progress(aim, open, holding, cur', next, unnamed)
  {
  }

  lemma SkipRound(aim: Aim, open: Open, holding: map<Id, string>, cur: Dirty, cur': Dirty, next: Dirty,
                  unnamed: set<string>, rounds: nat)
    requires InRound(aim, open, holding, cur, next, unnamed, rounds) && cur' <= cur
    requires forall v :: v in open ==> (Marked(open, cur, v) <==> Marked(open, cur', v))
    ensures InRound(aim, open, holding, cur', next, unnamed, rounds)
  {
    assert Progress(aim, open, holding, cur', next, unnamed) by {
      SkipProgress(aim, open, holding, cur, cur', next, unnamed);
    }
    assert rounds >= 2 ==> NextFinal(aim.plan, open, holding, cur') by {
      if rounds >= 2 { FewerFinal(aim.plan, open, holding, cur, cur'); }
    }
  }

  lemma FewerFinal(plan: Plan, open: Open, holding: map<Id, string>, cur: Dirty, cur': Dirty)
    requires plan.Valid() && plan.base.Keys == open.Keys && NextFinal(plan, open, holding, cur) && cur' <= cur
    ensures NextFinal(plan, open, holding, cur')
  {
  }

  lemma SkipMarks(open: Open, cur: Dirty, d: (string, string))
    requires !(d.1 in open && GroupAt(open, d.1) == d.0)
    ensures forall v :: v in open ==> (Marked(open, cur, v) <==> Marked(open, cur - {d}, v))
  {
  }

  lemma RoundSkip(aim: Aim, open: Open, holding: map<Id, string>, cur: Dirty, next: Dirty, d: (string, string),
                  unnamed: set<string>, rounds: nat)
    requires InRound(aim, open, holding, cur, next, unnamed, rounds)
    requires !(d.1 in open && GroupAt(open, d.1) == d.0)
    ensures InRound(aim, open, holding, cur - {d}, next, unnamed, rounds)
  {
    SkipMarks(open, cur, d);
    SkipRound(aim, open, holding, cur, cur - {d}, next, unnamed, rounds);
  }

  lemma NoneUnnamed(aim: Aim, open: Open, holding: map<Id, string>, next: Dirty, unnamed: set<string>)
    requires Progress(aim, open, holding, {}, next, unnamed)
    ensures unnamed == {}
  {
    if v :| v in unnamed {
    }
  }

  lemma ProgressSwapped(aim: Aim, open: Open, holding: map<Id, string>, next: Dirty)
    requires Progress(aim, open, holding, {}, next, {})
    ensures Progress(aim, open, holding, next, {}, {})
  {
    assert forall v :: v in open ==> !Marked(open, {}, v);
  }

  lemma RoundEnd(aim: Aim, open: Open, holding: map<Id, string>, next: Dirty, unnamed: set<string>, rounds: nat)
    requires InRound(aim, open, holding, {}, next, unnamed, rounds)
    ensures InRound(aim, open, holding, next, {}, {}, rounds + 1)
    ensures rounds >= 2 ==> next == {}
  {
    NoneUnnamed(aim, open, holding, next, unnamed);
    assert Progress(aim, open, holding, next, {}, {}) by { ProgressSwapped(aim, open, holding, next); }
  }

  /** The same paths with the same holders, perhaps filed under other names. */
  ghost predicate SameButDepths(open: Open, open': Open) {
    open'.Keys == open.Keys && forall v :: v in open ==> SameEntry(open[v], open'[v])
  }

  ghost predicate SameEntry(e: GroupPath, e': GroupPath) {
    e'.id == e.id && e'.path == e.path && e'.names == e.names && e'.holders == e.holders
  }

  lemma OpenNamedSame(open: Open, res: set<string>, w: string)
    requires w in open
    ensures SameButDepths(open, OpenNamed(open, res, w))
  {
  }

  /** Only names, and the depths paths are filed at, changed. */
  ghost predicate OnlyNames(ix: Index, buffers: map<Id, Buffer>, open: Open, ix': Index, buffers': map<Id, Buffer>,
                            open': Open) {
    forall k: nat {:trigger Look(k)} :: Look(k) ==>
      SameTables(ix, ix') && SameButNames(buffers, buffers') && SameButDepths(open, open')
  }

  lemma OnlyNamesSame(ix: Index, buffers: map<Id, Buffer>, open: Open)
    ensures OnlyNames(ix, buffers, open, ix, buffers, open)
  {
  }

  lemma OnlyNamesMore(ix: Index, buffers: map<Id, Buffer>, open: Open, ix': Index, buffers': map<Id, Buffer>,
                      open': Open,
                      ix'': Index, buffers'': map<Id, Buffer>, open'': Open)
    requires OnlyNames(ix, buffers, open, ix', buffers', open')
      && OnlyNames(ix', buffers', open', ix'', buffers'', open'')
    ensures OnlyNames(ix, buffers, open, ix'', buffers'', open'')
  {
    assert Look(0);
  }

  /** What a settling loop carries along. It is stated for whoever looks, so that
      a loop that only hands it on does not unfold it. */
  ghost predicate Carried(ix: Index, buffers: map<Id, Buffer>, prior: map<Id, string>, open: Open,
                          holding: map<Id, string>, aim: Aim,
                          cur: Dirty, next: Dirty, unnamed: set<string>, rounds: nat) {
    forall k: nat {:trigger Look(k)} :: Look(k) ==>
      && Settles(ix, buffers, prior, open, holding, aim.plan)
      && InRound(aim, open, holding, cur, next, unnamed, rounds)
  }

  lemma CarriedEnd(ix: Index, buffers: map<Id, Buffer>, prior: map<Id, string>, open: Open, holding: map<Id, string>,
                   aim: Aim,
                   next: Dirty, unnamed: set<string>, rounds: nat)
    requires Carried(ix, buffers, prior, open, holding, aim, {}, next, unnamed, rounds)
    ensures Carried(ix, buffers, prior, open, holding, aim, next, {}, {}, rounds + 1)
    ensures rounds >= 2 ==> next == {}
  {
    assert Look(0);
    RoundEnd(aim, open, holding, next, unnamed, rounds);
  }

  lemma CarriedReads(ix: Index, buffers: map<Id, Buffer>, prior: map<Id, string>, open: Open, holding: map<Id, string>,
                     aim: Aim,
                     cur: Dirty, next: Dirty, unnamed: set<string>, rounds: nat, g: string, w: string)
    requires Carried(ix, buffers, prior, open, holding, aim, cur, next, unnamed, rounds)
    ensures g in ix.files.groups && w in ix.files.groups[g].paths ==>
      Readable(ix, buffers, prior, holding, aim.plan.before, g, w)
    ensures !(g in ix.files.groups && w in ix.files.groups[g].paths) ==>
      Carried(ix, buffers, prior, open, holding, aim, cur - {(g, w)}, next, unnamed, rounds)
  {
    assert Look(0);
    NotInGroup(ix.files.groups, open, g, w);
    if g in ix.files.groups && w in ix.files.groups[g].paths {
      EntryReads(ix, buffers, prior, open, holding, aim.plan, w);
    } else {
      RoundSkip(aim, open, holding, cur, next, (g, w), unnamed, rounds);
    }
  }

  /** The names that come and go when a path is named. */
  ghost function ChangesGiven(plan: Plan, holding: map<Id, string>, w: string): seq<(string, string)>
    requires plan.Valid() && w in plan.base && plan.Fits(holding)
  {
    var h := plan.holders[w];
    assert forall t :: 0 <= t < |h| ==> h[t].1 in holding;
    Changes(holding, h, NamesGiven(plan, holding, w), |h|)
  }

  lemma SettlesGiven(ix: Index, buffers: map<Id, Buffer>, prior: map<Id, string>, open: Open, holding: map<Id, string>,
                     plan: Plan, g: string, w: string,
                     ix': Index, buffers': map<Id, Buffer>, prior': map<Id, string>, renamed: seq<(string, string)>)
    requires plan.Valid() && plan.Fits(holding) && w in open && w in plan.base && g == GroupAt(open, w)
    requires Settles(ix, buffers, prior, open, holding, plan)
    requires Readable(ix, buffers, prior, holding, plan.before, g, w)
    requires EntryGiven(ix, buffers, prior, holding, plan.before, g, w, ix', buffers', prior', renamed)
    ensures Settles(ix', buffers', prior', OpenNamed(open, ix.reserved.Keys, w), HoldingNamed(plan, holding, w), plan)
    ensures renamed == ChangesGiven(plan, holding, w)
  {
    EntryReads(ix, buffers, prior, open, holding, plan, w);
    SettlesNamed(ix, buffers, prior, open, holding, plan, w, ix'.held, buffers', prior');
  }

  lemma RoundGiven(groups: map<string, Group>, open: Open, res: set<string>, holding: map<Id, string>, aim: Aim,
                   cur: Dirty, next: Dirty, unnamed: set<string>, rounds: nat, w: string,
                   renamed: seq<(string, string)>)
    requires InRound(aim, open, holding, cur, next, unnamed, rounds) && w in open && (GroupAt(open, w), w) in cur
    requires PlanFor(aim.plan, open, res) && GroupsOk(groups, OpenNamed(open, res, w)) && Spelt(OpenNamed(open, res, w))
    requires renamed == ChangesGiven(aim.plan, holding, w)
    ensures InRound(aim, OpenNamed(open, res, w), HoldingNamed(aim.plan, holding, w), cur - {(GroupAt(open, w), w)},
                    next + RenamedDirty(groups, renamed), unnamed - {w}, rounds)
  {
    EntryNamed(aim.plan, groups, open, res, holding, w, next);
    RoundStep(aim, open, holding, OpenNamed(open, res, w), HoldingNamed(aim.plan, holding, w), w, cur, next,
              next + RenamedDirty(groups, renamed),
              unnamed, rounds);
  }

  /** One path named, and the paths its names can move marked. */
  lemma CarriedNamed(ix: Index, buffers: map<Id, Buffer>, prior: map<Id, string>, open: Open, holding: map<Id, string>,
                     aim: Aim,
                     cur: Dirty, next: Dirty, unnamed: set<string>, rounds: nat, g: string, w: string,
                     ix': Index, buffers': map<Id, Buffer>, prior': map<Id, string>, renamed: seq<(string, string)>)
    returns (open': Open, holding': map<Id, string>)
    requires Carried(ix, buffers, prior, open, holding, aim, cur, next, unnamed, rounds)
    requires (g, w) in cur && Readable(ix, buffers, prior, holding, aim.plan.before, g, w)
    requires EntryGiven(ix, buffers, prior, holding, aim.plan.before, g, w, ix', buffers', prior', renamed)
    ensures Carried(ix', buffers', prior', open', holding', aim, cur - {(g, w)},
                    next + RenamedDirty(ix'.files.groups, renamed),
                    unnamed - {w}, rounds)
    ensures OnlyNames(ix, buffers, open, ix', buffers', open')
  {
    assert Look(0);
    assert w in open && GroupAt(open, w) == g by { NotInGroup(ix.files.groups, open, g, w); }
    open', holding' := OpenNamed(open, ix.reserved.Keys, w), HoldingNamed(aim.plan, holding, w);
    SettlesGiven(ix, buffers, prior, open, holding, aim.plan, g, w, ix', buffers', prior', renamed);
    assert SameButDepths(open, open') by { OpenNamedSame(open, ix.reserved.Keys, w); }
    RoundGiven(ix'.files.groups, open, ix.reserved.Keys, holding, aim, cur, next, unnamed, rounds, w, renamed);
  }

  /** Name one marked path, if it is still open. */
  method NameOne(ix: Index, buffers: map<Id, Buffer>, prior: map<Id, string>, d: (string, string), ghost cur: Dirty,
                 next: Dirty,
                 ghost open: Open, ghost holding: map<Id, string>, ghost aim: Aim,
                 ghost unnamed: set<string>, ghost rounds: nat)
    returns (ix': Index, buffers': map<Id, Buffer>, prior': map<Id, string>, next': Dirty, ghost open': Open,
             ghost holding': map<Id, string>,
             ghost unnamed': set<string>)
    requires d in cur
    requires Carried(ix, buffers, prior, open, holding, aim, cur, next, unnamed, rounds)
    ensures Carried(ix', buffers', prior', open', holding', aim, cur - {d}, next', unnamed', rounds)
    ensures OnlyNames(ix, buffers, open, ix', buffers', open')
  {
    var (g, w) := d;
    CarriedReads(ix, buffers, prior, open, holding, aim, cur, next, unnamed, rounds, g, w);
    if g in ix.files.groups && w in ix.files.groups[g].paths {
      var renamed;
      ix', buffers', prior', renamed := NameEntry(ix, buffers, g, w, prior, holding, aim.plan.before);
      next' := MarkRenamed(ix'.files.groups, renamed, next);
      open', holding' := CarriedNamed(ix, buffers, prior, open, holding, aim, cur, next, unnamed, rounds, g, w,
                                      ix', buffers', prior', renamed);
      unnamed' := unnamed - {w};
    } else {
      ix', buffers', prior', next' := ix, buffers, prior, next;
      open', holding', unnamed' := open, holding, unnamed;
      OnlyNamesSame(ix, buffers, open);
    }
  }

  /** Name every marked path, marking those the changed names can move in turn. */
  method NameRound(ix: Index, buffers: map<Id, Buffer>, prior: map<Id, string>, dirty: Dirty,
                   ghost open: Open, ghost holding: map<Id, string>, ghost aim: Aim,
                   ghost unnamed: set<string>, ghost rounds: nat)
    returns (ix': Index, buffers': map<Id, Buffer>, prior': map<Id, string>, next: Dirty, ghost open': Open,
             ghost holding': map<Id, string>)
    requires Carried(ix, buffers, prior, open, holding, aim, dirty, {}, unnamed, rounds)
    ensures Carried(ix', buffers', prior', open', holding', aim, next, {}, {}, rounds + 1)
    ensures rounds >= 2 ==> next == {}
    ensures OnlyNames(ix, buffers, open, ix', buffers', open')
  {
    ix', buffers', prior', next := ix, buffers, prior, {};
    open', holding' := open, holding;
    var cur := dirty;
    ghost var unnamed' := unnamed;
    while cur != {}
      invariant Carried(ix', buffers', prior', open', holding', aim, cur, next, unnamed', rounds)
      invariant OnlyNames(ix, buffers, open, ix', buffers', open')
      decreases cur
    {
      var d :| d in cur;
      ghost var ix0, buffers0, open0 := ix', buffers', open';
      ix', buffers', prior', next, open', holding', unnamed' :=
        NameOne(ix', buffers', prior', d, cur, next, open', holding', aim, unnamed', rounds);
      OnlyNamesMore(ix, buffers, open, ix0, buffers0, open0, ix', buffers', open');
      cur := cur - {d};
    }
    CarriedEnd(ix', buffers', prior', open', holding', aim, next, unnamed', rounds);
  }

  // ----- settling -----

  /** Name every path in `dirty`, and then every path the names that changed can
      move in turn, until none changes: three rounds are enough. */
  method SettleMarked(ix: Index, buffers: map<Id, Buffer>, dirty: Dirty, ghost open: Open,
                      ghost holding: map<Id, string>, ghost aim: Aim,
                      ghost unnamed: set<string>)
    returns (ix': Index, buffers': map<Id, Buffer>, rounds: nat, ghost prior': map<Id, string>,
             ghost open': Open, ghost holding': map<Id, string>, ghost unnamed': set<string>)
    requires Carried(ix, buffers, map[], open, holding, aim, dirty, {}, unnamed, 0)
    ensures Carried(ix', buffers', prior', open', holding', aim, {}, {}, unnamed', rounds)
    ensures OnlyNames(ix, buffers, open, ix', buffers', open')
    ensures rounds <= 3
  {
    var prior: map<Id, string> := map[];
    ix', buffers', rounds := ix, buffers, 0;
    open', holding', unnamed' := open, holding, unnamed;
    var cur := dirty;
    while cur != {}
      invariant Carried(ix', buffers', prior, open', holding', aim, cur, {}, unnamed', rounds)
      invariant OnlyNames(ix, buffers, open, ix', buffers', open')
      invariant rounds <= 3 && (rounds == 3 ==> cur == {})
      decreases 3 - rounds
    {
      ghost var ix0, buffers0, open0 := ix', buffers', open';
      ix', buffers', prior, cur, open',
        holding' := NameRound(ix', buffers', prior, cur, open', holding', aim, unnamed', rounds);
      OnlyNamesMore(ix, buffers, open, ix0, buffers0, open0, ix', buffers', open');
      unnamed', rounds := {}, rounds + 1;
    }
    prior' := prior;
  }
}
