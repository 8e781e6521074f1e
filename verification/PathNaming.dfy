/** Naming the holders of one path (`name_path` in src/buffer_registry.rs): what it
    computes from the index, and what it amounts to. */
module PathNaming {
  import opened Options
  import opened Sealing
  import opened NameText
  import opened BufferNames
  import opened HolderNaming
  import opened SessionNames
  import opened NameIndex
  import opened IndexSteps
  import opened IndexMarks
  import opened IndexFiling
  import opened IndexCounts
  import opened Settling
  import opened SettlePlan
  import opened SettleRun
  import opened RegistrySteps

  lemma NameDepthSame(names: Listed, shared: map<string, (nat, nat)>, reserved: map<string, nat>, depth: nat)
    requires NameDepth(names, n => CountedShared(shared, n), n => n in reserved.Keys) == depth
    ensures NameDepth(names, n => CountedShared(shared, n), n => n in reserved) == depth
  {
    NameDepthIs(names, n => CountedShared(shared, n), n => n in reserved, depth);
  }

  lemma NotInGroup(groups: map<string, Group>, open: Open, g: string, w: string)
    requires Flat(groups, open)
    ensures g in groups && w in groups[g].paths <==> w in open && GroupAt(open, w) == g
  {
  }

  /** The names the holders have. */
  function Shown(buffers: map<Id, Buffer>, h: seq<Holder>): (r: seq<string>)
    requires forall t :: 0 <= t < |h| ==> h[t].1 in buffers
    ensures |r| == |h|
  {
    seq(|h|, t requires 0 <= t < |h| => buffers[h[t].1].name)
  }

  /** The names the holders had when the event began. */
  function ShownBefore(buffers: map<Id, Buffer>, prior: map<Id, string>, h: seq<Holder>): (r: seq<string>)
    requires forall t :: 0 <= t < |h| ==> h[t].1 in buffers
    ensures |r| == |h|
  {
    seq(|h|, t requires 0 <= t < |h| => if h[t].1 in prior then prior[h[t].1] else buffers[h[t].1].name)
  }

  lemma ShownIs(buffers: map<Id, Buffer>, holding: map<Id, string>, h: seq<Holder>)
    requires BuffersHold(buffers, holding) && forall t :: 0 <= t < |h| ==> h[t].1 in holding
    ensures forall t :: 0 <= t < |h| ==> h[t].1 in buffers
    ensures Shown(buffers, h) == NamesAt(holding, h)
  {
  }

  lemma ShownBeforeIs(buffers: map<Id, Buffer>, prior: map<Id, string>, before: map<Id, string>,
                      holding: map<Id, string>, h: seq<Holder>)
    requires BuffersHold(buffers, holding) && PriorOk(before, holding, prior) && forall t ::
      0 <= t < |h| ==> h[t].1 in holding
    ensures forall t :: 0 <= t < |h| ==> h[t].1 in buffers && h[t].1 in before
    ensures ShownBefore(buffers, prior, h) == NamesAt(before, h)
  {
  }

  function EntryDepth(ix: Index, g: string, w: string): (d: nat)
    requires g in ix.files.groups && w in ix.files.groups[g].paths
    ensures d < |ix.files.groups[g].paths[w].names|
  {
    var group := ix.files.groups[g];
    NameDepth(group.paths[w].names, n => CountedShared(group.shared, n), n => n in ix.reserved)
  }

  /** What naming a path gives its holders. */
  function EntryNames(ix: Index, buffers: map<Id, Buffer>, g: string, w: string,
                      prior: map<Id, string>): (names: seq<string>)
    requires g in ix.files.groups && w in ix.files.groups[g].paths
    requires var h := ix.files.groups[g].paths[w].holders; forall t :: 0 <= t < |h| ==> h[t].1 in buffers
    ensures |names| == |ix.files.groups[g].paths[w].holders|
  {
    var e := ix.files.groups[g].paths[w];
    var base := e.names[EntryDepth(ix, g, w)];
    HolderNames(base, ShownBefore(buffers, prior, e.holders), base !in ix.reserved,
                TakenBy(ix.held, Shown(buffers, e.holders)))
  }

  lemma EntryDepthIs(ix: Index, open: Open, holding: map<Id, string>, w: string)
    requires IndexOk(ix, open, holding) && w in open
    ensures var g := GroupAt(open, w);
      && g in ix.files.groups && w in ix.files.groups[g].paths && ix.files.groups[g].paths[w] == open[w]
      && EntryDepth(ix, g, w) == Depth(OpenSet(open), ix.reserved.Keys, open[w].names)
  {
    CountedDepth(ix.files, open, w, ix.reserved.Keys);
    NameDepthSame(open[w].names, ix.files.groups[GroupAt(open, w)].shared, ix.reserved,
                  Depth(OpenSet(open), ix.reserved.Keys, open[w].names));
  }

  lemma EntryTaken(ix: Index, buffers: map<Id, Buffer>, open: Open, holding: map<Id, string>, w: string)
    requires IndexOk(ix, open, holding) && BuffersHold(buffers, holding) && w in open
    ensures forall t :: 0 <= t < |open[w].holders| ==>
      open[w].holders[t].1 in holding && open[w].holders[t].1 in buffers
    ensures DistinctIds(open[w].holders)
    ensures TakenBy(ix.held, Shown(buffers, open[w].holders)) == Others(holding, open[w].holders)
  {
    IndexHolds(ix, open, holding);
    SortedIds(ix.files, open, w);
    TakenByOthers(ix.held, holding, open[w].holders);
    ShownIs(buffers, holding, open[w].holders);
  }

  lemma EntryNamesAre(ix: Index, buffers: map<Id, Buffer>, w: string, prior: map<Id, string>,
                      open: Open, holding: map<Id, string>, plan: Plan)
    requires IndexOk(ix, open, holding) && BuffersHold(buffers, holding) && w in open
    requires plan.Valid() && PlanFor(plan, open, ix.reserved.Keys) && PriorOk(plan.before, holding, prior)
    ensures var g := GroupAt(open, w);
      && g in ix.files.groups && w in ix.files.groups[g].paths && ix.files.groups[g].paths[w] == open[w]
      && (forall t :: 0 <= t < |open[w].holders| ==> open[w].holders[t].1 in buffers)
      && EntryNames(ix, buffers, g, w, prior) == plan.Target(w, Others(holding, plan.holders[w]))
  {
    EntryDepthIs(ix, open, holding, w);
    EntryTaken(ix, buffers, open, holding, w);
    ShownBeforeIs(buffers, prior, plan.before, holding, open[w].holders);
  }

  /** The path filed under its name. */
  ghost function OpenNamed(open: Open, res: set<string>, w: string): Open
    requires w in open
  {
    open[w := open[w].(depth := Some(Depth(OpenSet(open), res, open[w].names)))]
  }

  lemma ExplicitKept(ix: Index, holding: map<Id, string>, held: map<string, nat>, holding': map<Id, string>,
                     groups: map<string, Group>)
    requires CountsOk(ix, holding) && Counts(held, holding') && holding'.Keys == holding.Keys
    requires forall id :: id in holding && id !in ix.files.member ==> holding'[id] == holding[id]
    ensures CountsOk(ix.(files := ix.files.(groups := groups), held := held), holding')
  {
    assert Explicit(holding', ix.files.member) == Explicit(holding, ix.files.member);
  }

  /** The index once a path is filed under its name and its holders are given
      theirs. */
  lemma EntryFiled(ix: Index, open: Open, holding: map<Id, string>, w: string, held: map<string, nat>,
                   holding': map<Id, string>)
    requires IndexOk(ix, open, holding) && w in open
    requires Counts(held, holding') && holding'.Keys == holding.Keys
    requires forall id :: id in holding && id !in ix.files.member ==> holding'[id] == holding[id]
    ensures var g := GroupAt(open, w);
      && g in ix.files.groups && w in ix.files.groups[g].paths && ix.files.groups[g].paths[w] == open[w]
      && IndexOk(ix.(files := ix.files.(groups := Refiled(ix.files.groups, g, w, EntryDepth(ix, g, w))), held := held),
                 OpenNamed(open, ix.reserved.Keys, w), holding')
  {
    EntryDepthIs(ix, open, holding, w);
    var groups := Refiled(ix.files.groups, GroupAt(open, w), w, EntryDepth(ix, GroupAt(open, w), w));
    assert FilesOk(ix.files.(groups := groups), OpenNamed(open, ix.reserved.Keys, w)) by {
      RefiledOk(ix.files, open, w, ix.reserved.Keys);
    }
    assert CountsOk(ix.(files := ix.files.(groups := groups), held := held), holding') by {
      ExplicitKept(ix, holding, held, holding', groups);
    }
  }

  lemma HoldersAreMembers(ix: Index, open: Open, holding: map<Id, string>, w: string, id: Id)
    requires IndexOk(ix, open, holding) && w in open && id in IdsOf(open[w].holders)
    ensures id in ix.files.member
  {
    var t :| 0 <= t < |open[w].holders| && open[w].holders[t].1 == id;
    assert open[w].holders[t] in open[w].holders;
  }

  ghost predicate SameTables(ix: Index, ix': Index) {
    ix'.reserved == ix.reserved && ix'.files.member == ix.files.member && ix'.files.place == ix.files.place
  }

  lemma GivenLists(plan: Plan, holding: map<Id, string>, w: string, given: seq<string>)
    requires plan.Valid() && plan.Fits(holding) && w in plan.base && |given| == |plan.holders[w]|
    ensures Lists(plan, holding, Given(holding, plan.holders[w], given, |given|), w,
                  Changes(holding, plan.holders[w], given, |given|))
  {
    assert plan.Apart(w, w);
    forall n ensures Moved(plan, holding, Given(holding, plan.holders[w], given, |given|), w, n) <==>
      exists p :: p in Changes(holding, plan.holders[w], given, |given|) && (n == p.0 || n == p.1)
    {
      assert DistinctIds(plan.holders[w]) && forall s :: 0 <= s < |given| ==> plan.holders[w][s].1 in holding;
      MovedIsChange(plan, holding, w, given, n);
    }
  }

  /** What naming the path `w` of the group `g` needs of the index. */
  ghost predicate Readable(ix: Index, buffers: map<Id, Buffer>, prior: map<Id, string>, holding: map<Id, string>,
                           before: map<Id, string>, g: string, w: string) {
    && g in ix.files.groups && w in ix.files.groups[g].paths
    && Consistent(ix.held, buffers, prior, holding, before)
    && var h := ix.files.groups[g].paths[w].holders;
       DistinctIds(h) && forall t :: 0 <= t < |h| ==> h[t].1 in holding && h[t].1 in buffers
  }

  /** What `NameEntry` gives. */
  ghost predicate EntryGiven(ix: Index, buffers: map<Id, Buffer>, prior: map<Id, string>, holding: map<Id, string>,
                             before: map<Id, string>, g: string, w: string,
                             ix': Index, buffers': map<Id, Buffer>, prior': map<Id, string>,
                             renamed: seq<(string, string)>)
    requires Readable(ix, buffers, prior, holding, before, g, w)
  {
    var h, names := ix.files.groups[g].paths[w].holders, EntryNames(ix, buffers, g, w, prior);
    && ix' == ix.(files := ix.files.(groups := Refiled(ix.files.groups, g, w, EntryDepth(ix, g, w))), held := ix'.held)
    && Consistent(ix'.held, buffers', prior', Given(holding, h, names, |h|), before)
    && renamed == Changes(holding, h, names, |h|)
    && SameButNames(buffers, buffers')
  }

  /** Name the buffers holding one path, each by the name it held before the
      event, listing each name that changed, old and new. */
  method NameEntry(ix: Index, buffers: map<Id, Buffer>, g: string, w: string, prior: map<Id, string>,
                   ghost holding: map<Id, string>, ghost before: map<Id, string>)
    returns (ix': Index, buffers': map<Id, Buffer>, prior': map<Id, string>, renamed: seq<(string, string)>)
    requires Readable(ix, buffers, prior, holding, before, g, w)
    ensures EntryGiven(ix, buffers, prior, holding, before, g, w, ix', buffers', prior', renamed)
  {
    var entry := ix.files.groups[g].paths[w];
    var depth := EntryDepth(ix, g, w);
    var base := entry.names[depth];
    var now, holds := Shown(buffers, entry.holders), ShownBefore(buffers, prior, entry.holders);
    var given := NameHolders(base, holds, base !in ix.reserved, TakenBy(ix.held, now));
    var held;
    held, buffers', prior', renamed := RenameHolders(entry.holders, given, ix.held, buffers, prior, holding, before);
    assert Look(0);
    ix' := ix.(files := ix.files.(groups := Refiled(ix.files.groups, g, w, depth)), held := held);
  }
}
