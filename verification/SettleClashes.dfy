/** Buffers that show one name, once settling has ended: the same two had it when settling
    began, and where there are none the session is named as a whole decides. */
module SettleClashes {
  import opened NameText
  import opened BufferNames
  import opened HolderNaming
  import opened SessionNames
  import opened NameIndex
  import opened IndexMarks
  import opened IndexFiling
  import opened IndexCounts
  import opened Settling
  import opened SettlePlan
  import opened SettleRun
  import opened RegistrySteps
  import opened SettleEnds

  /** A buffer named by a path has the name of another. */
  ghost predicate Clashing(holding: map<Id, string>, member: map<Id, (string, string)>, y: Id, z: Id) {
    y in member && y in holding && z in holding && y != z && holding[y] == holding[z]
  }

  ghost function ClashNames(holding: map<Id, string>, member: map<Id, (string, string)>): set<string> {
    set y, z | y in member && y in holding && z in holding && y != z && holding[y] == holding[z] :: holding[y]
  }

  lemma ClashNamed(holding: map<Id, string>, member: map<Id, (string, string)>, y: Id, z: Id)
    requires Clashing(holding, member, y, z)
    ensures holding[y] in ClashNames(holding, member)
  {
  }

  lemma ClashOf(holding: map<Id, string>, member: map<Id, (string, string)>, n: string) returns (y: Id, z: Id)
    requires n in ClashNames(holding, member)
    ensures Clashing(holding, member, y, z) && holding[y] == n
  {
    y, z :| y in member && y in holding && z in holding && y != z && holding[y] == holding[z] && holding[y] == n;
  }

  // ----- only clashing names trouble a path -----

  lemma TroubleClashes(ix: Index, open: Open, holding: map<Id, string>, v: string, n: string)
    requires IndexOk(ix, open, holding) && HoldersHold(holding, open) && v in open
    requires n in NamesAt(holding, open[v].holders) && n in Others(holding, open[v].holders)
    ensures n in ClashNames(holding, ix.files.member)
  {
    var h := open[v].holders;
    var t :| 0 <= t < |h| && NamesAt(holding, h)[t] == n;
    var z :| z in holding && z !in IdsOf(h) && holding[z] == n;
    var y := h[t].1;
    assert y in IdsOf(h);
    HoldersAreMembersIn(ix.files.member, ix.files.place, open, v, y);
    ClashNamed(holding, ix.files.member, y, z);
  }

  lemma HoldersAreMembersIn(member: map<Id, (string, string)>, place: map<Id, nat>, open: Open, v: string, y: Id)
    requires HoldersAre(member, place, open) && v in open && y in IdsOf(open[v].holders)
    ensures y in member && member[y].1 == v
  {
    var t :| 0 <= t < |open[v].holders| && open[v].holders[t].1 == y;
    assert open[v].holders[t] in open[v].holders;
  }

  /** Whatever was excused, only clashing names need be. */
  lemma OnlyClashes(ix: Index, open: Open, holding: map<Id, string>, dirty: Dirty, excuse: set<string>)
    requires IndexOk(ix, open, holding) && HoldersHold(holding, open)
      && AllGood(open, ix.reserved.Keys, holding, dirty, excuse)
    ensures AllGood(open, ix.reserved.Keys, holding, dirty, ClashNames(holding, ix.files.member))
  {
    var res, less := ix.reserved.Keys, ClashNames(holding, ix.files.member);
    forall v | v in open && !Marked(open, dirty, v) ensures Good(open, res, holding, less, v) {
      var b, ns := BaseOf(open, res, v), NamesAt(holding, open[v].holders);
      assert Good(open, res, holding, excuse, v);
      forall n | n in ns && n != b && n in Others(holding, open[v].holders) ensures n in less {
        TroubleClashes(ix, open, holding, v, n);
      }
    }
  }

  lemma BothExcused(open: Open, res: set<string>, holding: map<Id, string>, dirty: Dirty, excuse: set<string>,
                    excuse': set<string>)
    requires HoldersHold(holding, open) && AllGood(open, res, holding, dirty, excuse)
      && AllGood(open, res, holding, dirty, excuse')
    ensures AllGood(open, res, holding, dirty, excuse * excuse')
  {
  }

  // ----- where a clash comes from -----

  /** Naming any path again would change nothing, but for those no change reached: every
      other path was named by the rule when settling began, or gave and took away no name
      that reads as a `<N>` of theirs. */
  ghost predicate Rested(aim: Aim, holding: map<Id, string>) {
    && Ended(aim, holding)
    && (forall v, w :: v in aim.spared && w in aim.plan.base && w != v ==>
        aim.plan.Formed(aim.plan.before, w) || Calm(aim.plan, aim.plan.before, v, w))
  }

  lemma SuffixClash(aim: Aim, holding: map<Id, string>, v: string, t: nat, o: Id)
    requires Rested(aim, holding) && v in aim.plan.base
    requires t < |aim.plan.holders[v]| && o in holding && o !in IdsOf(aim.plan.holders[v])
    requires var h := aim.plan.holders[v][t].1; h in holding && holding[h] == holding[o] != aim.plan.base[v]
    ensures var h := aim.plan.holders[v][t].1;
      && v in aim.spared && IsSuffixed(aim.plan.base[v], holding[h])
      && h in aim.plan.before && aim.plan.before[h] == holding[h] && o in aim.plan.before
      && aim.plan.before[o] == holding[o]
  {
    var plan := aim.plan;
    var h, n := plan.holders[v][t].1, holding[o];
    FormedName(plan, holding, v, t);
    if plan.Stable(holding, v) {
      TargetShaped(plan, holding, v, Others(holding, plan.holders[v]));
      assert NamesAt(holding, plan.holders[v])[t] == n;
      OthersHas(holding, plan.holders[v], o);
      assert false;
    }
    KeptHolder(plan, holding, v, h);
    if plan.Moves(o) {
      var w, s := MovedBy(plan, o);
      assert o in IdsOf(plan.holders[w]);
      SuffixWas(plan, holding, v, w, s);
    }
  }

  /** A name that reads as `<N>` of a path no change reaches, shown by another path's
      buffer, was that buffer's when settling began. */
  lemma SuffixWas(plan: Plan, holding: map<Id, string>, v: string, w: string, s: nat)
    requires plan.Valid() && v in plan.base && w in plan.base && v != w && plan.Formed(holding, w)
      && s < |plan.holders[w]|
    requires plan.Formed(plan.before, w) || Calm(plan, plan.before, v, w)
    requires var o := plan.holders[w][s].1; o in holding && IsSuffixed(plan.base[v], holding[o])
    ensures var o := plan.holders[w][s].1; o in plan.before && plan.before[o] == holding[o]
  {
    var o := plan.holders[w][s].1;
    FormedName(plan, holding, w, s);
    if holding[o] != plan.base[w] {
      OwnedByOne(plan.base[w], plan.base[v], holding[o]);
    }
    if plan.Formed(plan.before, w) {
      FormedName(plan, plan.before, w, s);
    } else {
      assert CalmAt(plan, plan.before, v, w, s);
      SuffixedCut(plan.base[v], holding[o]);
    }
  }

  lemma KeptHolder(plan: Plan, holding: map<Id, string>, v: string, y: Id)
    requires plan.Valid() && v in plan.base && y in IdsOf(plan.holders[v])
      && plan.Held(holding, v, NamesAt(plan.before, plan.holders[v]))
    ensures y in holding && y in plan.before && holding[y] == plan.before[y]
  {
    var t :| 0 <= t < |plan.holders[v]| && plan.holders[v][t].1 == y;
  }

  lemma HolderPlace(plan: Plan, v: string, y: Id) returns (t: nat)
    requires v in plan.holders && y in IdsOf(plan.holders[v])
    ensures t < |plan.holders[v]| && plan.holders[v][t].1 == y
  {
    t :| 0 <= t < |plan.holders[v]| && plan.holders[v][t].1 == y;
  }

  lemma FormedDistinct(plan: Plan, holding: map<Id, string>, v: string, s: nat, t: nat)
    requires plan.Valid() && v in plan.base && plan.Formed(holding, v) && s < |plan.holders[v]| && t < |plan.holders[v]|
      && s != t
    ensures plan.holders[v][s].1 in holding && plan.holders[v][t].1 in holding
    ensures holding[plan.holders[v][s].1] != holding[plan.holders[v][t].1]
  {
    var taken: set<string> :| plan.Held(holding, v, plan.Target(v, taken));
    HolderNamesDistinct(plan.base[v], NamesAt(plan.before, plan.holders[v]), plan.base[v] !in plan.res, taken, s, t);
  }

  /** Two buffers that show one name: one of them, `h`, has it for a `<N>` of its path `v`,
      which no change reached, and both had it when settling began. */
  lemma ClashWas(aim: Aim, holding: map<Id, string>, y: Id, z: Id, v: string) returns (u: string, h: Id, o: Id)
    requires Rested(aim, holding)
    requires v in aim.plan.base && y in IdsOf(aim.plan.holders[v]) && y in holding && z in holding && y != z
      && holding[y] == holding[z]
    ensures (h == y && o == z) || (h == z && o == y)
    ensures u in aim.plan.base && u in aim.spared && h in IdsOf(aim.plan.holders[u]) && o !in IdsOf(aim.plan.holders[u])
    ensures IsSuffixed(aim.plan.base[u], holding[y])
    ensures y in aim.plan.before && z in aim.plan.before && aim.plan.before[y] == aim.plan.before[z] == holding[y]
  {
    var plan := aim.plan;
    var t := HolderPlace(plan, v, y);
    if z in IdsOf(plan.holders[v]) {
      var s := HolderPlace(plan, v, z);
      FormedDistinct(plan, holding, v, s, t);
      assert false;
    }
    if holding[y] != plan.base[v] {
      SuffixClash(aim, holding, v, t, z);
      u, h, o := v, y, z;
    } else {
      FormedName(plan, holding, v, t);
      assert plan.Moves(z);
      var w :| w in plan.base && w in plan.holders && z in IdsOf(plan.holders[w]);
      var s := HolderPlace(plan, w, z);
      assert y !in IdsOf(plan.holders[w]) by { NotAlso(plan, v, w, y); }
      SuffixClash(aim, holding, w, s, y);
      u, h, o := w, z, y;
    }
  }

  lemma NotAlso(plan: Plan, v: string, w: string, y: Id)
    requires plan.Valid() && v in plan.base && w in plan.base && v != w && y in IdsOf(plan.holders[v])
    ensures y !in IdsOf(plan.holders[w])
  {
    assert plan.Apart(v, w);
  }

  /** The buffer `h` has the name of `o` for a `<N>` of its path, which no change reaches. */
  ghost predicate KeepsClash(aim: Aim, h: Id, o: Id) {
    exists v :: v in aim.spared && v in aim.plan.base && v in aim.plan.holders
      && h in IdsOf(aim.plan.holders[v]) && o !in IdsOf(aim.plan.holders[v])
      && h in aim.plan.before && o in aim.plan.before && aim.plan.before[h] == aim.plan.before[o]
      && IsSuffixed(aim.plan.base[v], aim.plan.before[h])
  }

  lemma ClashStays(aim: Aim, holding: map<Id, string>, h: Id, o: Id)
    requires Rested(aim, holding) && KeepsClash(aim, h, o)
    ensures h in holding && o in holding && holding[h] == holding[o]
  {
    var plan := aim.plan;
    var v :| v in aim.spared && v in plan.base && v in plan.holders && h in IdsOf(plan.holders[v])
      && o !in IdsOf(plan.holders[v])
      && h in plan.before && o in plan.before && plan.before[h] == plan.before[o]
      && IsSuffixed(plan.base[v], plan.before[h]);
    KeptHolder(plan, holding, v, h);
    if plan.Moves(o) {
      var w, s := MovedBy(plan, o);
      assert o in IdsOf(plan.holders[w]);
      SuffixStays(plan, holding, v, w, s);
    }
  }

  lemma SuffixStays(plan: Plan, holding: map<Id, string>, v: string, w: string, s: nat)
    requires plan.Valid() && v in plan.base && w in plan.base && v != w && plan.Formed(holding, w)
      && s < |plan.holders[w]|
    requires plan.Formed(plan.before, w) || Calm(plan, plan.before, v, w)
    requires var o := plan.holders[w][s].1; o in plan.before && IsSuffixed(plan.base[v], plan.before[o])
    ensures var o := plan.holders[w][s].1; o in holding && plan.before[o] == holding[o]
  {
    var o := plan.holders[w][s].1;
    FormedName(plan, holding, w, s);
    if plan.Formed(plan.before, w) {
      FormedName(plan, plan.before, w, s);
      if plan.before[o] != plan.base[w] {
        OwnedByOne(plan.base[w], plan.base[v], plan.before[o]);
      }
    } else {
      assert CalmAt(plan, plan.before, v, w, s);
      SuffixedCut(plan.base[v], plan.before[o]);
    }
  }

  /** Two buffers, one named by a path, show one name in the end exactly if one of them
      had the other's for a `<N>` of its path, and no change reaches that path. */
  lemma ClashExactly(aim: Aim, holding: map<Id, string>, y: Id, z: Id)
    requires Rested(aim, holding)
    requires y in holding && z in holding && y != z && aim.plan.Moves(y)
    ensures holding[y] == holding[z] <==> KeepsClash(aim, y, z) || KeepsClash(aim, z, y)
  {
    if holding[y] == holding[z] {
      var v, t := MovedBy(aim.plan, y);
      assert y in IdsOf(aim.plan.holders[v]);
      var u, h, o := ClashWas(aim, holding, y, z, v);
      assert KeepsClash(aim, h, o);
    }
    if KeepsClash(aim, y, z) {
      ClashStays(aim, holding, y, z);
    } else if KeepsClash(aim, z, y) {
      ClashStays(aim, holding, z, y);
    }
  }

  // ----- whatever the order -----

  /** The names settling ends in: a path no change reaches keeps its own, and every other
      is named as the whole session decides. */
  ghost function EndNames(aim: Aim, v: string): seq<string>
    requires aim.plan.Valid() && v in aim.plan.base
  {
    if v in aim.spared then NamesAt(aim.plan.before, aim.plan.holders[v]) else aim.plan.Target(v, aim.plan.Taken())
  }

  lemma EndHeld(aim: Aim, holding: map<Id, string>, v: string)
    requires Ended(aim, holding) && v in aim.plan.base
    ensures aim.plan.Held(holding, v, EndNames(aim, v))
  {
    if v !in aim.spared {
      FormedFinal(aim.plan, holding, v);
    }
  }

  /** Settling ends in the same names whatever the order it takes the paths in, and
      whether or not any clash. */
  lemma OneEnd(aim: Aim, a: map<Id, string>, b: map<Id, string>)
    requires Ended(aim, a) && Ended(aim, b)
    ensures a == b
  {
    forall id | id in a ensures a[id] == b[id] {
      OneName(aim, a, b, id);
    }
  }

  lemma OneName(aim: Aim, a: map<Id, string>, b: map<Id, string>, id: Id)
    requires Ended(aim, a) && Ended(aim, b) && id in a && id in b
    ensures a[id] == b[id]
  {
    if aim.plan.Moves(id) {
      var v, t := MovedBy(aim.plan, id);
      EndHeld(aim, a, v);
      EndHeld(aim, b, v);
    }
  }

  // ----- a session without clashes -----

  ghost predicate Untroubled(plan: Plan, holding: map<Id, string>, v: string)
    requires plan.Valid() && v in plan.base
  {
    && (forall t :: 0 <= t < |plan.holders[v]| ==> plan.holders[v][t].1 in holding)
    && forall n :: n in NamesAt(holding, plan.holders[v]) && n != plan.base[v] ==>
         n !in Others(holding, plan.holders[v])
  }

  /** Naming a path again by names that nothing troubles changes nothing. */
  lemma RestStable(plan: Plan, holding: map<Id, string>, v: string)
    requires plan.Valid() && v in plan.base && plan.Formed(holding, v) && Untroubled(plan, holding, v)
    requires plan.Held(holding, v, NamesAt(plan.before, plan.holders[v]))
    ensures plan.Stable(holding, v)
  {
    var names := NamesAt(holding, plan.holders[v]);
    assert names == NamesAt(plan.before, plan.holders[v]);
    assert Shaped(plan.base[v], names, plan.base[v] !in plan.res) by {
      var taken: set<string> :| plan.Held(holding, v, plan.Target(v, taken));
      TargetShaped(plan, holding, v, taken);
    }
    HolderNamesStable(plan.base[v], names, plan.base[v] !in plan.res, Others(holding, plan.holders[v]));
  }

  /** A path at rest that nothing troubles is named as the whole session decides. */
  lemma RestFinal(aim: Aim, holding: map<Id, string>, v: string)
    requires aim.plan.Valid() && aim.plan.Fits(holding) && aim.plan.AllFormed(holding) && v in aim.plan.base
    requires aim.plan.Stable(holding, v) || aim.plan.Held(holding, v, NamesAt(aim.plan.before, aim.plan.holders[v]))
    requires Untroubled(aim.plan, holding, v)
    ensures aim.plan.Final(holding, v)
  {
    assert aim.plan.Stable(holding, v) by {
      if !aim.plan.Stable(holding, v) {
        RestStable(aim.plan, holding, v);
      }
    }
    FormedFinal(aim.plan, holding, v);
  }

  lemma NoClashFinal(ix: Index, buffers: map<Id, Buffer>, open: Open, holding: map<Id, string>, aim: Aim)
    requires Settled(ix, buffers, open, holding, aim) && ClashNames(holding, ix.files.member) == {}
    ensures AllFinal(aim.plan, holding)
  {
    var plan := aim.plan;
    forall v | v in plan.base ensures plan.Final(holding, v) {
      assert plan.holders[v] == open[v].holders;
      forall n | n in NamesAt(holding, plan.holders[v])
        && n != plan.base[v] ensures n !in Others(holding, plan.holders[v]) {
        if n in Others(holding, plan.holders[v]) {
          TroubleClashes(ix, open, holding, v, n);
        }
      }
      RestFinal(aim, holding, v);
    }
  }
}
