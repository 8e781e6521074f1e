/** A buffer inserted under a path may carry a name another path's buffer has for a
    `<N>`. If its own path is then shown by that very name, nothing marks the other
    path, and the two buffers share it. */
module InsertClash {
  import opened Options
  import opened Sealing
  import opened NameText
  import opened BufferNames
  import opened HolderNaming
  import opened SessionNames
  import opened NameIndex
  import opened IndexSteps
  import opened IndexMarks
  import opened IndexFiling
  import opened IndexCounts
  import opened Settling
  import opened SettlePlan
  import opened SettleRun
  import opened RegistrySteps
  import opened SettleLoop
  import opened SettleEnds
  import opened SessionAgreement
  import opened EventFiling

  // ----- the group of a name that reads as `<N>` -----

  /** What `WithoutSuffix` cuts off. */
  lemma SuffixCut(n: string, b: string)
    requires WithoutSuffix(n) == Some(b)
    ensures |b| < |n| && n == b + n[|b|..] && '/' !in n[|b|..] && n[|n| - 1] == '>'
  {
    var body := n[..|n| - 1];
    var open := RFind(body, '<').value;
    var digits := body[open + 1..];
    assert n[open..] == ['<'] + digits + ['>'];
    assert AllDigits(digits);
    assert '/' !in digits;
  }

  /** The group of a name that reads as a `<N>` of `b`. */
  lemma SuffixCutGroup(n: string, b: string)
    requires WithoutSuffix(n) == Some(b)
    ensures GroupOf(n) == (match RFind(b, '/') case None => n case Some(k) => n[k + 1..])
  {
    SuffixCut(n, b);
    var tail := n[|b|..];
    match RFind(b, '/')
    case None =>
      assert '/' !in n;
      RFindNone(n, '/');
    case Some(k) =>
      assert n[k + 1..] == b[k + 1..] + tail;
      RFindIs(n, '/', k);
  }

  /** Two names that read as a `<N>` of one name, and end alike, are one. */
  lemma SuffixGroupOne(n: string, m: string, b: string)
    requires WithoutSuffix(n) == Some(b) && WithoutSuffix(m) == Some(b) && GroupOf(n) == GroupOf(m)
    ensures n == m
  {
    SuffixCutGroup(n, b);
    SuffixCutGroup(m, b);
    match RFind(b, '/')
    case None =>
    case Some(k) =>
      assert b <= n && b <= m by {
        SuffixCut(n, b);
        SuffixCut(m, b);
      }
      SameHead(n, m, b, k + 1);
  }

  lemma SameHead(n: string, m: string, b: string, k: nat)
    requires b <= n && b <= m && k <= |b| && n[k..] == m[k..]
    ensures n == m
  {
    assert n == n[..k] + n[k..] && m == m[..k] + m[k..];
    assert n[..k] == b[..k] == m[..k];
  }

  lemma SuffixGroupApart(n: string, b: string)
    requires WithoutSuffix(n) == Some(b)
    ensures GroupOf(n) != GroupOf(b)
  {
    SuffixCutGroup(n, b);
    SuffixCut(n, b);
    if EndsWithSlash(b) {
      LastOfGroup(b);
      LastOfGroup(n);
    } else {
      match RFind(b, '/')
      case None =>
      case Some(k) => assert |b[k + 1..]| < |n[k + 1..]|;
    }
  }

  lemma LastOfGroup(n: string)
    requires n != ""
    ensures GroupOf(n) != "" && GroupOf(n)[|GroupOf(n)| - 1] == n[|n| - 1]
  {
    var body := if EndsWithSlash(n) then n[..|n| - 1] else n;
    match RFind(body, '/')
    case None =>
    case Some(k) => assert k < |n| - 1 by { assert k < |body|; assert !EndsWithSlash(n) ==> n[|n| - 1] != '/'; }
  }

  // ----- the path that holds the name already -----

  /** The buffer `y` of the path `v` holds `m`, and nothing troubles `v`. */
  ghost predicate Has(open: Open, res: set<string>, holding: map<Id, string>, v: string, y: Id, m: string) {
    && HoldersHold(holding, open) && v in open && Good(open, res, holding, {}, v)
    && y in IdsOf(open[v].holders) && y in holding && holding[y] == m
  }

  lemma HasOwn(open: Open, res: set<string>, holding: map<Id, string>, v: string, y: Id, m: string)
    requires Has(open, res, holding, v, y, m)
    ensures m in NamesAt(holding, open[v].holders) && HolderNaming.Own(BaseOf(open, res, v), m)
  {
    var t :| 0 <= t < |open[v].holders| && open[v].holders[t].1 == y;
    assert NamesAt(holding, open[v].holders)[t] == m;
  }

  lemma HasSuffix(open: Open, res: set<string>, holding: map<Id, string>, v: string, y: Id, m: string)
    requires Has(open, res, holding, v, y, m) && Spelt(open) && m !in open[v].names
    ensures m != BaseOf(open, res, v) && WithoutSuffix(m) == Some(BaseOf(open, res, v))
    ensures GroupOf(m) != GroupAt(open, v) && GroupOf(BaseOf(open, res, v)) == GroupAt(open, v)
  {
    var b := BaseOf(open, res, v);
    HasOwn(open, res, holding, v, y, m);
    NamesInGroup(open, v, b);
    var k := SuffixedNumber(b, m);
    WithoutSuffixOfSuffixed(b, k);
    SuffixGroupApart(m, b);
  }

  /** No other buffer holds it. */
  lemma HasAlone(open: Open, res: set<string>, holding: map<Id, string>, v: string, y: Id, m: string, z: Id)
    requires Has(open, res, holding, v, y, m) && m != BaseOf(open, res, v)
    requires z in holding && z !in IdsOf(open[v].holders)
    ensures holding[z] != m
  {
    HasOwn(open, res, holding, v, y, m);
  }

  lemma HasNotReserved(ix: Index, open: Open, holding: map<Id, string>, v: string, y: Id, m: string)
    requires IndexOk(ix, open, holding) && Has(open, ix.reserved.Keys, holding, v, y, m)
      && m != BaseOf(open, ix.reserved.Keys, v)
    ensures m !in ix.reserved
  {
    if m in ix.reserved {
      CountsKeys(ix.reserved, Explicit(holding, ix.files.member), m);
      var z :| z in Explicit(holding, ix.files.member) && Explicit(holding, ix.files.member)[z] == m;
      assert z !in IdsOf(open[v].holders) by {
        if z in IdsOf(open[v].holders) { HolderIsMember(ix.files.member, ix.files.place, open, v, z); }
      }
      HasAlone(open, ix.reserved.Keys, holding, v, y, m, z);
    }
  }

  lemma HolderIsMember(member: map<Id, (string, string)>, place: map<Id, nat>, open: Open, v: string, z: Id)
    requires HoldersAre(member, place, open) && v in open && z in IdsOf(open[v].holders)
    ensures z in member && member[z].1 == v
  {
    var t :| 0 <= t < |open[v].holders| && open[v].holders[t].1 == z;
    assert open[v].holders[t] in open[v].holders;
  }

  /** A path shown by the name would have it held twice. */
  lemma HasNoBase(ix: Index, open: Open, holding: map<Id, string>, v: string, y: Id, m: string, w: string)
    requires IndexOk(ix, open, holding) && Has(open, ix.reserved.Keys, holding, v, y, m)
      && m != BaseOf(open, ix.reserved.Keys, v)
    requires w in open && w != v && Good(open, ix.reserved.Keys, holding, {}, w)
    ensures m !in NamesAt(holding, open[w].holders) && BaseOf(open, ix.reserved.Keys, w) != m
  {
    HasNotReserved(ix, open, holding, v, y, m);
    var h := open[w].holders;
    forall t | 0 <= t < |h| ensures NamesAt(holding, h)[t] != m {
      assert h[t].1 !in IdsOf(open[v].holders) by {
        if h[t].1 in IdsOf(open[v].holders) {
          HolderIsMember(ix.files.member, ix.files.place, open, v, h[t].1);
          HolderIsMember(ix.files.member, ix.files.place, open, w, h[t].1);
        }
      }
      HasAlone(open, ix.reserved.Keys, holding, v, y, m, h[t].1);
    }
    assert NamesAt(holding, h) != [];
  }

  // ----- the path that comes to be shown by it -----

  lemma SameGroupOne(n: string, m: string, b: string, g: string)
    requires WithoutSuffix(m) == Some(b) && GroupOf(m) == g && GroupOf(n) == g && n != m
    ensures WithoutSuffix(n) != Some(b)
  {
    if WithoutSuffix(n) == Some(b) {
      SuffixGroupOne(n, m, b);
    }
  }

  /** Another path of the newcomer's group has no name that reads as `<N>` of `v`'s. */
  lemma CalmName(ix: Index, open: Open, holding: map<Id, string>, v: string, y: Id, m: string, w: string, t: nat)
    requires IndexOk(ix, open, holding) && Has(open, ix.reserved.Keys, holding, v, y, m) && m !in open[v].names
    requires w in open && w != v && Good(open, ix.reserved.Keys, holding, {}, w) && GroupAt(open, w) == GroupOf(m)
    requires t < |open[w].holders|
    ensures WithoutSuffix(holding[open[w].holders[t].1]) != Some(BaseOf(open, ix.reserved.Keys, v))
  {
    var res := ix.reserved.Keys;
    var b, n := BaseOf(open, res, w), holding[open[w].holders[t].1];
    HasSuffix(open, res, holding, v, y, m);
    HasNoBase(ix, open, holding, v, y, m, w);
    assert n == NamesAt(holding, open[w].holders)[t] && HolderNaming.Own(b, n) && n != m;
    if n == b {
      NamesInGroup(open, w, b);
      SameGroupOne(n, m, BaseOf(open, res, v), GroupOf(m));
    } else {
      var k := SuffixedNumber(b, n);
      WithoutSuffixOfSuffixed(b, k);
      SpeltSet(open);
      BasesDiffer(OpenSet(open), res, open[w].names, open[v].names);
    }
  }

  /** The session with the newcomer filed: `open'` is `open` and the path `w` of
      names `names`, which `id` alone holds, holding `m`. */
  ghost predicate Opened(open: Open, holding: map<Id, string>, open': Open, holding': map<Id, string>, w: string,
                         names: Listed, id: Id, m: string) {
    && id !in holding && holding' == holding[id := m]
    && w !in open && w in open' && open'.Keys == open.Keys + {w} && (forall v :: v in open ==> open'[v] == open[v])
    && open'[w].names == names && HolderIds(open'[w].holders) == [id]
  }

  lemma CalmNames(ix: Index, open: Open, holding: map<Id, string>, v: string, y: Id, m: string, w: string)
    requires IndexOk(ix, open, holding) && Has(open, ix.reserved.Keys, holding, v, y, m) && m !in open[v].names
    requires w in open && w != v && Good(open, ix.reserved.Keys, holding, {}, w) && GroupAt(open, w) == GroupOf(m)
    ensures forall t :: 0 <= t < |open[w].holders| ==>
      open[w].holders[t].1 in holding
      && WithoutSuffix(holding[open[w].holders[t].1]) != Some(BaseOf(open, ix.reserved.Keys, v))
  {
    forall t | 0 <= t < |open[w].holders|
      ensures open[w].holders[t].1 in holding
        && WithoutSuffix(holding[open[w].holders[t].1]) != Some(BaseOf(open, ix.reserved.Keys, v))
    {
      CalmName(ix, open, holding, v, y, m, w, t);
    }
  }

  lemma CalmBase(open: Open, res: set<string>, holding: map<Id, string>, v: string, y: Id, m: string, open': Open,
                 w: string)
    requires Has(open, res, holding, v, y, m) && Spelt(open) && m !in open[v].names
    requires w in open' && Spelt(open') && GroupAt(open', w) == GroupOf(m) && BaseOf(open', res, w) != m
    ensures WithoutSuffix(BaseOf(open', res, w)) != Some(BaseOf(open, res, v))
  {
    HasSuffix(open, res, holding, v, y, m);
    NamesInGroup(open', w, BaseOf(open', res, w));
    SameGroupOne(BaseOf(open', res, w), m, BaseOf(open, res, v), GroupOf(m));
  }

  lemma CalmOther(open: Open, res: set<string>, holding: map<Id, string>, open': Open, holding': map<Id, string>,
                  q: string, names: Listed, id: Id, m: string,
                  b: string, v: string, w: string)
    requires Opened(open, holding, open', holding', q, names, id, m) && w in open && v in open
    requires forall t :: 0 <= t < |open[w].holders| ==>
      open[w].holders[t].1 in holding && WithoutSuffix(holding[open[w].holders[t].1]) != Some(b)
    requires WithoutSuffix(BaseOf(open', res, w)) != Some(b) && BaseOf(open', res, v) == b
    requires PlanOf(open', res, holding').Valid()
    ensures Calm(PlanOf(open', res, holding'), holding', v, w)
  {
    CalmFrom(PlanOf(open', res, holding'), holding', v, w);
  }

  lemma CalmFrom(plan: Plan, holding: map<Id, string>, v: string, w: string)
    requires plan.Valid() && v in plan.base && w in plan.base
    requires forall t :: 0 <= t < |plan.holders[w]| ==>
      plan.holders[w][t].1 in holding && WithoutSuffix(holding[plan.holders[w][t].1]) != Some(plan.base[v])
    requires WithoutSuffix(plan.base[w]) != Some(plan.base[v])
    ensures Calm(plan, holding, v, w)
  {
  }

  lemma CalmNewcomer(open': Open, res: set<string>, holding': map<Id, string>, q: string, id: Id, v: string, m: string)
    requires q in open' && v in open' && HolderIds(open'[q].holders) == [id] && id in holding' && holding'[id] == m
    requires BaseOf(open', res, q) == m && m !in res && PlanOf(open', res, holding').Valid()
    ensures Calm(PlanOf(open', res, holding'), holding', v, q) && KeeperOf(PlanOf(open', res, holding'), q) == 0
  {
    var plan := PlanOf(open', res, holding');
    assert KeeperOf(plan, q) == 0 && |plan.holders[q]| == 1 && plan.holders[q][0].1 == id by {
      SoleKeeper(plan, q, id);
    }
    assert CalmAt(plan, holding', v, q, 0);
  }

  lemma SoleKeeper(plan: Plan, q: string, id: Id)
    requires plan.Valid() && q in plan.base && HolderIds(plan.holders[q]) == [id] && id in plan.before
      && plan.before[id] == plan.base[q] && plan.base[q] !in plan.res
    ensures |plan.holders[q]| == 1 && plan.holders[q][0].1 == id && KeeperOf(plan, q) == 0
  {
    var h := plan.holders[q];
    assert |h| == |HolderIds(h)| == 1 && h[0].1 == HolderIds(h)[0] == id;
  }

  /** A buffer filed under a path no buffer held. */
  lemma OpenedBy(f: Files, open: Open, holding: map<Id, string>, id: Id, path: Path, m: string)
    requires id in f.place && id !in holding && Last(Names(path)) !in open
    ensures Opened(open, holding, JoinOpen(f, open, id, path, Names(path)), holding[id := m], Last(Names(path)),
                   Names(path), id, m)
  {
  }

  lemma JoinDirtyGroup(f: Files, names: Listed, d: (string, string))
    requires d in JoinDirty(f, names)
    ensures d.0 == names[0]
  {
  }

  lemma SameBase(open: Open, open': Open, res: set<string>, w: string)
    requires w in open && w in open' && SameNamesAndIds(open, open')
    ensures BaseOf(open', res, w) == BaseOf(open, res, w)
  {
    SameOpenSet(open, open');
  }

  lemma JoinSame(f: Files, open: Open, id: Id, path: Path)
    requires id in f.place && Last(Names(path)) in open
    ensures SameNamesAndIds(open, JoinOpen(f, open, id, path, Names(path)))
  {
  }

  /** What makes an inserted buffer clash: the buffer `y` of another path `v` holds
      its name `m`. */
  ghost predicate Contested(ix: Index, open: Open, holding: map<Id, string>, id: Id, m: string, v: string, y: Id) {
    forall k: nat {:trigger Look(k)} :: Look(k) ==>
      && IndexOk(ix, open, holding) && HoldersHold(holding, open) && AllGood(open, ix.reserved.Keys, holding, {}, {})
      && id in ix.files.place && id !in holding
      && v in open && y in IdsOf(open[v].holders) && y in holding && holding[y] == m
  }

  lemma ClashHas(ix: Index, open: Open, holding: map<Id, string>, id: Id, m: string, v: string, y: Id, open': Open,
                 nextPath': nat, q: string)
    requires Contested(ix, open, holding, id, m, v, y) && v != q && v in open
    requires EntriesOk(open', nextPath') && Spelt(open') && q in open' && v in open' && open'[v].names == open[v].names
    requires q in open ==> SameNamesAndIds(open, open')
    requires BaseOf(open', ix.reserved.Keys, q) == m
    ensures Has(open, ix.reserved.Keys, holding, v, y, m) && m !in open[v].names
      && m != BaseOf(open, ix.reserved.Keys, v)
    ensures q !in open && m !in ix.reserved
  {
    assert Has(open, ix.reserved.Keys, holding, v, y, m) by {
      assert Look(0);
      assert !Marked(open, {}, v);
    }
    assert m !in open[v].names by { BaseIsAlone(open', nextPath', ix.reserved.Keys, q); }
    assert m != BaseOf(open, ix.reserved.Keys, v);
    assert m !in ix.reserved by {
      assert Look(0);
      HasNotReserved(ix, open, holding, v, y, m);
    }
    if q in open {
      assert BaseOf(open, ix.reserved.Keys, q) == m by { SameBase(open, open', ix.reserved.Keys, q); }
      assert Look(0);
      assert Good(open, ix.reserved.Keys, holding, {}, q) by { assert !Marked(open, {}, q); }
      HasNoBase(ix, open, holding, v, y, m, q);
    }
  }

  lemma ClashNames(ix: Index, open: Open, holding: map<Id, string>, id: Id, m: string, v: string, y: Id, w: string)
    requires Contested(ix, open, holding, id, m, v, y) && Has(open, ix.reserved.Keys, holding, v, y, m)
      && m !in open[v].names
    requires w in open && w != v && GroupAt(open, w) == GroupOf(m)
    ensures forall t :: 0 <= t < |open[w].holders| ==>
      open[w].holders[t].1 in holding
      && WithoutSuffix(holding[open[w].holders[t].1]) != Some(BaseOf(open, ix.reserved.Keys, v))
  {
    assert Look(0);
    assert Good(open, ix.reserved.Keys, holding, {}, w) by { assert !Marked(open, {}, w); }
    CalmNames(ix, open, holding, v, y, m, w);
  }

  lemma ClashCurrent(ix: Index, open: Open, holding: map<Id, string>, id: Id, m: string, v: string, y: Id)
    requires Contested(ix, open, holding, id, m, v, y)
    ensures v in open && Spelt(open) && Current(open, ix.reserved.Keys, v)
  {
    assert Look(0);
    assert !Marked(open, {}, v);
  }

  lemma CalmMarked(ix: Index, open: Open, holding: map<Id, string>, id: Id, m: string, v: string, y: Id,
                   open': Open, holding': map<Id, string>, q: string, names: Listed, w: string)
    requires Contested(ix, open, holding, id, m, v, y) && Has(open, ix.reserved.Keys, holding, v, y, m)
      && m !in open[v].names && m !in ix.reserved
    requires Spelt(open)
    requires Opened(open, holding, open', holding', q, names, id, m) && Spelt(open')
      && BaseOf(open', ix.reserved.Keys, q) == m
    requires BaseOf(open', ix.reserved.Keys, v) == BaseOf(open, ix.reserved.Keys, v)
    requires w in open' && w != v && GroupAt(open', w) == GroupOf(m)
      && PlanOf(open', ix.reserved.Keys, holding').Valid()
    ensures Calm(PlanOf(open', ix.reserved.Keys, holding'), holding', v, w)
  {
    var res := ix.reserved.Keys;
    if w == q {
      CalmNewcomer(open', res, holding', q, id, v, m);
    } else {
      assert BaseOf(open', res, w) != m by {
        var plan := PlanOf(open', res, holding');
        assert plan.base[w] == BaseOf(open', res, w) && plan.base[q] == m;
      }
      ClashNames(ix, open, holding, id, m, v, y, w);
      CalmBase(open, res, holding, v, y, m, open', w);
      CalmOther(open, res, holding, open', holding', q, names, id, m, BaseOf(open, res, v), v, w);
    }
  }

  lemma BaseKept(open: Open, open': Open, res: set<string>, v: string)
    requires v in open && v in open' && open'[v] == open[v] && Current(open, res, v) && Current(open', res, v)
    ensures BaseOf(open', res, v) == BaseOf(open, res, v)
  {
  }

  lemma ClashBase(ix: Index, open: Open, holding: map<Id, string>, id: Id, m: string, v: string, y: Id,
                  open': Open, holding': map<Id, string>, dirty': Dirty, q: string, names: Listed)
    requires Contested(ix, open, holding, id, m, v, y) && Has(open, ix.reserved.Keys, holding, v, y, m)
      && m !in open[v].names
    requires Spelt(open)
    requires Opened(open, holding, open', holding', q, names, id, m) && Spelt(open')
      && BaseOf(open', ix.reserved.Keys, q) == m
    requires (forall d :: d in dirty' ==> d.0 == names[0])
    requires HoldersHold(holding', open') && AllGood(open', ix.reserved.Keys, holding', dirty', {m})
    ensures names[0] == GroupOf(m) && v in open && v in open' && !Marked(open', dirty', v)
    ensures BaseOf(open', ix.reserved.Keys, v) == BaseOf(open, ix.reserved.Keys, v)
  {
    var res := ix.reserved.Keys;
    assert names[0] == GroupOf(m) by { NamesInGroup(open', q, m); }
    assert GroupAt(open', v) != GroupOf(m) by { HasSuffix(open, res, holding, v, y, m); }
    assert !Marked(open', dirty', v);
    ClashCurrent(ix, open, holding, id, m, v, y);
    BaseKept(open, open', res, v);
  }

  lemma HeldAsBefore(plan: Plan, v: string)
    requires plan.Valid() && v in plan.base
    ensures plan.Held(plan.before, v, NamesAt(plan.before, plan.holders[v]))
  {
  }

  lemma SparedFrom(plan: Plan, open: Open, dirty: Dirty, v: string)
    requires plan.Valid() && plan.base.Keys == open.Keys && v in open && !Marked(open, dirty, v)
    requires forall w :: w in open && Marked(open, dirty, w) ==> Calm(plan, plan.before, v, w)
    ensures Spared(plan, open, plan.before, dirty, {}, MarkedPaths(open, dirty), v)
  {
    HeldAsBefore(plan, v);
  }

  /** Settling reaches the path `v` by no mark. */
  lemma ClashSpared(ix: Index, open: Open, holding: map<Id, string>, id: Id, m: string, v: string, y: Id,
                    open': Open, holding': map<Id, string>, dirty': Dirty, q: string, names: Listed, plan: Plan)
    requires Contested(ix, open, holding, id, m, v, y) && Has(open, ix.reserved.Keys, holding, v, y, m)
      && m !in open[v].names && m !in ix.reserved
    requires Spelt(open)
    requires Opened(open, holding, open', holding', q, names, id, m) && Spelt(open')
      && BaseOf(open', ix.reserved.Keys, q) == m
    requires (forall d :: d in dirty' ==> d.0 == names[0])
    requires plan == PlanOf(open', ix.reserved.Keys, holding') && plan.Valid() && plan.base.Keys == open'.Keys
    requires names[0] == GroupOf(m) && v in open' && !Marked(open', dirty', v)
      && BaseOf(open', ix.reserved.Keys, v) == BaseOf(open, ix.reserved.Keys, v)
    ensures Spared(plan, open', holding', dirty', {}, MarkedPaths(open', dirty'), v)
  {
    assert forall w :: w in open' && Marked(open', dirty', w) ==> Calm(plan, holding', v, w) by {
      forall w | w in open' && Marked(open', dirty', w) ensures Calm(plan, holding', v, w) {
        assert GroupAt(open', w) == GroupOf(m) && w != v;
        CalmMarked(ix, open, holding, id, m, v, y, open', holding', q, names, w);
      }
    }
    SparedFrom(plan, open', dirty', v);
  }
}
