/** A run in which an inserted buffer and a buffer of another path end with one name. */
module ClashRun {
  import opened Options
  import opened Sealing
  import opened NameText
  import opened BufferNames
  import opened HolderNaming
  import opened SessionNames
  import opened NameIndex
  import opened RegistrySteps
  import opened SessionAgreement
  import opened EventFiling
  import opened RegistryEvents
  import opened RegistryRuns
  import opened RegistryOrder
  import opened RegistryInsert
  import opened BufferRegistry

  const Blank := Buffer("", false, None, None, false)

  lemma FileNames(n: string)
    requires Component(n)
    ensures Names(NamePath([n], false)) == [n, "/" + n]
  {
    var p: Path := NamePath([n], false);
    assert Names(p)[0] == Render(p.parts, 1, false) == n by { assert p.parts[0..] == [n]; }
    assert Names(p)[1] == Render(p.parts, 2, false) == "/" + n;
  }

  lemma ShortestName(open: set<seq<string>>, res: set<string>, a: seq<string>)
    requires a != [] && a[0] !in res && forall b :: b in open && a[0] in b ==> b == a
    ensures Base(open, res, a) == a[0]
  {
    NameDepthIs(a, n => SharedIn(open, n), n => n in res, 0);
  }

  lemma OwnOfFile(reqs: seq<Request>, out: seq<string>, i: nat)
    requires Derived(reqs, {}, out) && i < |reqs| && forall j :: 0 <= j < |reqs| ==> reqs[j].names == ["a", "/a"]
    ensures Own("a", out[i])
  {
    DerivedOwn(reqs, {}, out, i);
    ShortestName(Paths(reqs), {}, reqs[i].names);
  }

  lemma RequestsOfFile(ids: seq<Id>, buffers: map<Id, Buffer>, before: map<Id, string>)
    requires forall id ::
      id in ids ==> id in buffers && buffers[id].Origin() == Some(NamePath(["a"], false)) && id in before
    ensures forall j :: 0 <= j < |ids| ==> Requests(ids, buffers, before)[j].names == ["a", "/a"]
  {
    FileNames("a");
    assert "/" + "a" == "/a";
  }

  /** Two buffers of the file `/a`, named by the rule. */
  lemma TwoOfOneFile(order: seq<Id>, buffers: map<Id, Buffer>, before: map<Id, string>, y: Id)
    requires order == [1, 2] && buffers.Keys == {1, 2} && Agrees(order, buffers, before) && y in order
    requires forall id :: id in buffers ==> buffers[id].Origin() == Some(NamePath(["a"], false))
    ensures Own("a", buffers[y].name)
  {
    var ids := DerivedIds(order, buffers);
    assert ExplicitNames(buffers) == {};
    RequestsOfFile(ids, buffers, before);
    var i :| 0 <= i < |ids| && ids[i] == y;
    OwnOfFile(Requests(ids, buffers, before), NamesOf(ids, buffers), i);
  }

  lemma SuffixIsComponent(m: string)
    requires IsSuffixed("a", m)
    ensures Component(m) && m[0] == 'a' && m != "a"
  {
    var k := SuffixedNumber("a", m);
    assert m == "a" + ("<" + Dec(k) + ">");
    assert forall i :: 0 <= i < |m| ==> m[i] != '/' by {
      assert forall i :: 0 <= i < |Dec(k)| ==> IsDigit(Dec(k)[i]);
    }
  }

  /** A buffer of the file named as a second `a` is, carrying that name. */
  lemma ThirdClashes(buffers: map<Id, Buffer>, y: Id, m: string)
    requires buffers.Keys == {1, 2, 3} && (y == 1 || y == 2) && IsSuffixed("a", m) && Component(m)
    requires forall id :: id in buffers && id != 3 ==> buffers[id].Origin() == Some(NamePath(["a"], false))
    requires buffers[y].name == m && buffers[3].name == m && buffers[3].Origin() == Some(NamePath([m], false))
    ensures NameClashes(buffers, 3)
  {
    SuffixIsComponent(m);
    FileNames("a");
    FileNames(m);
    var a, b := Names(NamePath(["a"], false)), Names(NamePath([m], false));
    assert a[0] != m && a[1] != m && b[0] == m;
    assert ExplicitNames(buffers) == {};
    forall c | c in SessionPaths(buffers) && m in c ensures c == b {
      var id :| id in buffers && buffers[id].Origin().Some? && Names(buffers[id].Origin().value) == c;
    }
    ShortestName(SessionPaths(buffers), {}, b);
    assert SameNameElsewhere(buffers, 3, y);
  }

  lemma WithoutOther(order: seq<Id>, id: Id)
    requires id !in order
    ensures Without(order, id) + [id] == order + [id]
  {
    WithoutAbsent(order, id);
  }

  lemma SameOrigins(buffers: map<Id, Buffer>, buffers': map<Id, Buffer>, o: Option<Path>)
    requires SameButNames(buffers, buffers') && forall id :: id in buffers ==> buffers[id].Origin() == o
    ensures forall id :: id in buffers' ==> buffers'[id].Origin() == o
  {
    forall id | id in buffers' ensures buffers'[id].Origin() == o {
      assert buffers'[id] == buffers[id].(name := buffers'[id].name);
    }
  }

  /** One of the two is not named `a`. */
  lemma OneIsNumbered(was: map<Id, Buffer>, buffers: map<Id, Buffer>)
    requires SameButNames(was, buffers) && was.Keys == {1, 2} && Agrees([1, 2], buffers, NamesIn(was))
    requires forall id :: id in was ==> was[id].Origin() == Some(NamePath(["a"], false))
    ensures buffers.Keys == {1, 2} && forall id ::
      id in buffers ==> buffers[id].Origin() == Some(NamePath(["a"], false))
    ensures IsSuffixed("a", buffers[if buffers[1].name != "a" then 1 else 2].name)
  {
    SameOrigins(was, buffers, Some(NamePath(["a"], false)));
    AgreeingDistinct([1, 2], buffers, NamesIn(was), 1, 2);
    TwoOfOneFile([1, 2], buffers, NamesIn(was), if buffers[1].name != "a" then 1 else 2);
  }

  const Visited := Buffer("", true, None, Some(["a"]), false)

  lemma VisitedIs()
    ensures Blank.(name := "", file := Some(["a"]), derived := true) == Visited
  {
  }

  /** What a session in accord has after an event that leaves no clash. */
  lemma Accorded(order: seq<Id>, was: map<Id, Buffer>, excuse: set<string>, now: map<Id, Buffer>)
    requires Concludes(order, was, excuse, now) && excuse == {}
    ensures Clashes(now) == {} && SameButNames(was, now) && Agrees(order, now, NamesIn(was))
  {
    assert Look(0);
  }

  lemma FirstVisit(none: map<Id, Buffer>, order: seq<Id>, now: map<Id, Buffer>)
    requires none == map[] && order == Without([], 1) + [1]
    requires Concludes(order, none[1 := Blank.(name := "", file := Some(["a"]), derived := true)], Clashes(none - {1}),
                       now)
    ensures Clashes(now) == {} && SameButNames(map[1 := Visited], now) && order == [1]
  {
    WithoutOther([], 1);
    VisitedIs();
    assert none - {1} == none && Clashes(none) == {} && none[1 := Visited] == map[1 := Visited];
    Accorded(order, map[1 := Visited], {}, now);
  }

  method OpenOnce() returns (registry: BufferRegistry)
    ensures fresh(registry) && registry.Valid() && registry.Accord() && registry.stale == {}
      && registry.session.order == [1]
    ensures SameButNames(map[1 := Visited], registry.session.buffers)
  {
    registry := new BufferRegistry();
    ghost var none := registry.session.buffers;
    registry.InsertForPath(1, Blank, ["a"]);
    FirstVisit(none, registry.session.order, registry.session.buffers);
  }

  lemma VisitedOrigin(buffers: map<Id, Buffer>)
    requires SameButNames(map[1 := Visited], buffers)
    ensures var was := buffers[2 := Visited];
      was.Keys == {1, 2} && forall id :: id in was ==> was[id].Origin() == Some(NamePath(["a"], false))
  {
    SameOrigins(map[1 := Visited], buffers, Some(NamePath(["a"], false)));
  }

  /** Two buffers of the file `/a`. */
  method OpenTwice() returns (registry: BufferRegistry, y: Id)
    ensures fresh(registry) && registry.Valid() && registry.Accord() && registry.stale == {}
      && registry.session.order == [1, 2]
    ensures registry.session.buffers.Keys == {1, 2} && (y == 1 || y == 2)
    ensures forall id ::
      id in registry.session.buffers ==> registry.session.buffers[id].Origin() == Some(NamePath(["a"], false))
    ensures IsSuffixed("a", registry.session.buffers[y].name)
  {
    registry := OpenOnce();
    WithoutOther([1], 2);
    ghost var one := registry.session.buffers;
    ghost var was := one[2 := Visited];
    VisitedOrigin(one);
    VisitedIs();
    registry.InsertForPath(2, Blank, ["a"]);
    assert registry.session.order == [1, 2] && one - {2} == one;
    Accorded([1, 2], was, {}, registry.session.buffers);
    OneIsNumbered(was, registry.session.buffers);
    y := if registry.session.buffers[1].name != "a" then 1 else 2;
  }

  /** Then a third buffer, carrying that name, of a file so named. */
  method InsertCanClash() returns (registry: BufferRegistry)
    ensures fresh(registry) && registry.Valid() && registry.stale == {} && registry.session.order == [1, 2, 3]
    ensures 3 in registry.session.buffers && !registry.session.buffers[3].editing
    ensures SharesName(registry.session.buffers, 3) && !registry.Accord()
      && Clashes(registry.session.buffers - {3}) == {}
  {
    var y;
    registry, y := OpenTwice();
    var buffers := registry.session.buffers;
    var m := buffers[y].name;
    SuffixIsComponent(m);
    var third := Buffer(m, true, None, Some([m]), false);
    ThirdClashes(buffers[3 := third], y, m);
    WithoutOther([1, 2], 3);
    ghost var was, open := registry.session, registry.open;
    registry.Insert(3, third);
    InsertLeft(was, open, 3, third, registry.session.order, registry.session.buffers);
    ThirdAlone(registry.session.order, buffers, third, registry.session.buffers);
  }

  lemma ThirdAlone(order: seq<Id>, buffers: map<Id, Buffer>, third: Buffer, now: map<Id, Buffer>)
    requires 3 !in buffers && Clashes(buffers) == {} && PutLeaves(order, buffers - {3}, buffers[3 := third], 3, now)
      && !third.editing
    ensures 3 in now && !now[3].editing && Clashes(now - {3}) == {}
  {
    assert buffers[3 := third] - {3} == buffers - {3} == buffers;
    OnlyItsOwn(order, buffers, buffers[3 := third], 3, now);
    ConcludesNames(order, buffers[3 := third], Clashes(buffers) + Brought(third), now);
  }

  /** Killing it sets the session right again. */
  method RemoveHeals() returns (registry: BufferRegistry)
    ensures fresh(registry) && registry.Valid() && registry.Accord() && registry.session.order == [1, 2]
  {
    registry := InsertCanClash();
    ghost var was := registry.session.buffers;
    var killed := registry.Remove(3);
    assert Without([1, 2, 3], 3) == [1, 2] by { WithoutThird(); }
    Accorded([1, 2], was - {3}, {}, registry.session.buffers);
  }

  lemma WithoutThird()
    ensures Without([1, 2, 3], 3) == [1, 2]
  {
    assert [1, 2, 3][..2] == [1, 2] && [1, 2][..1] == [1] && [1][..0] == [];
    assert Without([1], 3) == [1] && Without([1, 2], 3) == [1, 2];
  }
}
