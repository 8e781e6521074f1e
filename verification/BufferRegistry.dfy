/** The buffer registry (src/buffer_registry.rs): buffers behind ids, and a naming
    index kept as they come, go and change, so that an event renames only the paths
    whose names it can move, and still names the session as a whole would be. */
module BufferRegistry {
  import opened Options
  import opened Sealing
  import opened NameText
  import opened BufferNames
  import opened HolderNaming
  import opened SessionNames
  import opened NameIndex
  import opened IndexFiling
  import opened IndexCounts
  import opened RegistrySteps
  import opened SettleLoop
  import opened SettleEnds
  import opened SettleClashes
  import opened SessionAgreement
  import opened EventFiling
  import opened RegistryEvents
  import opened RegistryRuns
  import opened RegistryOrder
  import opened RegistryActs
  import opened RegistryInsert

  const NoIndex := Index(Files(map[], map[], map[], 0), map[], map[])

  lemma EmptyIsSound()
    ensures Sound(Registry(map[], [], NoIndex, 0), map[], {})
  {
    assert NamesIn(map[]) == map[];
    assert Explicit(map[], map[]) == map[];
  }

  lemma NameIsNotEmpty(open: set<seq<string>>, res: set<string>, p: Path)
    ensures Base(open, res, Names(p)) != ""
  {
    var d := Depth(open, res, Names(p));
    assert Names(p)[d] == Render(p.parts, d + 1, p.directory);
    if p.parts != [] {
      var prefix := NameShape(p, d);
      assert Component(p.parts[|p.parts| - 1]);
    }
  }

  /** A buffer that holds no name yet clashes with none. */
  lemma UnnamedDoesNotClash(buffers: map<Id, Buffer>, id: Id)
    requires id in buffers && (buffers[id].name == "" || buffers[id].Origin().None?)
    ensures !NameClashes(buffers, id)
  {
    if buffers[id].Origin().Some? {
      NameIsNotEmpty(SessionPaths(buffers), ExplicitNames(buffers), buffers[id].Origin().value);
    }
  }

  lemma KeptStale(r: Registry, open: Open, excuse: set<string>, stale: set<Id>, id: Id, buf: Buffer)
    requires RegistryEvents.Kept(r, open, excuse, stale) && id in r.buffers
      && NamesIn(r.buffers[id := buf]) == NamesIn(r.buffers)
    ensures RegistryEvents.Kept(r.(buffers := r.buffers[id := buf]), open, excuse, stale + {id})
  {
    assert r.buffers[id := buf].Keys == r.buffers.Keys;
  }

  lemma StaleMore(r: Registry, open: Open, stale: set<Id>, id: Id, buf: Buffer)
    requires Sound(r, open, stale) && id in r.buffers && buf.name == r.buffers[id].name
    ensures Sound(r.(buffers := r.buffers[id := buf]), open, stale + {id})
    ensures NamesIn(r.buffers[id := buf]) == NamesIn(r.buffers)
  {
    assert NamesIn(r.buffers[id := buf]) == NamesIn(r.buffers);
    assert Look(0);
    KeptStale(r, open, FiledClashes(r), stale, id, buf);
  }

  /** No path, or paths spelt alike. */
  predicate SameOrigin(a: Option<Path>, b: Option<Path>) {
    if a.None? || b.None? then a == b else Names(a.value) == Names(b.value)
  }

  /** A buffer not stale is filed under its path. */
  lemma FiledPathIs(r: Registry, open: Open, stale: set<Id>, id: Id)
    requires Sound(r, open, stale) && id in r.buffers && id !in stale
    ensures SameOrigin(FiledPath(r.names, id), r.buffers[id].Origin())
  {
    assert Look(0);
    assert FiledRight(r.buffers[id], id, r.names.files.member, open);
    FiledAs(r.names, open, r.buffers[id], id);
  }

  lemma FiledAs(ix: Index, open: Open, buf: Buffer, id: Id)
    requires Flat(ix.files.groups, open) && MembersHold(ix.files.member, ix.files.place, open) && PathsNamed(open)
    requires FiledRight(buf, id, ix.files.member, open)
    ensures SameOrigin(FiledPath(ix, id), buf.Origin())
  {
    if id in ix.files.member {
      var (g, w) := ix.files.member[id];
      assert g in ix.files.groups && w in ix.files.groups[g].paths && ix.files.groups[g].paths[w] == open[w];
    }
  }

  /** What is left when the buffer cannot clash. */
  lemma Unclashed(r: Registry, open: Open, id: Id, buf: Buffer, order: seq<Id>, now: map<Id, Buffer>)
    requires InsertLeaves(r, open, id, buf, order, now) && (buf.name == "" || buf.Origin().None?)
    ensures Concludes(order, r.buffers[id := buf], Clashes(r.buffers - {id}), now)
  {
    UnnamedDoesNotClash(r.buffers[id := buf], id);
    assert Look(0);
  }

  /** What giving a buffer another origin leaves: the names of the whole session named at
      once exactly if none clash; none that did not before, and if its path is another,
      none that did not among the others. */
  ghost predicate Rebound(was: Registry, id: Id, bound: Buffer, now: Registry)
    requires id in was.buffers
  {
    && now.order == was.order
    && Concludes(now.order, was.buffers[id := bound],
                 Clashes(if SameOrigin(bound.Origin(), was.buffers[id].Origin()) then was.buffers
                         else was.buffers - {id}), now.buffers)
  }

  /** The names refiling the buffer may leave clashing. */
  ghost function RebindExcused(was: Registry, id: Id, bound: Buffer): set<string> {
    var mid := was.(buffers := was.buffers[id := bound]);
    if Moved(mid.names, mid.buffers, id) then Rest(mid.names, mid.buffers, id) else FiledClashes(mid)
  }

  lemma RebindExcuse(was: Registry, open: Open, id: Id, bound: Buffer)
    requires Sound(was, open, {}) && id in was.buffers && bound.name == was.buffers[id].name
    ensures RebindExcused(was, id, bound) <=
      Clashes(if SameOrigin(bound.Origin(), was.buffers[id].Origin()) then was.buffers else was.buffers - {id})
  {
    SoundRest(was, open, {}, id);
    FiledPathIs(was, open, {}, id);
    assert was.buffers[id := bound] - {id} == was.buffers - {id};
    assert NamesIn(was.buffers[id := bound]) == NamesIn(was.buffers);
    ClashesFewer(was.buffers, id);
  }

  lemma ClashesFewer(buffers: map<Id, Buffer>, id: Id)
    ensures Clashes(buffers - {id}) <= Clashes(buffers)
  {
  }

  // ----- names of files and of directories -----

  /** The name is one of the path's, or that with a `<N>`. */
  ghost predicate NamedFor(p: Path, name: string) {
    exists k :: 0 <= k < |Names(p)| && Own(Names(p)[k], name)
  }

  /** A directory's name ends in a slash, or in a slash and a `<N>`; no file's ends in one. */
  lemma SlashTells(p: Path, name: string)
    requires NamedFor(p, name)
    ensures p.directory ==>
      EndsWithSlash(name) || exists base, n: nat :: EndsWithSlash(base) && n >= 2 && name == Suffixed(base, n)
    ensures !p.directory && p.parts != [] ==> !EndsWithSlash(name)
  {
    var k :| 0 <= k < |Names(p)| && Own(Names(p)[k], name);
    if p.parts == [] {
      assert Names(p)[k] == "/" by { assert Names(p)[k] == Render(p.parts, k + 1, p.directory); }
    } else {
      NameOfShown(p, k);
    }
    if name != Names(p)[k] {
      var n := SuffixedNumber(Names(p)[k], name);
      assert name[|name| - 1] == '>';
    }
  }

  lemma HolderNamed(open: Open, res: set<string>, holding: map<Id, string>, excuse: set<string>, w: string, t: nat,
                    p: Path)
    requires w in open && HoldersHold(holding, open) && Good(open, res, holding, excuse, w)
    requires open[w].names == Names(p) && t < |open[w].holders|
    ensures NamedFor(p, holding[open[w].holders[t].1])
  {
    var ns := NamesAt(holding, open[w].holders);
    assert Own(BaseOf(open, res, w), ns[t]);
    assert BaseOf(open, res, w) == Names(p)[Depth(OpenSet(open), res, Names(p))];
  }

  /** Between events every buffer named by a path shows a name of that path, whether or not
      any names clash. */
  lemma OriginNamed(r: Registry, open: Open, id: Id)
    requires Sound(r, open, {}) && id in r.buffers && r.buffers[id].Origin().Some?
    ensures NamedFor(r.buffers[id].Origin().value, r.buffers[id].name)
  {
    assert Look(0);
    assert FiledRight(r.buffers[id], id, r.names.files.member, open);
    var w := r.names.files.member[id].1;
    var t :| 0 <= t < |open[w].holders| && open[w].holders[t].1 == id;
    HolderNamed(open, r.names.reserved.Keys, NamesIn(r.buffers), FiledClashes(r), w, t, r.buffers[id].Origin().value);
  }

  lemma ReboundNamed(was: Registry, id: Id, bound: Buffer, now: Registry, open: Open)
    requires id in was.buffers && Rebound(was, id, bound, now) && Sound(now, open, {}) && bound.Origin().Some?
    ensures id in now.buffers && NamedFor(bound.Origin().value, now.buffers[id].name)
  {
    assert Look(0);
    OriginNamed(now, open, id);
  }

  class BufferRegistry {
    /** The buffers, their order, the naming index and the next place. */
    var session: Registry
    /** The paths the index records, and the buffers whose path has changed since. */
    ghost var open: Open
    ghost var stale: set<Id>

    /** The index records every buffer with its name, each but the stale ones under its
        path; each path's holders are named by the rule, and no path needs renaming but for
        the names that clash. */
    ghost predicate Valid()
      reads this
    {
      Sound(session, open, stale)
    }

    /** Take on what an event made of the session. */
    method Become(next: Registry, ghost now: Open)
      requires Sound(next, now, {})
      modifies this
      ensures Valid() && session == next && open == now && stale == {}
    {
      session, open, stale := next, now, {};
    }

    /** No two buffers, one named by a path, show one name. */
    ghost predicate Accord()
      reads this
    {
      Clashes(session.buffers) == {}
    }

    constructor ()
      ensures Valid() && Accord() && stale == {} && session.buffers == map[] && session.order == []
    {
      session := Registry(map[], [], NoIndex, 0);
      open, stale := map[], {};
      EmptyIsSound();
    }

    /** The buffer behind an id. */
    method Get(id: Id) returns (res: Result<Buffer>)
      ensures res == if id in session.buffers then Ok(session.buffers[id]) else Err(Missing(id))
    {
      if id in session.buffers {
        return Ok(session.buffers[id]);
      }
      return Err(Missing(id));
    }

    /** Insert a buffer, replacing any with its id, at the end of the order. The names are
        those of the whole session named at once if and only if none clash; unless the
        buffer is to be shown by a name it brings that another path's buffer has, none does
        that did not among the others; and if it is, in a session in accord, it does. In
        every session two buffers clash exactly if one had the other's name for a `<N>` of
        a path that nothing the insertion marks can reach. */
    method Insert(id: Id, buffer: Buffer)
      requires Valid() && stale == {}
      modifies this
      ensures Valid() && stale == {} && session.order == Without(old(session.order), id) + [id]
      ensures InsertLeaves(old(session), old(open), id, buffer, session.order, session.buffers)
    {
      var next;
      ghost var now;
      next, now := Put(session, id, buffer, open);
      Become(next, now);
    }

    /** Insert a buffer as the buffer of the file at `path`: not yet named, so that
        the buffer already showing that path keeps the plain name. */
    method InsertForPath(id: Id, buffer: Buffer, path: Parts)
      requires Valid() && stale == {}
      modifies this
      ensures Valid() && stale == {} && session.order == Without(old(session.order), id) + [id]
      ensures var visited := buffer.(name := "", file := Some(path), derived := true);
        Concludes(session.order, old(session.buffers)[id := visited], Clashes(old(session.buffers) - {id}),
                  session.buffers)
    {
      var visited := buffer.(name := "", file := Some(path), derived := true);
      Insert(id, visited);
      Unclashed(old(session), old(open), id, visited, session.order, session.buffers);
    }

    /** Create an empty buffer with a name of its own. */
    method Create(id: Id, name: string)
      requires Valid() && stale == {}
      modifies this
      ensures Valid() && stale == {} && session.order == Without(old(session.order), id) + [id]
      ensures var created := Buffer(name, false, None, None, false);
        Concludes(session.order, old(session.buffers)[id := created], Clashes(old(session.buffers) - {id}),
                  session.buffers)
    {
      var created := Buffer(name, false, None, None, false);
      Insert(id, created);
      Unclashed(old(session), old(open), id, created, session.order, session.buffers);
    }

    /** Remove a buffer, unless an edit is running on it. */
    method Remove(id: Id) returns (res: Result<Buffer>)
      requires Valid() && stale == {}
      modifies this
      ensures Valid() && stale == {}
      ensures id !in old(session.buffers) ==> res == Err(Missing(id))
      ensures id in old(session.buffers) && old(session.buffers)[id].editing ==>
        res == Err(ConcurrentEdit(id, old(session.buffers)[id].name))
      ensures res.Err? ==> unchanged(this)
      ensures id in old(session.buffers) && !old(session.buffers)[id].editing ==>
        && res == Ok(old(session.buffers)[id]) && session.order == Without(old(session.order), id)
        && Concludes(session.order, old(session.buffers) - {id}, Clashes(old(session.buffers) - {id}), session.buffers)
    {
      if id in session.buffers && session.buffers[id].editing {
        return Err(ConcurrentEdit(id, session.buffers[id].name));
      }
      if id !in session.buffers {
        return Err(Missing(id));
      }
      res := Ok(session.buffers[id]);
      var next;
      ghost var now;
      next, now := Drop(session, id, open);
      Become(next, now);
    }

    /** Move a buffer to another file, or to none, without renaming it yet. */
    method SetFilePath(id: Id, path: Option<Parts>) returns (res: Result<()>)
      requires Valid()
      modifies this
      ensures Valid() && FiledClashes(session) == old(FiledClashes(session))
      ensures if id in old(session.buffers) then
          res == Ok(()) && session.buffers == old(session.buffers)[id := old(session.buffers)[id].(file := path)]
          && stale == old(stale) + {id}
        else res == Err(Missing(id)) && unchanged(this)
      ensures session.order == old(session.order) && NamesIn(session.buffers) == NamesIn(old(session.buffers))
    {
      if id !in session.buffers {
        return Err(Missing(id));
      }
      var moved := session.buffers[id].(file := path);
      StaleMore(session, open, stale, id, moved);
      session := session.(buffers := session.buffers[id := moved]);
      stale := stale + {id};
      res := Ok(());
    }

    /** Rename what a change to the paths of `ids` can move. */
    method RefreshNames(ids: seq<Id>)
      requires Valid() && forall id :: id in stale ==> id in ids
      modifies this
      ensures Valid() && stale == {} && session.order == old(session.order)
      ensures Concludes(session.order, old(session.buffers),
                        if ids != [] && Moved(old(session.names), old(session.buffers), ids[0])
                        then Rest(old(session.names), old(session.buffers), ids[0])
                        else old(FiledClashes(session)), session.buffers)
    {
      var was := session;
      ghost var excuse;
      session, open, excuse := Refresh(was, ids, open, stale);
      ConcludesMore(was.order, was.buffers, excuse, session.buffers,
                    if ids != [] && Moved(was.names, was.buffers, ids[0]) then Rest(was.names, was.buffers, ids[0])
                      else FiledClashes(was));
      stale := {};
    }

    /** Bind a buffer to a file and name it by its path from now on. */
    method NameByPath(id: Id, path: Parts) returns (res: Result<()>)
      requires Valid() && stale == {}
      modifies this
      ensures Valid() && stale == {}
      ensures id !in old(session.buffers) ==> res == Err(Missing(id)) && unchanged(this)
      ensures id in old(session.buffers) ==>
        res == Ok(()) && Rebound(old(session), id, old(session.buffers)[id].(file := Some(path), derived := true),
                                 session)
      ensures id in old(session.buffers) ==>
        var listed := old(session.buffers)[id].directory;
        && id in session.buffers
        && NamedFor(if listed.Some? then NamePath(listed.value, true) else NamePath(path, false),
                    session.buffers[id].name)
    {
      if id !in session.buffers {
        return Err(Missing(id));
      }
      ghost var was, bound := session, session.buffers[id].(file := Some(path), derived := true);
      Rebind(id, session.buffers[id].(file := Some(path), derived := true));
      ReboundNamed(was, id, bound, session, open);
      res := Ok(());
    }

    /** Name a buffer by the directory it lists. */
    method NameByDirectory(id: Id, directory: Parts) returns (res: Result<()>)
      requires Valid() && stale == {}
      modifies this
      ensures Valid() && stale == {}
      ensures id !in old(session.buffers) ==> res == Err(Missing(id)) && unchanged(this)
      ensures id in old(session.buffers) ==>
        res == Ok(()) && Rebound(old(session), id,
                                 old(session.buffers)[id].(directory := Some(directory), derived := true), session)
      ensures id in old(session.buffers) ==>
        id in session.buffers && NamedFor(NamePath(directory, true), session.buffers[id].name)
    {
      if id !in session.buffers {
        return Err(Missing(id));
      }
      ghost var was, bound := session, session.buffers[id].(directory := Some(directory), derived := true);
      Rebind(id, session.buffers[id].(directory := Some(directory), derived := true));
      ReboundNamed(was, id, bound, session, open);
      res := Ok(());
    }

    /** Give a buffer another origin, and rename what that can move. */
    method Rebind(id: Id, bound: Buffer)
      requires Valid() && stale == {} && id in session.buffers && bound.name == session.buffers[id].name
      modifies this
      ensures Valid() && stale == {} && Rebound(old(session), id, bound, session)
    {
      var was := session;
      RebindExcuse(was, open, id, bound);
      StaleMore(was, open, stale, id, bound);
      session := was.(buffers := was.buffers[id := bound]);
      stale := stale + {id};
      RefreshNames([id]);
      ConcludesMore(session.order, was.buffers[id := bound], RebindExcused(was, id, bound), session.buffers,
                    Clashes(if SameOrigin(bound.Origin(), was.buffers[id].Origin()) then was.buffers
                            else was.buffers - {id}));
    }

    /** Give a buffer a name of its own, which no collision rewrites. */
    method SetName(id: Id, name: string) returns (res: Result<()>)
      requires Valid() && stale == {}
      modifies this
      ensures Valid() && stale == {}
      ensures id !in old(session.buffers) ==> res == Err(Missing(id)) && unchanged(this)
      ensures id in old(session.buffers) ==>
        var named := old(session.buffers)[id].(name := name, derived := false);
        && res == Ok(()) && session.order == old(session.order)
        && Concludes(session.order, old(session.buffers)[id := named], Clashes(old(session.buffers) - {id}),
                     session.buffers)
    {
      if id !in session.buffers {
        return Err(Missing(id));
      }
      var next;
      ghost var now;
      next, now := Reset(session, id, session.buffers[id].(name := name, derived := false), open);
      Become(next, now);
      res := Ok(());
    }
  }
}
