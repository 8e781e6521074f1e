/** Undo among several frontends (src/buffer.rs, buffers with a CRDT): each source keeps
    its own groups of recorded ops, its own redo stack and the run it is typing; the
    daemon's groups and those of a frontend that left are anybody's. */
module UndoStacks {
  import opened Options

  const Cap: nat := 10_000

  datatype Source = Frontend(id: nat) | Daemon

  /** What one edit did, as the CRDT recorded it. */
  type Recorded = nat

  datatype Group = Group(ops: seq<Recorded>, seqno: nat)

  datatype Stacks = Stacks(groups: seq<Group>, redo: seq<Group>, open: Option<Group>, detached: bool)

  const NoStacks := Stacks([], [], None, false)

  datatype Arbiter = Arbiter(of: map<Source, Stacks>, seq_: nat)

  function At(a: Arbiter, s: Source): Stacks {
    if s in a.of then a.of[s] else NoStacks
  }

  function Put(a: Arbiter, s: Source, stacks: Stacks): Arbiter {
    a.(of := a.of[s := stacks])
  }

  function Capped(groups: seq<Group>): seq<Group> {
    if |groups| >= Cap then groups[1..] else groups
  }

  // ----- recording -----

  /** A closed group goes on its source's stack under the next number. */
  function Push(a: Arbiter, s: Source, ops: seq<Recorded>): Arbiter {
    var n := a.seq_ + 1;
    var was := At(a, s);
    Put(a, s, was.(groups := Capped(was.groups) + [Group(ops, n)])).(seq_ := n)
  }

  /** Close the run a source is typing; an empty one vanishes. */
  function Close(a: Arbiter, s: Source): Arbiter {
    if s !in a.of || a.of[s].open.None? then a
    else
      var ops, shut := a.of[s].open.value.ops, Put(a, s, a.of[s].(open := None));
      if ops == [] then shut else Push(shut, s, ops)
  }

  function CloseAll(a: Arbiter, order: seq<Source>): Arbiter {
    if order == [] then a else Close(CloseAll(a, order[..|order| - 1]), order[|order| - 1])
  }

  /** Before a keystroke lands: every so many of a run a new group begins. */
  function TypedBegin(a: Arbiter, s: Source, run: nat, limit: nat): Arbiter {
    var a1 := if limit == 0 || run % limit == 0 then Close(a, s) else a;
    var was := At(a1, s);
    Put(a1, s, if was.open.Some? then was else was.(open := Some(Group([], 0))))
  }

  /** A forward edit: it joins its source's run, or is a group of its own; the daemon's
      also ends every run. The order is that in which the sources are met. */
  function Record(a: Arbiter, s: Source, ops: seq<Recorded>, order: seq<Source>): Arbiter {
    if ops == [] then a
    else
      var a1 := if s.Daemon? then CloseAll(a, order) else a;
      var was := At(a1, s).(redo := []);
      if was.open.Some? then Put(a1, s, was.(open := Some(was.open.value.(ops := was.open.value.ops + ops))))
      else Push(Put(a1, s, was), s, ops)
  }

  /** A frontend leaves: what it could undo is nobody's from now on. */
  function Detach(a: Arbiter, s: Source): Arbiter {
    var a1 := Close(a, s);
    if s !in a1.of then a1
    else if a1.of[s].groups == [] then a1.(of := a1.of - {s})
    else Put(a1, s, a1.of[s].(redo := [], detached := true))
  }

  // ----- undo and redo -----

  function Newest(stacks: Stacks): Option<nat> {
    if stacks.groups == [] then None else Some(stacks.groups[|stacks.groups| - 1].seqno)
  }

  predicate Unowned(a: Arbiter, s: Source) {
    s in a.of && (s.Daemon? || a.of[s].detached) && a.of[s].groups != []
  }

  /** The unowned stack with the greatest last number, as sources are met. */
  function NewestUnowned(a: Arbiter, order: seq<Source>): (r: Option<Source>)
    ensures r.Some? ==> r.value in order && Unowned(a, r.value)
  {
    if order == [] then None
    else
      var s, best := order[|order| - 1], NewestUnowned(a, order[..|order| - 1]);
      if Unowned(a, s) && (best.None? || Newest(a.of[best.value]).value <= Newest(a.of[s]).value) then Some(s) else best
  }

  /** The stack a source's undo draws from. */
  function Pick(a: Arbiter, s: Source, order: seq<Source>): Source {
    var own, unowned := Newest(At(a, s)), NewestUnowned(a, order);
    if s.Daemon? || unowned.None? then s
    else if own.None? || Newest(a.of[unowned.value]).value > own.value then unowned.value
    else s
  }

  datatype Step = Undo | Redo

  /** How undoing what was recorded goes: so many groups have nothing left to undo, and
      the next produces ops of its own, or fails. */
  datatype Attempt = Attempt(gone: nat, produced: Option<seq<Recorded>>)

  datatype Outcome = Done | NothingLeft | Failed

  function StackOf(stacks: Stacks, step: Step): seq<Group> {
    if step.Undo? then stacks.groups else stacks.redo
  }

  function WithStack(stacks: Stacks, step: Step, groups: seq<Group>): Stacks {
    if step.Undo? then stacks.(groups := groups) else stacks.(redo := groups)
  }

  /** A stack with only so many of its groups. */
  function Popped(a: Arbiter, from: Source, step: Step, left: nat): Arbiter
    requires left <= |StackOf(At(a, from), step)|
  {
    Put(a, from, WithStack(At(a, from), step, StackOf(At(a, from), step)[..left]))
  }

  /** What undoing a group produced is a group to redo, and the other way about. */
  function Produced(a: Arbiter, s: Source, step: Step, ops: seq<Recorded>): Arbiter {
    if step.Undo? then Put(a, s, At(a, s).(redo := Capped(At(a, s).redo) + [Group(ops, 0)])) else Push(a, s, ops)
  }

  /** Pop groups until one produces ops; those are a group on the other stack of the
      source that asked. */
  function Compensate(a: Arbiter, s: Source, from: Source, step: Step, t: Attempt): (Arbiter, Outcome) {
    var n := |StackOf(At(a, from), step)|;
    if t.gone >= n then (if from in a.of then Popped(a, from, step, 0) else a, NothingLeft)
    else if t.produced.None? then (Popped(a, from, step, n - 1 - t.gone), Failed)
    else (Produced(Popped(a, from, step, n - 1 - t.gone), s, step, t.produced.value), Done)
  }

  /** A departed source's stacks end with its last group. */
  function Swept(a: Arbiter): Arbiter {
    a.(of := map s | s in a.of && !(a.of[s].detached && a.of[s].groups == []) :: a.of[s])
  }

  function UndoFor(a: Arbiter, s: Source, order: seq<Source>, t: Attempt): (Arbiter, Outcome) {
    var a1 := if s.Daemon? then a else Close(a, s);
    var (a2, outcome) := Compensate(a1, s, Pick(a1, s, order), Undo, t);
    (Swept(a2), outcome)
  }

  function RedoFor(a: Arbiter, s: Source, t: Attempt): (Arbiter, Outcome) {
    Compensate(a, s, s, Redo, t)
  }

  // ----- what holds throughout -----

  /** The number of a group. */
  ghost function Num(groups: seq<Group>, i: int): nat
    requires 0 <= i < |groups|
  {
    groups[i].seqno
  }

  /** Later groups have greater numbers, none past the counter, and each holds ops. */
  ghost predicate Rising(groups: seq<Group>, top: nat) {
    && (forall i, j {:trigger Num(groups, i), Num(groups, j)} ::
        0 <= i < j < |groups| ==> Num(groups, i) < Num(groups, j))
    && (forall i {:trigger Num(groups, i)} :: 0 <= i < |groups| ==> Num(groups, i) <= top && groups[i].ops != [])
  }

  /** No number is on two stacks. */
  ghost predicate Apart(g: seq<Group>, h: seq<Group>) {
    forall i, j {:trigger Num(g, i), Num(h, j)} :: 0 <= i < |g| && 0 <= j < |h| ==> Num(g, i) != Num(h, j)
  }

  ghost predicate Ok(a: Arbiter) {
    && (forall s :: s in a.of ==> Rising(a.of[s].groups, a.seq_) && |a.of[s].groups| <= Cap && |a.of[s].redo| <= Cap)
    && (forall s, t :: s in a.of && t in a.of && s != t ==> Apart(a.of[s].groups, a.of[t].groups))
  }

  /** Every source met once, or more. */
  ghost predicate Covers(order: seq<Source>, a: Arbiter) {
    forall s :: s in a.of ==> s in order
  }

  /** Each group of a stack is one of another, or newer than all of it. */
  ghost predicate From(was: seq<Group>, top: nat, now: seq<Group>) {
    forall i {:trigger Num(now, i)} :: 0 <= i < |now| ==> Num(now, i) > top || Among(was, Num(now, i))
  }

  ghost predicate Among(groups: seq<Group>, n: nat) {
    exists j {:trigger Num(groups, j)} :: 0 <= j < |groups| && Num(groups, j) == n
  }

  lemma FromApart(was: seq<Group>, top: nat, now: seq<Group>, other: seq<Group>)
    requires From(was, top, now) && Apart(was, other) && Rising(other, top)
    ensures Apart(now, other) && Apart(other, now)
  {
    forall i, j | 0 <= i < |now| && 0 <= j < |other| ensures Num(now, i) != Num(other, j) {
      if Num(now, i) <= top {
        var k :| 0 <= k < |was| && Num(was, k) == Num(now, i);
        assert Num(was, k) != Num(other, j);
      }
    }
  }

  lemma PutOk(a: Arbiter, s: Source, now: Stacks, seq_: nat)
    requires Ok(a) && a.seq_ <= seq_ && Rising(now.groups, seq_) && |now.groups| <= Cap && |now.redo| <= Cap
    requires From(At(a, s).groups, a.seq_, now.groups)
    ensures Ok(Put(a, s, now).(seq_ := seq_))
  {
    var a' := Put(a, s, now).(seq_ := seq_);
    forall x | x in a'.of ensures Rising(a'.of[x].groups, seq_) && |a'.of[x].groups| <= Cap && |a'.of[x].redo| <= Cap {
      if x != s {
        assert Rising(a.of[x].groups, a.seq_);
      }
    }
    forall x, y | x in a'.of && y in a'.of && x != y ensures Apart(a'.of[x].groups, a'.of[y].groups) {
      if x == s || y == s {
        var other := if x == s then y else x;
        FromApart(At(a, s).groups, a.seq_, now.groups, a.of[other].groups);
      }
    }
  }

  lemma CappedRising(groups: seq<Group>, top: nat, g: Group)
    requires Rising(groups, top) && |groups| <= Cap && g.seqno == top + 1 && g.ops != []
    ensures Rising(Capped(groups) + [g], top + 1) && |Capped(groups) + [g]| <= Cap
      && From(groups, top, Capped(groups) + [g])
  {
    var now, cut := Capped(groups) + [g], if |groups| >= Cap then 1 else 0;
    forall i | 0 <= i < |now| - 1 ensures Num(now, i) == Num(groups, i + cut) && now[i] == groups[i + cut] {
    }
    forall i, j | 0 <= i < j < |now| ensures Num(now, i) < Num(now, j) {
      assert Num(now, i) == Num(groups, i + cut);
      if j < |now| - 1 {
        assert Num(now, j) == Num(groups, j + cut);
      }
    }
    forall i | 0 <= i < |now| ensures Num(now, i) <= top + 1 && now[i].ops != []
      && (Num(now, i) > top || Among(groups, Num(now, i))) {
      if i < |now| - 1 {
        assert Num(now, i) == Num(groups, i + cut);
      }
    }
  }

  lemma AtOk(a: Arbiter, s: Source)
    requires Ok(a)
    ensures Rising(At(a, s).groups, a.seq_) && |At(a, s).groups| <= Cap && |At(a, s).redo| <= Cap
  {
  }

  lemma PushOk(a: Arbiter, s: Source, ops: seq<Recorded>)
    requires Ok(a) && ops != []
    ensures Ok(Push(a, s, ops))
  {
    var was, g := At(a, s), Group(ops, a.seq_ + 1);
    var now := was.(groups := Capped(was.groups) + [g]);
    assert Rising(now.groups, a.seq_ + 1) && |now.groups| <= Cap && |now.redo| <= Cap
      && From(was.groups, a.seq_, now.groups) by {
      AtOk(a, s);
      CappedRising(was.groups, a.seq_, g);
    }
    assert Push(a, s, ops) == Put(a, s, now).(seq_ := a.seq_ + 1);
    PutOk(a, s, now, a.seq_ + 1);
  }

  lemma SameFrom(groups: seq<Group>, top: nat, n: nat)
    requires n <= |groups| && Rising(groups, top)
    ensures From(groups, top, groups[..n]) && Rising(groups[..n], top)
  {
    var cut := groups[..n];
    forall i | 0 <= i < n ensures Num(cut, i) == Num(groups, i) && Among(groups, Num(cut, i)) && Num(cut, i) <= top
      && cut[i].ops != [] {
      assert Num(groups, i) == Num(cut, i);
    }
    forall i, j | 0 <= i < j < n ensures Num(cut, i) < Num(cut, j) {
      assert Num(groups, i) < Num(groups, j);
    }
  }

  /** A stack cut short, and what else its source keeps changed. */
  lemma CutOk(a: Arbiter, s: Source, n: nat, now: Stacks)
    requires Ok(a) && n <= |At(a, s).groups| && now.groups == At(a, s).groups[..n] && |now.redo| <= Cap
    ensures Ok(Put(a, s, now))
  {
    AtOk(a, s);
    SameFrom(At(a, s).groups, a.seq_, n);
    PutOk(a, s, now, a.seq_);
    assert Put(a, s, now) == Put(a, s, now).(seq_ := a.seq_);
  }

  lemma KeepOk(a: Arbiter, s: Source, now: Stacks)
    requires Ok(a) && now.groups == At(a, s).groups && |now.redo| <= Cap
    ensures Ok(Put(a, s, now))
  {
    assert now.groups == At(a, s).groups[..|At(a, s).groups|];
    CutOk(a, s, |now.groups|, now);
  }

  lemma CloseOk(a: Arbiter, s: Source)
    requires Ok(a)
    ensures Ok(Close(a, s)) && Close(a, s).seq_ >= a.seq_
  {
    if s in a.of && a.of[s].open.Some? {
      KeepOk(a, s, a.of[s].(open := None));
      if a.of[s].open.value.ops != [] {
        PushOk(Put(a, s, a.of[s].(open := None)), s, a.of[s].open.value.ops);
      }
    }
  }

  lemma {:induction false} CloseAllOk(a: Arbiter, order: seq<Source>)
    requires Ok(a)
    ensures Ok(CloseAll(a, order))
  {
    if order != [] {
      CloseAllOk(a, order[..|order| - 1]);
      CloseOk(CloseAll(a, order[..|order| - 1]), order[|order| - 1]);
    }
  }

  lemma TypedBeginOk(a: Arbiter, s: Source, run: nat, limit: nat)
    requires Ok(a)
    ensures Ok(TypedBegin(a, s, run, limit))
  {
    CloseOk(a, s);
    var a1 := if limit == 0 || run % limit == 0 then Close(a, s) else a;
    AtOk(a1, s);
    KeepOk(a1, s, At(TypedBegin(a, s, run, limit), s));
  }

  lemma RecordOk(a: Arbiter, s: Source, ops: seq<Recorded>, order: seq<Source>)
    requires Ok(a)
    ensures Ok(Record(a, s, ops, order))
  {
    if ops != [] {
      CloseAllOk(a, order);
      var a1 := if s.Daemon? then CloseAll(a, order) else a;
      AtOk(a1, s);
      KeepOk(a1, s, At(a1, s).(redo := []));
      if At(a1, s).open.Some? {
        KeepOk(a1, s, At(Record(a, s, ops, order), s));
      } else {
        PushOk(Put(a1, s, At(a1, s).(redo := [])), s, ops);
      }
    }
  }

  lemma DetachOk(a: Arbiter, s: Source)
    requires Ok(a)
    ensures Ok(Detach(a, s))
  {
    CloseOk(a, s);
    var a1 := Close(a, s);
    if s in a1.of && a1.of[s].groups != [] {
      KeepOk(a1, s, a1.of[s].(redo := [], detached := true));
    }
  }

  /** A stack popped so far. */
  lemma PopOk(a: Arbiter, from: Source, step: Step, left: nat)
    requires Ok(a) && left <= |StackOf(At(a, from), step)|
    ensures Ok(Popped(a, from, step, left))
  {
    AtOk(a, from);
    var was := At(a, from);
    if step.Undo? {
      CutOk(a, from, left, was.(groups := was.groups[..left]));
    } else {
      KeepOk(a, from, was.(redo := was.redo[..left]));
    }
  }

  lemma ProduceOk(a: Arbiter, s: Source, step: Step, ops: seq<Recorded>)
    requires Ok(a) && ops != []
    ensures Ok(Produced(a, s, step, ops))
  {
    if step.Undo? {
      AtOk(a, s);
      KeepOk(a, s, At(a, s).(redo := Capped(At(a, s).redo) + [Group(ops, 0)]));
    } else {
      PushOk(a, s, ops);
    }
  }

  lemma CompensateIs(a: Arbiter, s: Source, from: Source, step: Step, t: Attempt) returns (left: nat)
    ensures left <= |StackOf(At(a, from), step)|
    ensures var r := Compensate(a, s, from, step, t).0;
      || r == a || r == Popped(a, from, step, left)
      || (t.produced.Some? && r == Produced(Popped(a, from, step, left), s, step, t.produced.value))
  {
    var n := |StackOf(At(a, from), step)|;
    left := if t.gone >= n then 0 else n - 1 - t.gone;
  }

  lemma CompensateOk(a: Arbiter, s: Source, from: Source, step: Step, t: Attempt)
    requires Ok(a) && (t.produced.Some? ==> t.produced.value != [])
    ensures Ok(Compensate(a, s, from, step, t).0)
  {
    var left := CompensateIs(a, s, from, step, t);
    assert Ok(Popped(a, from, step, left)) by { PopOk(a, from, step, left); }
    if t.produced.Some? {
      ProducedOk(a, s, from, step, left, t.produced.value);
    }
  }

  lemma ProducedOk(a: Arbiter, s: Source, from: Source, step: Step, left: nat, ops: seq<Recorded>)
    requires Ok(a) && left <= |StackOf(At(a, from), step)| && ops != []
    ensures Ok(Produced(Popped(a, from, step, left), s, step, ops))
  {
    PopOk(a, from, step, left);
    ProduceOk(Popped(a, from, step, left), s, step, ops);
  }

  lemma UndoOk(a: Arbiter, s: Source, order: seq<Source>, t: Attempt)
    requires Ok(a) && (t.produced.Some? ==> t.produced.value != [])
    ensures Ok(UndoFor(a, s, order, t).0)
  {
    CloseOk(a, s);
    var a1 := if s.Daemon? then a else Close(a, s);
    CompensateOk(a1, s, Pick(a1, s, order), Undo, t);
  }

  // ----- runs -----

  datatype Event = Types(s: Source, run: nat, limit: nat) | Ends(s: Source)
    | Edits(s: Source, ops: seq<Recorded>, order: seq<Source>)
    | Imports(s: Source, typed: bool, run: nat, limit: nat, ops: seq<Recorded>, order: seq<Source>)
    | Leaves(s: Source)
    | Undoes(s: Source, order: seq<Source>, attempt: Attempt) | Redoes(s: Source, attempt: Attempt)

  /** The ops something produced are some. */
  ghost predicate Real(e: Event) {
    (e.Undoes? || e.Redoes?) && e.attempt.produced.Some? ==> e.attempt.produced.value != []
  }

  function Do(a: Arbiter, e: Event): Arbiter {
    match e
    case Types(s, run, limit) => TypedBegin(a, s, run, limit)
    case Ends(s) => Close(a, s)
    case Edits(s, ops, order) => Record(a, s, ops, order)
    case Imports(s, typed, run, limit, ops, order) =>
      Record(if typed then TypedBegin(a, s, run, limit) else Close(a, s), s, ops, order)
    case Leaves(s) => Detach(a, s)
    case Undoes(s, order, t) => UndoFor(a, s, order, t).0
    case Redoes(s, t) => RedoFor(a, s, t).0
  }

  lemma DoOk(a: Arbiter, e: Event)
    requires Ok(a) && Real(e)
    ensures Ok(Do(a, e))
  {
    match e
    case Types(s, run, limit) => TypedBeginOk(a, s, run, limit);
    case Ends(s) => CloseOk(a, s);
    case Edits(s, ops, order) => RecordOk(a, s, ops, order);
    case Imports(s, typed, run, limit, ops, order) =>
      TypedBeginOk(a, s, run, limit);
      CloseOk(a, s);
      RecordOk(if typed then TypedBegin(a, s, run, limit) else Close(a, s), s, ops, order);
    case Leaves(s) => DetachOk(a, s);
    case Undoes(s, order, t) => UndoOk(a, s, order, t);
    case Redoes(s, t) => CompensateOk(a, s, s, Redo, t);
  }

  function Run(a: Arbiter, events: seq<Event>): Arbiter {
    if events == [] then a else Do(Run(a, events[..|events| - 1]), events[|events| - 1])
  }

  const NewArbiter := Arbiter(map[], 0)

  /** In every run, each source's groups rise in number, and no number is on two
      stacks. */
  lemma {:induction false} RunOk(events: seq<Event>)
    requires forall i :: 0 <= i < |events| ==> Real(events[i])
    ensures Ok(Run(NewArbiter, events))
  {
    if events != [] {
      RunOk(events[..|events| - 1]);
      DoOk(Run(NewArbiter, events[..|events| - 1]), events[|events| - 1]);
    }
  }

  // ----- what an undo draws from -----

  /** A stack the source's undo may draw from. */
  ghost predicate Offered(a: Arbiter, s: Source, o: Source) {
    o in a.of && a.of[o].groups != [] && (o == s || o.Daemon? || a.of[o].detached)
  }

  lemma {:induction false} UnownedGreatest(a: Arbiter, order: seq<Source>, o: Source)
    requires o in order && Unowned(a, o)
    ensures var best := NewestUnowned(a, order); best.Some? && Newest(a.of[o]).value <= Newest(a.of[best.value]).value
  {
    var n := |order| - 1;
    if o in order[..n] {
      UnownedGreatest(a, order[..n], o);
    }
    assert order == order[..n] + [order[n]];
  }

  /** A live frontend's undo draws from the stack, of its own and the unowned ones, that
      holds the newest group of all on them; from its own if there is none. */
  lemma PickIsNewest(a: Arbiter, s: Source, order: seq<Source>, o: Source)
    requires Ok(a) && s.Frontend? && Covers(order, a) && Offered(a, s, o)
    ensures var from := Pick(a, s, order);
      && Offered(a, s, from) && Newest(a.of[o]).value <= Newest(a.of[from]).value
      && (Newest(a.of[o]) == Newest(a.of[from]) ==> o == from)
  {
    if o != s {
      UnownedGreatest(a, order, o);
    }
    var from := Pick(a, s, order);
    if o != from {
      assert Apart(a.of[o].groups, a.of[from].groups);
      LastApart(a.of[o].groups, a.of[from].groups);
    }
  }

  lemma LastApart(g: seq<Group>, h: seq<Group>)
    requires Apart(g, h) && g != [] && h != []
    ensures g[|g| - 1].seqno != h[|h| - 1].seqno
  {
    assert Num(g, |g| - 1) != Num(h, |h| - 1);
  }

  /** So the order in which the sources are met decides nothing. */
  lemma PickAnyOrder(a: Arbiter, s: Source, order: seq<Source>, order': seq<Source>)
    requires Ok(a) && Covers(order, a) && Covers(order', a)
    ensures Pick(a, s, order) == Pick(a, s, order')
  {
    if s.Frontend? {
      var p, q := Pick(a, s, order), Pick(a, s, order');
      if Offered(a, s, q) { PickIsNewest(a, s, order, q); }
      if Offered(a, s, p) { PickIsNewest(a, s, order', p); }
    }
  }

  /** The run a frontend is in the middle of is what its undo pops. */
  lemma RunUndoneFirst(a: Arbiter, s: Source, order: seq<Source>)
    requires Ok(a) && s.Frontend? && s in a.of && a.of[s].open.Some? && a.of[s].open.value.ops != [] && Covers(order, a)
    ensures var a1 := Close(a, s);
      && Pick(a1, s, order) == s && a1.of[s].groups[|a1.of[s].groups| - 1].ops == a.of[s].open.value.ops
  {
    CloseOk(a, s);
    CloseIs(a, s);
    NewestPicked(Close(a, s), s, order);
  }

  /** A frontend's own group under the counter's number is what it undoes. */
  lemma NewestPicked(a: Arbiter, s: Source, order: seq<Source>)
    requires Ok(a) && s.Frontend? && Covers(order, a) && Newest(At(a, s)) == Some(a.seq_)
    ensures Pick(a, s, order) == s
  {
    NewestBelow(a, order);
  }

  /** No closed group is numbered past the last number given. */
  lemma NewestBelow(a: Arbiter, order: seq<Source>)
    requires Ok(a)
    ensures var best := NewestUnowned(a, order);
      best.Some? ==> Newest(a.of[best.value]).Some? && Newest(a.of[best.value]).value <= a.seq_
  {
    var best := NewestUnowned(a, order);
    if best.Some? {
      AtOk(a, best.value);
      var groups := a.of[best.value].groups;
      assert Num(groups, |groups| - 1) <= a.seq_;
    }
  }

  /** Closing a run that holds ops pushes them, under the next number. */
  lemma CloseIs(a: Arbiter, s: Source)
    requires s in a.of && a.of[s].open.Some? && a.of[s].open.value.ops != []
    ensures var a1, was := Close(a, s), a.of[s];
      && a1.seq_ == a.seq_ + 1 && s in a1.of
      && a1.of[s] == was.(open := None, groups := Capped(was.groups) + [Group(was.open.value.ops, a.seq_ + 1)])
      && Newest(a1.of[s]) == Some(a1.seq_) && a1.of.Keys == a.of.Keys
  {
  }

  // ----- whose stacks change -----

  /** A frontend still attached. */
  ghost predicate Live(a: Arbiter, o: Source) {
    o.Frontend? && !At(a, o).detached
  }

  /** An undo or a redo leaves every other live frontend's stacks, run and ops as they
      were. */
  lemma UndoLeavesOthers(a: Arbiter, s: Source, order: seq<Source>, t: Attempt, o: Source)
    requires Live(a, o) && o != s
    ensures At(UndoFor(a, s, order, t).0, o) == At(a, o) && At(RedoFor(a, s, t).0, o) == At(a, o)
  {
    CloseOther(a, s, o);
    var a1 := if s.Daemon? then a else Close(a, s);
    PickOther(a1, s, order, o);
    CompensateOther(a1, s, Pick(a1, s, order), Undo, t, o);
    CompensateOther(a, s, s, Redo, t, o);
  }

  lemma CloseOther(a: Arbiter, s: Source, o: Source)
    requires o != s
    ensures At(Close(a, s), o) == At(a, o)
  {
  }

  lemma PickOther(a: Arbiter, s: Source, order: seq<Source>, o: Source)
    requires Live(a, o) && o != s
    ensures Pick(a, s, order) != o
  {
  }

  lemma CompensateOther(a: Arbiter, s: Source, from: Source, step: Step, t: Attempt, o: Source)
    requires o != s && o != from
    ensures At(Compensate(a, s, from, step, t).0, o) == At(a, o)
  {
  }

  /** The source whose doing an event is. */
  function Whose(e: Event): Source {
    e.s
  }

  /** What a source has still to undo, the run it is typing included. */
  function Work(stacks: Stacks): seq<Recorded> {
    Flat(stacks.groups) + if stacks.open.Some? then stacks.open.value.ops else []
  }

  function Flat(groups: seq<Group>): seq<Recorded> {
    if groups == [] then [] else Flat(groups[..|groups| - 1]) + groups[|groups| - 1].ops
  }

  lemma FlatPush(groups: seq<Group>, g: Group)
    ensures Flat(groups + [g]) == Flat(groups) + g.ops
  {
    assert (groups + [g])[..|groups|] == groups;
  }

  lemma {:induction false} FlatCut(groups: seq<Group>)
    requires groups != []
    ensures Flat(groups) == groups[0].ops + Flat(groups[1..])
  {
    var n := |groups| - 1;
    if n == 0 {
      assert groups[..0] == [] && groups[1..] == [];
    } else {
      var head, mid, last := groups[0].ops, Flat(groups[1..n]), groups[n].ops;
      FlatCut(groups[..n]);
      assert groups[..n][1..] == groups[1..n] == groups[1..][..n - 1];
      assert Flat(groups[..n]) == head + mid && Flat(groups[1..]) == mid + last;
      assert (head + mid) + last == head + (mid + last);
    }
  }

  /** The stack is full, and the run being typed holds something to put on it. */
  predicate Full(stacks: Stacks) {
    |stacks.groups| >= Cap && stacks.open.Some? && stacks.open.value.ops != []
  }

  /** The work left once the run is closed: a full stack makes room by forgetting its
      oldest group. */
  function ClosedWork(stacks: Stacks): seq<Recorded> {
    if Full(stacks) then Work(stacks.(groups := stacks.groups[1..])) else Work(stacks)
  }

  lemma FullForgets(stacks: Stacks)
    requires Full(stacks)
    ensures Work(stacks) == stacks.groups[0].ops + ClosedWork(stacks)
  {
    FlatCut(stacks.groups);
    assert stacks.groups[0].ops + Flat(stacks.groups[1..]) + stacks.open.value.ops
        == stacks.groups[0].ops + (Flat(stacks.groups[1..]) + stacks.open.value.ops);
  }

  /** Closing a run keeps what can be redone, and the work but for a full stack's oldest. */
  lemma CloseWork(a: Arbiter, s: Source)
    ensures var b := At(Close(a, s), s);
      Work(b) == ClosedWork(At(a, s)) && b.redo == At(a, s).redo && b.detached == At(a, s).detached && b.open.None?
    ensures At(a, s).open.None? ==> Close(a, s) == a
  {
    if s in a.of && a.of[s].open.Some? && a.of[s].open.value.ops != [] {
      CloseIs(a, s);
      var left, ops := Capped(a.of[s].groups), a.of[s].open.value.ops;
      FlatPush(left, Group(ops, a.seq_ + 1));
      assert Flat(left) + ops + [] == Flat(left) + ops;
    }
  }

  lemma {:induction false} CloseAllWork(a: Arbiter, order: seq<Source>, o: Source)
    ensures var b := At(CloseAll(a, order), o);
      && b.redo == At(a, o).redo && b.detached == At(a, o).detached
      && if o in order then Work(b) == ClosedWork(At(a, o)) && b.open.None? else b == At(a, o)
  {
    if order != [] {
      var n := |order| - 1;
      CloseAllWork(a, order[..n], o);
      var a1 := CloseAll(a, order[..n]);
      assert order == order[..n] + [order[n]];
      if order[n] != o {
        CloseOther(a1, order[n], o);
      } else {
        CloseWork(a1, o);
      }
    }
  }

  /** The event is an edit of the daemon's, which ends the runs of the sources met. */
  predicate EndsRuns(e: Event, o: Source) {
    (e.Edits? || e.Imports?) && e.s.Daemon? && e.ops != [] && o in e.order
  }

  lemma OthersLeave(a: Arbiter, e: Event, o: Source)
    requires Live(a, o) && Whose(e) != o
    ensures var was, b := At(a, o), At(Do(a, e), o);
      && b.detached == was.detached && b.redo == was.redo
      && if EndsRuns(e, o) then Work(b) == ClosedWork(was) else b == was
  {
    var s := e.s;
    CloseOther(a, s, o);
    match e
    case Types(_, run, limit) =>
    case Ends(_) =>
    case Edits(_, ops, order) => RecordLeaves(a, s, ops, order, o);
    case Imports(_, typed, run, limit, ops, order) =>
      RecordLeaves(if typed then TypedBegin(a, s, run, limit) else Close(a, s), s, ops, order, o);
    case Leaves(_) =>
    case Undoes(_, order, t) => UndoLeavesOthers(a, s, order, t, o);
    case Redoes(_, t) => UndoLeavesOthers(a, s, [], t, o);
  }

  /** Nothing another source does changes what a live frontend can redo, and only the
      daemon's edits end the run it is typing; the ops it has to undo stay the same if and
      only if that does not happen with its stack full, and then just the oldest group's
      are forgotten. */
  lemma OthersLeaveWork(a: Arbiter, e: Event, o: Source)
    requires Ok(a) && Live(a, o) && Whose(e) != o
    ensures var was, b := At(a, o), At(Do(a, e), o);
      && Live(Do(a, e), o) && b.redo == was.redo && (EndsRuns(e, o) || b == was)
      && (Work(b) == Work(was) <==> !(EndsRuns(e, o) && Full(was)))
      && (EndsRuns(e, o) && Full(was) ==> Work(was) == was.groups[0].ops + Work(b) && was.groups[0].ops != [])
  {
    OthersLeave(a, e, o);
    if EndsRuns(e, o) && Full(At(a, o)) {
      FullForgets(At(a, o));
      assert Num(At(a, o).groups, 0) <= a.seq_;
    }
  }

  lemma RecordLeaves(a: Arbiter, s: Source, ops: seq<Recorded>, order: seq<Source>, o: Source)
    requires o != s
    ensures var was, b := At(a, o), At(Record(a, s, ops, order), o);
      && b.detached == was.detached && b.redo == was.redo
      && if s.Daemon? && ops != [] && o in order then Work(b) == ClosedWork(was) else b == was
  {
    CloseAllWork(a, order, o);
    var a1 := if s.Daemon? then CloseAll(a, order) else a;
    assert ops != [] ==> At(Record(a, s, ops, order), o) == At(a1, o);
  }

  // ----- what recording does to a source's own stacks -----

  /** A group of exactly these ops is the newest of the stack, and the oldest is gone if
      there were ten thousand. */
  ghost predicate Pushed(was: seq<Group>, ops: seq<Recorded>, n: nat, now: seq<Group>) {
    now == was[(if |was| < 10_000 then 0 else 1)..] + [Group(ops, n)]
  }

  /** The run is closed: its ops are a group under a number above `top`, if there are any. */
  ghost predicate Shut(was: Stacks, top: nat, now: Stacks) {
    && now.open.None? && now.redo == was.redo && now.detached == was.detached
    && if was.open.Some? && was.open.value.ops != []
       then exists n :: n > top && Pushed(was.groups, was.open.value.ops, n, now.groups)
       else now.groups == was.groups
  }

  /** The source's stacks once it has recorded ops: the run it is typing goes on with them,
      or they are a group of their own; either way it has nothing left to redo. */
  ghost predicate Took(was: Stacks, ops: seq<Recorded>, n: nat, now: Stacks) {
    && now.redo == [] && now.detached == was.detached
    && if was.open.Some?
       then now.open.Some? && now.open.value.ops == was.open.value.ops + ops && now.groups == was.groups
       else now.open.None? && Pushed(was.groups, ops, n, now.groups)
  }

  lemma CloseShuts(a: Arbiter, s: Source)
    ensures Shut(At(a, s), a.seq_, At(Close(a, s), s))
    ensures Close(a, s).seq_ >= a.seq_
  {
    var was := At(a, s);
    assert was.groups[0..] == was.groups;
    if was.open.Some? && was.open.value.ops != [] {
      assert Pushed(was.groups, was.open.value.ops, a.seq_ + 1, At(Close(a, s), s).groups);
    }
  }

  lemma ShutTwice(was: Stacks, top: nat, now: Stacks, top': nat, now': Stacks)
    requires Shut(was, top, now) && Shut(now, top', now')
    ensures now' == now
  {
  }

  lemma ShutLater(was: Stacks, top: nat, later: nat, now: Stacks)
    requires Shut(was, later, now) && top <= later
    ensures Shut(was, top, now)
  {
    if was.open.Some? && was.open.value.ops != [] {
      var n :| n > later && Pushed(was.groups, was.open.value.ops, n, now.groups);
      assert n > top;
    }
  }

  /** Closing every run met closes each, and leaves the sources not met alone. */
  lemma {:induction false} CloseAllShuts(a: Arbiter, order: seq<Source>, o: Source)
    ensures CloseAll(a, order).seq_ >= a.seq_
    ensures var now := At(CloseAll(a, order), o);
      if o in order then Shut(At(a, o), a.seq_, now) else now == At(a, o)
  {
    if order != [] {
      var n := |order| - 1;
      var a1 := CloseAll(a, order[..n]);
      CloseAllShuts(a, order[..n], o);
      CloseShuts(a1, order[n]);
      assert order == order[..n] + [order[n]];
      if order[n] != o {
        CloseOther(a1, order[n], o);
      } else if o in order[..n] {
        ShutTwice(At(a, o), a.seq_, At(a1, o), a1.seq_, At(CloseAll(a, order), o));
      } else {
        ShutLater(At(a, o), a.seq_, a1.seq_, At(CloseAll(a, order), o));
      }
    }
  }

  /** Recording ops: the source's run goes on with them, or they are its newest group, and
      it has nothing left to redo; if it is the daemon, every run met is closed first. */
  lemma RecordTakes(a: Arbiter, s: Source, ops: seq<Recorded>, order: seq<Source>)
    requires ops != []
    ensures var a1 := if s.Daemon? then CloseAll(a, order) else a;
      var b := Record(a, s, ops, order);
      && Took(At(a1, s), ops, a1.seq_ + 1, At(b, s))
      && b.seq_ == (if At(a1, s).open.Some? then a1.seq_ else a1.seq_ + 1)
      && forall o :: o != s ==> At(b, o) == At(a1, o)
  {
    var a1 := if s.Daemon? then CloseAll(a, order) else a;
    assert At(a1, s).groups[0..] == At(a1, s).groups;
  }

  lemma TookOpen(was: Stacks, ops: seq<Recorded>, n: nat, now: Stacks)
    requires Took(was, ops, n, now) && was.open.Some?
    ensures Work(now) == Work(was) + ops
  {
    var run := was.open.value.ops;
    assert Flat(was.groups) + (run + ops) == (Flat(was.groups) + run) + ops;
  }

  lemma TookAlone(was: Stacks, ops: seq<Recorded>, n: nat, now: Stacks, left: seq<Group>)
    requires Took(was, ops, n, now) && was.open.None?
    requires left == was.groups[(if |was.groups| < 10_000 then 0 else 1)..]
    ensures Work(now) == Work(was.(groups := left)) + ops
  {
    FlatPush(left, Group(ops, n));
    assert Work(now) == Flat(now.groups) + [] == Flat(now.groups);
    assert Work(was.(groups := left)) == Flat(left) + [] == Flat(left);
  }

  /** So the source's work grows by exactly the ops, but for a full stack's oldest group. */
  lemma RecordWorks(a: Arbiter, s: Source, ops: seq<Recorded>, order: seq<Source>)
    requires ops != []
    ensures var was := At(if s.Daemon? then CloseAll(a, order) else a, s);
      var left := if was.open.Some? || |was.groups| < 10_000 then was else was.(groups := was.groups[1..]);
      Work(At(Record(a, s, ops, order), s)) == Work(left) + ops
  {
    RecordTakes(a, s, ops, order);
    var a1 := if s.Daemon? then CloseAll(a, order) else a;
    var was, now := At(a1, s), At(Record(a, s, ops, order), s);
    if was.open.Some? {
      TookOpen(was, ops, a1.seq_ + 1, now);
    } else {
      var left := if |was.groups| < 10_000 then was else was.(groups := was.groups[1..]);
      assert was.groups[0..] == was.groups;
      TookAlone(was, ops, a1.seq_ + 1, now, left.groups);
    }
  }

  lemma RecordTook(a: Arbiter, s: Source, ops: seq<Recorded>, order: seq<Source>)
    requires ops != [] && s.Frontend?
    ensures Took(At(a, s), ops, a.seq_ + 1, At(Record(a, s, ops, order), s))
  {
    RecordTakes(a, s, ops, order);
  }

  /** A keystroke on whose count a new group begins closes the run and begins an empty one;
      any other goes on with the run, or begins one if there is none. */
  lemma TypedBegins(a: Arbiter, s: Source, run: nat, limit: nat)
    ensures var b, was := TypedBegin(a, s, run, limit), At(a, s);
      var now := At(b, s);
      && (forall o :: o != s ==> At(b, o) == At(a, o))
      && now.open == (if was.open.Some? && limit > 0 && run % limit > 0 then was.open else Some(Group([], 0)))
      && if limit == 0 || run % limit == 0 then Shut(was, a.seq_, now.(open := None))
         else b.seq_ == a.seq_ && now == was.(open := now.open)
  {
    CloseShuts(a, s);
  }

  /** A departing source's run is closed, it can redo nothing, and what it could undo is
      unowned; with nothing to undo it is gone. */
  lemma DetachLeaves(a: Arbiter, s: Source)
    ensures var b, was := Detach(a, s), At(a, s);
      && (forall o :: o != s ==> At(b, o) == At(a, o))
      && (s in b.of <==> was.groups != [] || (was.open.Some? && was.open.value.ops != []))
      && (s in b.of ==> b.of[s].redo == [] && b.of[s].detached
                        && Shut(was, a.seq_, b.of[s].(redo := was.redo, detached := was.detached)))
  {
    CloseShuts(a, s);
  }

  /** How an attempt at so many groups comes out. */
  ghost predicate ComesOut(t: Attempt, groups: nat, outcome: Outcome) {
    outcome == if t.gone >= groups then NothingLeft else if t.produced.None? then Failed else Done
  }

  /** What is left of the groups once those with nothing to undo and the next are gone. */
  ghost predicate LeftOf(was: seq<Group>, t: Attempt, now: seq<Group>) {
    if t.gone >= |was| then now == [] else now == was[..|was| - 1 - t.gone]
  }

  /** Undoing from a stack takes the groups it tried off it, whatever comes out; what it
      produced is the newest group its source can redo, and nothing else changes. */
  lemma UndoTakes(a: Arbiter, s: Source, from: Source, t: Attempt, o: Source)
    requires from in a.of
    ensures var (b, outcome) := Compensate(a, s, from, Undo, t);
      && ComesOut(t, |a.of[from].groups|, outcome) && b.seq_ == a.seq_
      && LeftOf(a.of[from].groups, t, At(b, from).groups)
      && (o != from ==> At(b, o).groups == At(a, o).groups)
      && (if outcome.Done? && o == s then Pushed(At(a, s).redo, t.produced.value, 0, At(b, s).redo)
          else At(b, o).redo == At(a, o).redo)
      && At(b, o).open == At(a, o).open && At(b, o).detached == At(a, o).detached
  {
    assert At(a, s).redo[0..] == At(a, s).redo;
  }

  /** And redoing likewise, from its own: what it produced is a new group of its own. */
  lemma RedoTakes(a: Arbiter, s: Source, t: Attempt, o: Source)
    requires s in a.of
    ensures var (b, outcome) := RedoFor(a, s, t);
      && ComesOut(t, |a.of[s].redo|, outcome) && LeftOf(a.of[s].redo, t, At(b, s).redo)
      && (if outcome.Done? then Pushed(a.of[s].groups, t.produced.value, a.seq_ + 1, At(b, s).groups)
          else At(b, s).groups == a.of[s].groups)
      && At(b, s).open == a.of[s].open && At(b, s).detached == a.of[s].detached
      && (o != s ==> At(b, o) == At(a, o))
  {
    assert At(a, s).groups[0..] == At(a, s).groups;
  }

  /** The ops of one edit after another. */
  function AllOps(edits: seq<seq<Recorded>>): seq<Recorded> {
    if edits == [] then [] else AllOps(edits[..|edits| - 1]) + edits[|edits| - 1]
  }

  function Edited(s: Source, edits: seq<seq<Recorded>>): seq<Event> {
    seq(|edits|, i requires 0 <= i < |edits| => Edits(s, edits[i], []))
  }

  /** Whatever a frontend does within a run is one group once the run is closed. */
  lemma {:induction false} RunIsOneGroup(a: Arbiter, s: Source, edits: seq<seq<Recorded>>)
    requires s.Frontend? && At(a, s).open.Some?
    ensures var b := Run(a, Edited(s, edits));
      && At(b, s).groups == At(a, s).groups && At(b, s).open.Some?
      && At(b, s).open.value.ops == At(a, s).open.value.ops + AllOps(edits)
  {
    if edits == [] {
      assert At(a, s).open.value.ops + [] == At(a, s).open.value.ops;
    } else {
      var n := |edits| - 1;
      RunIsOneGroup(a, s, edits[..n]);
      assert Edited(s, edits)[..n] == Edited(s, edits[..n]);
      var a1 := Run(a, Edited(s, edits[..n]));
      if edits[n] == [] {
        assert AllOps(edits) == AllOps(edits[..n]);
      } else {
        RecordTakes(a1, s, edits[n], []);
      }
    }
  }

  // ----- a run that loses work -----

  /** So many edits of one frontend. */
  function Typing(n: nat): seq<Event> {
    seq(n, _ => Edits(Frontend(0), [0], []))
  }

  function Typed(n: nat): Stacks {
    Stacks(seq(n, (i: nat) => Group([0], i + 1)), [], None, false)
  }

  lemma EditAdds(a: Arbiter, n: nat)
    requires At(a, Frontend(0)) == Typed(n) && a.seq_ == n < Cap
    ensures var b := Record(a, Frontend(0), [0], []); At(b, Frontend(0)) == Typed(n + 1) && b.seq_ == n + 1
  {
    assert Typed(n).groups + [Group([0], n + 1)] == Typed(n + 1).groups;
  }

  lemma {:induction false} TypingFills(n: nat)
    requires n <= Cap
    ensures var a := Run(NewArbiter, Typing(n)); At(a, Frontend(0)) == Typed(n) && a.seq_ == n
  {
    if n == 0 {
      assert Typed(0) == NoStacks;
    } else {
      TypingFills(n - 1);
      assert Typing(n)[..n - 1] == Typing(n - 1);
      EditAdds(Run(NewArbiter, Typing(n - 1)), n - 1);
    }
  }

  /** A frontend that has filled its stack and is typing loses its oldest group to an
      edit of the daemon's. */
  lemma WorkCanBeLost() returns (events: seq<Event>)
    ensures forall i :: 0 <= i < |events| ==> Real(events[i])
    ensures var a, o := Run(NewArbiter, events), Frontend(0);
      && Live(a, o) && Full(At(a, o)) && var b := Run(NewArbiter, events + [Edits(Daemon, [0], [o])]);
      Live(b, o) && |Work(At(b, o))| < |Work(At(a, o))|
  {
    var o := Frontend(0);
    var begins, types, daemon := Types(o, 0, 1), Edits(o, [0], []), Edits(Daemon, [0], [o]);
    TypingFills(Cap);
    var a0 := Run(NewArbiter, Typing(Cap));
    assert (Typing(Cap) + [begins])[..Cap] == Typing(Cap);
    var a1 := Run(NewArbiter, Typing(Cap) + [begins]);
    assert At(a1, o) == Typed(Cap).(open := Some(Group([], 0)));
    events := Typing(Cap) + [begins] + [types];
    assert events[..Cap + 1] == Typing(Cap) + [begins];
    var a := Run(NewArbiter, events);
    assert [] + [0] == [0];
    assert At(a, o) == Typed(Cap).(open := Some(Group([0], 0)));
    assert (events + [daemon])[..Cap + 2] == events;
    RunOk(events);
    OthersLeaveWork(a, daemon, o);
  }

  /** A frontend's undo that produced ops can be redone: its redo undoes those, leaves
      what could be redone before, and is its newest step to undo. */
  lemma UndoThenRedo(a: Arbiter, s: Source, order: seq<Source>, t: Attempt, r: Attempt)
    requires s.Frontend? && !At(a, s).detached && UndoFor(a, s, order, t).1.Done? && r.gone == 0 && r.produced.Some?
    ensures var a2 := UndoFor(a, s, order, t).0;
      && At(a2, s).redo == Capped(At(a, s).redo) + [Group(t.produced.value, 0)]
      && At(RedoFor(a2, s, r).0, s).redo == Capped(At(a, s).redo)
      && Newest(At(RedoFor(a2, s, r).0, s)) == Some(a2.seq_ + 1)
  {
    var a1 := Close(a, s);
    var from, a2 := Pick(a1, s, order), UndoFor(a, s, order, t).0;
    CloseKeepsOwner(a, s);
    UndoDone(a1, s, from, t);
    assert At(a2, s).redo == Capped(At(a, s).redo) + [Group(t.produced.value, 0)];
    assert At(a2, s).redo[..|At(a2, s).redo| - 1] == Capped(At(a, s).redo);
    RedoDone(a2, s, r);
  }

  lemma CloseKeepsOwner(a: Arbiter, s: Source)
    ensures At(Close(a, s), s).detached == At(a, s).detached && At(Close(a, s), s).redo == At(a, s).redo
  {
  }

  /** An undo takes the groups it tried off the stack it drew from. */
  lemma UndoDone(a: Arbiter, s: Source, from: Source, t: Attempt)
    requires Compensate(a, s, from, Undo, t).1.Done? && !At(a, s).detached
    ensures var a2 := Swept(Compensate(a, s, from, Undo, t).0);
      && At(a2, from).groups == At(a, from).groups[..|At(a, from).groups| - 1 - t.gone]
      && At(a2, s).redo == Capped(At(a, s).redo) + [Group(t.produced.value, 0)]
  {
    var left := |At(a, from).groups| - 1 - t.gone;
    var a1 := Popped(a, from, Undo, left);
    assert At(a1, from).groups == At(a, from).groups[..left] && At(a1, s).redo == At(a, s).redo && !At(a1, s).detached;
    var a2 := Produced(a1, s, Undo, t.produced.value);
    assert At(a2, from).groups == At(a1, from).groups
      && At(a2, s).redo == Capped(At(a1, s).redo) + [Group(t.produced.value, 0)];
    assert At(Swept(a2), s) == At(a2, s);
  }

  lemma RedoDone(a: Arbiter, s: Source, r: Attempt)
    requires At(a, s).redo != [] && r.gone == 0 && r.produced.Some?
    ensures var a1 := RedoFor(a, s, r).0;
      At(a1, s).redo == At(a, s).redo[..|At(a, s).redo| - 1] && Newest(At(a1, s)) == Some(a.seq_ + 1)
  {
    var a1 := Popped(a, s, Redo, |At(a, s).redo| - 1);
    assert RedoFor(a, s, r).0 == Push(a1, s, r.produced.value);
  }
}
