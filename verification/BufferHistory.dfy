/** A buffer's own history (src/buffer.rs, buffers without a CRDT): whole ropes saved on
    an undo and a redo stack, each with the edit that leads from it towards the rope in
    the buffer; keystrokes merged and commands collapsed into one step. */
module BufferHistory {
  import opened Options
  import opened Utf8
  import opened RopeEdits

  const Limit: nat := 10_000

  const Wrap: nat := 0x1_0000_0000_0000_0000

  datatype Op = Insert(pos: nat, bytes: Bytes) | Delete(start: nat, end: nat) | Replace(start: nat, end: nat,
      bytes: Bytes)

  datatype Error = OutOfBounds(pos: nat, len: nat) | NothingToUndo | NothingToRedo

  datatype Result<T> = Ok(value: T) | Err(error: Error)

  /** What the views are told: the rope there is now, and how it came from the last. */
  datatype Edit = Edit(rope: Bytes, what: Description)

  /** A saved rope, and the edit that leads from it to its neighbour towards the one in
      the buffer. */
  datatype Entry = Entry(rope: Bytes, edit: Description, typed: bool)

  datatype History = History(rope: Bytes, undo: seq<Entry>, redo: seq<Entry>, marks: seq<Placed>, nextMark: nat,
                             modified: bool, revision: nat, floor: Option<nat>)

  // ----- edits -----

  /** What the rope makes of an edit. */
  function RopeEdit(rope: Bytes, op: Op): Result<Edit> {
    match op
    case Insert(pos, bytes) =>
      if pos > |rope| then Err(OutOfBounds(pos, |rope|))
      else Ok(Edit(Splice(rope, pos, pos, bytes), Description(pos, pos, |bytes|)))
    case Delete(start, end) =>
      if start > end then Err(OutOfBounds(start, |rope|))
      else if end > |rope| then Err(OutOfBounds(end, |rope|))
      else Ok(Edit(Splice(rope, start, end, []), Description(start, end, 0)))
    case Replace(start, end, bytes) =>
      if start > end then Err(OutOfBounds(start, |rope|))
      else if end > |rope| then Err(OutOfBounds(end, |rope|))
      else Ok(Edit(Splice(rope, start, end, bytes), Description(start, end, |bytes|)))
  }

  predicate NoOp(d: Description) {
    d.start == d.end && d.inserted == 0
  }

  function Bumped(h: History): nat {
    (h.revision + 1) % Wrap
  }

  /** An edit: the rope it replaces is saved, the oldest saved one making room. */
  function Apply(h: History, op: Op): (History, Result<Edit>) {
    var r := RopeEdit(h.rope, op);
    if r.Err? || NoOp(r.value.what) then (h, r)
    else
      var room := if |h.undo| >= Limit then h.undo[1..] else h.undo;
      (h.(rope := r.value.rope, undo := room + [Entry(h.rope, r.value.what, false)], redo := [],
          marks := AdjustedAll(h.marks, r.value.what), modified := true, revision := Bumped(h)), r)
  }

  /** Go to the last rope on a stack, and save the one there was on the other. */
  function Undo(h: History): (History, Result<Edit>)
    requires Inv(h)
  {
    if h.undo == [] then (h, Err(NothingToUndo))
    else
      var n := |h.undo| - 1;
      assert Leads(h.undo, h.rope, n);
      var back := Inverse(h.undo[n].edit);
      (h.(rope := h.undo[n].rope, undo := h.undo[..n], redo := h.redo + [Entry(h.rope, back, false)],
          marks := AdjustedAll(h.marks, back), modified := n > 0, revision := Bumped(h)),
          Ok(Edit(h.undo[n].rope, back)))
  }

  function Redo(h: History): (History, Result<Edit>)
    requires Inv(h)
  {
    if h.redo == [] then (h, Err(NothingToRedo))
    else
      var n := |h.redo| - 1;
      assert Leads(h.redo, h.rope, n);
      var back := Inverse(h.redo[n].edit);
      (h.(rope := h.redo[n].rope, redo := h.redo[..n], undo := h.undo + [Entry(h.rope, back, false)],
          marks := AdjustedAll(h.marks, back), modified := true, revision := Bumped(h)), Ok(Edit(h.redo[n].rope, back)))
  }

  // ----- keystrokes and commands -----

  /** A keystroke's command begins here on the stack. */
  function TypedBegin(h: History): History {
    h.(floor := Some(|h.undo|))
  }

  /** Everything saved since the command began, as one step. */
  function Collapse(h: History): History {
    if h.floor.None? then h
    else if h.floor.value + 1 >= |h.undo| then h.(floor := None)
    else
      var f := h.floor.value;
      h.(floor := None, undo := h.undo[..f] + [Entry(h.undo[f].rope, Derived(h.undo[f].rope, h.rope), false)])
  }

  /** The newest step is a keystroke; merged with the one before it, if it is one too. */
  function NoteTyped(h0: History, merge: bool): (History, bool) {
    var h := Collapse(h0);
    var n := |h.undo|;
    if n == 0 then (h, false)
    else if !merge || n < 2
      || !h.undo[n - 2].typed then (h.(undo := h.undo[n - 1 := h.undo[n - 1].(typed := true)]), false)
    else
      var prev := h.undo[n - 2];
      (h.(undo := h.undo[..n - 2] + [prev.(edit := Derived(prev.rope, h.rope))]), true)
  }

  // ----- marks -----

  function CreateMark(h: History, pos: nat, gravity: Gravity): (History, Result<nat>) {
    if pos > |h.rope| then (h, Err(OutOfBounds(pos, |h.rope|)))
    else (h.(marks := h.marks + [(h.nextMark, Mark(pos, gravity))], nextMark := h.nextMark + 1), Ok(h.nextMark))
  }

  function FindMark(marks: seq<Placed>, id: nat): (i: nat)
    ensures i <= |marks| && (i < |marks| ==> marks[i].0 == id) && forall j :: 0 <= j < i ==> marks[j].0 != id
  {
    if marks == [] || marks[0].0 == id then 0
    else
      var i := FindMark(marks[1..], id);
      assert forall j :: 0 < j < i + 1 ==> marks[j] == marks[1..][j - 1];
      i + 1
  }

  function SetMark(h: History, id: nat, pos: nat): (History, Result<bool>) {
    var i := FindMark(h.marks, id);
    if pos > |h.rope| then (h, Err(OutOfBounds(pos, |h.rope|)))
    else if i == |h.marks| then (h, Ok(false))
    else (h.(marks := h.marks[i := (id, h.marks[i].1.(pos := pos))]), Ok(true))
  }

  function RemoveMark(h: History, id: nat): (History, bool) {
    var i := FindMark(h.marks, id);
    if i == |h.marks| then (h, false) else (h.(marks := h.marks[..i] + h.marks[i + 1..]), true)
  }

  // ----- what holds throughout -----

  /** The rope next to a saved one, towards the buffer's. */
  function Next(stack: seq<Entry>, rope: Bytes, i: nat): Bytes
    requires i < |stack|
  {
    if i + 1 < |stack| then stack[i + 1].rope else rope
  }

  /** A saved edit truly leads to the next rope. */
  ghost predicate Leads(stack: seq<Entry>, rope: Bytes, i: nat)
    requires i < |stack|
  {
    Describes(stack[i].edit, stack[i].rope, Next(stack, rope, i))
  }

  /** Every saved edit does. */
  ghost predicate Chain(stack: seq<Entry>, rope: Bytes) {
    forall i {:trigger Leads(stack, rope, i)} :: 0 <= i < |stack| ==> Leads(stack, rope, i)
  }

  ghost predicate Inv(h: History) {
    && Chain(h.undo, h.rope) && Chain(h.redo, h.rope)
    && |h.undo| + |h.redo| <= Limit
    && AllWithin(h.marks, |h.rope|)
    && forall i :: 0 <= i < |h.redo| ==> !h.redo[i].typed
  }

  lemma ChainPush(stack: seq<Entry>, rope: Bytes, edit: Description, typed: bool, rope': Bytes)
    requires Chain(stack, rope) && Describes(edit, rope, rope')
    ensures Chain(stack + [Entry(rope, edit, typed)], rope')
  {
    var s := stack + [Entry(rope, edit, typed)];
    forall i | 0 <= i < |s| ensures Leads(s, rope', i) {
      if i < |stack| {
        assert Leads(stack, rope, i);
      }
    }
  }

  lemma ChainPop(stack: seq<Entry>, rope: Bytes)
    requires Chain(stack, rope) && stack != []
    ensures Chain(stack[..|stack| - 1], stack[|stack| - 1].rope)
    ensures Describes(stack[|stack| - 1].edit, stack[|stack| - 1].rope, rope)
  {
    var s, top := stack[..|stack| - 1], stack[|stack| - 1].rope;
    forall i | 0 <= i < |s| ensures Leads(s, top, i) {
      assert Leads(stack, rope, i);
    }
    assert Leads(stack, rope, |stack| - 1);
  }

  lemma ChainTail(stack: seq<Entry>, rope: Bytes)
    requires Chain(stack, rope) && stack != []
    ensures Chain(stack[1..], rope)
  {
    var s := stack[1..];
    forall i | 0 <= i < |s| ensures Leads(s, rope, i) {
      assert Leads(stack, rope, i + 1);
    }
  }

  lemma {:induction false} ChainCut(stack: seq<Entry>, rope: Bytes, f: nat)
    requires Chain(stack, rope) && f < |stack|
    ensures Chain(stack[..f], stack[f].rope)
    decreases |stack|
  {
    ChainPop(stack, rope);
    var n := |stack| - 1;
    if f < n {
      ChainCut(stack[..n], stack[n].rope, f);
      assert stack[..n][..f] == stack[..f] && stack[..n][f] == stack[f];
    }
  }

  /** The step from a saved rope straight to the buffer's takes the place of all the
      steps between. */
  lemma ChainJoined(stack: seq<Entry>, rope: Bytes, f: nat, typed: bool)
    requires Chain(stack, rope) && f < |stack|
    ensures Chain(stack[..f] + [Entry(stack[f].rope, Derived(stack[f].rope, rope), typed)], rope)
  {
    ChainCut(stack, rope, f);
    ChainPush(stack[..f], stack[f].rope, Derived(stack[f].rope, rope), typed, rope);
  }

  lemma ChainMarked(stack: seq<Entry>, rope: Bytes, i: nat)
    requires Chain(stack, rope) && i < |stack|
    ensures Chain(stack[i := stack[i].(typed := true)], rope)
  {
    var s := stack[i := stack[i].(typed := true)];
    forall j | 0 <= j < |s| ensures Leads(s, rope, j) {
      assert Leads(stack, rope, j);
    }
  }

  lemma RopeEditDescribed(rope: Bytes, op: Op)
    ensures var r := RopeEdit(rope, op); r.Ok? ==> Describes(r.value.what, rope, r.value.rope)
  {
    match op
    case Insert(pos, bytes) => if pos <= |rope| { SpliceDescribed(rope, pos, pos, bytes); }
    case Delete(start, end) => if start <= end <= |rope| { SpliceDescribed(rope, start, end, []); }
    case Replace(start, end, bytes) => if start <= end <= |rope| { SpliceDescribed(rope, start, end, bytes); }
  }

  /** A step the views were told of truly: the edit leads from the rope there was to the
      rope there is; told nothing, the rope is the same. */
  ghost predicate Told(h: History, h': History, told: Option<Edit>) {
    if told.Some? then told.value.rope == h'.rope && Describes(told.value.what, h.rope, h'.rope) else h'.rope == h.rope
  }

  function ToldOf(r: Result<Edit>): Option<Edit> {
    if r.Ok? then Some(r.value) else None
  }

  lemma ApplyKeeps(h: History, op: Op)
    requires Inv(h)
    ensures var (h', r) := Apply(h, op); Inv(h') && Told(h, h', ToldOf(r))
  {
    RopeEditDescribed(h.rope, op);
    var (h', r) := Apply(h, op);
    if r.Ok? {
      if NoOp(r.value.what) {
        assert r.value.rope == h.rope;
      } else {
        var room := if |h.undo| >= Limit then h.undo[1..] else h.undo;
        if |h.undo| >= Limit {
          ChainTail(h.undo, h.rope);
        }
        ChainPush(room, h.rope, r.value.what, false, h'.rope);
        AllStay(h.marks, r.value.what, h.rope, h'.rope);
      }
    }
  }

  /** The range an edit asks for, and what it asks to stand there. */
  function Asked(op: Op): (nat, nat, Bytes) {
    match op
    case Insert(pos, bytes) => (pos, pos, bytes)
    case Delete(start, end) => (start, end, [])
    case Replace(start, end, bytes) => (start, end, bytes)
  }

  /** The rope once the range asked for is what was asked. */
  ghost predicate Made(h: History, op: Op, h': History, edit: Edit) {
    var (start, end, bytes) := Asked(op);
    && start <= end <= |h.rope|
    && h'.rope == h.rope[..start] + bytes + h.rope[end..]
    && edit == Edit(h'.rope, Description(start, end, |bytes|))
  }

  /** A step saved: the rope there was is on the undo stack, nothing is left to redo, and
      the oldest step is gone if there were ten thousand. */
  ghost predicate Saved(h: History, h': History, what: Description)
    requires what.start <= what.end
  {
    && h'.redo == []
    && h'.undo == h.undo[(if |h.undo| < 10_000 then 0 else 1)..] + [Entry(h.rope, what, false)]
    && h'.modified && h'.revision == (h.revision + 1) % 0x1_0000_0000_0000_0000
    && h'.marks == AdjustedAll(h.marks, what) && h'.nextMark == h.nextMark && h'.floor == h.floor
  }

  /** An edit within bounds makes of the rope what was asked and saves a step, unless it
      puts nothing in place of nothing; one out of bounds changes nothing and fails. */
  ghost predicate Applied(h: History, op: Op, h': History, r: Result<Edit>) {
    var (start, end, bytes) := Asked(op);
    if start <= end <= |h.rope| then
      && r.Ok? && Made(h, op, h', r.value)
      && if start == end && bytes == [] then h' == h else Saved(h, h', r.value.what)
    else h' == h && r == Err(OutOfBounds(if start > end then start else end, |h.rope|))
  }

  lemma ApplyMakes(h: History, op: Op)
    ensures Applied(h, op, Apply(h, op).0, Apply(h, op).1)
  {
    var (start, end, bytes) := Asked(op);
    if start == end <= |h.rope| && bytes == [] {
      assert h.rope[..start] + bytes + h.rope[end..] == h.rope;
    }
    assert h.undo[0..] == h.undo;
  }

  /** Undoing brings back the rope saved last, and saves the one there was to redo, with
      the way back to it. */
  lemma UndoMakes(h: History)
    requires Inv(h)
    ensures var (h', r) := Undo(h); var n := |h.undo|;
      if n == 0 then h' == h && r == Err(NothingToUndo)
      else
        var top := h.undo[n - 1];
        && r == Ok(Edit(h'.rope, Inverse(top.edit))) && h'.rope == top.rope && h'.undo + [top] == h.undo
        && h'.redo == h.redo + [Entry(h.rope, Inverse(top.edit), false)]
        && (h'.modified <==> n > 1) && h'.revision == (h.revision + 1) % 0x1_0000_0000_0000_0000
        && h'.marks == AdjustedAll(h.marks, Inverse(top.edit)) && h'.nextMark == h.nextMark && h'.floor == h.floor
  {
  }

  lemma RedoMakes(h: History)
    requires Inv(h)
    ensures var (h', r) := Redo(h); var n := |h.redo|;
      if n == 0 then h' == h && r == Err(NothingToRedo)
      else
        var top := h.redo[n - 1];
        && r == Ok(Edit(h'.rope, Inverse(top.edit))) && h'.rope == top.rope && h'.redo + [top] == h.redo
        && h'.undo == h.undo + [Entry(h.rope, Inverse(top.edit), false)]
        && h'.modified && h'.revision == (h.revision + 1) % 0x1_0000_0000_0000_0000
        && h'.marks == AdjustedAll(h.marks, Inverse(top.edit)) && h'.nextMark == h.nextMark && h'.floor == h.floor
  {
  }

  lemma UndoKeeps(h: History)
    requires Inv(h)
    ensures var (h', r) := Undo(h); Inv(h') && Told(h, h', ToldOf(r))
  {
    if h.undo != [] {
      var n := |h.undo| - 1;
      ChainPop(h.undo, h.rope);
      InverseDescribes(h.undo[n].edit, h.undo[n].rope, h.rope);
      ChainPush(h.redo, h.rope, Inverse(h.undo[n].edit), false, h.undo[n].rope);
      AllStay(h.marks, Inverse(h.undo[n].edit), h.rope, h.undo[n].rope);
    }
  }

  lemma RedoKeeps(h: History)
    requires Inv(h)
    ensures var (h', r) := Redo(h); Inv(h') && Told(h, h', ToldOf(r))
  {
    if h.redo != [] {
      var n := |h.redo| - 1;
      ChainPop(h.redo, h.rope);
      InverseDescribes(h.redo[n].edit, h.redo[n].rope, h.rope);
      ChainPush(h.undo, h.rope, Inverse(h.redo[n].edit), false, h.redo[n].rope);
      AllStay(h.marks, Inverse(h.redo[n].edit), h.rope, h.redo[n].rope);
    }
  }

  lemma CollapseKeeps(h: History)
    requires Inv(h)
    ensures Inv(Collapse(h)) && Collapse(h).rope == h.rope
  {
    if h.floor.Some? && h.floor.value + 1 < |h.undo| {
      ChainJoined(h.undo, h.rope, h.floor.value, false);
    }
  }

  /** Collapsing leaves one step of those saved since the command began, straight to the
      rope there is, and forgets where it began; fewer than two stay as they are. */
  lemma CollapseMakes(h: History)
    requires Inv(h)
    ensures var h' := Collapse(h); var (n, f) := (|h.undo|, Or(h.floor, |h.undo|));
      && h' == h.(undo := h'.undo, floor := None)
      && (f + 2 > n ==> h'.undo == h.undo)
      && (f + 2 <= n ==>
            && |h'.undo| == f + 1 && h'.undo[..f] == h.undo[..f] && h'.undo[f].rope == h.undo[f].rope
            && !h'.undo[f].typed && Describes(h'.undo[f].edit, h'.undo[f].rope, h.rope))
  {
    CollapseKeeps(h);
    if h.floor.Some? && h.floor.value + 1 < |h.undo| {
      assert Leads(Collapse(h).undo, h.rope, h.floor.value);
    }
  }

  /** A keystroke noted is the newest step, marked as typed; it joins the one before it
      exactly if that is a keystroke too and they may be merged. */
  lemma NoteTypedMakes(h0: History, merge: bool)
    requires Inv(h0)
    ensures var (h', merged) := NoteTyped(h0, merge); var u := Collapse(h0).undo; var n := |u|;
      && h' == Collapse(h0).(undo := h'.undo)
      && (merged <==> merge && n >= 2 && u[n - 2].typed)
      && (n == 0 ==> h'.undo == [])
      && (n > 0 && !merged ==> h'.undo == u[..n - 1] + [u[n - 1].(typed := true)])
      && (merged ==>
            && |h'.undo| == n - 1 && h'.undo[..n - 2] == u[..n - 2] && h'.undo[n - 2].typed
            && h'.undo[n - 2].rope == u[n - 2].rope && Describes(h'.undo[n - 2].edit, u[n - 2].rope, h0.rope))
  {
    NoteTypedKeeps(h0, merge);
    var (h', merged) := NoteTyped(h0, merge);
    if merged {
      assert Leads(h'.undo, h0.rope, |h'.undo| - 1);
    }
  }

  lemma NoteTypedKeeps(h0: History, merge: bool)
    requires Inv(h0)
    ensures Inv(NoteTyped(h0, merge).0) && NoteTyped(h0, merge).0.rope == h0.rope
  {
    CollapseKeeps(h0);
    var h := Collapse(h0);
    var n := |h.undo|;
    if n > 0 {
      ChainMarked(h.undo, h.rope, n - 1);
      if n >= 2 {
        ChainJoined(h.undo, h.rope, n - 2, h.undo[n - 2].typed);
      }
    }
  }

  // ----- runs -----

  datatype Event = Does(op: Op) | Undoes | Redoes | Begins | Collapses | Notes(merge: bool)
    | Creates(pos: nat, gravity: Gravity) | Sets(id: nat, to: nat) | Removes(gone: nat)

  function Do(h: History, e: Event): (History, Option<Edit>)
    requires Inv(h)
  {
    match e
    case Does(op) => var (h', r) := Apply(h, op); (h', ToldOf(r))
    case Undoes => var (h', r) := Undo(h); (h', ToldOf(r))
    case Redoes => var (h', r) := Redo(h); (h', ToldOf(r))
    case Begins => (TypedBegin(h), None)
    case Collapses => (Collapse(h), None)
    case Notes(merge) => (NoteTyped(h, merge).0, None)
    case Creates(pos, gravity) => (CreateMark(h, pos, gravity).0, None)
    case Sets(id, to) => (SetMark(h, id, to).0, None)
    case Removes(id) => (RemoveMark(h, id).0, None)
  }

  lemma DoKeeps(h: History, e: Event)
    requires Inv(h)
    ensures Inv(Do(h, e).0) && Told(h, Do(h, e).0, Do(h, e).1)
  {
    match e
    case Does(op) => ApplyKeeps(h, op);
    case Undoes => UndoKeeps(h);
    case Redoes => RedoKeeps(h);
    case Collapses => CollapseKeeps(h);
    case Notes(merge) => NoteTypedKeeps(h, merge);
    case _ =>
  }

  ghost function Run(h: History, events: seq<Event>): (h': History)
    requires Inv(h)
    ensures Inv(h')
  {
    if events == [] then h
    else
      var h1 := Run(h, events[..|events| - 1]);
      DoKeeps(h1, events[|events| - 1]);
      Do(h1, events[|events| - 1]).0
  }

  /** What a view keeps that only ever hears of edits. */
  function Hear(copy: Bytes, told: Option<Edit>): Bytes {
    if told.None? then copy
    else
      var d := told.value.what;
      if d.start <= d.end <= |copy| && d.start + d.inserted <= |told.value.rope|
      then Splice(copy, d.start, d.end, told.value.rope[d.start..d.start + d.inserted]) else copy
  }

  ghost function HearAll(h: History, events: seq<Event>, copy: Bytes): Bytes
    requires Inv(h)
  {
    if events == [] then copy
    else Hear(HearAll(h, events[..|events| - 1], copy), Do(Run(h, events[..|events| - 1]), events[|events| - 1]).1)
  }

  /** Over any interleaving of edits, keystrokes, collapses, undos and redos, a view that
      makes only the edits it is told has the buffer's bytes. */
  lemma {:induction false} ViewsFollow(h: History, events: seq<Event>)
    requires Inv(h)
    ensures HearAll(h, events, h.rope) == Run(h, events).rope
  {
    if events != [] {
      var n := |events| - 1;
      ViewsFollow(h, events[..n]);
      var h1 := Run(h, events[..n]);
      DoKeeps(h1, events[n]);
      var (h2, told) := Do(h1, events[n]);
      if told.Some? {
        DescribesIsSplice(told.value.what, h1.rope, h2.rope);
      }
    }
  }

  // ----- round trips -----

  function Undos(h: History, k: nat): (h': History)
    requires Inv(h)
    ensures Inv(h')
  {
    if k == 0 then h else UndoKeeps(Undos(h, k - 1)); Undo(Undos(h, k - 1)).0
  }

  function Redos(h: History, k: nat): (h': History)
    requires Inv(h)
    ensures Inv(h')
  {
    if k == 0 then h else RedoKeeps(Redos(h, k - 1)); Redo(Redos(h, k - 1)).0
  }

  function Untyped(stack: seq<Entry>): (r: seq<Entry>)
    ensures |r| == |stack|
  {
    seq(|stack|, i requires 0 <= i < |stack| => stack[i].(typed := false))
  }

  /** The entry that leads back over a saved one. */
  function BackOver(stack: seq<Entry>, rope: Bytes, i: nat): Entry
    requires i < |stack| && Chain(stack, rope)
  {
    assert Leads(stack, rope, i);
    Entry(Next(stack, rope, i), Inverse(stack[i].edit), false)
  }

  /** The entries that going back over the last of a stack leaves on the other. */
  function Moved(stack: seq<Entry>, rope: Bytes, k: nat): (r: seq<Entry>)
    requires k <= |stack| && Chain(stack, rope)
    ensures |r| == k
  {
    seq(k, i requires 0 <= i < k => BackOver(stack, rope, |stack| - 1 - i))
  }

  /** The rope going back so far reaches. */
  function Reached(stack: seq<Entry>, rope: Bytes, k: nat): Bytes
    requires k <= |stack|
  {
    if k == 0 then rope else stack[|stack| - k].rope
  }

  lemma MovedMore(stack: seq<Entry>, rope: Bytes, k: nat)
    requires 0 < k <= |stack| && Chain(stack, rope)
    ensures var n, back := |stack|, Moved(stack, rope, k - 1);
      && stack[n - k].edit.start <= stack[n - k].edit.end
      && Moved(stack, rope, k) == back + [Entry(Reached(stack, rope, k - 1), Inverse(stack[n - k].edit), false)]
      && stack[..n - k + 1][..n - k] == stack[..n - k]
  {
    var n := |stack|;
    assert Leads(stack, rope, n - k);
    assert Reached(stack, rope, k - 1) == Next(stack, rope, n - k);
    assert Moved(stack, rope, k)[k - 1] == BackOver(stack, rope, n - k);
    assert Moved(stack, rope, k)[..k - 1] == Moved(stack, rope, k - 1);
  }

  /** Undos step back through the saved ropes, and leave the way forward. */
  lemma {:induction false} UndosAre(h: History, k: nat)
    requires Inv(h) && k <= |h.undo|
    ensures var h' := Undos(h, k);
      && h'.undo == h.undo[..|h.undo| - k] && h'.rope == Reached(h.undo, h.rope, k)
      && h'.redo == h.redo + Moved(h.undo, h.rope, k)
  {
    if k == 0 {
      assert h.redo + Moved(h.undo, h.rope, 0) == h.redo;
    } else {
      UndosAre(h, k - 1);
      MovedMore(h.undo, h.rope, k);
      var g := Undos(h, k - 1);
      var e := Entry(g.rope, Inverse(h.undo[|h.undo| - k].edit), false);
      assert Undo(g).0.redo == g.redo + [e];
      assert h.redo + (Moved(h.undo, h.rope, k - 1) + [e]) == g.redo + [e];
    }
  }

  lemma {:induction false} RedosAre(h: History, k: nat)
    requires Inv(h) && k <= |h.redo|
    ensures var h' := Redos(h, k);
      && h'.redo == h.redo[..|h.redo| - k] && h'.rope == Reached(h.redo, h.rope, k)
      && h'.undo == h.undo + Moved(h.redo, h.rope, k)
  {
    if k == 0 {
      assert h.undo + Moved(h.redo, h.rope, 0) == h.undo;
    } else {
      RedosAre(h, k - 1);
      MovedMore(h.redo, h.rope, k);
      var g := Redos(h, k - 1);
      var e := Entry(g.rope, Inverse(h.redo[|h.redo| - k].edit), false);
      assert Redo(g).0.undo == g.undo + [e];
      assert h.undo + (Moved(h.redo, h.rope, k - 1) + [e]) == g.undo + [e];
    }
  }

  /** Going back over the way forward is the way there was. */
  lemma MovedBack(stack: seq<Entry>, rope: Bytes, k: nat, other: seq<Entry>)
    requires k <= |stack| && Chain(stack, rope)
    requires Chain(other + Moved(stack, rope, k), Reached(stack, rope, k))
    ensures var back := other + Moved(stack, rope, k);
      && Moved(back, Reached(stack, rope, k), k) == Untyped(stack[|stack| - k..])
      && Reached(back, Reached(stack, rope, k), k) == rope && back[..|back| - k] == other
  {
    var n, back, at := |stack|, other + Moved(stack, rope, k), Reached(stack, rope, k);
    forall i | 0 <= i < k ensures Moved(back, at, k)[i] == Untyped(stack[n - k..])[i] {
      BackBack(stack, rope, k, other, i);
    }
    if k > 0 {
      assert back[|back| - k] == BackOver(stack, rope, n - 1);
    }
  }

  lemma BackBack(stack: seq<Entry>, rope: Bytes, k: nat, other: seq<Entry>, i: nat)
    requires i < k <= |stack| && Chain(stack, rope)
    requires Chain(other + Moved(stack, rope, k), Reached(stack, rope, k))
    ensures BackOver(other + Moved(stack, rope, k), Reached(stack, rope, k),
                     |other| + k - 1 - i) == stack[|stack| - k + i].(typed := false)
  {
    var n, back, at, j := |stack|, other + Moved(stack, rope, k), Reached(stack, rope, k), |other| + k - 1 - i;
    assert back[j] == BackOver(stack, rope, n - k + i);
    if i > 0 {
      assert back[j + 1] == BackOver(stack, rope, n - k + i - 1);
    }
    assert Leads(stack, rope, n - k + i);
  }

  /** So many undos and then as many redos bring back the bytes, the redo stack, and the
      undo stack but for which steps were keystrokes. */
  lemma UndosRedos(h: History, k: nat)
    requires Inv(h) && k <= |h.undo|
    ensures var n, h' := |h.undo|, Redos(Undos(h, k), k);
      h'.rope == h.rope && h'.redo == h.redo && h'.undo == h.undo[..n - k] + Untyped(h.undo[n - k..])
  {
    UndosAre(h, k);
    RedosAre(Undos(h, k), k);
    MovedBack(h.undo, h.rope, k, h.redo);
  }

  /** And the other way about. */
  lemma RedosUndos(h: History, k: nat)
    requires Inv(h) && k <= |h.redo|
    ensures var h' := Undos(Redos(h, k), k); h'.rope == h.rope && h'.redo == h.redo && h'.undo == h.undo
  {
    var n := |h.redo|;
    RedosAre(h, k);
    UndosAre(Redos(h, k), k);
    MovedBack(h.redo, h.rope, k, h.undo);
    assert Untyped(h.redo[n - k..]) == h.redo[n - k..];
  }

  /** An edit is undone to the rope it was made on, and so is a command or a run of
      keystrokes that became one step: to the rope before the first of them. */
  lemma StepsUndo(h: History, op: Op, merge: bool)
    requires Inv(h)
    ensures var (h', r) := Apply(h, op);
      Inv(h') && (r.Ok? && !NoOp(r.value.what) ==> Undo(h').0.rope == h.rope)
    ensures Inv(Collapse(h)) && (h.floor.Some? && h.floor.value + 1 < |h.undo| ==>
      |Collapse(h).undo| == h.floor.value + 1 && Undo(Collapse(h)).0.rope == h.undo[h.floor.value].rope)
    ensures var (h', merged) := NoteTyped(h, merge); var n := |Collapse(h).undo|;
      Inv(h') && (merged ==> n >= 2 && |h'.undo| == n - 1 && Undo(h').0.rope == Collapse(h).undo[n - 2].rope)
  {
    ApplyKeeps(h, op);
    CollapseKeeps(h);
    NoteTypedKeeps(h, merge);
  }

  /** The place of a mark among the others is kept by every edit, undo and redo: of two
      that lean the same way, the first stays first. */
  lemma MarksKeepOrder(h: History, e: Event, i: nat, j: nat)
    requires Inv(h) && (e.Does? || e.Undoes? || e.Redoes?) && i < |h.marks| && j < |h.marks|
    requires h.marks[i].1.pos <= h.marks[j].1.pos
      && (h.marks[i].1.gravity == h.marks[j].1.gravity || h.marks[i].1.gravity.Left?)
    ensures var h' := Do(h, e).0;
      |h'.marks| == |h.marks| && h'.marks[i].0 == h.marks[i].0 && h'.marks[j].0 == h.marks[j].0
    ensures Do(h, e).0.marks[i].1.pos <= Do(h, e).0.marks[j].1.pos
  {
    DoKeeps(h, e);
    var told := Do(h, e).1;
    if told.Some? {
      OrderKept(h.marks[i].1, h.marks[j].1, told.value.what);
    }
  }
}
