/** A buffer without a CRDT as it runs (src/buffer.rs): its rope, stacks and marks changed
    in place, refining the history's functions. */
module TextBuffer {
  import opened Options
  import opened Utf8
  import opened RopeEdits
  import opened BufferHistory

  class Buffer {
    var rope: Bytes
    var undo: seq<Entry>
    var redo: seq<Entry>
    var marks: seq<Placed>
    var nextMark: nat
    var isModified: bool
    var revision: nat
    var typedFloor: Option<nat>

    function View(): History
      reads this
    {
      History(rope, undo, redo, marks, nextMark, isModified, revision, typedFloor)
    }

    ghost predicate Valid()
      reads this
    {
      Inv(View())
    }

    constructor (bytes: Bytes)
      ensures Valid() && View() == History(bytes, [], [], [], 0, false, 0, None)
    {
      rope, undo, redo, marks, nextMark, isModified, revision, typedFloor := bytes, [], [], [], 0, false, 0, None;
    }

    method AdjustMarksForEdit(d: Description)
      requires d.start <= d.end
      modifies this`marks
      ensures marks == AdjustedAll(old(marks), d)
    {
      for i := 0 to |marks|
        invariant |marks| == |old(marks)|
        invariant forall j :: 0 <= j < |marks| ==> marks[j] == if j < i then AdjustedAll(old(marks), d)[j]
          else old(marks)[j]
      {
        var m := AdjustMark(marks[i].1, d);
        marks := marks[i := (marks[i].0, m)];
      }
    }

    method Apply(op: Op) returns (r: Result<Edit>)
      requires Valid()
      modifies this
      ensures Valid() && (View(), r) == BufferHistory.Apply(old(View()), op)
      ensures Told(old(View()), View(), ToldOf(r))
      ensures Applied(old(View()), op, View(), r)
    {
      ApplyKeeps(View(), op);
      ApplyMakes(View(), op);
      RopeEditDescribed(rope, op);
      r := RopeEdit(rope, op);
      if r.Err? || NoOp(r.value.what) {
        return;
      }
      var oldRope := rope;
      rope := r.value.rope;
      AdjustMarksForEdit(r.value.what);
      if |undo| >= Limit {
        undo := undo[1..];
      }
      undo := undo + [Entry(oldRope, r.value.what, false)];
      redo := [];
      isModified := true;
      revision := (revision + 1) % Wrap;
    }

    method Undo() returns (r: Result<Edit>)
      requires Valid()
      modifies this
      ensures Valid() && (View(), r) == BufferHistory.Undo(old(View()))
      ensures Told(old(View()), View(), ToldOf(r))
    {
      UndoKeeps(View());
      if undo == [] {
        return Err(NothingToUndo);
      }
      assert Leads(undo, rope, |undo| - 1);
      var entry := undo[|undo| - 1];
      var back := Inverse(entry.edit);
      var oldRope := rope;
      undo, rope := undo[..|undo| - 1], entry.rope;
      AdjustMarksForEdit(back);
      redo := redo + [Entry(oldRope, back, false)];
      isModified := undo != [];
      revision := (revision + 1) % Wrap;
      r := Ok(Edit(entry.rope, back));
    }

    method Redo() returns (r: Result<Edit>)
      requires Valid()
      modifies this
      ensures Valid() && (View(), r) == BufferHistory.Redo(old(View()))
      ensures Told(old(View()), View(), ToldOf(r))
    {
      RedoKeeps(View());
      if redo == [] {
        return Err(NothingToRedo);
      }
      assert Leads(redo, rope, |redo| - 1);
      var entry := redo[|redo| - 1];
      var back := Inverse(entry.edit);
      var oldRope := rope;
      redo, rope := redo[..|redo| - 1], entry.rope;
      AdjustMarksForEdit(back);
      undo := undo + [Entry(oldRope, back, false)];
      isModified := true;
      revision := (revision + 1) % Wrap;
      r := Ok(Edit(entry.rope, back));
    }

    method TypedBegin()
      requires Valid()
      modifies this`typedFloor
      ensures Valid() && View() == BufferHistory.TypedBegin(old(View()))
    {
      typedFloor := Some(|undo|);
    }

    /** One step of everything saved since the command began. */
    method CollapseTypedCommand()
      requires Valid()
      modifies this`typedFloor, this`undo
      ensures Valid() && View() == Collapse(old(View()))
    {
      CollapseKeeps(View());
      if typedFloor.None? {
        return;
      }
      var floor := typedFloor.value;
      typedFloor := None;
      if floor + 1 >= |undo| {
        return;
      }
      var oldest := undo[floor];
      undo := undo[..floor];
      var d := DeriveReplacementEdit(oldest.rope, rope);
      undo := undo + [Entry(oldest.rope, d, false)];
    }

    method NoteTypedEdit(merge: bool) returns (merged: bool)
      requires Valid()
      modifies this`typedFloor, this`undo
      ensures Valid() && (View(), merged) == NoteTyped(old(View()), merge)
    {
      NoteTypedKeeps(View(), merge);
      CollapseTypedCommand();
      var n := |undo|;
      if n == 0 {
        return false;
      }
      ghost var collapsed := undo;
      undo := undo[n - 1 := undo[n - 1].(typed := true)];
      if !merge || n < 2 || !undo[n - 2].typed {
        return false;
      }
      var prev := undo[n - 2];
      var d := DeriveReplacementEdit(prev.rope, rope);
      undo := undo[..n - 2] + [prev.(edit := d)];
      assert undo == collapsed[..n - 2] + [prev.(edit := d)];
      merged := true;
    }

    method CreateMark(pos: nat, gravity: Gravity) returns (r: Result<nat>)
      requires Valid()
      modifies this`marks, this`nextMark
      ensures Valid() && (View(), r) == BufferHistory.CreateMark(old(View()), pos, gravity)
    {
      if pos > |rope| {
        return Err(OutOfBounds(pos, |rope|));
      }
      r := Ok(nextMark);
      marks, nextMark := marks + [(nextMark, Mark(pos, gravity))], nextMark + 1;
    }

    method SetMark(id: nat, pos: nat) returns (r: Result<bool>)
      requires Valid()
      modifies this`marks
      ensures Valid() && (View(), r) == BufferHistory.SetMark(old(View()), id, pos)
    {
      if pos > |rope| {
        return Err(OutOfBounds(pos, |rope|));
      }
      var i := FindMark(marks, id);
      if i == |marks| {
        return Ok(false);
      }
      marks := marks[i := (id, marks[i].1.(pos := pos))];
      r := Ok(true);
    }

    method RemoveMark(id: nat) returns (existed: bool)
      requires Valid()
      modifies this`marks
      ensures Valid() && (View(), existed) == BufferHistory.RemoveMark(old(View()), id)
    {
      var i := FindMark(marks, id);
      if i == |marks| {
        return false;
      }
      marks := marks[..i] + marks[i + 1..];
      existed := true;
    }
  }
}
