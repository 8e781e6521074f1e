/** A buffer's marks by their ids (src/buffer.rs): no id is given twice, and making, moving
    and removing a mark changes that mark alone. */
module BufferMarks {
  import opened RopeEdits
  import opened BufferHistory

  /** The mark with the id is this one. */
  ghost predicate Stands(h: History, id: nat, m: Mark) {
    exists i :: 0 <= i < |h.marks| && h.marks[i] == (id, m)
  }

  ghost predicate Known(h: History, id: nat) {
    exists i :: 0 <= i < |h.marks| && h.marks[i].0 == id
  }

  /** Each id is one mark's, and was given before the next. */
  ghost predicate Issued(h: History) {
    && (forall i :: 0 <= i < |h.marks| ==> h.marks[i].0 < h.nextMark)
    && forall i, j :: 0 <= i < j < |h.marks| ==> h.marks[i].0 != h.marks[j].0
  }

  /** Nothing but the marks and the next id differs. */
  ghost predicate OnlyMarks(h: History, h': History) {
    h' == h.(marks := h'.marks, nextMark := h'.nextMark)
  }

  /** A mark made within the text stands where it was asked for under an id never given;
      no other mark changes. */
  lemma CreateMakes(h: History, pos: nat, gravity: Gravity, id: nat, m: Mark)
    requires Issued(h)
    ensures var (h', r) := CreateMark(h, pos, gravity);
      if pos > |h.rope| then h' == h && r == Err(OutOfBounds(pos, |h.rope|))
      else
        && OnlyMarks(h, h') && Issued(h') && r.Ok? && !Known(h, r.value) && r.value < h'.nextMark
        && h.nextMark <= h'.nextMark
        && (Stands(h', id, m) <==> Stands(h, id, m) || (id == r.value && m == Mark(pos, gravity)))
  {
    var (h', r) := CreateMark(h, pos, gravity);
    if pos <= |h.rope| {
      assert h'.marks[|h.marks|] == (r.value, Mark(pos, gravity));
      assert forall i :: 0 <= i < |h.marks| ==> h'.marks[i] == h.marks[i];
    }
  }

  /** Moving a mark within the text moves that mark, which leans as it did, and no other;
      it says whether there was one. */
  lemma SetMakes(h: History, id: nat, pos: nat, other: nat, m: Mark)
    requires Issued(h)
    ensures var (h', r) := SetMark(h, id, pos);
      if pos > |h.rope| then h' == h && r == Err(OutOfBounds(pos, |h.rope|))
      else
        && OnlyMarks(h, h') && Issued(h') && h'.nextMark == h.nextMark && r == Ok(Known(h, id))
        && (Stands(h', id, m) <==> m.pos == pos && exists was: nat :: Stands(h, id, m.(pos := was)))
        && (other != id ==> (Stands(h', other, m) <==> Stands(h, other, m)))
  {
    var (h', r) := SetMark(h, id, pos);
    var i := FindMark(h.marks, id);
    if pos <= |h.rope| && i < |h.marks| {
      assert h'.marks[i] == (id, h.marks[i].1.(pos := pos));
      assert forall j :: 0 <= j < |h.marks| && j != i ==> h'.marks[j] == h.marks[j] && h.marks[j].0 != id;
      if m.pos == pos && m.gravity == h.marks[i].1.gravity {
        assert h.marks[i] == (id, m.(pos := h.marks[i].1.pos));
      }
    }
  }

  lemma WithoutIssued(h: History, i: nat, h': History)
    requires Issued(h) && i < |h.marks| && h'.nextMark == h.nextMark && h'.marks == h.marks[..i] + h.marks[i + 1..]
    ensures Issued(h')
  {
    forall j | 0 <= j < |h'.marks| ensures h'.marks[j] == h.marks[if j < i then j else j + 1] {
    }
  }

  lemma WithoutStands(h: History, i: nat, h': History, other: nat, m: Mark)
    requires Issued(h) && i < |h.marks| && h'.marks == h.marks[..i] + h.marks[i + 1..]
    ensures Stands(h', other, m) <==> other != h.marks[i].0 && Stands(h, other, m)
  {
    if j :| 0 <= j < |h'.marks| && h'.marks[j] == (other, m) {
      assert h.marks[if j < i then j else j + 1] == (other, m);
    }
    if j :| 0 <= j < |h.marks| && h.marks[j] == (other, m) {
      assert j != i ==> h'.marks[if j < i then j else j - 1] == (other, m);
    }
  }

  /** Removing a mark removes that mark and no other, and says whether there was one. */
  lemma RemoveMakes(h: History, id: nat, other: nat, m: Mark)
    requires Issued(h)
    ensures var (h', existed) := RemoveMark(h, id);
      && OnlyMarks(h, h') && Issued(h') && h'.nextMark == h.nextMark && (existed <==> Known(h, id))
      && (Stands(h', other, m) <==> other != id && Stands(h, other, m))
  {
    var i := FindMark(h.marks, id);
    if i < |h.marks| {
      WithoutIssued(h, i, RemoveMark(h, id).0);
      WithoutStands(h, i, RemoveMark(h, id).0, other, m);
    }
  }

  lemma SameIds(h: History, h': History)
    requires Issued(h) && |h'.marks| == |h.marks| && h'.nextMark == h.nextMark
    requires forall i :: 0 <= i < |h.marks| ==> h'.marks[i].0 == h.marks[i].0
    ensures Issued(h')
  {
  }

  lemma DoIssued(h: History, e: Event)
    requires Inv(h) && Issued(h)
    ensures Issued(Do(h, e).0) && Do(h, e).0.nextMark >= h.nextMark
  {
    DoKeeps(h, e);
    match e
    case Creates(pos, gravity) => CreateMakes(h, pos, gravity, 0, Mark(0, gravity));
    case Sets(id, to) => SetMakes(h, id, to, 0, Mark(0, Left));
    case Removes(gone) => RemoveMakes(h, gone, 0, Mark(0, Left));
    case _ => SameIds(h, Do(h, e).0);
  }

  /** In every run no id is two marks', and none is given again. */
  lemma {:induction false} RunIssued(h: History, events: seq<Event>)
    requires Inv(h) && Issued(h)
    ensures Issued(Run(h, events)) && Run(h, events).nextMark >= h.nextMark
  {
    if events != [] {
      RunIssued(h, events[..|events| - 1]);
      DoIssued(Run(h, events[..|events| - 1]), events[|events| - 1]);
    }
  }
}
