/** The undo arbiter as it runs (src/buffer.rs): a map of stacks changed in place. The
    order in which a hash map's sources are met, and how undoing recorded ops goes, are
    given to the methods that depend on them. */
module UndoArbiter {
  import opened Options
  import opened UndoStacks

  class SourceStacks {
    var arbiter: map<Source, Stacks>
    var arbiterSeq: nat

    function View(): Arbiter
      reads this
    {
      Arbiter(arbiter, arbiterSeq)
    }

    constructor ()
      ensures View() == NewArbiter
    {
      arbiter, arbiterSeq := map[], 0;
    }

    method PushGroup(source: Source, ops: seq<Recorded>)
      modifies this
      ensures View() == Push(old(View()), source, ops)
    {
      arbiterSeq := arbiterSeq + 1;
      var stacks := if source in arbiter then arbiter[source] else NoStacks;
      if |stacks.groups| >= Cap {
        stacks := stacks.(groups := stacks.groups[1..]);
      }
      arbiter := arbiter[source := stacks.(groups := stacks.groups + [Group(ops, arbiterSeq)])];
    }

    method ArbiterClose(source: Source)
      modifies this
      ensures View() == Close(old(View()), source)
    {
      if source !in arbiter || arbiter[source].open.None? {
        return;
      }
      var group := arbiter[source].open.value;
      arbiter := arbiter[source := arbiter[source].(open := None)];
      if group.ops != [] {
        PushGroup(source, group.ops);
      }
    }

    method ArbiterTypedBegin(source: Source, run: nat, limit: nat)
      modifies this
      ensures View() == TypedBegin(old(View()), source, run, limit)
    {
      if limit == 0 || run % limit == 0 {
        ArbiterClose(source);
      }
      var stacks := if source in arbiter then arbiter[source] else NoStacks;
      if stacks.open.None? {
        stacks := stacks.(open := Some(Group([], 0)));
      }
      arbiter := arbiter[source := stacks];
    }

    method ArbiterRecord(source: Source, ops: seq<Recorded>, order: seq<Source>)
      modifies this
      ensures View() == Record(old(View()), source, ops, order)
      ensures ops == [] ==> View() == old(View())
      ensures ops != [] && source.Frontend? ==>
        Took(At(old(View()), source), ops, old(arbiterSeq) + 1, At(View(), source))
    {
      if ops != [] && source.Frontend? {
        RecordTook(View(), source, ops, order);
      }
      if ops == [] {
        return;
      }
      if source.Daemon? {
        for i := 0 to |order|
          invariant View() == CloseAll(old(View()), order[..i])
        {
          assert order[..i + 1][..i] == order[..i];
          ArbiterClose(order[i]);
        }
        assert order[..|order|] == order;
      }
      var stacks := (if source in arbiter then arbiter[source] else NoStacks).(redo := []);
      if stacks.open.Some? {
        stacks := stacks.(open := Some(stacks.open.value.(ops := stacks.open.value.ops + ops)));
        arbiter := arbiter[source := stacks];
      } else {
        arbiter := arbiter[source := stacks];
        PushGroup(source, ops);
      }
    }

    method ArbiterDetach(source: Source)
      modifies this
      ensures View() == Detach(old(View()), source)
    {
      ArbiterClose(source);
      if source !in arbiter {
        return;
      }
      arbiter := if arbiter[source].groups == [] then arbiter - {source}
                 else arbiter[source := arbiter[source].(redo := [], detached := true)];
    }

    /** The unowned stack with the newest group, against the source's own. */
    method UndoPick(source: Source, order: seq<Source>) returns (from: Source)
      ensures from == Pick(View(), source, order)
    {
      if source.Daemon? {
        return source;
      }
      var best: Option<Source> := None;
      for i := 0 to |order|
        invariant best == NewestUnowned(View(), order[..i])
      {
        assert order[..i + 1][..i] == order[..i];
        var s := order[i];
        if s in arbiter && (s.Daemon? || arbiter[s].detached) && arbiter[s].groups != [] {
          var groups := arbiter[s].groups;
          if best.None? || Newest(arbiter[best.value]).value <= groups[|groups| - 1].seqno {
            best := Some(s);
          }
        }
      }
      assert order[..|order|] == order;
      var own := if source in arbiter then Newest(arbiter[source]) else None;
      from := if best.Some? && (own.None? || Newest(arbiter[best.value]).value > own.value) then best.value else source;
    }

    /** Pop groups until one produces ops, as the attempt has it. */
    method Compensate(source: Source, from: Source, step: Step, attempt: Attempt) returns (outcome: Outcome)
      modifies this
      ensures (View(), outcome) == UndoStacks.Compensate(old(View()), source, from, step, attempt)
    {
      if from !in arbiter {
        return NothingLeft;
      }
      ghost var stack := StackOf(arbiter[from], step);
      var popped := 0;
      assert stack[..|stack|] == stack && arbiter == arbiter[from := WithStack(arbiter[from], step, stack)];
      while popped <= attempt.gone
        invariant 0 <= popped <= attempt.gone + 1 && popped <= |stack| && from in arbiter
        invariant View() == Put(old(View()), from, WithStack(old(arbiter[from]), step, stack[..|stack| - popped]))
      {
        var groups := StackOf(arbiter[from], step);
        if groups == [] {
          return NothingLeft;
        }
        assert stack[..|stack| - popped][..|groups| - 1] == stack[..|stack| - (popped + 1)];
        arbiter := arbiter[from := WithStack(arbiter[from], step, groups[..|groups| - 1])];
        popped := popped + 1;
      }
      if attempt.produced.None? {
        return Failed;
      }
      if step.Undo? {
        var stacks := if source in arbiter then arbiter[source] else NoStacks;
        if |stacks.redo| >= Cap {
          stacks := stacks.(redo := stacks.redo[1..]);
        }
        arbiter := arbiter[source := stacks.(redo := stacks.redo + [Group(attempt.produced.value, 0)])];
      } else {
        PushGroup(source, attempt.produced.value);
      }
      outcome := Done;
    }

    method UndoFor(source: Source, order: seq<Source>, attempt: Attempt) returns (outcome: Outcome)
      modifies this
      ensures (View(), outcome) == UndoStacks.UndoFor(old(View()), source, order, attempt)
    {
      if !source.Daemon? {
        ArbiterClose(source);
      }
      var from := UndoPick(source, order);
      outcome := Compensate(source, from, Undo, attempt);
      arbiter := map s | s in arbiter && !(arbiter[s].detached && arbiter[s].groups == []) :: arbiter[s];
    }

    method RedoFor(source: Source, attempt: Attempt) returns (outcome: Outcome)
      modifies this
      ensures (View(), outcome) == UndoStacks.RedoFor(old(View()), source, attempt)
    {
      outcome := Compensate(source, source, Redo, attempt);
    }
  }
}
