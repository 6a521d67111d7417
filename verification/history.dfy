/** `useHistoryState` in hooks/useHistoryState.ts: a list of past states
    with a cursor. Setting a state drops everything after the cursor and
    appends; undo and redo move the cursor. Structural equality stands in
    for the comparison of JSON serialisations. */
module History {

  datatype History<T> = History(entries: seq<T>, index: nat)

  /** The invariant every operation keeps: at least one entry, and the
      cursor on one of them. */
  predicate Valid<T>(h: History<T>) {
    0 < |h.entries| && h.index < |h.entries|
  }

  /** The hook's starting value: one entry, the cursor on it. */
  function Init<T>(s: T): (h: History<T>)
    ensures Valid(h) && State(h) == s
    ensures !CanUndo(h) && !CanRedo(h)
  {
    History([s], 0)
  }

  /** `state`. */
  function State<T>(h: History<T>): T
    requires Valid(h)
  {
    h.entries[h.index]
  }

  /** `canUndo`. */
  predicate CanUndo<T>(h: History<T>) {
    h.index > 0
  }

  /** `canRedo`. */
  predicate CanRedo<T>(h: History<T>) {
    h.index + 1 < |h.entries|
  }

  /** `canUndo` and `canRedo` say exactly whether undo and redo move the
      cursor. */
  lemma CanMoveIff<T>(h: History<T>)
    requires Valid(h)
    ensures CanUndo(h) <==> Undo(h) != h
    ensures CanRedo(h) <==> Redo(h) != h
  {
  }

  /** `setState(next, overwrite)`: when `overwrite` is not set and `next`
      equals the current state, nothing changes; otherwise the entries
      after the cursor are dropped and `next` is appended and becomes
      current. */
  function SetState<T(==)>(h: History<T>, next: T, overwrite: bool): (r: History<T>)
    requires Valid(h)
    ensures Valid(r) && State(r) == next
    ensures !overwrite && next == State(h) ==> r == h
    ensures overwrite || next != State(h) ==>
              && !CanRedo(r) && CanUndo(r)
              && r.index == h.index + 1
              && r.entries[..r.index] == h.entries[..h.index + 1]
  {
    if !overwrite && next == State(h) then h
    else
      var entries := h.entries[..h.index + 1] + [next];
      History(entries, |entries| - 1)
  }

  /** `setState(f)`: the functional form, applied to the current state. */
  function Update<T(==)>(h: History<T>, f: T -> T, overwrite: bool): (r: History<T>)
    requires Valid(h)
    ensures Valid(r) && State(r) == f(State(h))
  {
    SetState(h, f(State(h)), overwrite)
  }

  /** `undo`: one step back, nothing at the first entry. */
  function Undo<T>(h: History<T>): (r: History<T>)
    requires Valid(h)
    ensures Valid(r) && r.entries == h.entries
    ensures CanUndo(h) ==> r.index + 1 == h.index && CanRedo(r)
    ensures !CanUndo(h) ==> r == h
  {
    if h.index > 0 then History(h.entries, h.index - 1) else h
  }

  /** `redo`: one step forward, nothing at the last entry. */
  function Redo<T>(h: History<T>): (r: History<T>)
    requires Valid(h)
    ensures Valid(r) && r.entries == h.entries
    ensures CanRedo(h) ==> r.index == h.index + 1 && CanUndo(r)
    ensures !CanRedo(h) ==> r == h
  {
    if h.index + 1 < |h.entries| then History(h.entries, h.index + 1) else h
  }

  /** Undo then redo returns to the same place. */
  lemma UndoThenRedo<T>(h: History<T>)
    requires Valid(h) && CanUndo(h)
    ensures Redo(Undo(h)) == h
  {
  }

  /** Redo then undo returns to the same place. */
  lemma RedoThenUndo<T>(h: History<T>)
    requires Valid(h) && CanRedo(h)
    ensures Undo(Redo(h)) == h
  {
  }

  /** A recorded change can be undone: the state before it comes back. */
  lemma SetThenUndo<T>(h: History<T>, next: T, overwrite: bool)
    requires Valid(h)
    requires overwrite || next != State(h)
    ensures State(Undo(SetState(h, next, overwrite))) == State(h)
    ensures Undo(SetState(h, next, overwrite)).index == h.index
  {
    var r := SetState(h, next, overwrite);
    assert r.entries[h.index] == r.entries[..r.index][h.index];
  }

  /** The three things a caller can do to the history. */
  datatype Op<T> = Set(next: T, overwrite: bool) | UndoOp | RedoOp

  function Apply<T(==)>(h: History<T>, op: Op<T>): (r: History<T>)
    requires Valid(h)
    ensures Valid(r)
    ensures |r.entries| <= |h.entries| + 1
  {
    match op
    case Set(next, overwrite) => SetState(h, next, overwrite)
    case UndoOp => Undo(h)
    case RedoOp => Redo(h)
  }

  /** Any sequence of operations from a valid history ends in a valid one:
      never empty, the cursor on an entry. Each operation adds at most one
      entry. */
  function Run<T(==)>(h: History<T>, ops: seq<Op<T>>): (r: History<T>)
    requires Valid(h)
    ensures Valid(r)
    ensures |r.entries| <= |h.entries| + |ops|
    decreases |ops|
  {
    if |ops| == 0 then h else Run(Apply(h, ops[0]), ops[1..])
  }
}
