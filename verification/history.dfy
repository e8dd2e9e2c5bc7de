/**
 * The undo/redo log of `useHistory` (src/App.tsx:137-157), as a value: the
 * list of snapshots and the cursor into it. The editor's state-changing
 * methods are specified by these functions.
 */
module History {

  datatype Log<S> = Log(entries: seq<S>, index: nat)

  /** The log is never empty and its cursor always points at an entry. */
  predicate Valid<S>(h: Log<S>)
  {
    |h.entries| > 0 && h.index < |h.entries|
  }

  /** The state `useHistory` starts from: one snapshot, cursor on it. */
  function Initial<S>(s: S): (h: Log<S>)
    ensures Valid(h) && Current(h) == s && |h.entries| == 1
  {
    Log([s], 0)
  }

  /** The snapshot under the cursor: what `useHistory` hands back as the state. */
  function Current<S>(h: Log<S>): (s: S)
    requires Valid(h)
    ensures s in h.entries
  {
    h.entries[h.index]
  }

  /**
   * `setstate(newstate, payload)`. With `replace` (the source's truthy
   * payload) the entry under the cursor is overwritten; otherwise every entry
   * after the cursor is dropped, the new state appended and the cursor moved
   * onto it.
   */
  function Commit<S>(h: Log<S>, s: S, replace: bool): (r: Log<S>)
    requires Valid(h)
    ensures Valid(r) && Current(r) == s
    ensures replace ==> |r.entries| == |h.entries| && r.index == h.index
    ensures replace ==> forall i :: 0 <= i < |h.entries| && i != h.index ==> r.entries[i] == h.entries[i]
    ensures !replace ==> r.index == h.index + 1 && |r.entries| == h.index + 2
    ensures !replace ==> forall i :: 0 <= i <= h.index ==> r.entries[i] == h.entries[i]
  {
    if replace then Log(h.entries[h.index := s], h.index)
    else Log(h.entries[..h.index + 1] + [s], h.index + 1)
  }

  /** `undo`: steps the cursor back unless it is on the first entry. */
  function Undo<S>(h: Log<S>): (r: Log<S>)
    requires Valid(h)
    ensures Valid(r) && r.entries == h.entries
    ensures h.index == 0 ==> r == h
    ensures h.index > 0 ==> r.index + 1 == h.index
  {
    if h.index > 0 then Log(h.entries, h.index - 1) else h
  }

  /** `redo`: steps the cursor forward unless it is on the last entry. */
  function Redo<S>(h: Log<S>): (r: Log<S>)
    requires Valid(h)
    ensures Valid(r) && r.entries == h.entries
    ensures h.index == |h.entries| - 1 ==> r == h
    ensures h.index < |h.entries| - 1 ==> r.index == h.index + 1
  {
    if h.index < |h.entries| - 1 then Log(h.entries, h.index + 1) else h
  }

  /** Redo undoes an undo that moved, and undo undoes a redo that moved. */
  lemma UndoRedoInverse<S>(h: Log<S>)
    requires Valid(h)
    ensures h.index > 0 ==> Redo(Undo(h)) == h
    ensures h.index < |h.entries| - 1 ==> Undo(Redo(h)) == h
  {
  }

  /**
   * After an appending commit there is nothing to redo, and one undo brings
   * back the state that was current before the commit.
   */
  lemma AppendThenUndo<S>(h: Log<S>, s: S)
    requires Valid(h)
    ensures Redo(Commit(h, s, false)) == Commit(h, s, false)
    ensures Current(Undo(Commit(h, s, false))) == Current(h)
  {
  }

  /** A replacing commit adds no undo step: undo lands where it would have landed before. */
  lemma ReplaceKeepsUndo<S>(h: Log<S>, s: S)
    requires Valid(h)
    ensures Undo(Commit(h, s, true)).index == Undo(h).index
    ensures h.index > 0 ==> Current(Undo(Commit(h, s, true))) == Current(Undo(h))
  {
  }

  /**
   * Appending after undoing discards the redo branch: from one snapshot,
   * three appends, two undos and one append leave three entries with the
   * cursor on the last.
   */
  lemma BranchDiscarded<S>(s0: S, s1: S, s2: S, s3: S, s4: S)
    ensures var h := Commit(Undo(Undo(Commit(Commit(Commit(Initial(s0), s1, false), s2, false), s3, false))), s4, false);
            h.entries == [s0, s1, s4] && h.index == 2
  {
  }

  /** `n` presses of undo. */
  function Undos<S>(h: Log<S>, n: nat): (r: Log<S>)
    requires Valid(h)
    ensures Valid(r) && r.entries == h.entries
    decreases n
  {
    if n == 0 then h else Undos(Undo(h), n - 1)
  }

  /** `n` presses of redo. */
  function Redos<S>(h: Log<S>, n: nat): (r: Log<S>)
    requires Valid(h)
    ensures Valid(r) && r.entries == h.entries
    decreases n
  {
    if n == 0 then h else Redos(Redo(h), n - 1)
  }

  /** Undo stops at the first entry: n presses leave the cursor at index - n, or at 0. */
  lemma {:induction false} UndosClamp<S>(h: Log<S>, n: nat)
    requires Valid(h)
    decreases n
    ensures Undos(h, n).index == if n <= h.index then h.index - n else 0
  {
    if n > 0 {
      UndosClamp(Undo(h), n - 1);
    }
  }

  /** Redo stops at the last entry: n presses leave the cursor at index + n, or at the end. */
  lemma {:induction false} RedosClamp<S>(h: Log<S>, n: nat)
    requires Valid(h)
    decreases n
    ensures Redos(h, n).index == if h.index + n < |h.entries| then h.index + n else |h.entries| - 1
  {
    if n > 0 {
      RedosClamp(Redo(h), n - 1);
    }
  }

  /** As long as nothing is committed in between, n redos take back n undos that all moved. */
  lemma {:induction false} RedosUndoUndos<S>(h: Log<S>, n: nat)
    requires Valid(h) && n <= h.index
    ensures Redos(Undos(h, n), n) == h
  {
    UndosClamp(h, n);
    RedosClamp(Undos(h, n), n);
  }
}
