/** MUndoStack: an undo stack with nested transactions. The root and every
    open transaction each hold an undo list and a redo list; push, undo and
    redo act on the innermost open transaction. Committing folds a
    transaction into one composite command on the enclosing stack, and
    rolling back undoes the transaction's commands and discards it.

    Commands are opaque ids or composites; what undoing or redoing one does
    to the application is recorded as a log of effects. */
module UndoStack {

  /** A command: an application command known by its id, or the composite
      that a committed transaction becomes. */
  datatype Command = Leaf(id: nat) | Transaction(children: seq<Command>)

  /** One call into an application command. */
  datatype Effect = Undone(id: nat) | Redone(id: nat)

  /** The calls that undoing `c` makes: a composite undoes its children
      newest first. */
  function UndoEffects(c: Command): seq<Effect>
    decreases c, 1
  {
    match c
    case Leaf(id) => [Undone(id)]
    case Transaction(children) => UndoAll(children)
  }

  /** Undoing every command of a list, newest (last) first. */
  function UndoAll(cs: seq<Command>): seq<Effect>
    decreases cs, 0
  {
    if cs == [] then [] else UndoEffects(cs[|cs| - 1]) + UndoAll(cs[..|cs| - 1])
  }

  /** The calls that redoing `c` makes: a composite redoes its children
      oldest first. */
  function RedoEffects(c: Command): seq<Effect>
    decreases c, 1
  {
    match c
    case Leaf(id) => [Redone(id)]
    case Transaction(children) => RedoAll(children)
  }

  /** Redoing every command of a list, oldest (first) first. */
  function RedoAll(cs: seq<Command>): seq<Effect>
    decreases cs, 0
  {
    if cs == [] then [] else RedoAll(cs[..|cs| - 1]) + RedoEffects(cs[|cs| - 1])
  }

  function Reverse<T>(s: seq<T>): (r: seq<T>)
    ensures |r| == |s|
  {
    if s == [] then [] else [s[|s| - 1]] + Reverse(s[..|s| - 1])
  }

  /** Each redo call turned into the undo call of the same command. */
  function Mirror(s: seq<Effect>): (r: seq<Effect>)
    ensures |r| == |s|
  {
    if s == [] then []
    else [match s[0] case Redone(id) => Undone(id) case Undone(id) => Redone(id)] + Mirror(s[1..])
  }

  lemma {:induction false} ReverseAppend<T>(a: seq<T>, b: seq<T>)
    ensures Reverse(a + b) == Reverse(b) + Reverse(a)
    decreases |b|
  {
    if b == [] {
      assert a + b == a;
    } else {
      assert (a + b)[..|a + b| - 1] == a + b[..|b| - 1];
      ReverseAppend(a, b[..|b| - 1]);
    }
  }

  lemma {:induction false} MirrorAppend(a: seq<Effect>, b: seq<Effect>)
    ensures Mirror(a + b) == Mirror(a) + Mirror(b)
    decreases |a|
  {
    if a == [] {
      assert a + b == b;
    } else {
      assert (a + b)[1..] == a[1..] + b;
      MirrorAppend(a[1..], b);
    }
  }

  /** Undoing a command makes the calls of redoing it, in reverse order and
      each turned into an undo: a composite is taken apart in exactly the
      opposite order it is put back together. */
  lemma {:induction false} UndoMirrorsRedo(c: Command)
    ensures UndoEffects(c) == Mirror(Reverse(RedoEffects(c)))
    decreases c, 1
  {
    match c
    case Leaf(id) =>
    case Transaction(children) => UndoAllMirrorsRedoAll(children);
  }

  lemma {:induction false} UndoAllMirrorsRedoAll(cs: seq<Command>)
    ensures UndoAll(cs) == Mirror(Reverse(RedoAll(cs)))
    decreases cs, 0
  {
    if cs != [] {
      var last, prefix := cs[|cs| - 1], cs[..|cs| - 1];
      UndoMirrorsRedo(last);
      UndoAllMirrorsRedoAll(prefix);
      ReverseAppend(RedoAll(prefix), RedoEffects(last));
      MirrorAppend(Reverse(RedoEffects(last)), Reverse(RedoAll(prefix)));
    }
  }

  /** The two lists of one MUndoStack; the top of each is its last element. */
  datatype Level = Level(undo: seq<Command>, redo: seq<Command>)

  const EmptyLevel := Level([], [])

  /** The whole state: the root's lists and the open transactions, the
      innermost last. */
  datatype UndoState = UndoState(root: Level, transactions: seq<Level>)

  /** currentStack: the innermost open transaction, or the root. */
  function Current(s: UndoState): Level {
    if s.transactions == [] then s.root else s.transactions[|s.transactions| - 1]
  }

  function WithCurrent(s: UndoState, l: Level): (r: UndoState)
    ensures Current(r) == l
  {
    if s.transactions == [] then s.(root := l)
    else s.(transactions := s.transactions[..|s.transactions| - 1] + [l])
  }

  /** canUndo / canRedo: about the current stack only. */
  predicate CanUndo(s: UndoState) { Current(s).undo != [] }
  predicate CanRedo(s: UndoState) { Current(s).redo != [] }

  /** push: onto the current stack's undo list, emptying its redo list. The
      command is not run. */
  function PushOn(s: UndoState, c: Command): UndoState {
    WithCurrent(s, Level(Current(s).undo + [c], []))
  }

  /** undo: the top undo command of the current stack moves to its redo
      list; nothing happens when there is none. */
  function UndoOn(s: UndoState): UndoState {
    var l := Current(s);
    if l.undo == [] then s
    else WithCurrent(s, Level(l.undo[..|l.undo| - 1], l.redo + [l.undo[|l.undo| - 1]]))
  }

  function UndoLog(s: UndoState): seq<Effect> {
    var l := Current(s);
    if l.undo == [] then [] else UndoEffects(l.undo[|l.undo| - 1])
  }

  /** redo: the mirror image of undo. */
  function RedoOn(s: UndoState): UndoState {
    var l := Current(s);
    if l.redo == [] then s
    else WithCurrent(s, Level(l.undo + [l.redo[|l.redo| - 1]], l.redo[..|l.redo| - 1]))
  }

  function RedoLog(s: UndoState): seq<Effect> {
    var l := Current(s);
    if l.redo == [] then [] else RedoEffects(l.redo[|l.redo| - 1])
  }

  /** startTransaction: a new, empty innermost stack. */
  function StartOn(s: UndoState): UndoState {
    s.(transactions := s.transactions + [EmptyLevel])
  }

  /** The state with the innermost transaction removed. */
  function Outer(s: UndoState): UndoState
    requires s.transactions != []
  {
    s.(transactions := s.transactions[..|s.transactions| - 1])
  }

  /** commitTransaction: the innermost transaction is closed; its undo
      commands, oldest first, become one composite pushed onto the new
      current stack, unless there were none. Its redo commands are dropped.
      Without an open transaction nothing happens. */
  function CommitOn(s: UndoState): UndoState {
    if s.transactions == [] then s
    else
      var t := Current(s);
      if t.undo == [] then Outer(s) else PushOn(Outer(s), Transaction(t.undo))
  }

  /** rollbackTransaction: the innermost transaction is undone and
      discarded. */
  function RollbackOn(s: UndoState): UndoState {
    if s.transactions == [] then s else Outer(s)
  }

  function RollbackLog(s: UndoState): seq<Effect> {
    if s.transactions == [] then [] else UndoAll(Current(s).undo)
  }

  /** clear: the root's lists are emptied; open transactions are kept. */
  function ClearOn(s: UndoState): UndoState {
    s.(root := EmptyLevel)
  }

  /** push touches only the current stack: its undo list gains the command
      on top and its redo list is emptied; every other stack is unchanged. */
  lemma {:induction false} PushOnlyCurrent(s: UndoState, c: Command)
    ensures var r := PushOn(s, c);
      Current(r).undo == Current(s).undo + [c] && Current(r).redo == []
      && |r.transactions| == |s.transactions|
      && (s.transactions != [] ==> r.root == s.root && r.transactions[..|r.transactions| - 1] == s.transactions[..|s.transactions| - 1])
  {
  }

  /** undo then redo restores both lists of every stack, and the calls
      made are the command's undo followed by its redo. */
  lemma {:induction false} UndoThenRedo(s: UndoState)
    requires CanUndo(s)
    ensures RedoOn(UndoOn(s)) == s
    ensures var top := Current(s).undo[|Current(s).undo| - 1];
      UndoLog(s) == UndoEffects(top) && RedoLog(UndoOn(s)) == RedoEffects(top)
  {
    var l := Current(s);
    assert l.undo[..|l.undo| - 1] + [l.undo[|l.undo| - 1]] == l.undo;
    var u := UndoOn(s);
    assert Current(u).redo[..|Current(u).redo| - 1] == l.redo;
    if s.transactions != [] {
      assert s.transactions[..|s.transactions| - 1] + [l] == s.transactions;
    }
  }

  /** redo then undo restores both lists. */
  lemma {:induction false} RedoThenUndo(s: UndoState)
    requires CanRedo(s)
    ensures UndoOn(RedoOn(s)) == s
  {
    var l := Current(s);
    assert l.redo[..|l.redo| - 1] + [l.redo[|l.redo| - 1]] == l.redo;
    var r := RedoOn(s);
    assert Current(r).undo[..|Current(r).undo| - 1] == l.undo;
    if s.transactions != [] {
      assert s.transactions[..|s.transactions| - 1] + [l] == s.transactions;
    }
  }

  /** Committing a transaction with undo commands pushes exactly one
      composite, holding them oldest first, onto the enclosing stack (the
      root when it was the outermost), and empties that stack's redo list;
      an empty transaction just disappears. */
  lemma {:induction false} CommitFolds(s: UndoState)
    requires s.transactions != []
    ensures var t := Current(s);
      var r := CommitOn(s);
      |r.transactions| == |s.transactions| - 1
      && (t.undo == [] ==> r == Outer(s))
      && (t.undo != [] ==> Current(r) == Level(Current(Outer(s)).undo + [Transaction(t.undo)], []))
      && (|s.transactions| >= 2 ==> r.root == s.root && r.transactions[..|r.transactions| - 1] == s.transactions[..|s.transactions| - 2])
  {
  }

  /** Rolling back makes exactly the calls that undoing the composite a
      commit would have produced: every undo command of the transaction,
      newest first; the enclosing stacks are untouched, and their undo lists
      end up as after a commit followed by an undo. */
  lemma {:induction false} RollbackIsUndoOfCommit(s: UndoState)
    requires s.transactions != [] && Current(s).undo != []
    ensures RollbackLog(s) == UndoEffects(Transaction(Current(s).undo))
    ensures RollbackLog(s) == UndoLog(CommitOn(s))
    ensures RollbackOn(s).root == s.root
    ensures RollbackOn(s).transactions == s.transactions[..|s.transactions| - 1]
    ensures Current(UndoOn(CommitOn(s))).undo == Current(RollbackOn(s)).undo
  {
    var o := Outer(s);
    var c := CommitOn(s);
    assert Current(c).undo == Current(o).undo + [Transaction(Current(s).undo)];
    assert Current(c).undo[..|Current(c).undo| - 1] == Current(o).undo;
  }

  /** Commit and rollback without an open transaction change nothing. */
  lemma {:induction false} NoTransaction(s: UndoState)
    requires s.transactions == []
    ensures CommitOn(s) == s && RollbackOn(s) == s && RollbackLog(s) == []
  {
  }

  /** The stack object: the state above held in fields, with the log of the
      calls made into application commands. */
  class MUndoStack {
    var root: Level
    var transactions: seq<Level>
    var log: seq<Effect>

    function State(): UndoState
      reads this
    {
      UndoState(root, transactions)
    }

    constructor ()
      ensures State() == UndoState(EmptyLevel, []) && log == []
    {
      root := EmptyLevel;
      transactions := [];
      log := [];
    }

    /** Replaces the current stack's lists. */
    method SetCurrent(l: Level)
      modifies this
      ensures State() == WithCurrent(old(State()), l) && log == old(log)
    {
      if transactions == [] {
        root := l;
      } else {
        transactions := transactions[..|transactions| - 1] + [l];
      }
    }

    /** The undo() of a command: a composite runs its children's undo from
        the last to the first. */
    method PerformUndo(c: Command)
      modifies this
      ensures log == old(log) + UndoEffects(c)
      ensures State() == old(State())
      decreases c
    {
      match c
      case Leaf(id) =>
        log := log + [Undone(id)];
      case Transaction(children) =>
        var i := |children|;
        assert children[..i] == children;
        while i > 0
          invariant 0 <= i <= |children|
          invariant log + UndoAll(children[..i]) == old(log) + UndoAll(children)
          invariant State() == old(State())
        {
          assert children[..i][..i - 1] == children[..i - 1];
          PerformUndo(children[i - 1]);
          i := i - 1;
        }
        assert children[..|children|] == children;
    }

    /** The redo() of a command: a composite runs its children's redo from
        the first to the last. */
    method PerformRedo(c: Command)
      modifies this
      ensures log == old(log) + RedoEffects(c)
      ensures State() == old(State())
      decreases c
    {
      match c
      case Leaf(id) =>
        log := log + [Redone(id)];
      case Transaction(children) =>
        var i := 0;
        while i < |children|
          invariant 0 <= i <= |children|
          invariant log == old(log) + RedoAll(children[..i])
          invariant State() == old(State())
        {
          assert children[..i + 1][..i] == children[..i];
          PerformRedo(children[i]);
          i := i + 1;
        }
        assert children[..|children|] == children;
    }

    function CanUndoNow(): (b: bool)
      reads this
      ensures b == CanUndo(State())
    {
      Current(State()).undo != []
    }

    function CanRedoNow(): (b: bool)
      reads this
      ensures b == CanRedo(State())
    {
      Current(State()).redo != []
    }

    /** push (pushImpl on the current stack). */
    method Push(c: Command)
      modifies this
      ensures State() == PushOn(old(State()), c) && log == old(log)
    {
      var l := Current(State());
      SetCurrent(Level(l.undo + [c], []));
    }

    /** undo (undoImpl on the current stack). */
    method Undo()
      modifies this
      ensures State() == UndoOn(old(State()))
      ensures log == old(log) + UndoLog(old(State()))
    {
      if !CanUndoNow() {
        return;
      }
      var l := Current(State());
      var command := l.undo[|l.undo| - 1];
      SetCurrent(Level(l.undo[..|l.undo| - 1], l.redo + [command]));
      PerformUndo(command);
    }

    /** redo (redoImpl on the current stack). */
    method Redo()
      modifies this
      ensures State() == RedoOn(old(State()))
      ensures log == old(log) + RedoLog(old(State()))
    {
      if !CanRedoNow() {
        return;
      }
      var l := Current(State());
      var command := l.redo[|l.redo| - 1];
      SetCurrent(Level(l.undo + [command], l.redo[..|l.redo| - 1]));
      PerformRedo(command);
    }

    method StartTransaction()
      modifies this
      ensures State() == StartOn(old(State())) && log == old(log)
    {
      transactions := transactions + [EmptyLevel];
    }

    /** commitTransaction: copies the transaction's undo commands, oldest
        first, into a composite and pushes it unless it is empty. */
    method CommitTransaction()
      modifies this
      ensures State() == CommitOn(old(State())) && log == old(log)
    {
      if transactions == [] {
        return;
      }
      var transaction := transactions[|transactions| - 1];
      transactions := transactions[..|transactions| - 1];
      var commands: seq<Command> := [];
      var i := 0;
      while i < |transaction.undo|
        invariant 0 <= i <= |transaction.undo|
        invariant commands == transaction.undo[..i]
      {
        commands := commands + [transaction.undo[i]];
        i := i + 1;
      }
      assert commands == transaction.undo;
      if commands != [] {
        Push(Transaction(commands));
      }
    }

    /** rollbackTransaction: undoes the transaction while it can undo, then
        discards it. */
    method RollbackTransaction()
      modifies this
      ensures State() == RollbackOn(old(State()))
      ensures log == old(log) + RollbackLog(old(State()))
    {
      if transactions == [] {
        return;
      }
      var transaction := transactions[|transactions| - 1];
      var outer := transactions[..|transactions| - 1];
      while transaction.undo != []
        invariant log + UndoAll(transaction.undo) == old(log) + RollbackLog(old(State()))
        invariant transactions == outer + [transaction] && root == old(root)
        decreases |transaction.undo|
      {
        var command := transaction.undo[|transaction.undo| - 1];
        transaction := Level(transaction.undo[..|transaction.undo| - 1], transaction.redo + [command]);
        transactions := outer + [transaction];
        PerformUndo(command);
      }
      transactions := outer;
    }

    /** clear: empties the root's lists only. */
    method Clear()
      modifies this
      ensures State() == ClearOn(old(State())) && log == old(log)
    {
      root := EmptyLevel;
    }
  }
}
