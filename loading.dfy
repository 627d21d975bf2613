/**
 * The operation tracker: the list of storage calls in flight, which the UI
 * reads to show per-file loading state.
 */
module Loading {
  import opened Wrappers
  import opened Seqs

  datatype LoadingOperation =
    | DriveConnect
    | DriveDisconnect
    | FileLoad
    | FileSave
    | FileTreeLoad
    | FileCreate

  datatype LoadingState = LoadingState(operation: LoadingOperation, fileId: Option<string>, fileName: Option<string>)

  /** JavaScript's `!fileId`: the id is absent or the empty string. */
  predicate IdFalsy(fileId: Option<string>) {
    fileId.None? || fileId.value == ""
  }

  /** The records `end(operation, fileId)` removes. */
  predicate Matches(s: LoadingState, operation: LoadingOperation, fileId: Option<string>) {
    s.operation == operation && (IdFalsy(fileId) || s.fileId == fileId)
  }

  /** The list after `start`. */
  function Started(states: seq<LoadingState>, operation: LoadingOperation,
                   fileId: Option<string>, fileName: Option<string>): seq<LoadingState>
  {
    states + [LoadingState(operation, fileId, fileName)]
  }

  /** The list after `end`: every record it matches is filtered out. */
  function Ended(states: seq<LoadingState>, operation: LoadingOperation, fileId: Option<string>): seq<LoadingState>
  {
    Filter(states, s => !Matches(s, operation, fileId))
  }

  /** The store: a list that `start`, `end` and `clear` replace. */
  class LoadingStore {
    var states: seq<LoadingState>

    constructor ()
      ensures states == []
    {
      states := [];
    }

    method Start(operation: LoadingOperation, fileId: Option<string>, fileName: Option<string>)
      modifies this
      ensures states == old(states) + [LoadingState(operation, fileId, fileName)]
    {
      states := Started(states, operation, fileId, fileName);
    }

    method End(operation: LoadingOperation, fileId: Option<string>)
      modifies this
      ensures states == Ended(old(states), operation, fileId)
      ensures |states| <= |old(states)|
      ensures forall s :: s in states <==> s in old(states) && !Matches(s, operation, fileId)
    {
      states := Ended(states, operation, fileId);
      forall s ensures s in states <==> s in old(states) && !Matches(s, operation, fileId) {
        FilterMembership(old(states), s => !Matches(s, operation, fileId), s);
      }
    }

    method Clear()
      modifies this
      ensures states == []
    {
      states := [];
    }
  }

  /** With a non-empty id, `end` removes exactly the records of that operation and that id. */
  lemma EndWithId(states: seq<LoadingState>, operation: LoadingOperation, fileId: string, s: LoadingState)
    requires fileId != ""
    ensures s in Ended(states, operation, Some(fileId))
        <==> s in states && !(s.operation == operation && s.fileId == Some(fileId))
  {
    FilterMembership(states, t => !Matches(t, operation, Some(fileId)), s);
  }

  /** With the id absent or empty, `end` removes every record of that operation. */
  lemma EndWithoutId(states: seq<LoadingState>, operation: LoadingOperation, fileId: Option<string>)
    requires IdFalsy(fileId)
    ensures Ended(states, operation, fileId) == Filter(states, (s: LoadingState) => s.operation != operation)
    ensures forall s :: s in Ended(states, operation, fileId) ==> s.operation != operation
  {
    SameFilter(states, s => !Matches(s, operation, fileId), (s: LoadingState) => s.operation != operation);
  }

  lemma {:induction false} SameFilter(states: seq<LoadingState>, p: LoadingState -> bool, q: LoadingState -> bool)
    requires forall s :: p(s) == q(s)
    ensures Filter(states, p) == Filter(states, q)
  {
    if states != [] {
      SameFilter(states[1..], p, q);
    }
  }

  /**
   * `end` drops every copy of a matching record and keeps every other
   * record as often as before; in particular records of other operations.
   */
  lemma EndedCount(states: seq<LoadingState>, operation: LoadingOperation, fileId: Option<string>, s: LoadingState)
    ensures multiset(Ended(states, operation, fileId))[s] == if Matches(s, operation, fileId) then 0 else multiset(states)[s]
  {
    FilterCount(states, t => !Matches(t, operation, fileId), s);
  }

  /** The records of every operation other than `operation`, in order. */
  function OtherOperations(states: seq<LoadingState>, operation: LoadingOperation): seq<LoadingState> {
    Filter(states, (s: LoadingState) => s.operation != operation)
  }

  /** `start` and `end` of one operation leave the other operations' records, and their order, as they were. */
  lemma StartEndKeepOthers(states: seq<LoadingState>, operation: LoadingOperation, fileId: Option<string>, fileName: Option<string>)
    ensures OtherOperations(Started(states, operation, fileId, fileName), operation) == OtherOperations(states, operation)
    ensures OtherOperations(Ended(states, operation, fileId), operation) == OtherOperations(states, operation)
  {
    var other := (s: LoadingState) => s.operation != operation;
    FilterAppend(states, [LoadingState(operation, fileId, fileName)], other);
    assert Filter([LoadingState(operation, fileId, fileName)], other) == [];
    FilterOfFilter(states, s => !Matches(s, operation, fileId), other);
  }

  lemma EndPreservesOrder(before: seq<LoadingState>, after: seq<LoadingState>, operation: LoadingOperation, fileId: Option<string>)
    ensures Ended(before + after, operation, fileId) == Ended(before, operation, fileId) + Ended(after, operation, fileId)
  {
    FilterAppend(before, after, s => !Matches(s, operation, fileId));
  }

  /** Ending twice is ending once. */
  lemma EndIdempotent(states: seq<LoadingState>, operation: LoadingOperation, fileId: Option<string>)
    ensures Ended(Ended(states, operation, fileId), operation, fileId) == Ended(states, operation, fileId)
  {
    FilterIdempotent(states, s => !Matches(s, operation, fileId));
  }

  /**
   * `start` then `end` with the same operation and id leaves no matching record,
   * and its net effect is that of the `end` alone.
   */
  lemma StartThenEnd(states: seq<LoadingState>, operation: LoadingOperation, fileId: Option<string>, fileName: Option<string>)
    ensures Ended(Started(states, operation, fileId, fileName), operation, fileId) == Ended(states, operation, fileId)
    ensures forall s :: s in Ended(Started(states, operation, fileId, fileName), operation, fileId) ==> !Matches(s, operation, fileId)
  {
    var keep := s => !Matches(s, operation, fileId);
    FilterAppend(states, [LoadingState(operation, fileId, fileName)], keep);
    assert Filter([LoadingState(operation, fileId, fileName)], keep) == [];
  }
}
