/**
  The `logs` reducer of src/renderer/App.js. A change is a pair (message, detail); the list keeps
  whatever details were appended, so it holds values of the detail type. `splice(detail, 1)` follows
  the JavaScript rules for in-range, negative and too large starts.
*/
module Logs {
  import opened Seqs

  /** A detail: an index (what 'remove' is given), or any other value. */
  datatype Detail<T> = Index(i: int) | Value(value: T)

  datatype Change<T> = Change(message: string, detail: Detail<T>)

  function RemoveOne<T>(state: seq<T>, start: int): seq<T> {
    var k := SpliceStart(start, |state|);
    if k < |state| then state[..k] + state[k + 1..] else state
  }

  /** The start a non-numeric detail converts to (`NaN` becomes 0). */
  function StartOf<T>(detail: Detail<T>): int {
    if detail.Index? then detail.i else 0
  }

  function Reduce<T>(state: seq<Detail<T>>, change: Change<T>): seq<Detail<T>> {
    if change.message == "reset" then []
    else if change.message == "remove" then RemoveOne(state, StartOf(change.detail))
    else state + [change.detail]
  }
}

module LogProperties {
  import opened Seqs
  import opened Logs

  /** 'reset' empties the list. */
  lemma ResetEmpties<T>(state: seq<Detail<T>>, detail: Detail<T>)
    ensures Reduce(state, Change("reset", detail)) == []
  {
  }

  /** 'remove' with an index in range takes out exactly that entry and keeps the others in order. */
  lemma RemoveInRange<T>(state: seq<Detail<T>>, i: int)
    requires 0 <= i < |state|
    ensures var r := Reduce(state, Change("remove", Index(i)));
      && |r| == |state| - 1
      && r[..i] == state[..i]
      && r[i..] == state[i + 1..]
  {
    var r := Reduce(state, Change("remove", Index(i)));
    assert r == state[..i] + state[i + 1..];
    assert r[..i] == state[..i];
  }

  /** A negative index counts from the end, as in JavaScript. */
  lemma RemoveFromEnd<T>(state: seq<Detail<T>>, i: int)
    requires -|state| <= i < 0
    ensures Reduce(state, Change("remove", Index(i))) == state[..|state| + i] + state[|state| + i + 1..]
  {
  }

  /** An index past the end removes nothing. */
  lemma RemovePastEnd<T>(state: seq<Detail<T>>, i: int)
    requires i >= |state|
    ensures Reduce(state, Change("remove", Index(i))) == state
  {
  }

  /** Any other message appends the detail, not the message. */
  lemma OtherMessagesAppend<T>(state: seq<Detail<T>>, change: Change<T>)
    requires change.message != "reset" && change.message != "remove"
    ensures Reduce(state, change) == state + [change.detail]
  {
  }

  /** The length becomes 0, drops by at most one, or grows by exactly one. */
  lemma {:induction false} LengthChange<T>(state: seq<Detail<T>>, change: Change<T>)
    ensures var r := Reduce(state, change);
      && (change.message == "reset" ==> |r| == 0)
      && (change.message == "remove" ==> |state| - 1 <= |r| <= |state|)
      && (change.message != "reset" && change.message != "remove" ==> |r| == |state| + 1)
      && (change.message == "remove" ==> multiset(r) <= multiset(state))
  {
    if change.message == "remove" {
      var k := SpliceStart(StartOf(change.detail), |state|);
      if k < |state| {
        assert state == state[..k] + [state[k]] + state[k + 1..];
      }
    }
  }
}
