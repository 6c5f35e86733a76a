/**
  The listener table of src/renderer/Events/Events.js: a dictionary from event names to lists of
  listeners, and a global counter. `on` stores every listener with the id 0 and returns the
  incremented counter instead, so `remove` only ever matches the id 0.

  A callback is represented by a number naming it; what it does when called is not modelled, so
  `fire` returns the calls it makes. `for ... in` visits the event names in the order they were first
  registered, which is kept in `events`.
*/
module Events {
  import opened Wrappers
  import opened Seqs

  datatype Listener = Listener(id: int, callback: nat, once: bool)

  /** The list registered for `event`, empty when there is none. */
  function ListenersOf(listeners: map<string, seq<Listener>>, event: string): seq<Listener> {
    if event in listeners then listeners[event] else []
  }

  /** `list.splice(i, 1)` */
  function RemoveAt(list: seq<Listener>, i: nat): (r: seq<Listener>)
    requires i < |list|
    ensures |r| == |list| - 1
    ensures forall k :: 0 <= k < i ==> r[k] == list[k]
    ensures forall k :: i <= k < |r| ==> r[k] == list[k + 1]
  {
    list[..i] + list[i + 1..]
  }

  /**
    `remove(listenerID)`: the first listener, visiting the events in `keys` order and each list from
    the front, whose stored id equals `listenerID`, is taken out; nothing else changes.
  */
  function RemoveFirst(listeners: map<string, seq<Listener>>, keys: seq<string>, listenerID: int): map<string, seq<Listener>>
    decreases |keys|
  {
    if |keys| == 0 then listeners
    else if keys[0] !in listeners then RemoveFirst(listeners, keys[1..], listenerID)
    else match FirstIndex(listeners[keys[0]], (l: Listener) => l.id == listenerID)
      case Some(i) => listeners[keys[0] := RemoveAt(listeners[keys[0]], i)]
      case None => RemoveFirst(listeners, keys[1..], listenerID)
  }

  /** Every stored listener carries the id 0, as `on` stores them. */
  ghost predicate StoredIdsZero(listeners: map<string, seq<Listener>>) {
    forall e :: e in listeners ==> forall i :: 0 <= i < |listeners[e]| ==> listeners[e][i].id == 0
  }

  /** The module-level state of Events.js: `eventListeners` (with its key order) and `id`. */
  class Registry {
    var listeners: map<string, seq<Listener>>
    var events: seq<string>
    var id: nat

    ghost predicate Valid()
      reads this
    {
      && (forall e :: e in listeners <==> e in events)
      && NoDuplicates(events)
      && StoredIdsZero(listeners)
    }

    constructor()
      ensures listeners == map[] && events == [] && id == 0 && Valid()
    {
      listeners, events, id := map[], [], 0;
    }

    /** `on(event, callback, once)` */
    method On(event: string, callback: nat, once: bool) returns (listenerID: nat)
      modifies this
      ensures id == old(id) + 1 && listenerID == id
      ensures listeners == old(listeners)[event := ListenersOf(old(listeners), event) + [Listener(0, callback, once)]]
      ensures events == if event in old(listeners) then old(events) else old(events) + [event]
      ensures old(Valid()) ==> Valid()
    {
      if event !in listeners {
        listeners := listeners[event := []];
        events := events + [event];
      }
      id := id + 1;
      listeners := listeners[event := listeners[event] + [Listener(0, callback, once)]];
      listenerID := id;
    }

    /**
      `fire(event, ...args)`: every listener of the event called with the arguments, in registration
      order; `once` listeners stay registered.
    */
    method Fire<A>(event: string, args: A) returns (calls: seq<(nat, A)>)
      ensures event !in listeners ==> calls == []
      ensures event in listeners ==> |calls| == |listeners[event]|
      ensures event in listeners ==> forall i :: 0 <= i < |calls| ==> calls[i] == (listeners[event][i].callback, args)
    {
      calls := [];
      if event !in listeners {
        return;
      }
      var list := listeners[event];
      for i := 0 to |list|
        invariant |calls| == i
        invariant forall k :: 0 <= k < i ==> calls[k] == (list[k].callback, args)
      {
        calls := calls + [(list[i].callback, args)];
      }
    }

    /** `remove(listenerID)`: the labelled search over every event's list. */
    method Remove(listenerID: int)
      modifies this
      ensures listeners == RemoveFirst(old(listeners), old(events), listenerID)
      ensures events == old(events) && id == old(id)
      ensures old(Valid()) ==> Valid()
    {
      label search: for e := 0 to |events|
        invariant listeners == old(listeners)
        invariant RemoveFirst(listeners, events[e..], listenerID) == RemoveFirst(listeners, events, listenerID)
      {
        var event := events[e];
        assert events[e..][0] == event && events[e..][1..] == events[e + 1..];
        if event in listeners {
          var list := listeners[event];
          for i := 0 to |list|
            invariant forall k :: 0 <= k < i ==> list[k].id != listenerID
          {
            if list[i].id == listenerID {
              assert FirstIndex(list, (l: Listener) => l.id == listenerID) == Some(i);
              ghost var valid := Valid();
              listeners := listeners[event := RemoveAt(list, i)];
              assert valid ==> forall k :: 0 <= k < |listeners[event]| ==> listeners[event][k].id == 0;
              break search;
            }
          }
        }
      }
    }
  }
}

module EventProperties {
  import opened Wrappers
  import opened Seqs
  import opened Events

  /**
    `remove` takes out at most one listener: when some list in `keys` holds a match exactly one
    event's list loses one matching listener, otherwise nothing changes.
  */
  lemma {:induction false} RemoveFirstSpec(listeners: map<string, seq<Listener>>, keys: seq<string>, listenerID: int)
    ensures var r := RemoveFirst(listeners, keys, listenerID);
      && r.Keys == listeners.Keys
      && (forall e :: e in listeners ==>
            (r[e] == listeners[e] ||
             exists i :: 0 <= i < |listeners[e]| && listeners[e][i].id == listenerID && r[e] == RemoveAt(listeners[e], i)))
      && (forall e, f :: e in listeners && f in listeners && r[e] != listeners[e] && r[f] != listeners[f] ==> e == f)
      && (r == listeners <==>
            forall j, i :: 0 <= j < |keys| && keys[j] in listeners && 0 <= i < |listeners[keys[j]]| ==>
              listeners[keys[j]][i].id != listenerID)
    decreases |keys|
  {
    if |keys| > 0 {
      RemoveFirstSpec(listeners, keys[1..], listenerID);
      if keys[0] in listeners {
        var list := listeners[keys[0]];
        match FirstIndex(list, (l: Listener) => l.id == listenerID) {
          case Some(i) =>
            assert |RemoveAt(list, i)| != |list|;
          case None =>
            forall j, i | 0 <= j < |keys| && keys[j] in listeners && 0 <= i < |listeners[keys[j]]|
                && (forall j', i' :: 0 <= j' < |keys[1..]| && keys[1..][j'] in listeners && 0 <= i' < |listeners[keys[1..][j']]| ==>
                      listeners[keys[1..][j']][i'].id != listenerID)
              ensures listeners[keys[j]][i].id != listenerID
            {
              if j > 0 {
                assert keys[j] == keys[1..][j - 1];
              }
            }
        }
      } else {
        forall j, i | 0 <= j < |keys| && keys[j] in listeners && 0 <= i < |listeners[keys[j]]|
            && (forall j', i' :: 0 <= j' < |keys[1..]| && keys[1..][j'] in listeners && 0 <= i' < |listeners[keys[1..][j']]| ==>
                  listeners[keys[1..][j']][i'].id != listenerID)
          ensures listeners[keys[j]][i].id != listenerID
        {
          assert j > 0 && keys[j] == keys[1..][j - 1];
        }
      }
    }
  }

  /**
    Since `on` stores the id 0 and returns ids from 1, removing by a returned id never removes
    anything.
  */
  lemma RemoveReturnedIdIsNoOp(listeners: map<string, seq<Listener>>, keys: seq<string>, listenerID: int)
    requires StoredIdsZero(listeners) && listenerID != 0
    ensures RemoveFirst(listeners, keys, listenerID) == listeners
  {
    RemoveFirstSpec(listeners, keys, listenerID);
  }

  /**
    Place `i` of the list of event `keys[j]` is the first match of `listenerID`, visiting the events
    in `keys` order and each list from the front.
  */
  ghost predicate FirstMatch(listeners: map<string, seq<Listener>>, keys: seq<string>, listenerID: int, j: int, i: int) {
    && 0 <= j < |keys| && keys[j] in listeners && 0 <= i < |listeners[keys[j]]|
    && listeners[keys[j]][i].id == listenerID
    && (forall i' :: 0 <= i' < i ==> listeners[keys[j]][i'].id != listenerID)
    && (forall j', i' :: 0 <= j' < j && keys[j'] in listeners && 0 <= i' < |listeners[keys[j']]| ==>
          listeners[keys[j']][i'].id != listenerID)
  }

  /** An event without a match in front of the keys moves the first match one place on. */
  lemma FirstMatchShift(listeners: map<string, seq<Listener>>, keys: seq<string>, listenerID: int, j: int, i: int)
    requires |keys| > 0 && FirstMatch(listeners, keys[1..], listenerID, j, i)
    requires keys[0] in listeners ==> forall k :: 0 <= k < |listeners[keys[0]]| ==> listeners[keys[0]][k].id != listenerID
    ensures FirstMatch(listeners, keys, listenerID, j + 1, i)
  {
    assert keys[j + 1] == keys[1..][j];
    forall j', i' | 0 <= j' < j + 1 && keys[j'] in listeners && 0 <= i' < |listeners[keys[j']]|
      ensures listeners[keys[j']][i'].id != listenerID
    {
      if j' > 0 {
        assert keys[j'] == keys[1..][j' - 1];
      }
    }
  }

  /**
    The listener `remove` takes out is the first match: it sits in the first event of `keys` whose
    list holds one, at the first matching place of that list.
  */
  lemma {:induction false} RemoveFirstTakesFirst(listeners: map<string, seq<Listener>>, keys: seq<string>, listenerID: int)
    ensures var r := RemoveFirst(listeners, keys, listenerID);
      r != listeners ==> exists j, i ::
        FirstMatch(listeners, keys, listenerID, j, i) && r == listeners[keys[j] := RemoveAt(listeners[keys[j]], i)]
    decreases |keys|
  {
    var r := RemoveFirst(listeners, keys, listenerID);
    if |keys| > 0 && r != listeners {
      var found := if keys[0] in listeners then FirstIndex(listeners[keys[0]], (l: Listener) => l.id == listenerID) else None;
      if found.Some? {
        assert FirstMatch(listeners, keys, listenerID, 0, found.value);
      } else {
        assert r == RemoveFirst(listeners, keys[1..], listenerID);
        RemoveFirstTakesFirst(listeners, keys[1..], listenerID);
        var j, i :|
          FirstMatch(listeners, keys[1..], listenerID, j, i) && r == listeners[keys[1..][j] := RemoveAt(listeners[keys[1..][j]], i)];
        FirstMatchShift(listeners, keys, listenerID, j, i);
        assert keys[j + 1] == keys[1..][j];
      }
    }
  }

  /** When the first event has listeners, `remove(0)` takes out its first one. */
  lemma RemoveZeroTakesFirst(listeners: map<string, seq<Listener>>, keys: seq<string>)
    requires StoredIdsZero(listeners) && |keys| > 0 && keys[0] in listeners && |listeners[keys[0]]| > 0
    ensures RemoveFirst(listeners, keys, 0) == listeners[keys[0] := listeners[keys[0]][1..]]
  {
    var list := listeners[keys[0]];
    assert FirstIndex(list, (l: Listener) => l.id == 0) == Some(0);
    assert RemoveAt(list, 0) == list[1..];
  }
}
