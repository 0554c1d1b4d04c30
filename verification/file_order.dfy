/** Chaining the events of a file whose records name no parents. */
module FileOrder {

  datatype Event = Event(key: string, parentKey: string)

  /** The keys of first copies, in order. */
  function Firsts(events: seq<Event>): seq<string> {
    if events == [] then []
    else
      var front, last := Firsts(events[..|events| - 1]), events[|events| - 1];
      if last.key in front then front else front + [last.key]
  }

  function Last(keys: seq<string>): string {
    if keys == [] then "" else keys[|keys| - 1]
  }

  /** Event k is the first copy of its key. */
  ghost predicate First(events: seq<Event>, k: nat)
    requires k < |events|
  {
    events[k].key !in Firsts(events[..k])
  }

  /** The parent of a key's first copy: its own, or else the first copy before it. */
  function ParentOf(events: seq<Event>, key: string): string {
    if events == [] then ""
    else
      var front, last := events[..|events| - 1], events[|events| - 1];
      if key in Firsts(front) || last.key != key then ParentOf(front, key)
      else if last.parentKey != "" then last.parentKey else Last(Firsts(front))
  }

  /** What each event's parent becomes: that of the first copy of its key. */
  function Chained(events: seq<Event>, k: nat): Event
    requires k < |events|
  {
    events[k].(parentKey := ParentOf(events[..k + 1], events[k].key))
  }

  ghost predicate Remembers(events: seq<Event>, parents: map<string, string>, previous: string) {
    && (forall key :: key in parents <==> key in Firsts(events))
    && (forall key :: key in parents ==> parents[key] == ParentOf(events, key))
    && previous == Last(Firsts(events))
  }

  lemma RemembersMore(events: seq<Event>, k: nat, parents: map<string, string>, previous: string)
    requires k < |events| && Remembers(events[..k], parents, previous)
    ensures events[k].key in parents ==>
      Remembers(events[..k + 1], parents, previous) && Chained(events, k).parentKey == parents[events[k].key]
    ensures events[k].key !in parents ==>
      var parent := if events[k].parentKey == "" then previous else events[k].parentKey;
      Remembers(events[..k + 1], parents[events[k].key := parent], events[k].key) && Chained(events, k).parentKey == parent
  {
    var more := events[..k + 1];
    assert more[..k] == events[..k] && more[k] == events[k];
  }

  /** chainInFileOrder. */
  method ChainInFileOrder(events: array<Event>)
    modifies events
    ensures forall k :: 0 <= k < events.Length ==> events[k] == Chained(old(events[..]), k)
  {
    ghost var was := events[..];
    var parents: map<string, string>, previous := map[], "";
    assert was[..0] == [];
    for k := 0 to events.Length
      invariant forall j :: k <= j < events.Length ==> events[j] == was[j]
      invariant forall j :: 0 <= j < k ==> events[j] == Chained(was, j)
      invariant Remembers(was[..k], parents, previous)
    {
      RemembersMore(was, k, parents, previous);
      if events[k].key in parents {
        events[k] := events[k].(parentKey := parents[events[k].key]);
        continue;
      }
      if events[k].parentKey == "" {
        events[k] := events[k].(parentKey := previous);
      }
      parents := parents[events[k].key := events[k].parentKey];
      previous := events[k].key;
    }
  }

  lemma {:induction false} FirstsDistinct(events: seq<Event>)
    ensures forall i, j :: 0 <= i < j < |Firsts(events)| ==> Firsts(events)[i] != Firsts(events)[j]
  {
    if events != [] {
      FirstsDistinct(events[..|events| - 1]);
    }
  }

  /** Without recorded parents the keys form one chain in the order of their first copies, and every
      copy has its first copy's parent, so a record written twice hides nothing. */
  lemma {:induction false} OneChain(events: seq<Event>, i: nat)
    requires (forall k :: 0 <= k < |events| ==> events[k].parentKey == "") && i < |Firsts(events)|
    ensures ParentOf(events, Firsts(events)[i]) == if i == 0 then "" else Firsts(events)[i - 1]
    decreases |events|
  {
    var front := events[..|events| - 1];
    FirstsDistinct(events);
    if i < |Firsts(front)| {
      OneChain(front, i);
      assert Firsts(events)[i] == Firsts(front)[i];
    }
  }

  /** A copy gets its first copy's parent however much later it comes. */
  lemma {:induction false} ParentStays(events: seq<Event>, j: nat, key: string)
    requires j <= |events| && key in Firsts(events[..j])
    ensures ParentOf(events, key) == ParentOf(events[..j], key) && key in Firsts(events)
    decreases |events|
  {
    if j < |events| {
      var front := events[..|events| - 1];
      assert front[..j] == events[..j];
      ParentStays(front, j, key);
    } else {
      assert events[..j] == events;
    }
  }

  lemma FirstIn(events: seq<Event>, k: nat)
    requires k < |events|
    ensures events[k].key in Firsts(events[..k + 1])
  {
    assert events[..k + 1][..k] == events[..k] && events[..k + 1][k] == events[k];
  }

  /** Two copies of a key end with one parent. */
  lemma CopiesAgree(events: seq<Event>, j: nat, k: nat)
    requires j <= k < |events| && events[j].key == events[k].key
    ensures Chained(events, j).parentKey == Chained(events, k).parentKey
  {
    FirstIn(events, j);
    assert events[..k + 1][..j + 1] == events[..j + 1];
    ParentStays(events[..k + 1], j + 1, events[j].key);
  }
}
