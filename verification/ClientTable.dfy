/** The client's table of active subscriptions: per object, the events and their callbacks. */
module ClientTable {
  import opened Bytes
  import opened BusTypes
  import opened Vectors

  type Entries = seq<Named<nat>>
  type Table = seq<Named<Entries>>

  function EventsOf(t: Table, target: CString): Entries {
    if Has(t, target, MAX_OBJECT_NAME) then t[Find(t, target, MAX_OBJECT_NAME)].val else []
  }

  predicate Subscribed(t: Table, target: CString, event: CString) {
    Has(EventsOf(t, target), event, MAX_EVENT_NAME)
  }

  function CallbackOf(t: Table, target: CString, event: CString): nat
    requires Subscribed(t, target, event)
  {
    EventsOf(t, target)[Find(EventsOf(t, target), event, MAX_EVENT_NAME)].val
  }

  function AddEntry(t: Table, target: CString, event: CString, callback: nat): Table {
    if Has(t, target, MAX_OBJECT_NAME) then
      var i := Find(t, target, MAX_OBJECT_NAME);
      SetAt(t, i, t[i].val + [Named(event, callback)])
    else t + [Named(target, [Named(event, callback)])]
  }

  /** An object that is left without events goes, too. */
  function RemoveEntry(t: Table, target: CString, event: CString): Table {
    if !Subscribed(t, target, event) then t
    else
      var i := Find(t, target, MAX_OBJECT_NAME);
      var events := RemoveAt(t[i].val, Find(t[i].val, event, MAX_EVENT_NAME));
      if |events| == 0 then RemoveAt(t, i) else SetAt(t, i, events)
  }

  predicate TableInv(t: Table) {
    && Keyed(t, MAX_OBJECT_NAME)
    && (forall i :: 0 <= i < |t| ==> |t[i].val| > 0 && Keyed(t[i].val, MAX_EVENT_NAME))
  }

  lemma AddInv(t: Table, target: CString, event: CString, callback: nat)
    requires TableInv(t) && !Subscribed(t, target, event) && |target| < MAX_OBJECT_NAME && |event| < MAX_EVENT_NAME
    ensures TableInv(AddEntry(t, target, event, callback))
  {
    PushSearch(EventsOf(t, target), event, callback, event, MAX_EVENT_NAME);
    if Has(t, target, MAX_OBJECT_NAME) {
      var i := Find(t, target, MAX_OBJECT_NAME);
      WithRow(t, i, t[i].val + [Named(event, callback)]);
    } else {
      PushSearch(t, target, [Named(event, callback)], target, MAX_OBJECT_NAME);
    }
  }

  lemma AddEvents(t: Table, target: CString, event: CString, callback: nat, target': CString)
    requires TableInv(t) && |target| < MAX_OBJECT_NAME
    ensures EventsOf(AddEntry(t, target, event, callback), target')
            == EventsOf(t, target') + (if target' == target then [Named(event, callback)] else [])
  {
    BoundedSearchIsExact(t, target, MAX_OBJECT_NAME);
    BoundedSearchIsExact(t, target', MAX_OBJECT_NAME);
    if Has(t, target, MAX_OBJECT_NAME) {
      var i := Find(t, target, MAX_OBJECT_NAME);
      SetAtSearch(t, i, t[i].val + [Named(event, callback)], target', MAX_OBJECT_NAME);
    } else {
      PushSearch(t, target, [Named(event, callback)], target', MAX_OBJECT_NAME);
    }
  }

  /** Adding an entry adds that pair and no other, with its callback. */
  lemma AddEffect(t: Table, target: CString, event: CString, callback: nat, target': CString, event': CString)
    requires TableInv(t) && !Subscribed(t, target, event) && |target| < MAX_OBJECT_NAME && |event| < MAX_EVENT_NAME
    ensures TableInv(AddEntry(t, target, event, callback))
    ensures Subscribed(AddEntry(t, target, event, callback), target', event')
            <==> Subscribed(t, target', event') || (target' == target && event' == event)
    ensures var after := AddEntry(t, target, event, callback);
            Subscribed(after, target', event') ==>
              CallbackOf(after, target', event')
              == if target' == target && event' == event then callback else CallbackOf(t, target', event')
  {
    AddInv(t, target, event, callback);
    AddEvents(t, target, event, callback, target');
    if target' == target {
      PushSearch(EventsOf(t, target), event, callback, event', MAX_EVENT_NAME);
    } else {
      assert EventsOf(t, target') + [] == EventsOf(t, target');
    }
  }

  lemma RemoveInv(t: Table, target: CString, event: CString)
    requires TableInv(t)
    ensures TableInv(RemoveEntry(t, target, event))
  {
    if Subscribed(t, target, event) {
      var i := Find(t, target, MAX_OBJECT_NAME);
      var j := Find(t[i].val, event, MAX_EVENT_NAME);
      RemoveKeepsKeyed(t[i].val, j, MAX_EVENT_NAME);
      if |t[i].val| == 1 {
        WithoutRow(t, i);
      } else {
        WithRow(t, i, RemoveAt(t[i].val, j));
      }
    }
  }

  lemma WithoutRow(t: Table, i: nat)
    requires TableInv(t) && i < |t|
    ensures TableInv(RemoveAt(t, i))
  {
    RemoveKeepsKeyed(t, i, MAX_OBJECT_NAME);
    forall j | 0 <= j < |t| - 1
      ensures |RemoveAt(t, i)[j].val| > 0 && Keyed(RemoveAt(t, i)[j].val, MAX_EVENT_NAME)
    {
      RemovedAt(t, i, j);
    }
  }

  lemma WithRow(t: Table, i: nat, events: Entries)
    requires TableInv(t) && i < |t| && |events| > 0 && Keyed(events, MAX_EVENT_NAME)
    ensures TableInv(SetAt(t, i, events))
  {
    SetAtSearch(t, i, events, t[i].name, MAX_OBJECT_NAME);
  }

  lemma RemoveEvents(t: Table, target: CString, event: CString, target': CString)
    requires TableInv(t) && Subscribed(t, target, event)
    ensures EventsOf(RemoveEntry(t, target, event), target')
            == if target' == target
               then RemoveAt(EventsOf(t, target), Find(EventsOf(t, target), event, MAX_EVENT_NAME))
               else EventsOf(t, target')
  {
    BoundedSearchIsExact(t, target, MAX_OBJECT_NAME);
    var i := Find(t, target, MAX_OBJECT_NAME);
    var events := RemoveAt(t[i].val, Find(t[i].val, event, MAX_EVENT_NAME));
    if |events| == 0 {
      EventsWithoutRow(t, i, target');
    } else {
      EventsWithRow(t, i, events, target');
    }
  }

  lemma EventsWithoutRow(t: Table, i: nat, target: CString)
    requires Keyed(t, MAX_OBJECT_NAME) && i < |t|
    ensures EventsOf(RemoveAt(t, i), target) == if target == t[i].name then [] else EventsOf(t, target)
  {
    RemoveSearch(t, i, target, MAX_OBJECT_NAME);
    if target != t[i].name && Has(t, target, MAX_OBJECT_NAME) {
      BoundedSearchIsExact(t, target, MAX_OBJECT_NAME);
      RemovedAt(t, i, Find(RemoveAt(t, i), target, MAX_OBJECT_NAME));
    }
  }

  lemma EventsWithRow(t: Table, i: nat, events: Entries, target: CString)
    requires Keyed(t, MAX_OBJECT_NAME) && i < |t|
    ensures EventsOf(SetAt(t, i, events), target) == if target == t[i].name then events else EventsOf(t, target)
  {
    SetAtSearch(t, i, events, target, MAX_OBJECT_NAME);
    BoundedSearchIsExact(t, target, MAX_OBJECT_NAME);
    FindAt(t, i, MAX_OBJECT_NAME);
  }

  /** Removing an entry removes that pair and no other, and every other one keeps its callback. */
  lemma RemoveEffect(t: Table, target: CString, event: CString, target': CString, event': CString)
    requires TableInv(t)
    ensures TableInv(RemoveEntry(t, target, event))
    ensures Subscribed(RemoveEntry(t, target, event), target', event')
            <==> Subscribed(t, target', event') && !(target' == target && event' == event)
    ensures var after := RemoveEntry(t, target, event);
            Subscribed(after, target', event') ==> CallbackOf(after, target', event') == CallbackOf(t, target', event')
  {
    RemoveInv(t, target, event);
    if Subscribed(t, target, event) {
      RemoveEvents(t, target, event, target');
      var events := EventsOf(t, target);
      BoundedSearchIsExact(events, event, MAX_EVENT_NAME);
      RemoveSearch(events, Find(events, event, MAX_EVENT_NAME), event', MAX_EVENT_NAME);
    }
  }

  lemma NewRow(t: Table, target: CString, entry: Named<nat>)
    ensures var grown := t + [Named(target, [])];
            SetAt(grown, |t|, grown[|t|].val + [entry]) == t + [Named(target, [entry])]
  {
    assert [] + [entry] == [entry];
  }

  /** Rolling an addition back leaves the very table there was, order included. */
  lemma RollbackIsExact(t: Table, target: CString, event: CString, callback: nat)
    requires TableInv(t) && !Subscribed(t, target, event) && |target| < MAX_OBJECT_NAME && |event| < MAX_EVENT_NAME
    ensures RemoveEntry(AddEntry(t, target, event, callback), target, event) == t
  {
    AddEffect(t, target, event, callback, target, event);
    if Has(t, target, MAX_OBJECT_NAME) {
      RollbackInOldObject(t, Find(t, target, MAX_OBJECT_NAME), target, event, callback);
    } else {
      RollbackOfNewObject(t, target, event, callback);
    }
  }

  lemma RollbackOfNewObject(t: Table, target: CString, event: CString, callback: nat)
    requires TableInv(t) && !Has(t, target, MAX_OBJECT_NAME) && |target| < MAX_OBJECT_NAME && |event| < MAX_EVENT_NAME
    ensures RemoveEntry(t + [Named(target, [Named(event, callback)])], target, event) == t
  {
    var events := [Named(event, callback)];
    var added := t + [Named(target, events)];
    PushSearch(t, target, events, target, MAX_OBJECT_NAME);
    assert added[|t|].val == events;
    FindAt(events, 0, MAX_EVENT_NAME);
    assert RemoveAt(added, |t|) == t;
  }

  lemma RollbackInOldObject(t: Table, i: nat, target: CString, event: CString, callback: nat)
    requires TableInv(t) && i < |t| && i == Find(t, target, MAX_OBJECT_NAME)
    requires !Has(t[i].val, event, MAX_EVENT_NAME) && |event| < MAX_EVENT_NAME
    ensures RemoveEntry(SetAt(t, i, t[i].val + [Named(event, callback)]), target, event) == t
  {
    var events := t[i].val + [Named(event, callback)];
    var added := SetAt(t, i, events);
    SetAtSearch(t, i, events, target, MAX_OBJECT_NAME);
    PushSearch(t[i].val, event, callback, event, MAX_EVENT_NAME);
    assert RemoveAt(events, |t[i].val|) == t[i].val;
    assert SetAt(added, i, t[i].val) == t;
  }

  // ---- The entries one by one -------------------------------------------------------------

  function RowPairs(target: CString, events: Entries): (pairs: seq<(CString, CString)>)
    ensures |pairs| == |events|
    ensures forall j :: 0 <= j < |events| ==> pairs[j] == (target, events[j].name)
  {
    seq(|events|, j requires 0 <= j < |events| => (target, events[j].name))
  }

  function Pairs(t: Table): seq<(CString, CString)> {
    if |t| == 0 then [] else Pairs(t[..|t| - 1]) + RowPairs(t[|t| - 1].name, t[|t| - 1].val)
  }

  lemma PairsNext(t: Table, i: nat)
    requires i < |t|
    ensures Pairs(t[..i + 1]) == Pairs(t[..i]) + RowPairs(t[i].name, t[i].val)
  {
    assert t[..i + 1][..i] == t[..i];
  }

  lemma {:induction false} PairInRow(t: Table, pair: (CString, CString))
    ensures pair in Pairs(t) <==>
            exists i :: 0 <= i < |t| && t[i].name == pair.0 && pair in RowPairs(t[i].name, t[i].val)
  {
    if |t| == 0 {
    } else {
      var n := |t| - 1;
      PairInRow(t[..n], pair);
      assert forall i :: 0 <= i < n ==> t[..n][i] == t[i];
    }
  }

  /** Where a pair is met: behind those of the rows in front, in the order of its row's events. */
  lemma {:induction false} PairAt(t: Table, i: nat, j: nat)
    requires i < |t| && j < |t[i].val|
    ensures |Pairs(t[..i])| + j < |Pairs(t)| && Pairs(t)[|Pairs(t[..i])| + j] == (t[i].name, t[i].val[j].name)
  {
    var n := |t| - 1;
    if i < n {
      PairAt(t[..n], i, j);
      assert t[..n][..i] == t[..i];
    } else {
      assert t[..i] == t[..n];
    }
  }

  /** The pairs of a table are its subscriptions. */
  lemma PairsAreSubscriptions(t: Table, target: CString, event: CString)
    requires TableInv(t)
    ensures (target, event) in Pairs(t) <==> Subscribed(t, target, event)
  {
    PairInRow(t, (target, event));
    BoundedSearchIsExact(t, target, MAX_OBJECT_NAME);
    BoundedSearchIsExact(EventsOf(t, target), event, MAX_EVENT_NAME);
    if Subscribed(t, target, event) {
      var i := Find(t, target, MAX_OBJECT_NAME);
      assert RowPairs(target, t[i].val)[Find(t[i].val, event, MAX_EVENT_NAME)] == (target, event);
    }
    if (target, event) in Pairs(t) {
      var i :| 0 <= i < |t| && t[i].name == target && (target, event) in RowPairs(t[i].name, t[i].val);
      FindAt(t, i, MAX_OBJECT_NAME);
      var j :| 0 <= j < |t[i].val| && RowPairs(t[i].name, t[i].val)[j] == (target, event);
      FindAt(t[i].val, j, MAX_EVENT_NAME);
    }
  }

  /** No pair is listed twice. */
  lemma {:induction false} PairsAreDistinct(t: Table)
    requires TableInv(t)
    ensures forall i, j :: 0 <= i < j < |Pairs(t)| ==> Pairs(t)[i] != Pairs(t)[j]
  {
    if |t| == 0 {
    } else {
      var n := |t| - 1;
      var front, last := Pairs(t[..n]), RowPairs(t[n].name, t[n].val);
      PairsAreDistinct(t[..n]);
      forall i, j | 0 <= i < |front| && 0 <= j < |last| ensures front[i] != last[j] {
        PairInRow(t[..n], front[i]);
        assert front[i] in front;
      }
    }
  }
}
