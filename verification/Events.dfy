/** The listeners of one registered event, and the calls made to its subscribe callback. */
module Events {
  import opened Bytes

  datatype Notice = Notice(listener: CString, added: bool)

  /** `notices` is the trace of calls to the subscribe callback since the event was registered. */
  datatype Event = Event(listeners: seq<CString>, callback: Option<nat>, notices: seq<Notice>)

  function IndexOf(s: seq<CString>, x: CString): (i: nat)
    requires x in s
    ensures i < |s| && s[i] == x
  {
    if s[0] == x then 0 else 1 + IndexOf(s[1..], x)
  }

  function Noticed(event: Event, listener: CString, added: bool): seq<Notice> {
    if event.callback.Some? then event.notices + [Notice(listener, added)] else event.notices
  }

  function AddListener(event: Event, listener: CString): Event {
    if listener in event.listeners then event
    else Event(event.listeners + [listener], event.callback, Noticed(event, listener, true))
  }

  function RemoveListener(event: Event, listener: CString): Event {
    if listener !in event.listeners then event
    else
      var i := IndexOf(event.listeners, listener);
      Event(event.listeners[..i] + event.listeners[i + 1..], event.callback, Noticed(event, listener, false))
  }

  function Apply(event: Event, listener: CString, added: bool): Event {
    if added then AddListener(event, listener) else RemoveListener(event, listener)
  }

  predicate Distinct(s: seq<CString>) {
    forall i, j :: 0 <= i < j < |s| ==> s[i] != s[j]
  }

  /** The calls about one listener, in order: true for added. */
  function CallsFor(notices: seq<Notice>, listener: CString): seq<bool> {
    if |notices| == 0 then []
    else
      var n := |notices| - 1;
      CallsFor(notices[..n], listener) + (if notices[n].listener == listener then [notices[n].added] else [])
  }

  /** added, removed, added, removed, ... */
  predicate Alternating(calls: seq<bool>) {
    forall i :: 0 <= i < |calls| ==> calls[i] == (i % 2 == 0)
  }

  ghost predicate Consistent(event: Event) {
    && Distinct(event.listeners)
    && (event.callback.None? ==> event.notices == [])
    && (event.callback.Some? ==>
          forall l: CString ::
            && Alternating(CallsFor(event.notices, l))
            && (l in event.listeners <==> |CallsFor(event.notices, l)| % 2 == 1))
  }

  /** Subscribing makes exactly this listener listed, unsubscribing makes exactly this one unlisted. */
  lemma ApplyMembership(event: Event, listener: CString, added: bool)
    requires Distinct(event.listeners)
    ensures Distinct(Apply(event, listener, added).listeners)
    ensures Apply(event, listener, added).callback == event.callback
    ensures forall l: CString :: l in Apply(event, listener, added).listeners
                                 <==> if l == listener then added else l in event.listeners
  {
    if !added && listener in event.listeners {
      OneOut(event.listeners, IndexOf(event.listeners, listener));
    }
  }

  lemma OneOut(s: seq<CString>, i: nat)
    requires Distinct(s) && i < |s|
    ensures var rest := s[..i] + s[i + 1..];
            Distinct(rest) && forall l: CString :: l in rest <==> l in s && l != s[i]
  {
    var rest := s[..i] + s[i + 1..];
    assert forall k :: 0 <= k < |rest| ==> rest[k] == s[if k < i then k else k + 1];
    forall l: CString | l in s && l != s[i] ensures l in rest {
      var k := IndexOf(s, l);
      assert rest[if k < i then k else k - 1] == l;
    }
  }

  lemma ApplyConsistent(event: Event, listener: CString, added: bool)
    requires Consistent(event)
    ensures Consistent(Apply(event, listener, added))
  {
    var after := Apply(event, listener, added);
    ApplyMembership(event, listener, added);
    if after != event && event.callback.Some? {
      assert after.notices[..|event.notices|] == event.notices;
      forall l: CString
        ensures CallsFor(after.notices, l)
                == CallsFor(event.notices, l) + (if l == listener then [added] else [])
      {
      }
    }
  }

  // ---- Whole runs -------------------------------------------------------------------------

  function ApplyAll(event: Event, requests: seq<Notice>): Event {
    if |requests| == 0 then event
    else
      var n := |requests| - 1;
      Apply(ApplyAll(event, requests[..n]), requests[n].listener, requests[n].added)
  }

  /** Whether the last request about this listener was a subscribe. */
  predicate LastAskedFor(requests: seq<Notice>, listener: CString) {
    |requests| > 0 &&
    var n := |requests| - 1;
    if requests[n].listener == listener then requests[n].added else LastAskedFor(requests[..n], listener)
  }

  /** Under any requests, duplicates and strays included: no listener is listed twice, the listed
      ones are those who last asked to be, and what the callback hears about each listener
      alternates, starting with added and ending with its present state. */
  lemma {:induction false} NotificationHistory(callback: Option<nat>, requests: seq<Notice>)
    ensures var event := ApplyAll(Event([], callback, []), requests);
            && Consistent(event)
            && event.callback == callback
            && forall l: CString :: l in event.listeners <==> LastAskedFor(requests, l)
  {
    if |requests| == 0 {
    } else {
      var n := |requests| - 1;
      NotificationHistory(callback, requests[..n]);
      var before := ApplyAll(Event([], callback, []), requests[..n]);
      ApplyConsistent(before, requests[n].listener, requests[n].added);
      ApplyMembership(before, requests[n].listener, requests[n].added);
    }
  }

  /** The position of the last subscribe of this listener that found it unlisted. */
  function ListedAt(requests: seq<Notice>, listener: CString): nat {
    if |requests| == 0 then 0
    else
      var n := |requests| - 1;
      if requests[n] == Notice(listener, true) && !LastAskedFor(requests[..n], listener) then n
      else ListedAt(requests[..n], listener)
  }

  ghost predicate InListingOrder(requests: seq<Notice>, listeners: seq<CString>) {
    && (forall i :: 0 <= i < |listeners| ==> ListedAt(requests, listeners[i]) < |requests|)
    && (forall i, j :: 0 <= i < j < |listeners| ==>
          ListedAt(requests, listeners[i]) < ListedAt(requests, listeners[j]))
  }

  /** The listeners stand in the order in which they got listed: whoever was listed earlier, and was
      not unlisted since, stands in front. */
  lemma {:induction false} ListingOrder(callback: Option<nat>, requests: seq<Notice>)
    ensures InListingOrder(requests, ApplyAll(Event([], callback, []), requests).listeners)
  {
    if |requests| == 0 {
    } else {
      var n := |requests| - 1;
      var before := ApplyAll(Event([], callback, []), requests[..n]);
      ListingOrder(callback, requests[..n]);
      NotificationHistory(callback, requests[..n]);
      NextInOrder(requests, before);
    }
  }

  lemma NextInOrder(requests: seq<Notice>, before: Event)
    requires |requests| > 0 && InListingOrder(requests[..|requests| - 1], before.listeners)
    requires forall l: CString :: l in before.listeners <==> LastAskedFor(requests[..|requests| - 1], l)
    ensures var last := requests[|requests| - 1];
            InListingOrder(requests, Apply(before, last.listener, last.added).listeners)
  {
    var last, was := requests[|requests| - 1], before.listeners;
    OldStayInOrder(requests, was);
    if last.added && last.listener !in was {
      NewComesLast(requests, was);
    } else if !last.added && last.listener in was {
      var k := IndexOf(was, last.listener);
      OneLeaves(requests, was, k);
    }
  }

  lemma OldStayInOrder(requests: seq<Notice>, was: seq<CString>)
    requires |requests| > 0 && InListingOrder(requests[..|requests| - 1], was)
    requires forall l: CString :: l in was ==> LastAskedFor(requests[..|requests| - 1], l)
    ensures InListingOrder(requests, was)
    ensures forall i :: 0 <= i < |was| ==> ListedAt(requests, was[i]) < |requests| - 1
  {
    var front := requests[..|requests| - 1];
    forall i | 0 <= i < |was| ensures ListedAt(requests, was[i]) == ListedAt(front, was[i]) {
      assert was[i] in was;
    }
  }

  lemma NewComesLast(requests: seq<Notice>, was: seq<CString>)
    requires |requests| > 0 && InListingOrder(requests, was)
    requires forall i :: 0 <= i < |was| ==> ListedAt(requests, was[i]) < |requests| - 1
    requires var last := requests[|requests| - 1];
             last.added && !LastAskedFor(requests[..|requests| - 1], last.listener)
    ensures InListingOrder(requests, was + [requests[|requests| - 1].listener])
  {
    var last := requests[|requests| - 1];
    assert last == Notice(last.listener, true);
  }

  lemma OneLeaves(requests: seq<Notice>, was: seq<CString>, k: nat)
    requires InListingOrder(requests, was) && k < |was|
    ensures InListingOrder(requests, was[..k] + was[k + 1..])
  {
    var now := was[..k] + was[k + 1..];
    assert forall i :: 0 <= i < |now| ==> now[i] == was[if i < k then i else i + 1];
  }
}
