/** The session manager: at most one session at a time, and a new number for each. */
module Session {
  import opened Bytes
  import opened Messages
  import opened Codec
  import opened BusTypes

  datatype State = State(counter: int32, current: int32)

  /** A call to the manager. An end request may fail to carry a number. */
  datatype Call = RequestId | GetId | End(id: Option<int32>)

  /** Granting a session must not carry the counter past the largest `int`. */
  predicate InRange(s: State, call: Call) {
    call.RequestId? && s.current == 0 ==> s.counter < 0x7fff_ffff
  }

  /** The items of the response. */
  function Respond(s: State, call: Call): seq<Value>
    requires InRange(s, call)
  {
    match call
    case RequestId =>
      if s.current == 0 then [VInt32(SUCCESS)] + [VInt32(s.counter + 1)] else [VInt32(ERROR_INVALID_STATE)]
    case GetId => [VInt32(SUCCESS)] + [VInt32(s.current)]
    case End(id) =>
      if id.None? then [VInt32(ERROR_INVALID_PARAM)]
      else if id.value == s.current then [VInt32(SUCCESS)] else [VInt32(ERROR_INVALID_STATE)]
  }

  function After(s: State, call: Call): State
    requires InRange(s, call)
  {
    match call
    case RequestId => if s.current == 0 then State(s.counter + 1, s.counter + 1) else s
    case GetId => s
    case End(id) => if id == Some(s.current) then State(s.counter, 0) else s
  }

  class SessionManager {
    var counter: int32
    var current: int32

    constructor ()
      ensures counter == 0 && current == 0
    {
      counter, current := 0, 0;
    }

    ghost function Now(): State
      reads this
    {
      State(counter, current)
    }

    method RequestSessionId() returns (response: RbusMessage)
      requires InRange(Now(), RequestId)
      modifies this
      ensures Now() == After(old(Now()), RequestId)
      ensures fresh(response) && response.sbuf == EncodeAll(Respond(old(Now()), RequestId))
    {
      response := new RbusMessage.Init();
      if 0 == current {
        counter := counter + 1;
        current := counter;
        response.SetInt32(SUCCESS);
        response.SetInt32(current);
        EncodePush([VInt32(SUCCESS)], VInt32(current));
        EncodeOne(VInt32(SUCCESS));
      } else {
        response.SetInt32(ERROR_INVALID_STATE);
        EncodeOne(VInt32(ERROR_INVALID_STATE));
      }
    }

    method GetSessionId() returns (response: RbusMessage)
      ensures fresh(response) && response.sbuf == EncodeAll(Respond(Now(), GetId))
    {
      response := new RbusMessage.Init();
      response.SetInt32(SUCCESS);
      response.SetInt32(current);
      EncodePush([VInt32(SUCCESS)], VInt32(current));
      EncodeOne(VInt32(SUCCESS));
    }

    method EndSession(request: RbusMessage) returns (response: RbusMessage)
      modifies this, request
      ensures var got := Get(old(request.sbuf), old(request.readOffset), KInt32).got;
              var id := if got.Some? && got.value.GotInt? then Some(Wrap32(got.value.i)) else None;
              && Now() == After(old(Now()), End(id))
              && fresh(response) && response.sbuf == EncodeAll(Respond(old(Now()), End(id)))
    {
      response := new RbusMessage.Init();
      var result := SUCCESS;
      var sessionId := request.GetInt32();
      if sessionId.Some? {
        if sessionId.value == current {
          current := 0;
        } else {
          result := ERROR_INVALID_STATE;
        }
      } else {
        result := ERROR_INVALID_PARAM;
      }
      response.SetInt32(result);
      EncodeOne(VInt32(result));
    }
  }

  // ---- Whole runs -------------------------------------------------------------------------

  /** What happened to sessions: one was granted, or the running one was ended. */
  datatype Happening = Granted(id: int32) | Ended(id: int32)

  function Happened(s: State, call: Call): seq<Happening>
    requires InRange(s, call)
  {
    match call
    case RequestId => if s.current == 0 then [Granted(s.counter + 1)] else []
    case GetId => []
    case End(id) => if id == Some(s.current) && s.current != 0 then [Ended(s.current)] else []
  }

  datatype History = History(state: State, happenings: seq<Happening>)

  function Run(calls: seq<Call>): (h: History)
    requires |calls| < 0x7fff_ffff
    ensures 0 <= h.state.counter <= |calls|
  {
    if |calls| == 0 then History(State(0, 0), [])
    else
      var before := Run(calls[..|calls| - 1]);
      var call := calls[|calls| - 1];
      History(After(before.state, call), before.happenings + Happened(before.state, call))
  }

  /** Granted 1, ended 1, granted 2, ended 2, and so on. */
  function Canonical(n: nat): (h: seq<Happening>)
    requires n < 0x7fff_ffff
    ensures |h| == n
    ensures forall i :: 0 <= i < n ==> h[i] == if i % 2 == 0 then Granted(i / 2 + 1) else Ended(i / 2 + 1)
  {
    seq(n, i requires 0 <= i < n => if i % 2 == 0 then Granted(i / 2 + 1) else Ended(i / 2 + 1))
  }

  lemma CanonicalNext(n: nat)
    requires n < 0x7fff_fffe
    ensures Canonical(n + 1) == Canonical(n) + [if n % 2 == 0 then Granted(n / 2 + 1) else Ended(n / 2 + 1)]
  {
  }

  /** In every run, the sessions are numbered 1, 2, 3, ... without gap or reuse, each is ended once
      before the next is granted, and the current number is that of the last one granted and not
      yet ended, or 0. */
  lemma {:induction false} SessionsAlternate(calls: seq<Call>)
    requires |calls| < 0x7fff_ffff
    ensures var h := Run(calls);
            var n := |h.happenings|;
            && n <= |calls| && h.happenings == Canonical(n)
            && h.state == State((n + 1) / 2, if n % 2 == 1 then (n + 1) / 2 else 0)
  {
    if |calls| == 0 {
    } else {
      SessionsAlternate(calls[..|calls| - 1]);
      var before := Run(calls[..|calls| - 1]);
      var happened := Happened(before.state, calls[|calls| - 1]);
      var n := |before.happenings|;
      if happened == [] {
        assert before.happenings + happened == before.happenings;
      } else {
        CanonicalNext(n);
      }
    }
  }

  /** The number last granted and not yet ended, or 0, as told by what happened. */
  function Running(happenings: seq<Happening>): int32 {
    if |happenings| > 0 && happenings[|happenings| - 1].Granted? then happenings[|happenings| - 1].id else 0
  }

  /** What a caller reads in a response of one or two numbers. */
  predicate Tells(response: seq<byte>, numbers: seq<Value>) {
    ReadAll(response, 0, ShapesOf(numbers)) == Some(numbers)
  }

  lemma NumbersRead(numbers: seq<Value>)
    requires AllFit(numbers)
    ensures Tells(EncodeAll(numbers), numbers)
  {
    RoundTrip(numbers);
  }

  lemma TwoNumbersFit(first: int32, second: int32)
    ensures AllFit([VInt32(first)]) && AllFit([VInt32(first)] + [VInt32(second)])
  {
    FitsAlone(VInt32(first));
    FitsAlone(VInt32(second));
    AllFitConcat([VInt32(first)], [VInt32(second)]);
  }

  /** What the state and the happenings say of each other. */
  lemma RunningIsCurrent(calls: seq<Call>)
    requires |calls| < 0x7fff_ffff
    ensures Run(calls).state.current == Running(Run(calls).happenings)
  {
    SessionsAlternate(calls);
    var n := |Run(calls).happenings|;
    CanonicalLast(n);
  }

  lemma CanonicalLast(n: nat)
    requires n < 0x7fff_ffff
    ensures Running(Canonical(n)) == if n % 2 == 1 then (n + 1) / 2 else 0
  {
    if n > 0 {
      assert Canonical(n)[n - 1] == if (n - 1) % 2 == 0 then Granted((n - 1) / 2 + 1) else Ended((n - 1) / 2 + 1);
    }
  }

  /** After any run, the response to a request for a session tells the number of the session that it
      grants, or that there is one already. */
  lemma GrantIsTold(calls: seq<Call>) returns (id: int32)
    requires |calls| < 0x7fff_fffe
    ensures var before, after := Run(calls), Run(calls + [RequestId]);
            var response := EncodeAll(Respond(before.state, RequestId));
            if Running(before.happenings) == 0
            then after.happenings == before.happenings + [Granted(id)]
                 && Tells(response, [VInt32(SUCCESS)] + [VInt32(id)])
            else after.happenings == before.happenings && Tells(response, [VInt32(ERROR_INVALID_STATE)])
  {
    var before := Run(calls);
    RunningIsCurrent(calls);
    RunStep(calls, RequestId);
    id := before.state.counter + 1;
    TwoNumbersFit(SUCCESS, id);
    TwoNumbersFit(ERROR_INVALID_STATE, id);
    NumbersRead(Respond(before.state, RequestId));
    assert before.happenings + [] == before.happenings;
  }

  /** The response to the question for the session tells the number that was last granted and not
      yet ended, or 0. */
  lemma RunningIsTold(calls: seq<Call>)
    requires |calls| < 0x7fff_fffe
    ensures var before := Run(calls);
            Tells(EncodeAll(Respond(before.state, GetId)), [VInt32(SUCCESS)] + [VInt32(Running(before.happenings))])
  {
    RunningIsCurrent(calls);
    TwoNumbersFit(SUCCESS, Run(calls).state.current);
    NumbersRead(Respond(Run(calls).state, GetId));
  }

  /** The response to an end request tells success exactly for the running session's number, which is
      0 while there is none. */
  lemma EndIsTold(calls: seq<Call>, id: Option<int32>)
    requires |calls| < 0x7fff_fffe
    ensures var running := Running(Run(calls).happenings);
            var response := EncodeAll(Respond(Run(calls).state, End(id)));
            && (id.None? ==> Tells(response, [VInt32(ERROR_INVALID_PARAM)]))
            && (id == Some(running) ==> Tells(response, [VInt32(SUCCESS)]))
            && (id.Some? && id.value != running ==> Tells(response, [VInt32(ERROR_INVALID_STATE)]))
  {
    RunningIsCurrent(calls);
    EndTells(Run(calls).state, id);
  }

  lemma EndTells(s: State, id: Option<int32>)
    ensures var response := EncodeAll(Respond(s, End(id)));
            && (id.None? ==> Tells(response, [VInt32(ERROR_INVALID_PARAM)]))
            && (id == Some(s.current) ==> Tells(response, [VInt32(SUCCESS)]))
            && (id.Some? && id.value != s.current ==> Tells(response, [VInt32(ERROR_INVALID_STATE)]))
  {
    var numbers := Respond(s, End(id));
    TwoNumbersFit(numbers[0].i, 0);
    assert numbers == [VInt32(numbers[0].i)];
    NumbersRead(numbers);
  }

  /** A session ends exactly if its number is named while it runs. */
  lemma EndEnds(calls: seq<Call>, id: Option<int32>)
    requires |calls| < 0x7fff_fffe
    ensures var before, running := Run(calls).happenings, Running(Run(calls).happenings);
            Run(calls + [End(id)]).happenings
            == before + (if id == Some(running) && running != 0 then [Ended(running)] else [])
  {
    RunningIsCurrent(calls);
    RunStep(calls, End(id));
  }

  /** Ending session 0 while there is none is answered with success and changes nothing. */
  lemma EndingNothingSucceeds(calls: seq<Call>)
    requires |calls| < 0x7fff_fffe && Run(calls).state.current == 0
    ensures Respond(Run(calls).state, End(Some(0))) == [VInt32(SUCCESS)]
    ensures Run(calls + [End(Some(0))]) == Run(calls)
  {
    RunStep(calls, End(Some(0)));
    var before := Run(calls);
    assert before.happenings + [] == before.happenings;
  }

  lemma RunStep(calls: seq<Call>, call: Call)
    requires |calls| < 0x7fff_fffe
    ensures Run(calls + [call])
            == History(After(Run(calls).state, call), Run(calls).happenings + Happened(Run(calls).state, call))
  {
    var longer := calls + [call];
    assert longer[..|longer| - 1] == calls && longer[|longer| - 1] == call;
  }
}
