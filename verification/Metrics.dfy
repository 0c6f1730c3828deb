/**
 The metrics layer: one recording per request, made when the request's real status is known.
 */
module Metrics {
  import opened Wrappers

  /** A gRPC status code. */
  type Code = nat

  const OK: Code := 0
  const UNKNOWN: Code := 2

  /** What the wrapped service returned: an error, a response whose headers already carry the
      status, or a response whose body must be watched. */
  datatype Outcome = CallFailed | TrailersOnly(code: Code) | Streaming

  /** What polling the inner body yields; trailers may lack a readable status. */
  datatype Poll = Pending | Data | Trailers(status: Option<Code>) | BodyError | EndOfBody

  predicate Ends(p: Poll) {
    p.Trailers? || p.BodyError? || p.EndOfBody?
  }

  function CodeOf(p: Poll): Code {
    if p.Trailers? && p.status.Some? then p.status.value else UNKNOWN
  }

  function Errors(codes: seq<Code>): nat {
    if codes == [] then 0 else Errors(codes[..|codes| - 1]) + (if codes[|codes| - 1] != OK then 1 else 0)
  }

  lemma {:induction false} ErrorsCountNonOk(codes: seq<Code>)
    ensures Errors(codes) == |set i | 0 <= i < |codes| && codes[i] != 0|
  {
    var failed := set i | 0 <= i < |codes| && codes[i] != 0;
    if codes == [] {
      assert failed == {};
    } else {
      var last := |codes| - 1;
      var earlier := set i | 0 <= i < |codes[..last]| && codes[..last][i] != 0;
      ErrorsCountNonOk(codes[..last]);
      assert failed == if codes[last] != 0 then earlier + {last} else earlier;
    }
  }

  // ----- The objects -----

  /** The three instruments.  `recorded` is history. */
  class Instruments {
    var requests: nat
    var errors: nat
    var latencies: nat
    ghost var recorded: seq<Code>

    ghost predicate Valid()
      reads this
    {
      requests == |recorded| == latencies && errors == Errors(recorded)
    }

    constructor ()
      ensures Valid() && recorded == []
    {
      requests, errors, latencies, recorded := 0, 0, 0, [];
    }

    method Record(code: Code)
      requires Valid()
      modifies this
      ensures Valid() && recorded == old(recorded) + [code]
    {
      requests := requests + 1;
      if code != OK {
        errors := errors + 1;
      }
      latencies := latencies + 1;
      recorded := recorded + [code];
      assert recorded[..|recorded| - 1] == old(recorded);
    }
  }

  /** The wrapped response body; `armed` while its recorder has not been taken. */
  class MetricsBody {
    const instruments: Instruments
    var armed: bool

    constructor (instruments: Instruments, armed: bool)
      ensures this.instruments == instruments && this.armed == armed
    {
      this.instruments, this.armed := instruments, armed;
    }

    method PollFrame(poll: Poll)
      requires instruments.Valid()
      modifies this, instruments
      ensures instruments.Valid() && armed == (old(armed) && !Ends(poll))
      ensures instruments.recorded
              == old(instruments.recorded) + if old(armed) && Ends(poll) then [CodeOf(poll)] else []
      ensures old(armed) && poll.Trailers? && poll.status.Some? ==>
                !armed && instruments.recorded == old(instruments.recorded) + [poll.status.value]
      ensures old(armed) && (poll == Trailers(None) || poll.BodyError? || poll.EndOfBody?) ==>
                !armed && instruments.recorded == old(instruments.recorded) + [2]
      ensures !old(armed) || poll.Data? || poll.Pending? ==>
                armed == old(armed) && instruments.recorded == old(instruments.recorded)
    {
      match poll {
        case Trailers(status) =>
          if armed {
            armed := false;
            instruments.Record(if status.Some? then status.value else UNKNOWN);
          }
        case BodyError =>
          if armed {
            armed := false;
            instruments.Record(UNKNOWN);
          }
        case EndOfBody =>
          if armed {
            armed := false;
            instruments.Record(UNKNOWN);
          }
        case Data =>
        case Pending =>
      }
    }
  }

  // ----- One request -----

  /** What a body records while it is polled. */
  function Observe(armed: bool, polls: seq<Poll>): seq<Code>
    decreases |polls|
  {
    if polls == [] then []
    else if armed && Ends(polls[0]) then [CodeOf(polls[0])] + Observe(false, polls[1..])
    else Observe(armed, polls[1..])
  }

  function Recordings(outcome: Outcome, polls: seq<Poll>): seq<Code> {
    match outcome
    case CallFailed => [UNKNOWN]
    case TrailersOnly(code) => [code] + Observe(false, polls)
    case Streaming => Observe(true, polls)
  }

  /** The service call and then any number of polls of the body it returned. */
  method ServeOne(instruments: Instruments, outcome: Outcome, polls: seq<Poll>)
    requires instruments.Valid()
    modifies instruments
    ensures instruments.Valid()
    ensures instruments.recorded == old(instruments.recorded) + Recordings(outcome, polls)
  {
    if outcome.CallFailed? {
      instruments.Record(UNKNOWN);
      return;
    }
    if outcome.TrailersOnly? {
      instruments.Record(outcome.code);
    }
    ghost var start := instruments.recorded;
    var body := new MetricsBody(instruments, outcome.Streaming?);
    ghost var armed := body.armed;
    var i := 0;
    while i < |polls|
      invariant 0 <= i <= |polls| && body.instruments == instruments && instruments.Valid() && fresh(body)
      invariant instruments.recorded + Observe(body.armed, polls[i..]) == start + Observe(armed, polls)
    {
      assert polls[i..][1..] == polls[i + 1..];
      body.PollFrame(polls[i]);
      i := i + 1;
    }
    assert polls[i..] == [] && instruments.recorded == start + Observe(armed, polls);
    assert start + Observe(armed, polls) == old(instruments.recorded) + Recordings(outcome, polls);
  }

  lemma {:induction false} DisarmedIsSilent(polls: seq<Poll>)
    ensures Observe(false, polls) == []
  {
    if polls == [] {
    } else {
      DisarmedIsSilent(polls[1..]);
    }
  }

  lemma {:induction false} OpenIsSilent(polls: seq<Poll>)
    requires forall i | 0 <= i < |polls| :: !Ends(polls[i])
    ensures Observe(true, polls) == []
  {
    if polls == [] {
    } else {
      OpenIsSilent(polls[1..]);
    }
  }

  /** The body goes on after such a poll. */
  predicate GoesOn(p: Poll) {
    p.Data? || p.Pending?
  }

  /** `codes` is the one recording that a poll which ends the body calls for: the status in its
      trailers, or UNKNOWN (2) for trailers without a readable one, an error or a bare end. */
  predicate EndedWith(p: Poll, codes: seq<Code>) {
    match p
    case Trailers(Some(code)) => codes == [code]
    case Trailers(None) => codes == [2]
    case BodyError => codes == [2]
    case EndOfBody => codes == [2]
    case Data => false
    case Pending => false
  }

  /** The first poll that ends the body decides, whatever is polled after it. */
  lemma {:induction false} FirstEndDecides(polls: seq<Poll>, first: nat)
    requires first < |polls| && !GoesOn(polls[first]) && forall j | 0 <= j < first :: GoesOn(polls[j])
    ensures EndedWith(polls[first], Observe(true, polls))
  {
    var rest := polls[1..];
    if first == 0 {
      DisarmedIsSilent(rest);
    } else {
      assert rest[first - 1] == polls[first];
      FirstEndDecides(rest, first - 1);
    }
  }

  /** What a request records: UNKNOWN if its call failed, the status of its headers if it came
      there, otherwise what the first poll that ends its body calls for, and nothing before that. */
  ghost predicate RecordsAs(outcome: Outcome, polls: seq<Poll>, codes: seq<Code>) {
    match outcome
    case CallFailed => codes == [2]
    case TrailersOnly(code) => codes == [code]
    case Streaming =>
      && ((forall i | 0 <= i < |polls| :: GoesOn(polls[i])) ==> codes == [])
      && (forall i | 0 <= i < |polls| && !GoesOn(polls[i]) && (forall j | 0 <= j < i :: GoesOn(polls[j])) ::
            EndedWith(polls[i], codes))
  }

  lemma {:induction false} RecordingsMean(outcome: Outcome, polls: seq<Poll>)
    ensures RecordsAs(outcome, polls, Recordings(outcome, polls))
  {
    DisarmedIsSilent(polls);
    if outcome.Streaming? {
      if forall i | 0 <= i < |polls| :: GoesOn(polls[i]) {
        OpenIsSilent(polls);
      }
      forall i | 0 <= i < |polls| && !GoesOn(polls[i]) && (forall j | 0 <= j < i :: GoesOn(polls[j]))
        ensures EndedWith(polls[i], Observe(true, polls))
      {
        FirstEndDecides(polls, i);
      }
    }
  }

  /** At most once in every case, also when the body is polled past its end; and exactly once if
      the call failed, the status came in the headers, or some poll ended the body. */
  lemma RecordedOnce(outcome: Outcome, polls: seq<Poll>)
    ensures |Recordings(outcome, polls)| <= 1
    ensures |Recordings(outcome, polls)| == 1 <==>
            !outcome.Streaming? || exists i | 0 <= i < |polls| :: !GoesOn(polls[i])
  {
    RecordingsMean(outcome, polls);
    if i :| 0 <= i < |polls| && !GoesOn(polls[i]) {
      var first := FirstEnd(polls, i);
    }
  }

  lemma FirstEnd(polls: seq<Poll>, i: nat) returns (first: nat)
    requires i < |polls| && !GoesOn(polls[i])
    ensures first <= i && !GoesOn(polls[first]) && forall j | 0 <= j < first :: GoesOn(polls[j])
  {
    first := 0;
    while GoesOn(polls[first])
      invariant first <= i && forall j | 0 <= j < first :: GoesOn(polls[j])
      decreases i - first
    {
      first := first + 1;
    }
  }

  // ----- Any number of requests, interleaved -----

  datatype Event = Called(id: nat, outcome: Outcome) | Polled(id: nat, poll: Poll)

  /** What one event records; `armed` are the bodies still waiting for their end. */
  function Recording(armed: set<nat>, e: Event): seq<(nat, Code)> {
    match e
    case Called(id, CallFailed) => [(id, UNKNOWN)]
    case Called(id, TrailersOnly(code)) => [(id, code)]
    case Called(id, Streaming) => []
    case Polled(id, poll) => if id in armed && Ends(poll) then [(id, CodeOf(poll))] else []
  }

  function ArmedAfter(armed: set<nat>, e: Event): set<nat> {
    match e
    case Called(id, outcome) => if outcome.Streaming? then armed + {id} else armed
    case Polled(id, poll) => if Ends(poll) then armed - {id} else armed
  }

  /** The recordings of an interleaving. */
  function Play(armed: set<nat>, events: seq<Event>): seq<(nat, Code)>
    decreases |events|
  {
    if events == [] then [] else Recording(armed, events[0]) + Play(ArmedAfter(armed, events[0]), events[1..])
  }

  function Codes(recordings: seq<(nat, Code)>): seq<Code> {
    seq(|recordings|, i requires 0 <= i < |recordings| => recordings[i].1)
  }

  function CodesFor(recordings: seq<(nat, Code)>, id: nat): seq<Code> {
    if recordings == [] then []
    else (if recordings[0].0 == id then [recordings[0].1] else []) + CodesFor(recordings[1..], id)
  }

  function PollsOf(events: seq<Event>, id: nat): seq<Poll> {
    if events == [] then []
    else (if events[0].Polled? && events[0].id == id then [events[0].poll] else []) + PollsOf(events[1..], id)
  }

  predicate NotCalled(events: seq<Event>, id: nat) {
    forall e | e in events :: e.Called? ==> e.id != id
  }

  lemma CodesOfOneEvent(armed: set<nat>, e: Event, rest: seq<(nat, Code)>, id: nat)
    ensures CodesFor(Recording(armed, e) + rest, id)
            == (if e.id == id then Codes(Recording(armed, e)) else []) + CodesFor(rest, id)
  {
    var r := Recording(armed, e);
    if r == [] {
      assert r + rest == rest;
    } else {
      assert (r + rest)[0] == r[0] && (r + rest)[1..] == rest;
    }
  }

  /** What is recorded for a request depends on its own polls only. */
  lemma {:induction false} OthersDoNotInterfere(armed: set<nat>, events: seq<Event>, id: nat)
    requires NotCalled(events, id)
    ensures CodesFor(Play(armed, events), id) == Observe(id in armed, PollsOf(events, id))
    decreases |events|
  {
    if events == [] {
    } else {
      var e, rest := events[0], events[1..];
      var next := ArmedAfter(armed, e);
      assert e in events;
      OthersDoNotInterfere(next, rest, id);
      CodesOfOneEvent(armed, e, Play(next, rest), id);
      if e.id == id {
        assert PollsOf(events, id)[0] == e.poll && PollsOf(events, id)[1..] == PollsOf(rest, id);
      } else {
        assert PollsOf(events, id) == PollsOf(rest, id);
      }
    }
  }

  predicate Absent(events: seq<Event>, id: nat) {
    forall e | e in events :: e.id != id
  }

  /** In any interleaving, the recordings of a request are those it would make alone: at most one,
      with the status of the first end of its own body. */
  lemma {:induction false} InterleavingIsHarmless(armed: set<nat>, before: seq<Event>, id: nat, outcome: Outcome,
                                                  after: seq<Event>)
    requires Absent(before, id) && NotCalled(after, id) && id !in armed
    requires outcome.CallFailed? ==> PollsOf(after, id) == []
    ensures CodesFor(Play(armed, before + [Called(id, outcome)] + after), id) == Recordings(outcome, PollsOf(after, id))
    decreases |before|
  {
    var events := before + [Called(id, outcome)] + after;
    if before == [] {
      var e := Called(id, outcome);
      assert events[0] == e && events[1..] == after;
      OthersDoNotInterfere(ArmedAfter(armed, e), after, id);
      CodesOfOneEvent(armed, e, Play(ArmedAfter(armed, e), after), id);
    } else {
      var e := before[0];
      var armed', rest := ArmedAfter(armed, e), before[1..] + [Called(id, outcome)] + after;
      assert e in before && events[0] == e && events[1..] == rest;
      InterleavingIsHarmless(armed', before[1..], id, outcome, after);
      CodesOfOneEvent(armed, e, Play(armed', rest), id);
    }
  }

  /** However requests interleave, each is recorded at most once, and exactly once if its call
      failed, its status came in the headers, or some poll of its own body ended it; and what is
      recorded is the status that it ended with. */
  lemma OncePerRequest(before: seq<Event>, id: nat, outcome: Outcome, after: seq<Event>)
    requires Absent(before, id) && NotCalled(after, id)
    requires outcome.CallFailed? ==> PollsOf(after, id) == []
    ensures var codes := CodesFor(Play({}, before + [Called(id, outcome)] + after), id);
            var polls := PollsOf(after, id);
            && |codes| <= 1
            && (|codes| == 1 <==> !outcome.Streaming? || exists i | 0 <= i < |polls| :: !GoesOn(polls[i]))
            && RecordsAs(outcome, polls, codes)
  {
    InterleavingIsHarmless({}, before, id, outcome, after);
    RecordingsMean(outcome, PollsOf(after, id));
    RecordedOnce(outcome, PollsOf(after, id));
  }

  // ----- All requests together -----

  /** The bodies still waiting for their end after the events. */
  function Waiting(armed: set<nat>, events: seq<Event>): set<nat>
    decreases |events|
  {
    if events == [] then armed else Waiting(ArmedAfter(armed, events[0]), events[1..])
  }

  function Calls(events: seq<Event>): nat {
    if events == [] then 0 else (if events[0].Called? then 1 else 0) + Calls(events[1..])
  }

  /** Every call has an identity of its own. */
  predicate DistinctCalls(events: seq<Event>) {
    forall i, j | 0 <= i < j < |events| && events[i].Called? && events[j].Called? :: events[i].id != events[j].id
  }

  lemma TailCalls(events: seq<Event>)
    requires events != [] && DistinctCalls(events)
    ensures DistinctCalls(events[1..]) && (events[0].Called? ==> NotCalled(events[1..], events[0].id))
  {
    var rest := events[1..];
    assert forall i | 0 <= i < |rest| :: rest[i] == events[i + 1];
  }

  /** Conservation: every request is either recorded or still waiting for the end of its body. */
  lemma {:induction false} RecordedOrWaiting(armed: set<nat>, events: seq<Event>)
    requires DistinctCalls(events) && forall id | id in armed :: NotCalled(events, id)
    ensures |Play(armed, events)| + |Waiting(armed, events)| == |armed| + Calls(events)
    decreases |events|
  {
    if events == [] {
    } else {
      var e, armed' := events[0], ArmedAfter(armed, events[0]);
      TailCalls(events);
      assert e in events && (e.Called? ==> e.id !in armed);
      RecordedOrWaiting(armed', events[1..]);
      assert |armed'| + |Recording(armed, e)| == |armed| + if e.Called? then 1 else 0;
    }
  }

  /** Any interleaving of calls and body polls, on shared instruments: what is recorded is what
      `Play` says, so that the counters, by `RecordedOrWaiting`, count every request whose body is
      not waiting for its end. */
  method ServeAll(instruments: Instruments, bodies: map<nat, MetricsBody>, ghost armed: set<nat>, events: seq<Event>)
    requires instruments.Valid() && Bodies(instruments, bodies, armed) && CallsAhead(events, bodies.Keys)
    modifies instruments, bodies.Values
    ensures instruments.Valid()
    ensures instruments.recorded == old(instruments.recorded) + Codes(Play(armed, events))
    decreases |events|
  {
    if events != [] {
      ghost var next := ArmedAfter(armed, events[0]);
      ghost var start := instruments.recorded;
      var more := ServeEvent(instruments, bodies, armed, events[0]) by {
        assert events[0] in events;
      }
      Advance(events, armed, bodies.Keys, more.Keys, start);
      ServeAll(instruments, more, next, events[1..]);
    }
  }

  ghost predicate CallsAhead(events: seq<Event>, called: set<nat>) {
    DistinctCalls(events) && forall id | id in called :: NotCalled(events, id)
  }

  /** After the first event: calls ahead are still new, and the recordings add up. */
  lemma Advance(events: seq<Event>, armed: set<nat>, called: set<nat>, more: set<nat>, start: seq<Code>)
    requires events != [] && CallsAhead(events, called)
    requires more <= called + (if events[0].Called? then {events[0].id} else {})
    ensures CallsAhead(events[1..], more)
    ensures start + Codes(Play(armed, events))
            == start + Codes(Recording(armed, events[0])) + Codes(Play(ArmedAfter(armed, events[0]), events[1..]))
  {
    TailCalls(events);
    CodesConcat(Recording(armed, events[0]), Play(ArmedAfter(armed, events[0]), events[1..]));
    assert forall e | e in events[1..] :: e in events;
  }

  ghost predicate Bodies(instruments: Instruments, bodies: map<nat, MetricsBody>, armed: set<nat>)
    reads bodies.Values
  {
    && (forall id | id in bodies :: bodies[id].instruments == instruments && (bodies[id].armed <==> id in armed))
    && (forall id, other | id in bodies && other in bodies && id != other :: bodies[id] != bodies[other])
    && armed <= bodies.Keys
  }

  method ServeEvent(instruments: Instruments, bodies: map<nat, MetricsBody>, ghost armed: set<nat>, e: Event)
    returns (more: map<nat, MetricsBody>)
    requires instruments.Valid() && Bodies(instruments, bodies, armed) && (e.Called? ==> e.id !in bodies)
    modifies instruments, bodies.Values
    ensures instruments.Valid() && Bodies(instruments, more, ArmedAfter(armed, e))
    ensures more.Keys <= bodies.Keys + (if e.Called? then {e.id} else {})
    ensures forall b | b in more.Values :: b in bodies.Values || fresh(b)
    ensures instruments.recorded == old(instruments.recorded) + Codes(Recording(armed, e))
  {
    more := bodies;
    match e {
      case Called(id, outcome) =>
        if outcome.CallFailed? {
          instruments.Record(UNKNOWN);
        } else {
          if outcome.TrailersOnly? {
            instruments.Record(outcome.code);
          }
          var body := new MetricsBody(instruments, outcome.Streaming?);
          more := more[id := body];
        }
      case Polled(id, poll) =>
        if id in bodies {
          bodies[id].PollFrame(poll);
        }
    }
  }

  lemma CodesConcat(a: seq<(nat, Code)>, b: seq<(nat, Code)>)
    ensures Codes(a + b) == Codes(a) + Codes(b)
  {
  }
}
