/** The SMS utility: `sendSMS` for one recipient and the `sendBulkSMS`
    fan-out that records one result per list entry and never aborts.

    The SMS service and the simulator's random numbers are an oracle: the
    gateway is given, up front, what the live service answers to its k-th
    request and what `Math.random` yields for its k-th simulated send, and
    it logs every request it hands over. Every property below holds for
    every such oracle. */
module Sms {

  import opened JsValue
  import opened JsString

  /** How the module was configured when it was loaded. */
  datatype Mode =
    | Simulate       // SMS_SIMULATE is "true": sends are simulated
    | Live           // a live client exists
    | Unconfigured   // neither: every send fails

  /** `SMS_SIMULATE` compared case-insensitively with "true" wins; otherwise a
      live client is created only when both credentials are present. */
  function ModeOf(simulateFlag: string, accountSid: string, authToken: string): (m: Mode)
    ensures m == Simulate <==> Lower(simulateFlag) == "true"
    ensures m == Live <==> Lower(simulateFlag) != "true" && accountSid != "" && authToken != ""
    ensures m == Unconfigured <==> Lower(simulateFlag) != "true" && (accountSid == "" || authToken == "")
  {
    if Lower(simulateFlag) == "true" then Simulate
    else if accountSid != "" && authToken != "" then Live
    else Unconfigured
  }

  /** What the live service does with one request. */
  datatype Reply = Accepted(sid: string) | Rejected(message: string)

  /** The `Math.random` draws behind one simulated send: whether the small
      failure chance fired, and the random characters of the fake sid. */
  datatype Draw = Draw(fails: bool, suffix: string)

  /** The configuration together with the oracle for the outside world. */
  datatype Sender = Sender(mode: Mode, service: nat -> Reply, dice: nat -> Draw)

  /** One message handed to the simulator or to the live service. */
  datatype Request = Request(to: Value, body: Value)

  /** How a `sendSMS` promise settles. */
  datatype Outcome = Resolved(sid: string) | Thrown(message: string)

  /** One element of a results array: `{to, sid}` or `{to, error}`, never both. */
  datatype Result = Sent(to: Value, sid: string) | Failed(to: Value, error: string)

  const NotConfigured: string := "Twilio not configured"
  const InvalidFormat: string := "Invalid recipient format"
  const SimulatedError: string := "Simulated send error"

  function FakeSid(d: Draw): string {
    "SIM-" + d.suffix
  }

  predicate IsFakeSid(sid: string) {
    |sid| >= 4 && sid[..4] == "SIM-"
  }

  /** Whether a send is handed over at all (and so consumes an answer). */
  predicate Transmits(mode: Mode) {
    mode != Unconfigured
  }

  /** How `sendSMS` settles when it is the k-th request of the gateway. */
  function SendOutcome(s: Sender, k: nat): (r: Outcome)
    ensures s.mode == Simulate ==> r.Resolved? && IsFakeSid(r.sid)
    ensures s.mode == Unconfigured ==> r == Thrown(NotConfigured)
    ensures s.mode == Live && s.service(k).Accepted? ==> r == Resolved(s.service(k).sid)
    ensures s.mode == Live && s.service(k).Rejected? ==> r == Thrown(s.service(k).message)
  {
    match s.mode
    case Simulate => Resolved(FakeSid(s.dice(k)))
    case Unconfigured => Thrown(NotConfigured)
    case Live =>
      match s.service(k)
      case Accepted(sid) => Resolved(sid)
      case Rejected(m) => Thrown(m)
  }

  /** How a bulk entry is read: a string is a recipient for the shared
      message; a non-null object supplies `to` and, when truthy, its own
      `message`; anything else is not a recipient. */
  function Resolve(entry: Value, message: Value): (r: Option<Request>)
    ensures entry.Str? ==> r == Some(Request(entry, message))
    ensures (entry.Obj? || entry.Arr?) && Truthy(Prop(entry, "message")) ==> r == Some(Request(Prop(entry, "to"), Prop(entry, "message")))
    ensures (entry.Obj? || entry.Arr?) && !Truthy(Prop(entry, "message")) ==> r == Some(Request(Prop(entry, "to"), message))
    ensures r.None? <==> !(entry.Str? || entry.Arr? || entry.Obj?)
  {
    if entry.Str? then Some(Request(entry, message))
    else if Truthy(entry) && (entry.Arr? || entry.Obj?) then
      Some(Request(Prop(entry, "to"), Or(Prop(entry, "message"), message)))
    else None
  }

  /** The `to` recorded for an entry: its recipient, or the entry itself when
      it is not a recipient. */
  function RecordedTo(entry: Value, message: Value): Value {
    match Resolve(entry, message)
    case None => entry
    case Some(req) => req.to
  }

  /** The result recorded for one entry when its send, if any, is the k-th request. */
  function EntryResult(s: Sender, entry: Value, message: Value, k: nat): (r: Result)
    ensures r.to == RecordedTo(entry, message)
    ensures Resolve(entry, message).None? ==> r == Failed(entry, InvalidFormat)
    ensures Resolve(entry, message).Some? && s.mode == Unconfigured ==> r == Failed(r.to, NotConfigured)
    ensures Resolve(entry, message).Some? && s.mode == Live ==>
              (s.service(k).Accepted? ==> r == Sent(r.to, s.service(k).sid))
              && (s.service(k).Rejected? ==> r == Failed(r.to, s.service(k).message))
  {
    match Resolve(entry, message)
    case None => Failed(entry, InvalidFormat)
    case Some(req) =>
      match s.mode
      case Simulate =>
        if s.dice(k).fails then Failed(req.to, SimulatedError) else Sent(req.to, FakeSid(s.dice(k)))
      case Unconfigured => Failed(req.to, NotConfigured)
      case Live =>
        match s.service(k)
        case Accepted(sid) => Sent(req.to, sid)
        case Rejected(m) => Failed(req.to, m)
  }

  /** The request one bulk entry hands over: none for an entry that is not
      a recipient or when sending is unconfigured. */
  function RequestOf(s: Sender, entry: Value, message: Value): (r: seq<Request>)
    ensures |r| <= 1
    ensures r != [] <==> Resolve(entry, message).Some? && Transmits(s.mode)
    ensures r != [] ==> r[0] == Resolve(entry, message).value
  {
    match Resolve(entry, message)
    case None => []
    case Some(req) => if Transmits(s.mode) then [req] else []
  }

  /** The shape of the bulk loop, whatever each turn does: one result per
      entry, where `result(entry, n)` is the entry's result when its request,
      if any, is the n-th, and `requests(entry)` is what the entry hands over. */
  function Collect(list: seq<Value>, k: nat, result: (Value, nat) -> Result, requests: Value -> seq<Request>): (r: seq<Result>)
    ensures |r| == |list|
    decreases |list|
  {
    if list == [] then []
    else [result(list[0], k)] + Collect(list[1..], k + |requests(list[0])|, result, requests)
  }

  /** Everything the loop hands over, in list order. */
  function Handed(list: seq<Value>, requests: Value -> seq<Request>): seq<Request>
    decreases |list|
  {
    if list == [] then [] else requests(list[0]) + Handed(list[1..], requests)
  }

  lemma {:induction false} HandedAppend(a: seq<Value>, b: seq<Value>, requests: Value -> seq<Request>)
    ensures Handed(a + b, requests) == Handed(a, requests) + Handed(b, requests)
    decreases |a|
  {
    if a == [] {
      assert a + b == b;
    } else {
      var ab := a + b;
      assert ab[0] == a[0] && ab[1..] == a[1..] + b;
      HandedAppend(a[1..], b, requests);
    }
  }

  lemma {:induction false} CollectAppend(a: seq<Value>, b: seq<Value>, k: nat,
                                         result: (Value, nat) -> Result, requests: Value -> seq<Request>)
    ensures Collect(a + b, k, result, requests)
         == Collect(a, k, result, requests) + Collect(b, k + |Handed(a, requests)|, result, requests)
    decreases |a|
  {
    if a == [] {
      assert a + b == b;
    } else {
      var ab := a + b;
      assert ab[0] == a[0] && ab[1..] == a[1..] + b;
      CollectAppend(a[1..], b, k + |requests(a[0])|, result, requests);
    }
  }

  /** The requests a bulk send hands over, in list order. */
  function Requests(s: Sender, list: seq<Value>, message: Value): seq<Request> {
    Handed(list, (e: Value) => RequestOf(s, e, message))
  }

  /** The results array of `sendBulkSMS(list, message)` when the first
      request it hands over is the k-th of the gateway: one result per entry. */
  function Fanout(s: Sender, list: seq<Value>, message: Value, k: nat): (r: seq<Result>)
    ensures |r| == |list|
  {
    Collect(list, k, (e: Value, n: nat) => EntryResult(s, e, message, n), (e: Value) => RequestOf(s, e, message))
  }

  lemma RequestsAppend(s: Sender, a: seq<Value>, b: seq<Value>, message: Value)
    ensures Requests(s, a + b, message) == Requests(s, a, message) + Requests(s, b, message)
  {
    HandedAppend(a, b, (e: Value) => RequestOf(s, e, message));
  }

  lemma FanoutAppend(s: Sender, a: seq<Value>, b: seq<Value>, message: Value, k: nat)
    ensures Fanout(s, a + b, message, k)
         == Fanout(s, a, message, k) + Fanout(s, b, message, k + |Requests(s, a, message)|)
  {
    CollectAppend(a, b, k, (e: Value, n: nat) => EntryResult(s, e, message, n), (e: Value) => RequestOf(s, e, message));
  }

  /** Extending the list by one entry extends the results and the requests
      by that entry's own. */
  lemma FanoutStep(s: Sender, list: seq<Value>, message: Value, k: nat, i: nat)
    requires i < |list|
    ensures Fanout(s, list[..i + 1], message, k)
         == Fanout(s, list[..i], message, k)
            + [EntryResult(s, list[i], message, k + |Requests(s, list[..i], message)|)]
    ensures Requests(s, list[..i + 1], message) == Requests(s, list[..i], message) + RequestOf(s, list[i], message)
  {
    var one := [list[i]];
    assert list[..i + 1] == list[..i] + one;
    assert one[1..] == [];
    FanoutAppend(s, list[..i], one, message, k);
    RequestsAppend(s, list[..i], one, message);
    assert Requests(s, one, message) == RequestOf(s, list[i], message) + Requests(s, [], message);
    assert Fanout(s, one, message, k + |Requests(s, list[..i], message)|)
        == [EntryResult(s, list[i], message, k + |Requests(s, list[..i], message)|)];
  }

  /** One turn of the bulk loop keeps its two invariants: the log holds the
      requests of the entries done so far, and the results are their fan-out. */
  lemma BulkLoopStep(s: Sender, list: seq<Value>, message: Value, sent0: seq<Request>,
                     before: seq<Request>, after: seq<Request>, results: seq<Result>, r: Result, i: nat)
    requires i < |list|
    requires before == sent0 + Requests(s, list[..i], message)
    requires results == Fanout(s, list[..i], message, |sent0|)
    requires r == EntryResult(s, list[i], message, |before|)
    requires after == before + RequestOf(s, list[i], message)
    ensures after == sent0 + Requests(s, list[..i + 1], message)
    ensures results + [r] == Fanout(s, list[..i + 1], message, |sent0|)
  {
    FanoutStep(s, list, message, |sent0|, i);
  }

  /** Each entry's result depends only on that entry and on the answer its
      own request gets: an earlier failure neither stops nor alters it. */
  lemma {:induction false} FanoutAt(s: Sender, list: seq<Value>, message: Value, k: nat, i: nat)
    requires i < |list|
    ensures Fanout(s, list, message, k)[i]
         == EntryResult(s, list[i], message, k + |Requests(s, list[..i], message)|)
  {
    FanoutAppend(s, list[..i], list[i..], message, k);
    assert list[..i] + list[i..] == list;
    assert list[i..][0] == list[i];
  }

  /** The results are in list order: the i-th result names the i-th entry's
      recipient. */
  lemma FanoutInOrder(s: Sender, list: seq<Value>, message: Value, k: nat)
    ensures forall i :: 0 <= i < |list| ==> Fanout(s, list, message, k)[i].to == RecordedTo(list[i], message)
  {
    forall i | 0 <= i < |list|
      ensures Fanout(s, list, message, k)[i].to == RecordedTo(list[i], message)
    {
      FanoutAt(s, list, message, k, i);
    }
  }

  /** An entry that is neither a string nor an object yields the
      invalid-format error, carrying the entry itself, and sends nothing. */
  lemma InvalidEntriesReported(s: Sender, list: seq<Value>, message: Value, k: nat)
    ensures forall i :: 0 <= i < |list| && Resolve(list[i], message).None? ==>
              Fanout(s, list, message, k)[i] == Failed(list[i], InvalidFormat)
  {
    forall i | 0 <= i < |list| && Resolve(list[i], message).None?
      ensures Fanout(s, list, message, k)[i] == Failed(list[i], InvalidFormat)
    {
      FanoutAt(s, list, message, k, i);
    }
  }

  /** Without simulation and without a client every recipient gets the
      not-configured error, and nothing is handed over. */
  lemma {:induction false} UnconfiguredSendsNothing(s: Sender, list: seq<Value>, message: Value)
    requires s.mode == Unconfigured
    ensures Requests(s, list, message) == []
    decreases |list|
  {
    if list != [] {
      UnconfiguredSendsNothing(s, list[1..], message);
    }
  }

  lemma UnconfiguredFailsEach(s: Sender, list: seq<Value>, message: Value, k: nat)
    requires s.mode == Unconfigured
    ensures forall i :: 0 <= i < |list| && Resolve(list[i], message).Some? ==>
              Fanout(s, list, message, k)[i] == Failed(RecordedTo(list[i], message), NotConfigured)
  {
    forall i | 0 <= i < |list| && Resolve(list[i], message).Some?
      ensures Fanout(s, list, message, k)[i] == Failed(RecordedTo(list[i], message), NotConfigured)
    {
      FanoutAt(s, list, message, k, i);
    }
  }

  /** In simulate mode every recipient gets either the simulated error or a
      sid starting with `SIM-`. */
  lemma SimulatedOutcomes(s: Sender, list: seq<Value>, message: Value, k: nat)
    requires s.mode == Simulate
    ensures forall i :: 0 <= i < |list| && Resolve(list[i], message).Some? ==>
              var r := Fanout(s, list, message, k)[i];
              r == Failed(RecordedTo(list[i], message), SimulatedError) || (r.Sent? && IsFakeSid(r.sid))
  {
    forall i | 0 <= i < |list| && Resolve(list[i], message).Some?
      ensures var r := Fanout(s, list, message, k)[i];
              r == Failed(RecordedTo(list[i], message), SimulatedError) || (r.Sent? && IsFakeSid(r.sid))
    {
      FanoutAt(s, list, message, k, i);
    }
  }

  /** Against a live service that accepts everything, every recipient gets a
      sid, in list order. */
  lemma AcceptingServiceSendsAll(s: Sender, list: seq<Value>, message: Value, k: nat)
    requires s.mode == Live && forall n :: s.service(n).Accepted?
    ensures forall i :: 0 <= i < |list| && Resolve(list[i], message).Some? ==>
              Fanout(s, list, message, k)[i].Sent?
  {
    forall i | 0 <= i < |list| && Resolve(list[i], message).Some?
      ensures Fanout(s, list, message, k)[i].Sent?
    {
      FanoutAt(s, list, message, k, i);
    }
  }

  /** Against a live service, each recipient gets the sid the service
      returns for its own request, or the error message it rejects that
      request with; the batch goes on either way. */
  lemma LiveOutcomes(s: Sender, list: seq<Value>, message: Value, k: nat, i: nat)
    requires s.mode == Live && i < |list| && Resolve(list[i], message).Some?
    ensures var n := k + |Requests(s, list[..i], message)|;
            (s.service(n).Accepted? ==> Fanout(s, list, message, k)[i] == Sent(RecordedTo(list[i], message), s.service(n).sid))
            && (s.service(n).Rejected? ==> Fanout(s, list, message, k)[i] == Failed(RecordedTo(list[i], message), s.service(n).message))
  {
    FanoutAt(s, list, message, k, i);
  }

  /** The module's SMS client: its configuration, the oracle, and the log of
      every request handed to the simulator or the live service. */
  class Gateway {
    const sender: Sender
    var sent: seq<Request>

    constructor (sender: Sender)
      ensures this.sender == sender && sent == []
    {
      this.sender := sender;
      sent := [];
    }

    /** `sendSMS(to, message)`: simulated sends resolve with a fake sid; when
        sending is unconfigured it throws before handing anything over; otherwise the
        service's answer settles it. */
    method SendSMS(to: Value, message: Value) returns (r: Outcome)
      modifies this
      ensures r == SendOutcome(sender, old(|sent|))
      ensures sent == old(sent) + (if Transmits(sender.mode) then [Request(to, message)] else [])
    {
      match sender.mode {
        case Simulate =>
          var d := sender.dice(|sent|);
          sent := sent + [Request(to, message)];
          r := Resolved(FakeSid(d));
        case Unconfigured =>
          r := Thrown(NotConfigured);
        case Live =>
          var reply := sender.service(|sent|);
          sent := sent + [Request(to, message)];
          match reply {
            case Accepted(sid) => r := Resolved(sid);
            case Rejected(m) => r := Thrown(m);
          }
      }
    }

    /** One turn of the `sendBulkSMS` loop: resolve the entry, then record the
        simulated outcome, the missing client, or the service's answer. */
    method SendEntry(entry: Value, message: Value) returns (r: Result)
      modifies this
      ensures r == EntryResult(sender, entry, message, old(|sent|))
      ensures sent == old(sent) + RequestOf(sender, entry, message)
    {
      match Resolve(entry, message) {
        case None =>
          r := Failed(entry, InvalidFormat);
        case Some(req) =>
          if sender.mode == Simulate {
            var d := sender.dice(|sent|);
            sent := sent + [req];
            r := if d.fails then Failed(req.to, SimulatedError) else Sent(req.to, FakeSid(d));
          } else if sender.mode == Unconfigured {
            r := Failed(req.to, NotConfigured);
          } else {
            var reply := sender.service(|sent|);
            sent := sent + [req];
            r := match reply
              case Accepted(sid) => Sent(req.to, sid)
              case Rejected(m) => Failed(req.to, m);
          }
      }
    }

    /** `sendBulkSMS(recipients, message)`: a non-array is treated as a
        one-element list; each entry gets exactly one result, in order, and
        every per-entry failure is recorded and passed over. */
    method SendBulkSMS(recipients: Value, message: Value) returns (results: seq<Result>)
      modifies this
      ensures results == Fanout(sender, AsList(recipients), message, old(|sent|))
      ensures sent == old(sent) + Requests(sender, AsList(recipients), message)
    {
      var list := AsList(recipients);
      ghost var sent0 := sent;
      ghost var k0 := |sent0|;
      results := [];
      var i := 0;
      while i < |list|
        invariant 0 <= i <= |list|
        invariant sent == sent0 + Requests(sender, list[..i], message)
        invariant results == Fanout(sender, list[..i], message, k0)
      {
        ghost var before := sent;
        var r := SendEntry(list[i], message);
        BulkLoopStep(sender, list, message, sent0, before, sent, results, r, i);
        results := results + [r];
        i := i + 1;
      }
      assert list[..i] == list;
    }
  }
}
