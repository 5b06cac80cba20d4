/** The route handlers: required-field checks, the member search and public
    listing, the bulk-SMS dispatch, the stored birthday template and the
    birthday greeting loop. Each handler is a method of its request fields;
    the answer it sends is its result. */
module Server {

  import opened JsValue
  import opened JsString
  import opened Seqs
  import opened Sms
  import opened Members
  import opened Payments
  import opened Admins
  import opened Birthday

  /** A JSON answer with its HTTP status. */
  datatype Answer<T> = Ok(status: nat, value: T) | Error(status: nat, error: string)

  const MemberFieldsRequired: string := "Name and phone are required"
  const PaymentFieldsRequired: string := "memberId, amount, and type are required"
  const CredentialsRequired: string := "Username and password are required"
  const PayloadsOrMessage: string := "Provide either payloads or (to and message)"
  const InvalidId: string := "Invalid id"

  function WelcomeText(name: string): string {
    "Welcome to Christ Congregation Nkawkaw — Presbyterian Church of Ghana, " + name
    + "! Your registration is successful."
  }

  function ReceiptText(name: string, kind: string, amount: string): string {
    "Dear " + name + ", your " + kind + " payment of GHS" + amount
    + " has been received. Thank you! — Christ Congregation Nkawkaw"
  }

  // ----- GET /api/members/search -----

  /** `(req.query.q || '').toLowerCase().trim()`: blank exactly when the raw
      query is all white space, and free of upper-case letters. */
  function Query(raw: string): (q: string)
    ensures q == "" <==> forall i :: 0 <= i < |raw| ==> IsSpace(raw[i])
    ensures forall i :: 0 <= i < |q| ==> !('A' <= q[i] <= 'Z')
  {
    var l := Lower(raw);
    LowerKeepsSpaces(raw);
    TrimKeepsLower(l);
    Trim(l)
  }

  /** The lower-cased name contains the query at some position, or the
      phone does. */
  function Matches(m: Member, q: string): (r: bool)
    ensures r <==> (m.name != "" && exists i: nat :: OccursAt(Lower(m.name), q, i))
                   || (m.phone != "" && exists i: nat :: OccursAt(m.phone, q, i))
  {
    IncludesExactly(Lower(m.name), q);
    IncludesExactly(m.phone, q);
    (m.name != "" && Includes(Lower(m.name), q)) || (m.phone != "" && Includes(m.phone, q))
  }

  /** The search answer: nothing for a blank query, otherwise exactly the
      members that match, in directory order. */
  function Search(ms: seq<Member>, raw: string): (r: seq<Member>)
    ensures Query(raw) == "" ==> r == []
    ensures forall i :: 0 <= i < |r| ==> r[i] in ms && Matches(r[i], Query(raw))
    ensures Query(raw) != "" ==> forall i :: 0 <= i < |ms| && Matches(ms[i], Query(raw)) ==> ms[i] in r
  {
    var q := Query(raw);
    if q == "" then []
    else
      FilterExactly(ms, (m: Member) => Matches(m, q));
      Filter(ms, (m: Member) => Matches(m, q))
  }

  /** A newly registered member shows up last in a search it matches, and
      earlier answers are kept as they were. */
  lemma SearchAppend(ms: seq<Member>, m: Member, raw: string)
    ensures Search(ms + [m], raw)
         == Search(ms, raw) + (if Query(raw) != "" && Matches(m, Query(raw)) then [m] else [])
  {
    var q := Query(raw);
    if q != "" {
      FilterAppend(ms, [m], (x: Member) => Matches(x, q));
    }
  }

  /** The query's case does not matter. */
  lemma SearchIgnoresCase(ms: seq<Member>, raw: string)
    ensures Search(ms, Lower(raw)) == Search(ms, raw)
  {
    LowerIdempotent(raw);
  }

  /** Leading white space in the query does not matter. */
  lemma SearchIgnoresLeadingSpace(ms: seq<Member>, c: char, raw: string)
    requires IsSpace(c)
    ensures Search(ms, [c] + raw) == Search(ms, raw)
  {
    var l := Lower([c] + raw);
    assert LowerChar(c) == c;
    assert l == [c] + Lower(raw);
    assert l[1..] == Lower(raw);
    assert TrimStart(l) == TrimStart(Lower(raw));
  }

  // ----- GET /api/members/public -----

  /** The fields the public listing shows. */
  datatype PublicMember = PublicMember(id: int, name: string, phone: string, dob: string, kind: string)

  function Project(m: Member): PublicMember {
    PublicMember(m.id, m.name, m.phone, m.dob, m.kind)
  }

  /** `getAllMembers().map(m => ({id, name, phone, dob, type}))` */
  function PublicList(ms: seq<Member>): (r: seq<PublicMember>)
    ensures |r| == |ms|
  {
    seq(|ms|, i requires 0 <= i < |ms| => Project(ms[i]))
  }

  /** The public listing never shows when a greeting was last sent:
      stamping a member leaves it unchanged. */
  lemma PublicIgnoresLastSent(ms: seq<Member>, id: int, date: Option<string>)
    ensures PublicList(WithLastSent(ms, id, date)) == PublicList(ms)
  {
    var r := WithLastSent(ms, id, date);
    forall j | 0 <= j < |ms|
      ensures Project(r[j]) == Project(ms[j])
    {
      assert r[j].(lastBirthdaySent := ms[j].lastBirthdaySent) == ms[j];
    }
  }

  /** Registration adds one entry at the end of the public listing. */
  lemma PublicAppend(ms: seq<Member>, m: Member)
    ensures PublicList(ms + [m]) == PublicList(ms) + [Project(m)]
  {
  }

  // ----- POST /api/sms/bulk -----

  /** The arguments the bulk route passes to `sendBulkSMS`: a non-empty
      `payloads` array wins and is sent without a shared message; otherwise
      a truthy `to` with a truthy `message`; otherwise none, and the route
      answers 400. */
  function BulkArgs(to: Value, message: Value, payloads: Value): (r: Option<(Value, Value)>)
    ensures payloads.Arr? && |payloads.items| > 0 ==> r == Some((payloads, Undefined))
    ensures !(payloads.Arr? && |payloads.items| > 0) && Truthy(to) && Truthy(message) ==> r == Some((to, message))
    ensures r.None? <==> !(payloads.Arr? && |payloads.items| > 0) && !(Truthy(to) && Truthy(message))
  {
    if payloads.Arr? && |payloads.items| > 0 then Some((payloads, Undefined))
    else if Truthy(to) && Truthy(message) then Some((to, message))
    else None
  }

  /** With a non-empty `payloads` array, `to` and `message` are ignored. */
  lemma PayloadsWin(to: Value, message: Value, payloads: Value)
    requires payloads.Arr? && |payloads.items| > 0
    ensures BulkArgs(to, message, payloads) == BulkArgs(Undefined, Undefined, payloads)
  {
  }

  // ----- POST /api/payments: the receipt -----

  /** The receipt the payment route hands over: to the first member whose id
      is the payment's `memberId`, if there is one and sending is not unconfigured. */
  function ReceiptRequests(s: Sender, ms: seq<Member>, data: PaymentData): (r: seq<Request>)
    ensures |r| <= 1
    ensures FirstWithId(ms, data.memberId).None? || !Transmits(s.mode) ==> r == []
    ensures FirstWithId(ms, data.memberId).Some? && Transmits(s.mode) ==>
              var m := ms[FirstWithId(ms, data.memberId).value];
              m.id == data.memberId
              && r == [Request(Str(m.phone), Str(ReceiptText(m.name, data.kind, data.amount)))]
  {
    match FirstWithId(ms, data.memberId)
    case None => []
    case Some(k) =>
      if Transmits(s.mode)
      then [Request(Str(ms[k].phone), Str(ReceiptText(ms[k].name, data.kind, data.amount)))]
      else []
  }

  /** The application: the three stores, the SMS gateway and the stored
      birthday template (`let birthdayTemplate = null`). */
  class App {
    const members: MemberStore
    const payments: PaymentStore
    const admins: AdminStore
    const gateway: Gateway
    var birthdayTemplate: Option<string>

    ghost predicate Valid()
      reads admins
    {
      admins.Valid()
    }

    constructor (members: MemberStore, payments: PaymentStore, admins: AdminStore, gateway: Gateway)
      requires admins.Valid()
      ensures this.members == members && this.payments == payments
      ensures this.admins == admins && this.gateway == gateway
      ensures birthdayTemplate == None
      ensures Valid()
    {
      this.members := members;
      this.payments := payments;
      this.admins := admins;
      this.gateway := gateway;
      birthdayTemplate := None;
    }

    /** POST /api/admin/signup */
    method Signup(username: string, password: string) returns (r: Answer<()>)
      requires Valid()
      modifies admins
      ensures Valid()
      ensures username == "" || password == "" ==>
                r == Error(400, CredentialsRequired) && admins.admins == old(admins.admins)
      ensures username != "" && password != "" && FindAdmin(old(admins.admins), username).Some? ==>
                r == Error(400, UsernameTaken) && admins.admins == old(admins.admins)
      ensures username != "" && password != "" && FindAdmin(old(admins.admins), username).None? ==>
                r == Ok(201, ()) && admins.admins == old(admins.admins) + [Admin(username, admins.crypto.hash(password))]
    {
      if username == "" || password == "" {
        return Error(400, CredentialsRequired);
      }
      var result := admins.AddAdmin(username, password);
      if result.AddError? {
        return Error(400, result.error);
      }
      r := Ok(201, ());
    }

    /** POST /api/admin/login: a token, or 401 with the one credentials error. */
    method Login(username: string, password: string) returns (r: Answer<string>)
      ensures username == "" || password == "" ==> r == Error(400, CredentialsRequired)
      ensures username != "" && password != "" ==>
                match Authenticate(admins.admins, admins.crypto, username, password)
                case Token(t) => r == Ok(200, t)
                case AuthError(e) => r == Error(401, InvalidCredentials)
    {
      if username == "" || password == "" {
        return Error(400, CredentialsRequired);
      }
      var result := admins.AuthenticateAdmin(username, password);
      match result {
        case Token(t) => r := Ok(200, t);
        case AuthError(e) => r := Error(401, e);
      }
    }

    /** POST /api/members: registers, then tries a welcome SMS whose failure
        is swallowed, so the answer does not depend on the gateway. */
    method PostMember(data: MemberData) returns (r: Answer<Member>)
      modifies members, gateway
      ensures data.name == "" || data.phone == "" ==>
                r == Error(400, MemberFieldsRequired)
                && members.members == old(members.members) && gateway.sent == old(gateway.sent)
      ensures data.name != "" && data.phone != "" ==>
                r == Ok(201, NewMember(old(members.members), data))
                && members.members == old(members.members) + [r.value]
                && gateway.sent == old(gateway.sent)
                   + (if Transmits(gateway.sender.mode)
                      then [Request(Str(data.phone), Str(WelcomeText(data.name)))] else [])
    {
      if data.name == "" || data.phone == "" {
        return Error(400, MemberFieldsRequired);
      }
      var m := members.RegisterMember(data);
      var _ := gateway.SendSMS(Str(data.phone), Str(WelcomeText(data.name)));
      r := Ok(201, m);
    }

    /** POST /api/payments: records, then tries a receipt SMS to the member
        whose id is `memberId`; a failed or missing receipt does not change
        the answer. */
    method PostPayment(data: PaymentData, now: string) returns (r: Answer<Payment>)
      modifies payments, gateway
      ensures data.memberId == 0 || data.amount == "" || data.kind == "" ==>
                r == Error(400, PaymentFieldsRequired)
                && payments.payments == old(payments.payments) && gateway.sent == old(gateway.sent)
      ensures data.memberId != 0 && data.amount != "" && data.kind != "" ==>
                r == Ok(201, NewPayment(old(payments.payments), data, now))
                && payments.payments == old(payments.payments) + [r.value]
                && gateway.sent == old(gateway.sent) + ReceiptRequests(gateway.sender, members.members, data)
    {
      if data.memberId == 0 || data.amount == "" || data.kind == "" {
        return Error(400, PaymentFieldsRequired);
      }
      var p := payments.RecordPayment(data, now);
      var found := FirstWithId(members.members, data.memberId);
      if found.Some? {
        var m := members.members[found.value];
        var _ := gateway.SendSMS(Str(m.phone), Str(ReceiptText(m.name, data.kind, data.amount)));
      }
      r := Ok(201, p);
    }

    /** GET /api/payments/member/:id, with the id already a number. */
    method MemberPayments(id: int) returns (r: Answer<seq<Payment>>)
      ensures id == 0 ==> r == Error(400, InvalidId)
      ensures id != 0 ==> r == Ok(200, PaymentsFor(payments.payments, id))
    {
      if id == 0 {
        return Error(400, InvalidId);
      }
      var list := payments.GetPaymentsForMember(id);
      r := Ok(200, list);
    }

    /** POST /api/sms/bulk: the 400 answer sends nothing; otherwise the
        fan-out's results. */
    method BulkSms(to: Value, message: Value, payloads: Value) returns (r: Answer<seq<Result>>)
      modifies gateway
      ensures BulkArgs(to, message, payloads).None? ==>
                r == Error(400, PayloadsOrMessage) && gateway.sent == old(gateway.sent)
      ensures BulkArgs(to, message, payloads).Some? ==>
                var (recipients, msg) := BulkArgs(to, message, payloads).value;
                r == Ok(200, Fanout(gateway.sender, AsList(recipients), msg, old(|gateway.sent|)))
                && gateway.sent == old(gateway.sent) + Requests(gateway.sender, AsList(recipients), msg)
    {
      var args := BulkArgs(to, message, payloads);
      if args.None? {
        return Error(400, PayloadsOrMessage);
      }
      var results := gateway.SendBulkSMS(args.value.0, args.value.1);
      r := Ok(200, results);
    }

    /** GET /api/sms/birthday-template */
    method GetBirthdayTemplate() returns (t: Option<string>)
      ensures t == birthdayTemplate
    {
      t := birthdayTemplate;
    }

    /** POST /api/sms/birthday-template: stores `template || null` and
        answers with what it stored. */
    method SetBirthdayTemplate(template: string) returns (t: Option<string>)
      modifies this
      ensures birthdayTemplate == Stored(template) && t == birthdayTemplate
    {
      birthdayTemplate := Stored(template);
      t := birthdayTemplate;
    }

    /** The `for (const t of targets)` loop: one `sendSMS` per target, each
        outcome caught and recorded. */
    method GreetAll(ts: seq<Member>, template: string) returns (results: seq<Result>)
      modifies gateway
      ensures results == GreetingResults(gateway.sender, ts, old(|gateway.sent|))
      ensures gateway.sent == old(gateway.sent) + GreetingRequests(gateway.sender, ts, template)
    {
      ghost var sent0 := gateway.sent;
      ghost var k0 := |sent0|;
      results := [];
      var i := 0;
      while i < |ts|
        invariant 0 <= i <= |ts|
        invariant gateway.sent == sent0 + GreetingRequests(gateway.sender, ts[..i], template)
        invariant results == GreetingResults(gateway.sender, ts[..i], k0)
      {
        GreetingStep(gateway.sender, ts, template, k0, i);
        SendOutcomeAt(gateway.sender, |gateway.sent|, k0, i);
        var o := gateway.SendSMS(Str(ts[i].phone), Str(Greeting(template, ts[i])));
        results := results + [OutcomeResult(ts[i].phone, o)];
        i := i + 1;
      }
      assert ts[..i] == ts;
    }

    /** POST /api/sms/birthday on the given month and day: greets today's
        targets one by one with the active template, in directory order,
        recording one result per target and passing over failures. Nothing
        but the gateway changes: `lastBirthdaySent` is neither read nor
        written, so a second call on the same day greets the same members. */
    method SendBirthdays(requested: string, month: nat, day: nat) returns (r: BirthdayAnswer)
      requires 1 <= month <= 12 && 1 <= day <= 31
      modifies gateway
      ensures var ts := Targets(members.members, MonthDay(month, day));
              (ts == [] ==> r == NoBirthdays(NoBirthdaysText) && gateway.sent == old(gateway.sent))
              && (ts != [] ==>
                    r == Greeted(GreetingResults(gateway.sender, ts, old(|gateway.sent|)), |ts|)
                    && gateway.sent == old(gateway.sent)
                       + GreetingRequests(gateway.sender, ts, ActiveTemplate(requested, birthdayTemplate)))
    {
      var ts := Targets(members.members, MonthDay(month, day));
      if ts == [] {
        return NoBirthdays(NoBirthdaysText);
      }
      var results := GreetAll(ts, ActiveTemplate(requested, birthdayTemplate));
      r := Greeted(results, |results|);
    }
  }

  /** The birthday route's answer: the no-birthdays message, or the results
      with their count. */
  datatype BirthdayAnswer = NoBirthdays(message: string) | Greeted(results: seq<Result>, count: nat)
}
