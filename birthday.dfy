/** The birthday greeting: who is greeted today, which template is used, and
    the results array the handler reports. */
module Birthday {

  import opened JsValue
  import opened JsString
  import opened Seqs
  import opened Render
  import opened Members
  import opened Sms

  /** The built-in greeting, around its one placeholder. */
  const GreetingHead: string := "Happy Birthday, "
  // Written as several literals so that checking it for `{` stays cheap.
  const GreetingTail: string :=
    "! Blessings on " + "your special " + "day from Christ " + "Congregation "
    + "Nkawkaw — " + "Presbyterian " + "Church of Ghana."
  const DefaultTemplate: string := GreetingHead + Placeholder + GreetingTail

  const NoBirthdaysText: string := "No birthdays today"

  /** Today's `MM-DD`, each part zero-padded to two digits. */
  function MonthDay(month: nat, day: nat): (r: string)
    requires 1 <= month <= 12 && 1 <= day <= 31
    ensures |r| == 5 && r[2] == '-'
    ensures forall i :: 0 <= i < 5 && i != 2 ==> '0' <= r[i] <= '9'
    ensures DigitValue(r[0]) * 10 + DigitValue(r[1]) == month
    ensures DigitValue(r[3]) * 10 + DigitValue(r[4]) == day
  {
    TwoDigits(month) + "-" + TwoDigits(day)
  }

  /** `m.dob` is truthy. */
  predicate HasDob(m: Member) {
    m.dob != ""
  }

  /** The dob splits on `-` into exactly three parts whose last two, joined
      by `-`, are today's `MM-DD`. */
  predicate OnDay(m: Member, mmdd: string) {
    var parts := Split(m.dob, '-');
    |parts| == 3 && parts[1] + "-" + parts[2] == mmdd
  }

  /** `getAllMembers().filter(m => m.dob).filter(...)`: today's targets in
      directory order. */
  function Targets(ms: seq<Member>, mmdd: string): (r: seq<Member>)
    ensures |r| <= |ms|
  {
    Filter(Filter(ms, HasDob), (m: Member) => OnDay(m, mmdd))
  }

  /** Adding a member to the directory adds it at the end of the targets
      when it is born that day, and nothing otherwise: each member is
      greeted at most once, in directory order. */
  lemma TargetsAppend(ms: seq<Member>, m: Member, mmdd: string)
    ensures Targets(ms + [m], mmdd) == Targets(ms, mmdd) + (if HasDob(m) && OnDay(m, mmdd) then [m] else [])
  {
    FilterAppend(ms, [m], HasDob);
    FilterAppend(Filter(ms, HasDob), Filter([m], HasDob), (x: Member) => OnDay(x, mmdd));
  }

  /** The dates that are greeted on a given day: anything without a `-`,
      then `-MM-DD` with the zero-padded month and day. The year part is not
      looked at beyond having no `-`, and an unpadded or differently
      separated date never matches. */
  predicate BornOn(dob: string, month: nat, day: nat)
    requires 1 <= month <= 12 && 1 <= day <= 31
  {
    |dob| >= 6 && dob[|dob| - 6..] == "-" + MonthDay(month, day) && '-' !in dob[..|dob| - 6]
  }

  lemma JoinThree(a: string, b: string, c: string, sep: char)
    ensures Join([a, b, c], sep) == a + [sep] + b + [sep] + c
  {
    assert [a, b, c][1..] == [b, c];
    assert [b, c][1..] == [c];
    assert Join([b, c], sep) == b + [sep] + c;
    assert Join([a, b, c], sep) == a + [sep] + (b + [sep] + c);
  }

  /** A date accepted by the split-and-compare rule has the BornOn shape. */
  lemma OnDayIsBornOn(m: Member, month: nat, day: nat)
    requires 1 <= month <= 12 && 1 <= day <= 31
    requires HasDob(m) && OnDay(m, MonthDay(month, day))
    ensures BornOn(m.dob, month, day)
  {
    var dob := m.dob;
    var parts := Split(dob, '-');
    JoinSplit(dob, '-');
    assert parts == [parts[0], parts[1], parts[2]];
    JoinThree(parts[0], parts[1], parts[2], '-');
    assert dob == parts[0] + ("-" + MonthDay(month, day));
    assert dob[..|dob| - 6] == parts[0];
  }

  /** A date of the BornOn shape passes the split-and-compare rule. */
  lemma BornOnIsOnDay(m: Member, month: nat, day: nat)
    requires 1 <= month <= 12 && 1 <= day <= 31
    requires BornOn(m.dob, month, day)
    ensures HasDob(m) && OnDay(m, MonthDay(month, day))
  {
    var dob := m.dob;
    var mm, dd := TwoDigits(month), TwoDigits(day);
    var y := dob[..|dob| - 6];
    assert dob == y + dob[|dob| - 6..];
    assert dob == Join([y, mm, dd], '-') by {
      JoinThree(y, mm, dd, '-');
    }
    SplitJoin([y, mm, dd], '-');
  }

  /** The split-and-compare rule accepts exactly the dates of BornOn. */
  lemma OnDayExactly(m: Member, month: nat, day: nat)
    requires 1 <= month <= 12 && 1 <= day <= 31
    ensures HasDob(m) && OnDay(m, MonthDay(month, day)) <==> BornOn(m.dob, month, day)
  {
    if HasDob(m) && OnDay(m, MonthDay(month, day)) {
      OnDayIsBornOn(m, month, day);
    }
    if BornOn(m.dob, month, day) {
      BornOnIsOnDay(m, month, day);
    }
  }

  /** One member is a target exactly when born on today's month and day. */
  lemma TargetExactly(ms: seq<Member>, month: nat, day: nat, i: nat)
    requires 1 <= month <= 12 && 1 <= day <= 31 && i < |ms|
    ensures ms[i] in Targets(ms, MonthDay(month, day)) <==> BornOn(ms[i].dob, month, day)
  {
    var mmdd := MonthDay(month, day);
    var onDay := (m: Member) => OnDay(m, mmdd);
    var withDob := Filter(ms, HasDob);
    OnDayExactly(ms[i], month, day);
    if ms[i] in Filter(withDob, onDay) {
      FilterKept(withDob, onDay, ms[i]);
      FilterKept(ms, HasDob, ms[i]);
    } else if BornOn(ms[i].dob, month, day) {
      FilterKeeps(ms, HasDob, i);
      var j :| 0 <= j < |withDob| && withDob[j] == ms[i];
      FilterKeeps(withDob, onDay, j);
    }
  }

  /** The targets are exactly the members born on today's month and day;
      everyone else, including a missing or malformed dob, is passed over. */
  lemma TargetsExactly(ms: seq<Member>, month: nat, day: nat)
    requires 1 <= month <= 12 && 1 <= day <= 31
    ensures forall i :: 0 <= i < |ms| ==> (ms[i] in Targets(ms, MonthDay(month, day)) <==> BornOn(ms[i].dob, month, day))
  {
    forall i | 0 <= i < |ms|
      ensures ms[i] in Targets(ms, MonthDay(month, day)) <==> BornOn(ms[i].dob, month, day)
    {
      TargetExactly(ms, month, day, i);
    }
  }

  /** The year is not looked at. */
  lemma YearIgnored(year: string, month: nat, day: nat)
    requires 1 <= month <= 12 && 1 <= day <= 31 && '-' !in year
    ensures BornOn(year + "-" + MonthDay(month, day), month, day)
  {
    var dob := year + "-" + MonthDay(month, day);
    assert dob[..|dob| - 6] == year;
    assert dob[|dob| - 6..] == "-" + MonthDay(month, day);
  }

  /** A slash-separated date is never greeted. */
  lemma SlashDateNeverGreeted(month: nat, day: nat)
    requires 1 <= month <= 12 && 1 <= day <= 31
    ensures !BornOn("2020/01/01", month, day)
  {
    var s := "2020/01/01";
    assert s[|s| - 6..][0] == '/';
  }

  /** `template || birthdayTemplate || default`: an empty string at either
      of the first two places falls through to the next. */
  function ActiveTemplate(requested: string, stored: Option<string>): (t: string)
    ensures t != ""
    ensures requested != "" ==> t == requested
    ensures requested == "" && stored.Some? && stored.value != "" ==> t == stored.value
    ensures requested == "" && (stored.None? || stored.value == "") ==> t == DefaultTemplate
  {
    if requested != "" then requested
    else if stored.Some? && stored.value != "" then stored.value
    else DefaultTemplate
  }

  /** What saving a template stores: `template || null`. */
  function Stored(template: string): (r: Option<string>)
    ensures r.None? <==> template == ""
    ensures r.Some? ==> r.value == template
  {
    if template == "" then None else Some(template)
  }

  /** After saving a template, a request without its own template uses the
      saved one, and saving "" brings back the default. */
  lemma SavedTemplateUsed(template: string)
    ensures ActiveTemplate("", Stored(template)) == (if template == "" then DefaultTemplate else template)
  {
  }

  /** The greeting text for one target, as the handler renders it: the
      runtime's `replace`, which expands `$` patterns in the name. */
  function Greeting(template: string, m: Member): (r: string)
    ensures '$' !in m.name ==> r == Fill(template, m.name)
  {
    JsReplaceAll(template, Placeholder, m.name)
  }

  /** `{to, sid}` when the send resolved, `{to, error}` when it threw. */
  function OutcomeResult(phone: string, o: Outcome): (r: Result)
    ensures r.to == Str(phone)
    ensures r.Sent? <==> o.Resolved?
    ensures r.Sent? ==> r.sid == o.sid
    ensures r.Failed? ==> r.error == o.message
  {
    match o
    case Resolved(sid) => Sent(Str(phone), sid)
    case Thrown(m) => Failed(Str(phone), m)
  }

  /** The requests the greeting loop hands over: one per target, in order,
      unless sending is unconfigured. */
  function GreetingRequests(s: Sender, targets: seq<Member>, template: string): seq<Request> {
    if Transmits(s.mode)
    then seq(|targets|, i requires 0 <= i < |targets| => Request(Str(targets[i].phone), Str(Greeting(template, targets[i]))))
    else []
  }

  /** The results array when the first greeting is the k-th request of the
      gateway: the i-th target's send is the (k + i)-th. */
  function GreetingResults(s: Sender, targets: seq<Member>, k: nat): (r: seq<Result>)
    ensures |r| == |targets|
  {
    seq(|targets|, i requires 0 <= i < |targets| => OutcomeResult(targets[i].phone, SendOutcome(s, k + i)))
  }

  /** One more target adds one result and, when sends are handed over, one
      request. */
  lemma GreetingStep(s: Sender, targets: seq<Member>, template: string, k: nat, i: nat)
    requires i < |targets|
    ensures GreetingResults(s, targets[..i + 1], k)
         == GreetingResults(s, targets[..i], k) + [OutcomeResult(targets[i].phone, SendOutcome(s, k + i))]
    ensures GreetingRequests(s, targets[..i + 1], template)
         == GreetingRequests(s, targets[..i], template)
            + (if Transmits(s.mode) then [Request(Str(targets[i].phone), Str(Greeting(template, targets[i])))] else [])
    ensures |GreetingRequests(s, targets[..i], template)| == (if Transmits(s.mode) then i else 0)
  {
  }

  /** The i-th greeting settles as the (k + i)-th request would: when sending is
      unconfigured nothing is handed over, and the outcome does not depend on the
      count. */
  lemma SendOutcomeAt(s: Sender, n: nat, k: nat, i: nat)
    requires n == k + (if Transmits(s.mode) then i else 0)
    ensures SendOutcome(s, n) == SendOutcome(s, k + i)
  {
  }

  /** One result per target, in target order, and a failed send does not
      change any other target's result: the i-th result depends only on the
      answer to the i-th send. */
  lemma GreetingResultsInOrder(s: Sender, targets: seq<Member>, k: nat)
    ensures |GreetingResults(s, targets, k)| == |targets|
    ensures forall i :: 0 <= i < |targets| ==>
              GreetingResults(s, targets, k)[i].to == Str(targets[i].phone)
              && (GreetingResults(s, targets, k)[i].Sent? <==> SendOutcome(s, k + i).Resolved?)
  {
  }

  /** In simulate mode every greeting gets a `SIM-` sid: unlike the bulk
      path, `sendSMS` has no simulated failure. */
  lemma SimulatedGreetingsAllSent(s: Sender, targets: seq<Member>, k: nat)
    requires s.mode == Simulate
    ensures forall i :: 0 <= i < |targets| ==>
              GreetingResults(s, targets, k)[i].Sent? && IsFakeSid(GreetingResults(s, targets, k)[i].sid)
  {
  }

  /** When sending is unconfigured (no simulation and no client) every greeting fails with the not-configured error and
      nothing is handed over. */
  lemma UnconfiguredGreetingsFail(s: Sender, targets: seq<Member>, template: string, k: nat)
    requires s.mode == Unconfigured
    ensures forall i :: 0 <= i < |targets| ==>
              GreetingResults(s, targets, k)[i] == Failed(Str(targets[i].phone), NotConfigured)
    ensures GreetingRequests(s, targets, template) == []
  {
  }

  lemma TailHasNoBrace()
    ensures '{' !in GreetingTail
  {
    assert '{' !in "! Blessings on " && '{' !in "your special " && '{' !in "day from Christ ";
    assert '{' !in "Congregation " && '{' !in "Nkawkaw — ";
    assert '{' !in "Presbyterian " && '{' !in "Church of Ghana.";
  }

  /** For a name without `$`, the default greeting is the fixed text with
      the name in the one place of its placeholder. */
  lemma DefaultGreetingNamesMember(m: Member)
    requires '$' !in m.name
    ensures Greeting(DefaultTemplate, m) == GreetingHead + m.name + GreetingTail
  {
    assert '{' !in GreetingHead;
    TailHasNoBrace();
    NoBraceNoPlaceholder(GreetingTail);
    JsReplaceAgrees(DefaultTemplate, Placeholder, m.name, 0);
    assert DefaultTemplate[0..] == DefaultTemplate;
    BraceFreeNoMatch(GreetingHead, GreetingTail);
    NameAppearsVerbatim(GreetingHead, GreetingTail, m.name);
  }

  /** A member named `$&` is sent the default template with `{name}` still
      in it, not their name. */
  lemma DefaultGreetingDollarName(m: Member)
    requires m.name == "$&"
    ensures Greeting(DefaultTemplate, m) == DefaultTemplate
    ensures Greeting(DefaultTemplate, m) != GreetingHead + m.name + GreetingTail
  {
    assert '{' !in GreetingHead;
    TailHasNoBrace();
    NoBraceNoPlaceholder(GreetingTail);
    DollarAmpersandIsExpanded(GreetingHead, GreetingTail);
  }

  /** Text without `{` holds no placeholder. */
  lemma {:induction false} NoBraceNoPlaceholder(s: string)
    requires '{' !in s
    ensures !Includes(s, Placeholder)
    decreases |s|
  {
    if |s| >= |Placeholder| {
      assert s[..|Placeholder|][0] == s[0];
      NoBraceNoPlaceholder(s[1..]);
    }
  }
}
