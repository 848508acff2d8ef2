/** The reminder route: selects the WordPress sites not checked since Monday
    00:00, composes one LINE message listing them and reports how many there were.
    The database read, the LINE call and the clock are parameters. */
module NotifyRoute {
  import opened JsValues
  import opened Cadence
  import opened Records
  import opened Sequences

  /** The `dueWP` test: no log, or a check before this week's Monday. */
  function IsDue(now: int): Listed<WpFields> -> bool {
    (s: Listed<WpFields>) => |s.logs| == 0 || s.logs[0].checkDate < MondayAsWritten(now)
  }

  /** `dueWP`, in the order the sites were read. */
  function DueSites(sites: seq<Listed<WpFields>>, now: int): seq<Listed<WpFields>> {
    Filter(sites, IsDue(now))
  }

  /** A site is due exactly when it has no check this week: the reminder and the WordPress page agree. */
  lemma DueIsNotCompleted(s: Listed<WpFields>, now: int)
    ensures IsDue(now)(s) <==> !(Latest(s).Some? && CompletedThisWeek(Latest(s).value.checkDate, now))
  {
    MondayAsWrittenIsWeekStart(now);
  }

  /** Every due site is selected and every selected site is due, in input order. */
  lemma DueSitesExact(sites: seq<Listed<WpFields>>, now: int)
    ensures forall i :: 0 <= i < |sites| && IsDue(now)(sites[i]) ==> sites[i] in DueSites(sites, now)
    ensures forall k :: 0 <= k < |DueSites(sites, now)| ==> IsDue(now)(DueSites(sites, now)[k])
  {
    forall i | 0 <= i < |sites| && IsDue(now)(sites[i])
      ensures sites[i] in DueSites(sites, now)
    {
      FilterKeeps(sites, IsDue(now), i);
    }
  }

  /** The first line; `dateText` stands for `new Date().toLocaleDateString('th-TH')`. */
  function Header(dateText: string): string {
    "\n🚨 Maintenance Reminder (" + dateText + ")\n"
  }

  const CountPrefix: string := "มี "
  const CountSuffix: string := " เว็บไซต์ WordPress ที่ต้องดูแล:\n"

  /** The line stating how many sites are due. */
  function CountLine(n: nat): string {
    CountPrefix + NatToString(n) + CountSuffix
  }

  function NameLine(s: Listed<WpFields>): string {
    "- " + s.site.name + "\n"
  }

  /** One `- name` line per due site, in order. */
  function NameLines(due: seq<Listed<WpFields>>): string {
    if due == [] then "" else NameLines(due[..|due| - 1]) + NameLine(due[|due| - 1])
  }

  const Footer: string := "\nกรุณาตรวจสอบที่ Dashboard ด่วน!"

  /** The whole reminder. */
  function ReminderMessage(due: seq<Listed<WpFields>>, dateText: string): string {
    Header(dateText) + CountLine(|due|) + NameLines(due) + Footer
  }

  /** The name lines appear in the order of the due sites: the lines of the first `i` sites
      followed by the line of site `i` are a prefix of all name lines. */
  lemma {:induction false} NameLinesInOrder(due: seq<Listed<WpFields>>, i: int)
    requires 0 <= i < |due|
    ensures StartsWith(NameLines(due), NameLines(due[..i]) + NameLine(due[i]))
  {
    if i == |due| - 1 {
      assert due[..|due| - 1] == due[..i];
    } else {
      NameLinesInOrder(due[..|due| - 1], i);
      assert due[..|due| - 1][..i] == due[..i];
    }
  }

  lemma MiddleSlice(a: string, b: string, c: string)
    ensures |a| + |b| <= |a + b + c| && (a + b + c)[|a|..|a| + |b|] == b
  {
  }

  /** The digits after `มี ` in the message read back as the number of due sites. */
  lemma MessageStatesCount(due: seq<Listed<WpFields>>, dateText: string)
    ensures var m := ReminderMessage(due, dateText); var start := |Header(dateText)| + |CountPrefix|;
      var digits := NatToString(|due|);
      start + |digits| <= |m| && m[start..start + |digits|] == digits && DecimalValue(digits) == |due|
  {
    var head := Header(dateText) + CountPrefix;
    var digits := NatToString(|due|);
    var rest := CountSuffix + NameLines(due) + Footer;
    assert ReminderMessage(due, dateText) == head + digits + rest;
    MiddleSlice(head, digits, rest);
    NatToStringRoundTrip(|due|);
  }

  /** The message ends with the footer, after the name lines. */
  lemma MessageEndsWithFooter(due: seq<Listed<WpFields>>, dateText: string)
    ensures var m := ReminderMessage(due, dateText); |Footer| <= |m| && m[|m| - |Footer|..] == Footer
  {
  }

  /** Composes the reminder the way the route does, one `msg +=` per due site. */
  method ComposeMessage(due: seq<Listed<WpFields>>, dateText: string) returns (msg: string)
    ensures msg == ReminderMessage(due, dateText)
  {
    msg := Header(dateText);
    msg := msg + CountLine(|due|);
    var i := 0;
    while i < |due|
      invariant 0 <= i <= |due|
      invariant msg == Header(dateText) + CountLine(|due|) + NameLines(due[..i])
    {
      assert due[..i + 1][..i] == due[..i];
      msg := msg + NameLine(due[i]);
      i := i + 1;
    }
    assert due[..i] == due;
    msg := msg + Footer;
  }

  /** The POST made to LINE Notify: the bearer token and the message. */
  datatype LineRequest = LineRequest(authorization: string, message: string)

  /** `sendLineNotify`: nothing is sent without a token. `fetchThrows` says whether the POST throws. */
  method SendLineNotify(message: string, token: Option<string>, fetchThrows: bool)
    returns (sent: Option<LineRequest>, threw: bool)
    ensures sent.Some? <==> Truthy(token)
    ensures sent.Some? ==> sent.value == LineRequest("Bearer " + token.value, message)
    ensures threw <==> Truthy(token) && fetchThrows
  {
    if !Truthy(token) {
      return None, false;
    }
    sent := Some(LineRequest("Bearer " + token.value, message));
    threw := fetchThrows;
  }

  /** The JSON answer of the route. */
  datatype NotifyResponse = Sent(count: nat) | NothingDue | Failed {
    function StatusCode(): int {
      if Failed? then 500 else 200
    }
    function Message(): string {
      match this
      case Sent(_) => "Notification sent"
      case NothingDue => "No maintenance due."
      case Failed => "Failed to send notification"
    }
  }

  /** `GET`: `sites` is what the database read returned (`None` when it threw), `now` the clock. */
  method Get(sites: Option<seq<Listed<WpFields>>>, now: int, dateText: string, token: Option<string>, fetchThrows: bool)
    returns (response: NotifyResponse, sent: Option<LineRequest>)
    ensures sites.None? ==> response == Failed && sent == None
    ensures sites.Some? && DueSites(sites.value, now) == [] ==> response == NothingDue && sent == None
    ensures sites.Some? && DueSites(sites.value, now) != [] ==>
      var due := DueSites(sites.value, now);
      (sent.Some? <==> Truthy(token))
      && (sent.Some? ==> sent.value.message == ReminderMessage(due, dateText))
      && response == (if Truthy(token) && fetchThrows then Failed else Sent(|due|))
  {
    if sites.None? {
      return Failed, None;
    }
    var due := DueSites(sites.value, now);
    if |due| > 0 {
      var msg := ComposeMessage(due, dateText);
      var threw;
      sent, threw := SendLineNotify(msg, token, fetchThrows);
      if threw {
        return Failed, sent;
      }
      return Sent(|due|), sent;
    }
    return NothingDue, None;
  }

  /** The App Router serves a handler as a route only from a file named `route.js`. */
  const RouteFile: string := "/route.js"

  predicate ServedAsRoute(path: string) {
    |path| >= |RouteFile| && path[|path| - |RouteFile|..] == RouteFile
  }

  /** The file the reminder handler is written in. */
  const ReminderFileAsWritten: string := "src/app/api/notify/rount.js"

  /** The file name the handler evidently needs. */
  const ReminderFile: string := "src/app/api/notify/route.js"

  /** As written, the reminder handler is not served: its file ends in `/rount.js`. */
  lemma ReminderFileAsWrittenNotServed()
    ensures !ServedAsRoute(ReminderFileAsWritten)
  {
    var tail := ReminderFileAsWritten[|ReminderFileAsWritten| - |RouteFile|..];
    assert tail[4] == 'n' && RouteFile[4] == 't';
  }

  /** Under the intended name the handler is served, and `Get` is what it answers. */
  lemma ReminderFileServed()
    ensures ServedAsRoute(ReminderFile)
  {
    assert ReminderFile[|ReminderFile| - |RouteFile|..] == RouteFile;
  }
}
