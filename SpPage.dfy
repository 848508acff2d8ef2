/** The SupportPal maintenance page: the monthly status, the "Last Checked" line,
    grouping by server, the tallies and the two forms. */
module SpPage {
  import opened JsValues
  import opened JsDate
  import opened Cadence
  import opened Records
  import opened Sequences

  /** `getStatus(logs)`: no log is Pending; otherwise the latest check is compared with the 1st of this month. */
  function GetStatus(logs: seq<Log<SpFields>>, now: int): Status {
    if |logs| == 0 then Pending
    else if logs[0].checkDate >= StartOfMonthAsWritten(now) then Completed
    else MaintenanceDue
  }

  /** The page's status is the monthly rule: Completed exactly when the latest check is on or after the 1st at 00:00. */
  lemma GetStatusIsMonthlyRule(logs: seq<Log<SpFields>>, now: int)
    ensures GetStatus(logs, now) == Pending <==> logs == []
    ensures GetStatus(logs, now) == Completed <==> logs != [] && CompletedThisMonth(logs[0].checkDate, now)
    ensures GetStatus(logs, now) == MaintenanceDue <==> logs != [] && !CompletedThisMonth(logs[0].checkDate, now)
  {
    StartOfMonthAsWrittenIsMonthStart(now);
  }

  /** A site created after January 1970 and never checked since is due. */
  lemma CreatedSiteIsDue(log: Log<SpFields>, rest: seq<Log<SpFields>>, now: int)
    requires log.checkDate == NeverChecked
    requires var c := CivilFromDays(DayIndex(now)); c.year > 1970 || (c.year == 1970 && c.month > 1)
    ensures GetStatus([log] + rest, now) == MaintenanceDue
  {
    GetStatusIsMonthlyRule([log] + rest, now);
    NeverCheckedDueMonthly(now);
  }

  /** The "Last Checked" line; `format` stands for `toLocaleString("th-TH")`. */
  function LastCheckedLabel(log: Option<Log<SpFields>>, format: int -> string): string {
    if log.Some? && !IsNew(log.value.checkDate) then format(log.value.checkDate) else "Waiting for check"
  }

  /** The line waits for a check exactly when there is no log or the latest one predates 2000,
      and the creation sentinel is such a date. */
  lemma LastCheckedLabelCases(log: Option<Log<SpFields>>, format: int -> string)
    ensures log.None? ==> LastCheckedLabel(log, format) == "Waiting for check"
    ensures log.Some? && GetFullYear(log.value.checkDate) >= 2000 ==>
      LastCheckedLabel(log, format) == format(log.value.checkDate)
    ensures log.Some? && log.value.checkDate == NeverChecked ==> LastCheckedLabel(log, format) == "Waiting for check"
  {
    NeverCheckedDate();
  }

  function KeepAll(): Listed<SpFields> -> bool {
    (w: Listed<SpFields>) => true
  }

  function ByServer(): Listed<SpFields> -> string {
    (w: Listed<SpFields>) => if w.site.server == "" then "Unassigned Server" else w.site.server
  }

  /** `groupedWebsites`: every site, grouped by server (or "Unassigned Server") in input order. */
  method GroupedWebsites(websites: seq<Listed<SpFields>>) returns (groups: map<string, seq<Listed<SpFields>>>)
    ensures forall k :: k in groups <==> k in GroupKeys(websites, KeepAll(), ByServer())
    ensures forall k :: k in groups ==> groups[k] == Bucket(websites, KeepAll(), ByServer(), k)
  {
    groups := GroupBy(websites, KeepAll(), ByServer());
  }

  /** With no search box every site is listed: each one in the group of its server, and the
      group sizes add up to the number of sites. */
  lemma GroupsCoverAllSites(websites: seq<Listed<SpFields>>)
    ensures forall i :: 0 <= i < |websites| ==> websites[i] in Bucket(websites, KeepAll(), ByServer(), ByServer()(websites[i]))
    ensures GroupSizes(GroupKeys(websites, KeepAll(), ByServer()), websites, KeepAll(), ByServer()) == |websites|
  {
    forall i | 0 <= i < |websites|
      ensures websites[i] in Bucket(websites, KeepAll(), ByServer(), ByServer()(websites[i]))
    {
      KeptInOwnBucket(websites, KeepAll(), ByServer(), i);
    }
    GroupSizesSum(websites, KeepAll(), ByServer());
    FilterAll(websites, KeepAll());
  }

  function IsCompletedSite(now: int): Listed<SpFields> -> bool {
    (w: Listed<SpFields>) => GetStatus(w.logs, now).Label() == "Completed"
  }

  function IsNotCompletedSite(now: int): Listed<SpFields> -> bool {
    (w: Listed<SpFields>) => GetStatus(w.logs, now).Label() != "Completed"
  }

  /** `completedSites` */
  function CompletedSites(websites: seq<Listed<SpFields>>, now: int): nat {
    |Filter(websites, IsCompletedSite(now))|
  }

  /** `pendingSites = totalSites - completedSites` */
  function PendingSites(websites: seq<Listed<SpFields>>, now: int): int {
    |websites| - CompletedSites(websites, now)
  }

  /** The pending tally counts exactly the sites not checked this month. */
  lemma PendingSitesCountsTheRest(websites: seq<Listed<SpFields>>, now: int)
    ensures PendingSites(websites, now) == |Filter(websites, IsNotCompletedSite(now))|
    ensures CompletedSites(websites, now) + PendingSites(websites, now) == |websites|
    ensures PendingSites(websites, now) >= 0
  {
    FilterSplit(websites, IsCompletedSite(now), IsNotCompletedSite(now));
  }

  /** The site form of the page (`formData`). */
  datatype SpForm = SpForm(
    name: string, url: string, server: string,
    phpVersion: string, spVersion: string, dbVersion: string, nginxVersion: string,
    note: string)

  /** `resetForm` */
  function EmptyForm(): (f: SpForm)
    ensures f.name == "" && f.url == "" && f.server == "" && f.note == ""
    ensures f.phpVersion == "" && f.spVersion == "" && f.dbVersion == "" && f.nginxVersion == ""
  {
    SpForm("", "", "", "", "", "", "", "")
  }

  /** `openLogModal`: the latest log's versions (`""` for a missing one), the site's server and an empty note;
      the form of this modal has no name or URL. */
  function OpenLogModal(s: Listed<SpFields>): (f: SpForm)
    ensures f.name == "" && f.url == "" && f.note == "" && f.server == s.site.server
    ensures Latest(s).None? ==> f == SpForm("", "", s.site.server, "", "", "", "", "")
    ensures Latest(s).Some? && !Truthy(Latest(s).value.fields.phpVersion) ==> f.phpVersion == ""
    ensures Latest(s).Some? && !Truthy(Latest(s).value.fields.spVersion) ==> f.spVersion == ""
    ensures Latest(s).Some? && !Truthy(Latest(s).value.fields.dbVersion) ==> f.dbVersion == ""
    ensures Latest(s).Some? && !Truthy(Latest(s).value.fields.nginxVersion) ==> f.nginxVersion == ""
  {
    match Latest(s)
    case None => SpForm("", "", s.site.server, "", "", "", "", "")
    case Some(log) =>
      SpForm("", "", s.site.server,
        Or(log.fields.phpVersion, ""), Or(log.fields.spVersion, ""),
        Or(log.fields.dbVersion, ""), Or(log.fields.nginxVersion, ""), "")
  }

  /** `handleSaveWebsite`: the form is posted as it is, unless the name or the URL is empty. */
  function HandleSaveWebsite(form: SpForm): (r: Option<SpForm>)
    ensures r.None? <==> form.name == "" || form.url == ""
    ensures r.Some? ==> r.value == form
  {
    if form.name == "" || form.url == "" then None else Some(form)
  }

  /** The form that the add modal starts with cannot be saved. */
  lemma EmptyFormRejected()
    ensures HandleSaveWebsite(EmptyForm()) == None
  {
  }

  /** The body `handleSaveLog` posts: the form and the site's id as `supportPalId`. */
  datatype SpLogPayload = SpLogPayload(supportPalId: string, form: SpForm)

  function HandleSaveLog(form: SpForm, supportPalId: string): (p: SpLogPayload)
    ensures p.supportPalId == supportPalId && p.form == form
  {
    SpLogPayload(supportPalId, form)
  }

  /** A check-in saved from the log modal without edits repeats every version the latest log recorded. */
  lemma LogCarriesVersionsOver(s: Listed<SpFields>)
    requires Latest(s).Some?
    ensures var f := Latest(s).value.fields; var p := HandleSaveLog(OpenLogModal(s), s.site.id);
      p.supportPalId == s.site.id && p.form.note == ""
      && (Truthy(f.phpVersion) ==> p.form.phpVersion == f.phpVersion.value)
      && (Truthy(f.spVersion) ==> p.form.spVersion == f.spVersion.value)
      && (Truthy(f.dbVersion) ==> p.form.dbVersion == f.dbVersion.value)
      && (Truthy(f.nginxVersion) ==> p.form.nginxVersion == f.nginxVersion.value)
  {
  }
}
