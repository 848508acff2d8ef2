/** The reports page: the two-label status of each family, the pending/completed
    partition, the version and plugin diffs of the "Recent Updates" cards and the
    CSV export. */
module ReportsPage {
  import opened JsValues
  import opened Cadence
  import opened Records
  import opened Sequences

  /** `getWPStatus(log)`: only two labels, "Completed" for a check since Monday 00:00, "Pending" otherwise. */
  function GetWPStatus(log: Option<Log<WpFields>>, now: int): string {
    if log.None? then "Pending"
    else if log.value.checkDate >= MondayAsWritten(now) then "Completed"
    else "Pending"
  }

  lemma GetWPStatusIsWeeklyRule(log: Option<Log<WpFields>>, now: int)
    ensures GetWPStatus(log, now) == "Completed" || GetWPStatus(log, now) == "Pending"
    ensures GetWPStatus(log, now) == "Completed" <==> log.Some? && CompletedThisWeek(log.value.checkDate, now)
  {
    MondayAsWrittenIsWeekStart(now);
  }

  /** `getSPStatus(log)`: "Completed" for a check since the 1st of the month, "Pending" otherwise. */
  function GetSPStatus(log: Option<Log<SpFields>>, now: int): string {
    if log.None? then "Pending"
    else if log.value.checkDate >= StartOfMonthAsWritten(now) then "Completed"
    else "Pending"
  }

  lemma GetSPStatusIsMonthlyRule(log: Option<Log<SpFields>>, now: int)
    ensures GetSPStatus(log, now) == "Completed" || GetSPStatus(log, now) == "Pending"
    ensures GetSPStatus(log, now) == "Completed" <==> log.Some? && CompletedThisMonth(log.value.checkDate, now)
  {
    StartOfMonthAsWrittenIsMonthStart(now);
  }

  /** What `getVersionDiff` renders: the current value alone, or the previous value struck through and the current one. */
  datatype VersionDiff = Plain(current: Option<string>) | Changed(from: string, to: Option<string>)

  function GetVersionDiff(current: Option<string>, prev: Option<string>): (d: VersionDiff)
    ensures d.Plain? <==> !Truthy(prev) || current == prev
    ensures d.Plain? ==> d.current == current
    ensures d.Changed? ==> Some(d.from) == prev && d.to == current && d.to != Some(d.from) && d.from != ""
  {
    if !Truthy(prev) || current == prev then Plain(current) else Changed(prev.value, current)
  }

  /** A changed version renders its old and new value; reading the pair back gives both inputs. */
  lemma VersionDiffRecoversInputs(current: Option<string>, prev: Option<string>)
    requires Truthy(prev) && current != prev
    ensures GetVersionDiff(current, prev) == Changed(prev.value, current)
  {
  }

  function IsWpPending(now: int): Listed<WpFields> -> bool {
    (s: Listed<WpFields>) => GetWPStatus(Latest(s), now) == "Pending"
  }

  function IsWpCompleted(now: int): Listed<WpFields> -> bool {
    (s: Listed<WpFields>) => GetWPStatus(Latest(s), now) == "Completed"
  }

  function IsSpPending(now: int): Listed<SpFields> -> bool {
    (s: Listed<SpFields>) => GetSPStatus(Latest(s), now) == "Pending"
  }

  function IsSpCompleted(now: int): Listed<SpFields> -> bool {
    (s: Listed<SpFields>) => GetSPStatus(Latest(s), now) == "Completed"
  }

  /** `totalPending` */
  function TotalPending(wpSites: seq<Listed<WpFields>>, spSites: seq<Listed<SpFields>>, now: int): nat {
    |Filter(wpSites, IsWpPending(now))| + |Filter(spSites, IsSpPending(now))|
  }

  /** Every site is in exactly one of the pending and completed lists of its family, so pending
      and completed add up to the number of sites, and the pending total is what is left over. */
  lemma PartitionIsExact(wpSites: seq<Listed<WpFields>>, spSites: seq<Listed<SpFields>>, now: int)
    ensures forall i :: 0 <= i < |wpSites| ==> (IsWpPending(now)(wpSites[i]) <==> !IsWpCompleted(now)(wpSites[i]))
    ensures forall i :: 0 <= i < |spSites| ==> (IsSpPending(now)(spSites[i]) <==> !IsSpCompleted(now)(spSites[i]))
    ensures |Filter(wpSites, IsWpPending(now))| + |Filter(wpSites, IsWpCompleted(now))| == |wpSites|
    ensures |Filter(spSites, IsSpPending(now))| + |Filter(spSites, IsSpCompleted(now))| == |spSites|
    ensures TotalPending(wpSites, spSites, now)
      == |wpSites| + |spSites| - |Filter(wpSites, IsWpCompleted(now))| - |Filter(spSites, IsSpCompleted(now))|
  {
    forall i | 0 <= i < |wpSites|
      ensures IsWpPending(now)(wpSites[i]) <==> !IsWpCompleted(now)(wpSites[i])
    {
      GetWPStatusIsWeeklyRule(Latest(wpSites[i]), now);
    }
    forall i | 0 <= i < |spSites|
      ensures IsSpPending(now)(spSites[i]) <==> !IsSpCompleted(now)(spSites[i])
    {
      GetSPStatusIsMonthlyRule(Latest(spSites[i]), now);
    }
    FilterSplit(wpSites, IsWpPending(now), IsWpCompleted(now));
    FilterSplit(spSites, IsSpPending(now), IsSpCompleted(now));
  }

  /** The `parsePlugins` of a completed card, with `plugins ? … : []` folded in: an absent or
      empty string, text that does not decode, and JSON that is not an array all give `[]`. */
  function CardPlugins(s: Option<string>, decode: string -> Option<Json>): (r: seq<Plugin>)
    ensures !Truthy(s) ==> r == []
    ensures Truthy(s) && (decode(s.value).None? || decode(s.value) == Some(JOther)) ==> r == []
    ensures Truthy(s) && decode(s.value).Some? && decode(s.value).value.JArray? ==> r == decode(s.value).value.entries
  {
    if !Truthy(s) then []
    else match decode(s.value)
      case Some(JArray(entries)) => entries
      case _ => []
  }

  /** `list.find(p => p.name === name)`: the first entry with that name. */
  function FindByName(ps: seq<Plugin>, name: string): (r: Option<Plugin>)
    ensures r.None? <==> forall i :: 0 <= i < |ps| ==> ps[i].name != name
    ensures r.Some? ==> r.value.name == name
    ensures r.Some? ==> exists i :: 0 <= i < |ps| && ps[i] == r.value && forall j :: 0 <= j < i ==> ps[j].name != name
  {
    if ps == [] then None
    else if ps[0].name == name then Some(ps[0])
    else
      var r := FindByName(ps[1..], name);
      assert forall i :: 0 < i < |ps| ==> ps[i] == ps[1..][i - 1];
      r
  }

  /** An upgrade shown on a card. */
  datatype Update = Update(name: string, from: string, to: string)

  /** The entry one current plugin contributes: only when the first same-named previous entry has another version. */
  function UpdateFor(curr: Plugin, prevList: seq<Plugin>): Option<Update> {
    match FindByName(prevList, curr.name)
    case Some(p) => if p.version != curr.version then Some(Update(curr.name, p.version, curr.version)) else None
    case None => None
  }

  /** The `updates` of a card, in the order of the current list. */
  function Updates(currentList: seq<Plugin>, prevList: seq<Plugin>): (r: seq<Update>)
    ensures |r| <= |currentList|
  {
    if currentList == [] then []
    else
      var u := UpdateFor(currentList[|currentList| - 1], prevList);
      Updates(currentList[..|currentList| - 1], prevList) + (if u.Some? then [u.value] else [])
  }

  /** The reduce that pushes into `acc`. */
  method ComputeUpdates(currentList: seq<Plugin>, prevList: seq<Plugin>) returns (acc: seq<Update>)
    ensures acc == Updates(currentList, prevList)
  {
    acc := [];
    var i := 0;
    while i < |currentList|
      invariant 0 <= i <= |currentList|
      invariant acc == Updates(currentList[..i], prevList)
    {
      var curr := currentList[i];
      assert currentList[..i + 1][..i] == currentList[..i];
      var prev := FindByName(prevList, curr.name);
      if prev.Some? && prev.value.version != curr.version {
        acc := acc + [Update(curr.name, prev.value.version, curr.version)];
      }
      i := i + 1;
    }
    assert currentList[..i] == currentList;
  }

  /** Every update names a current plugin, goes from the version of the first same-named previous
      entry to the current version, and the two versions differ. */
  lemma {:induction false} UpdatesSound(currentList: seq<Plugin>, prevList: seq<Plugin>)
    ensures forall k :: 0 <= k < |Updates(currentList, prevList)| ==>
      var u := Updates(currentList, prevList)[k];
      u.from != u.to && FindByName(prevList, u.name) == Some(Plugin(u.name, u.from))
      && exists i :: 0 <= i < |currentList| && currentList[i] == Plugin(u.name, u.to)
  {
    if currentList != [] {
      var init := currentList[..|currentList| - 1];
      UpdatesSound(init, prevList);
      forall i | 0 <= i < |init| ensures init[i] == currentList[i] { }
    }
  }

  /** Every current plugin whose version changed has its update in the list. */
  lemma {:induction false} UpdatesComplete(currentList: seq<Plugin>, prevList: seq<Plugin>, i: int)
    requires 0 <= i < |currentList|
    requires UpdateFor(currentList[i], prevList).Some?
    ensures UpdateFor(currentList[i], prevList).value in Updates(currentList, prevList)
  {
    if i < |currentList| - 1 {
      UpdatesComplete(currentList[..|currentList| - 1], prevList, i);
    }
  }

  /** The updates of two consecutive stretches of the current list are the updates of each, in order. */
  lemma {:induction false} UpdatesAppend(a: seq<Plugin>, b: seq<Plugin>, prevList: seq<Plugin>)
    ensures Updates(a + b, prevList) == Updates(a, prevList) + Updates(b, prevList)
    decreases |b|
  {
    if b == [] {
      assert a + b == a;
    } else {
      assert (a + b)[..|a + b| - 1] == a + b[..|b| - 1];
      UpdatesAppend(a, b[..|b| - 1], prevList);
    }
  }

  /** Without a previous list (absent, empty or unreadable) nothing is shown as updated. */
  lemma {:induction false} NoPreviousNoUpdates(currentList: seq<Plugin>)
    ensures Updates(currentList, []) == []
  {
    if currentList != [] {
      NoPreviousNoUpdates(currentList[..|currentList| - 1]);
    }
  }

  predicate DistinctNames(ps: seq<Plugin>) {
    forall i, j :: 0 <= i < j < |ps| ==> ps[i].name != ps[j].name
  }

  /** Comparing a list with itself shows no update when its names are distinct. */
  lemma {:induction false} UnchangedNoUpdates(currentList: seq<Plugin>, prevList: seq<Plugin>)
    requires DistinctNames(prevList)
    requires forall i :: 0 <= i < |currentList| ==> currentList[i] in prevList
    ensures Updates(currentList, prevList) == []
  {
    if currentList != [] {
      var c := currentList[|currentList| - 1];
      UnchangedNoUpdates(currentList[..|currentList| - 1], prevList);
      var r := FindByName(prevList, c.name);
      var k :| 0 <= k < |prevList| && prevList[k] == c;
      assert r.Some?;
    }
  }

  /** A plugin new in the current list has no previous entry and shows no update. */
  lemma NewPluginNoUpdate(curr: Plugin, prevList: seq<Plugin>)
    requires forall i :: 0 <= i < |prevList| ==> prevList[i].name != curr.name
    ensures UpdateFor(curr, prevList) == None
  {
  }

  // --- CSV export ---

  const CsvHeaders: seq<string> := ["System", "Name", "URL", "Server", "Status", "Last Check Date", "Note"]

  /** The text before the lines: the data-URI header and a byte order mark, U+FEFF. */
  const CsvPrefix: string := "data:text/csv;charset=utf-8,\U{FEFF}"

  /** The "Last Check Date" field: the stored check date as the listing serialises it (`iso`), `"-"` without a log. */
  function CheckDateField<F>(log: Option<Log<F>>, iso: int -> string): string {
    if log.Some? then iso(log.value.checkDate) else "-"
  }

  /** The "Note" field: the note wrapped in double quotes as it is, `""` without a log. */
  function NoteField<F>(log: Option<Log<F>>): (r: string)
    ensures |r| >= 2 && r[0] == '"' && r[|r| - 1] == '"'
    ensures log.Some? ==> r[1..|r| - 1] == log.value.note
  {
    "\"" + (if log.Some? then log.value.note else "") + "\""
  }

  function WpRow(site: Listed<WpFields>, now: int, iso: int -> string): (r: seq<string>)
    ensures |r| == |CsvHeaders|
  {
    ["WordPress", site.site.name, site.site.url, site.site.server,
     GetWPStatus(Latest(site), now), CheckDateField(Latest(site), iso), NoteField(Latest(site))]
  }

  function SpRow(site: Listed<SpFields>, now: int, iso: int -> string): (r: seq<string>)
    ensures |r| == |CsvHeaders|
  {
    ["SupportPal", site.site.name, site.site.url, site.site.server,
     GetSPStatus(Latest(site), now), CheckDateField(Latest(site), iso), NoteField(Latest(site))]
  }

  /** The two `forEach` loops of `downloadCSV`: one row per WordPress site, then one per SupportPal site, in data order. */
  method BuildRows(wpSites: seq<Listed<WpFields>>, spSites: seq<Listed<SpFields>>, now: int, iso: int -> string)
    returns (rows: seq<seq<string>>)
    ensures |rows| == |wpSites| + |spSites|
    ensures forall i :: 0 <= i < |wpSites| ==> rows[i] == WpRow(wpSites[i], now, iso)
    ensures forall j :: 0 <= j < |spSites| ==> rows[|wpSites| + j] == SpRow(spSites[j], now, iso)
    ensures forall i :: 0 <= i < |rows| ==> |rows[i]| == |CsvHeaders|
  {
    rows := [];
    for i := 0 to |wpSites|
      invariant |rows| == i
      invariant forall k :: 0 <= k < i ==> rows[k] == WpRow(wpSites[k], now, iso)
    {
      rows := rows + [WpRow(wpSites[i], now, iso)];
    }
    for j := 0 to |spSites|
      invariant |rows| == |wpSites| + j
      invariant forall k :: 0 <= k < |wpSites| ==> rows[k] == WpRow(wpSites[k], now, iso)
      invariant forall k :: 0 <= k < j ==> rows[|wpSites| + k] == SpRow(spSites[k], now, iso)
    {
      rows := rows + [SpRow(spSites[j], now, iso)];
    }
    forall i | 0 <= i < |rows|
      ensures |rows[i]| == |CsvHeaders|
    {
      if i >= |wpSites| {
        assert rows[|wpSites| + (i - |wpSites|)] == SpRow(spSites[i - |wpSites|], now, iso);
      }
    }
  }

  /** `rows.map(e => e.join(","))` */
  function RowLines(rows: seq<seq<string>>): (r: seq<string>)
    ensures |r| == |rows|
    ensures forall i :: 0 <= i < |rows| ==> r[i] == Join(rows[i], ",")
  {
    if rows == [] then [] else RowLines(rows[..|rows| - 1]) + [Join(rows[|rows| - 1], ",")]
  }

  /** `csvContent` before `encodeURI`. */
  function CsvContent(rows: seq<seq<string>>): string {
    CsvPrefix + Join([Join(CsvHeaders, ",")] + RowLines(rows), "\n")
  }

  /** No column name holds a comma or a line break. */
  lemma HeaderFieldsPlain()
    ensures forall i :: 0 <= i < |CsvHeaders| ==> ',' !in CsvHeaders[i] && '\n' !in CsvHeaders[i]
  {
  }

  /** Fields free of commas and line breaks join into one line that splits back into them. */
  lemma CommaLine(fields: seq<string>)
    requires |fields| >= 1
    requires forall i :: 0 <= i < |fields| ==> ',' !in fields[i] && '\n' !in fields[i]
    ensures Split(Join(fields, ","), ',') == fields
    ensures '\n' !in Join(fields, ",")
  {
    SplitJoin(fields, ',');
    JoinAvoids(fields, ",", '\n');
  }

  /** The header line splits at commas into the seven column names. */
  lemma HeaderLine()
    ensures Split(Join(CsvHeaders, ","), ',') == CsvHeaders
    ensures '\n' !in Join(CsvHeaders, ",")
  {
    HeaderFieldsPlain();
    CommaLine(CsvHeaders);
  }

  /** No line of the export holds a line break when no field does. */
  lemma LinesAvoidNewline(rows: seq<seq<string>>)
    requires forall i, k :: 0 <= i < |rows| && 0 <= k < |rows[i]| ==> '\n' !in rows[i][k]
    ensures forall i :: 0 <= i < |RowLines(rows)| ==> '\n' !in RowLines(rows)[i]
  {
    forall i | 0 <= i < |rows|
      ensures '\n' !in RowLines(rows)[i]
    {
      JoinAvoids(rows[i], ",", '\n');
    }
  }

  /** The export starts with the prefix, and when no field holds a line break its body splits
      into the header line followed by exactly one line per row, in order. */
  lemma CsvLines(rows: seq<seq<string>>)
    requires forall i, k :: 0 <= i < |rows| && 0 <= k < |rows[i]| ==> '\n' !in rows[i][k]
    ensures StartsWith(CsvContent(rows), CsvPrefix)
    ensures var lines := Split(CsvContent(rows)[|CsvPrefix|..], '\n');
      |lines| == |rows| + 1 && Split(lines[0], ',') == CsvHeaders
      && forall i :: 0 <= i < |rows| ==> lines[i + 1] == Join(rows[i], ",")
  {
    var header := Join(CsvHeaders, ",");
    HeaderLine();
    var body := RowLines(rows);
    LinesAvoidNewline(rows);
    var lines := [header] + body;
    assert CsvContent(rows)[|CsvPrefix|..] == Join(lines, "\n");
    assert '\n' !in header;
    assert forall i :: 0 <= i < |lines| ==> '\n' !in lines[i] by {
      forall i | 0 <= i < |lines| ensures '\n' !in lines[i] {
        if i > 0 {
          assert lines[i] == body[i - 1];
        }
      }
    }
    SplitJoin(lines, '\n');
  }

  /** The download name `maintenance_report_<date>.csv`, from the part of the ISO timestamp before `T`. */
  function FileName(isoNow: string): string {
    "maintenance_report_" + Split(isoNow, 'T')[0] + ".csv"
  }

  lemma FileNameUsesDate(date: string, time: string)
    requires 'T' !in date
    ensures FileName(date + "T" + time) == "maintenance_report_" + date + ".csv"
  {
    SplitAtFirstSeparator(date, 'T', time);
  }
}
