/** The WordPress maintenance page: link formatting, the plugin list editor,
    reading a stored plugin list, the weekly status, search and grouping by
    server, and the completed/pending tallies. */
module WpPage {
  import opened JsValues
  import opened JsDate
  import opened Cadence
  import opened Records
  import opened Sequences

  /** The link a site's URL opens: `"#"` without a URL, `https://` added when the scheme is missing. */
  function FormatUrl(url: Option<string>): (r: string)
    ensures !Truthy(url) ==> r == "#"
    ensures Truthy(url) ==> StartsWith(r, "http") && |url.value| <= |r| && r[|r| - |url.value|..] == url.value
  {
    if !Truthy(url) then "#"
    else if StartsWith(url.value, "http") then url.value
    else "https://" + url.value
  }

  /** A formatted link is formatted already: formatting it again changes nothing. */
  lemma FormatUrlIdempotent(url: Option<string>)
    requires Truthy(url)
    ensures FormatUrl(Some(FormatUrl(url))) == FormatUrl(url)
  {
    var r := FormatUrl(url);
    assert StartsWith(r, "http");
  }

  /** A URL that already names its scheme is linked unchanged; any other gets `https://` in front. */
  lemma FormatUrlKeepsScheme(url: string)
    requires url != ""
    ensures StartsWith(url, "http") <==> FormatUrl(Some(url)) == url
  {
    if !StartsWith(url, "http") {
      assert |FormatUrl(Some(url))| == |url| + 8;
    }
  }

  /** `plugins.filter((_, i) => i !== index)` */
  function WithoutIndex(ps: seq<Plugin>, index: int): seq<Plugin> {
    if ps == [] then []
    else WithoutIndex(ps[..|ps| - 1], index) + (if |ps| - 1 != index then [ps[|ps| - 1]] else [])
  }

  lemma {:induction false} WithoutIndexBeyond(ps: seq<Plugin>, index: int)
    requires index < 0 || index >= |ps|
    ensures WithoutIndex(ps, index) == ps
  {
    if ps != [] {
      WithoutIndexBeyond(ps[..|ps| - 1], index);
    }
  }

  /** Deleting at an index removes exactly that entry and keeps the others in order;
      an index outside the list removes nothing. */
  lemma {:induction false} WithoutIndexRemovesOne(ps: seq<Plugin>, index: int)
    ensures 0 <= index < |ps| ==> WithoutIndex(ps, index) == ps[..index] + ps[index + 1..]
    ensures !(0 <= index < |ps|) ==> WithoutIndex(ps, index) == ps
  {
    if !(0 <= index < |ps|) {
      WithoutIndexBeyond(ps, index);
    } else if index == |ps| - 1 {
      WithoutIndexBeyond(ps[..|ps| - 1], index);
    } else {
      WithoutIndexRemovesOne(ps[..|ps| - 1], index);
      assert ps[..|ps| - 1][..index] == ps[..index];
      assert ps[..|ps| - 1][index + 1..] + [ps[|ps| - 1]] == ps[index + 1..];
    }
  }

  /** The plugin editor of the site form: the list being edited and the two text inputs. */
  class PluginManager {
    var plugins: seq<Plugin>
    var tempName: string
    var tempVersion: string

    constructor (plugins: seq<Plugin>)
      ensures this.plugins == plugins && tempName == "" && tempVersion == ""
    {
      this.plugins := plugins;
      tempName := "";
      tempVersion := "";
    }

    /** The "Add" button: a blank name changes nothing; otherwise the plugin is appended with the
        name as typed, its version defaulting to `"latest"`, and both inputs are cleared. */
    method HandleAdd()
      modifies this
      ensures AllWhitespace(old(tempName)) ==>
        plugins == old(plugins) && tempName == old(tempName) && tempVersion == old(tempVersion)
      ensures !AllWhitespace(old(tempName)) ==>
        plugins == old(plugins) + [Plugin(old(tempName), if old(tempVersion) == "" then "latest" else old(tempVersion))]
        && tempName == "" && tempVersion == ""
    {
      TrimEmptyIff(tempName);
      if Trim(tempName) == "" {
        return;
      }
      var newPlugin := Plugin(tempName, if tempVersion == "" then "latest" else tempVersion);
      plugins := plugins + [newPlugin];
      tempName := "";
      tempVersion := "";
    }

    /** The remove button of entry `index`. */
    method HandleDelete(index: int)
      modifies this
      ensures plugins == WithoutIndex(old(plugins), index)
      ensures 0 <= index < |old(plugins)| ==> plugins == old(plugins)[..index] + old(plugins)[index + 1..]
      ensures !(0 <= index < |old(plugins)|) ==> plugins == old(plugins)
      ensures tempName == old(tempName) && tempVersion == old(tempVersion)
    {
      WithoutIndexRemovesOne(plugins, index);
      plugins := WithoutIndex(plugins, index);
    }

    /** The version input of entry `index` (rendered for existing entries only): the entry's
        version is replaced in place; the length and every name stay as they were. */
    method HandleVersionChange(index: int, newVersion: string)
      requires 0 <= index < |plugins|
      modifies this
      ensures |plugins| == |old(plugins)|
      ensures forall i :: 0 <= i < |plugins| ==> plugins[i].name == old(plugins)[i].name
      ensures plugins[index].version == newVersion
      ensures forall i :: 0 <= i < |plugins| && i != index ==> plugins[i] == old(plugins)[i]
      ensures tempName == old(tempName) && tempVersion == old(tempVersion)
    {
      plugins := plugins[index := plugins[index].(version := newVersion)];
    }
  }

  /** `parsePlugins`: an empty or absent string is the empty list, a string that is not a JSON
      array is one plugin of that name with version `"-"`, and otherwise the text is decoded,
      a decoding failure giving the empty list. */
  function ParsePlugins(s: Option<string>, decode: string -> Option<Json>): Json {
    if !Truthy(s) then JArray([])
    else if !StartsWith(s.value, "[") then JArray([Plugin(s.value, "-")])
    else match decode(s.value)
      case None => JArray([])
      case Some(j) => j
  }

  /** The cases of `parsePlugins`, stated on what it yields. */
  lemma ParsePluginsCases(s: Option<string>, decode: string -> Option<Json>)
    ensures !Truthy(s) ==> ParsePlugins(s, decode) == JArray([])
    ensures Truthy(s) && s.value[0] != '[' ==> ParsePlugins(s, decode) == JArray([Plugin(s.value, "-")])
    ensures Truthy(s) && s.value[0] == '[' && decode(s.value).None? ==> ParsePlugins(s, decode) == JArray([])
  {
  }

  /** A list saved as `JSON.stringify(plugins)` reads back as the same list. Since `JSON.parse`
      and `JSON.stringify` are parameters here, this is a consequence of assuming that the encoder's
      output starts with `[` and that the decoder inverts it, not a fact about JSON itself. */
  lemma ParsePluginsRoundTrip(ps: seq<Plugin>, encode: seq<Plugin> -> string, decode: string -> Option<Json>)
    requires StartsWith(encode(ps), "[")
    requires decode(encode(ps)) == Some(JArray(ps))
    ensures ParsePlugins(Some(encode(ps)), decode) == JArray(ps)
  {
  }

  /** The site form of the page (`formData`); `plugins` is the list the plugin editor shows. */
  datatype WpForm = WpForm(
    name: string, url: string, server: string,
    wordpressVersion: string, phpVersion: string, dbVersion: string, theme: string,
    note: string, plugins: Json)

  /** `resetForm` */
  function EmptyForm(): (f: WpForm)
    ensures f.name == "" && f.url == "" && f.server == "" && f.note == "" && f.plugins == JArray([])
    ensures f.wordpressVersion == "" && f.phpVersion == "" && f.dbVersion == "" && f.theme == ""
  {
    WpForm("", "", "", "", "", "", "", "", JArray([]))
  }

  /** The form shows a log's value of each version field and of the theme, or `""` where the log has none. */
  predicate PrefilledFrom(f: WpForm, log: WpFields) {
    Shows(f.wordpressVersion, log.wordpressVersion) && Shows(f.phpVersion, log.phpVersion)
    && Shows(f.dbVersion, log.dbVersion) && Shows(f.theme, log.theme)
  }

  /** An input showing `v || ""`: the stored value when it is set and not empty, else the empty string. */
  predicate Shows(input: string, v: Option<string>) {
    (Truthy(v) ==> input == v.value) && (!Truthy(v) ==> input == "")
  }

  /** `openEditModal`: the site's own fields, and the latest log's fields with `""` for a missing one. */
  function OpenEditModal(s: Listed<WpFields>, decode: string -> Option<Json>): (f: WpForm)
    ensures f.name == s.site.name && f.url == s.site.url && f.server == s.site.server
    ensures Latest(s).None? ==> f.wordpressVersion == "" && f.phpVersion == "" && f.dbVersion == "" && f.theme == ""
    ensures Latest(s).None? ==> f.note == "" && f.plugins == JArray([])
    ensures Latest(s).Some? ==> f.note == Latest(s).value.note
    ensures Latest(s).Some? ==> f.plugins == ParsePlugins(Latest(s).value.fields.plugins, decode)
    ensures Latest(s).Some? ==> PrefilledFrom(f, Latest(s).value.fields)
  {
    match Latest(s)
    case None => WpForm(s.site.name, s.site.url, s.site.server, "", "", "", "", "", ParsePlugins(None, decode))
    case Some(log) =>
      WpForm(s.site.name, s.site.url, s.site.server,
        Or(log.fields.wordpressVersion, ""), Or(log.fields.phpVersion, ""), Or(log.fields.dbVersion, ""),
        Or(log.fields.theme, ""), log.note, ParsePlugins(log.fields.plugins, decode))
  }

  /** `openLogModal`: the form is prefilled from the latest log, except the note, which starts empty. */
  function OpenLogModal(s: Listed<WpFields>, decode: string -> Option<Json>): (f: WpForm)
    ensures f.note == "" && f.server == s.site.server
    ensures Latest(s).None? ==> f.wordpressVersion == "" && f.phpVersion == "" && f.dbVersion == "" && f.theme == ""
    ensures Latest(s).None? ==> f.plugins == JArray([])
    ensures Latest(s).Some? ==> f.plugins == ParsePlugins(Latest(s).value.fields.plugins, decode)
    ensures Latest(s).Some? ==> PrefilledFrom(f, Latest(s).value.fields)
  {
    match Latest(s)
    case None => WpForm("", "", s.site.server, "", "", "", "", "", ParsePlugins(None, decode))
    case Some(log) =>
      WpForm("", "", s.site.server,
        Or(log.fields.wordpressVersion, ""), Or(log.fields.phpVersion, ""), Or(log.fields.dbVersion, ""),
        Or(log.fields.theme, ""), "", ParsePlugins(log.fields.plugins, decode))
  }

  /** What `handleSaveWebsite` sends: nothing without a name and URL, the site's identity fields
      only when editing (`PUT`), the whole form with the plugin list serialised when adding (`POST`). */
  datatype SaveRequest =
    | Rejected
    | PutSite(id: string, name: string, url: string, server: string)
    | PostSite(form: WpForm, pluginsText: string)

  function HandleSaveWebsite(form: WpForm, editingId: Option<string>, encode: Json -> string): (r: SaveRequest)
    ensures r.Rejected? <==> form.name == "" || form.url == ""
    ensures r.PutSite? ==> editingId.Some? && r.id == editingId.value && r.name == form.name && r.url == form.url
    ensures r.PutSite? ==> r.server == form.server
    ensures r.PostSite? ==> editingId.None? && r.form == form && r.pluginsText == encode(form.plugins)
    ensures !r.Rejected? ==> (r.PutSite? <==> editingId.Some?)
  {
    if form.name == "" || form.url == "" then Rejected
    else if editingId.Some? then PutSite(editingId.value, form.name, form.url, form.server)
    else PostSite(form, encode(form.plugins))
  }

  /** Opening a site for editing and saving it unchanged writes back the same identity fields. */
  lemma EditUnchangedKeepsSite(s: Listed<WpFields>, decode: string -> Option<Json>, encode: Json -> string)
    requires s.site.name != "" && s.site.url != ""
    ensures HandleSaveWebsite(OpenEditModal(s, decode), Some(s.site.id), encode)
      == PutSite(s.site.id, s.site.name, s.site.url, s.site.server)
  {
  }

  /** The body `handleSaveLog` posts for site `websiteId`. */
  datatype LogPayload = LogPayload(websiteId: string, form: WpForm, pluginsText: string)

  function HandleSaveLog(form: WpForm, websiteId: string, encode: Json -> string): (p: LogPayload)
    ensures p.websiteId == websiteId && p.form == form && p.pluginsText == encode(form.plugins)
  {
    LogPayload(websiteId, form, encode(form.plugins))
  }

  /** A check-in saved from the log modal without edits carries the latest plugin list over:
      reading the posted text back gives the list the site had. Like the round trip above, this
      follows from assuming that the decoder inverts the encoder. */
  lemma LogCarriesPluginsOver(s: Listed<WpFields>, ps: seq<Plugin>, decode: string -> Option<Json>, encode: Json -> string)
    requires Latest(s).Some? && Latest(s).value.fields.plugins == Some(encode(JArray(ps)))
    requires StartsWith(encode(JArray(ps)), "[")
    requires decode(encode(JArray(ps))) == Some(JArray(ps))
    ensures var p := HandleSaveLog(OpenLogModal(s, decode), s.site.id, encode);
      p.form.note == "" && ParsePlugins(Some(p.pluginsText), decode) == JArray(ps)
  {
  }

  /** `getStatus(logs)`: no log is Pending; otherwise the latest check is compared with this week's Monday. */
  function GetStatus(logs: seq<Log<WpFields>>, now: int): Status {
    if |logs| == 0 then Pending
    else if logs[0].checkDate >= MondayAsWritten(now) then Completed
    else MaintenanceDue
  }

  /** The page's status is the weekly rule: Completed exactly when the latest check is at or after Monday 00:00. */
  lemma GetStatusIsWeeklyRule(logs: seq<Log<WpFields>>, now: int)
    ensures GetStatus(logs, now) == Pending <==> logs == []
    ensures GetStatus(logs, now) == Completed <==> logs != [] && CompletedThisWeek(logs[0].checkDate, now)
    ensures GetStatus(logs, now) == MaintenanceDue <==> logs != [] && !CompletedThisWeek(logs[0].checkDate, now)
  {
    MondayAsWrittenIsWeekStart(now);
  }

  /** The "Last check" line of a site card; `format` stands for `toLocaleDateString`. */
  function LastCheckLabel(log: Option<Log<WpFields>>, format: int -> string): string {
    if log.Some? && !IsNew(log.value.checkDate) then format(log.value.checkDate) else "Never"
  }

  /** The creation sentinel always shows as "Never". */
  lemma NeverCheckedShowsNever(log: Log<WpFields>, format: int -> string)
    requires log.checkDate == NeverChecked
    ensures LastCheckLabel(Some(log), format) == "Never"
  {
    NeverCheckedDate();
  }

  /** The group a site is listed under. */
  function ServerGroup(server: string): string {
    if server == "" then "Unassigned Server" else server
  }

  /** The search box: the lower-cased term occurs in the lower-cased name, URL or server. */
  predicate Matches(s: Site, searchTerm: string) {
    var lowerSearch := ToLower(searchTerm);
    Includes(ToLower(s.name), lowerSearch) || Includes(ToLower(s.url), lowerSearch)
    || Includes(ToLower(s.server), lowerSearch)
  }

  function MatchesSearch(searchTerm: string): Listed<WpFields> -> bool {
    (w: Listed<WpFields>) => Matches(w.site, searchTerm)
  }

  function ByServer(): Listed<WpFields> -> string {
    (w: Listed<WpFields>) => ServerGroup(w.site.server)
  }

  /** `groupedWebsites`: the sites matching the search, grouped by server in input order. */
  method GroupedWebsites(websites: seq<Listed<WpFields>>, searchTerm: string)
    returns (groups: map<string, seq<Listed<WpFields>>>)
    ensures forall k :: k in groups <==> k in GroupKeys(websites, MatchesSearch(searchTerm), ByServer())
    ensures forall k :: k in groups ==> groups[k] == Bucket(websites, MatchesSearch(searchTerm), ByServer(), k)
  {
    groups := GroupBy(websites, MatchesSearch(searchTerm), ByServer());
  }

  /** A site is kept iff the search term occurs (case-insensitively) in its name, URL or server,
      and a kept site is listed in the group of its server, or "Unassigned Server" without one. */
  lemma GroupedSiteLocation(websites: seq<Listed<WpFields>>, searchTerm: string, i: int)
    requires 0 <= i < |websites|
    ensures var w := websites[i]; var lower := ToLower(searchTerm);
      MatchesSearch(searchTerm)(w) <==>
        (exists j :: OccursAt(ToLower(w.site.name), lower, j))
        || (exists j :: OccursAt(ToLower(w.site.url), lower, j))
        || (exists j :: OccursAt(ToLower(w.site.server), lower, j))
    ensures MatchesSearch(searchTerm)(websites[i]) ==>
      websites[i] in Bucket(websites, MatchesSearch(searchTerm), ByServer(), ServerGroup(websites[i].site.server))
  {
    var w := websites[i];
    var lower := ToLower(searchTerm);
    IncludesIff(ToLower(w.site.name), lower);
    IncludesIff(ToLower(w.site.url), lower);
    IncludesIff(ToLower(w.site.server), lower);
    if MatchesSearch(searchTerm)(w) {
      KeptInOwnBucket(websites, MatchesSearch(searchTerm), ByServer(), i);
    }
  }

  /** An empty search keeps every site. */
  lemma EmptySearchKeepsAll(websites: seq<Listed<WpFields>>)
    ensures Filter(websites, MatchesSearch("")) == websites
  {
    forall i | 0 <= i < |websites|
      ensures MatchesSearch("")(websites[i])
    {
      IncludesEmpty(ToLower(websites[i].site.name));
    }
    FilterAll(websites, MatchesSearch(""));
  }

  /** The groups hold every kept site exactly once: their sizes add up to the number of matches. */
  lemma GroupedSizesAddUp(websites: seq<Listed<WpFields>>, searchTerm: string)
    ensures GroupSizes(GroupKeys(websites, MatchesSearch(searchTerm), ByServer()), websites, MatchesSearch(searchTerm), ByServer())
      == |Filter(websites, MatchesSearch(searchTerm))|
  {
    GroupSizesSum(websites, MatchesSearch(searchTerm), ByServer());
  }

  function IsCompletedSite(now: int): Listed<WpFields> -> bool {
    (w: Listed<WpFields>) => GetStatus(w.logs, now).Label() == "Completed"
  }

  function IsNotCompletedSite(now: int): Listed<WpFields> -> bool {
    (w: Listed<WpFields>) => GetStatus(w.logs, now).Label() != "Completed"
  }

  /** `completedSites` */
  function CompletedSites(websites: seq<Listed<WpFields>>, now: int): nat {
    |Filter(websites, IsCompletedSite(now))|
  }

  /** `pendingSites = totalSites - completedSites` */
  function PendingSites(websites: seq<Listed<WpFields>>, now: int): int {
    |websites| - CompletedSites(websites, now)
  }

  /** The pending tally counts exactly the sites labelled Pending or Maintenance Due. */
  lemma PendingSitesCountsTheRest(websites: seq<Listed<WpFields>>, now: int)
    ensures PendingSites(websites, now) == |Filter(websites, IsNotCompletedSite(now))|
    ensures CompletedSites(websites, now) + PendingSites(websites, now) == |websites|
    ensures PendingSites(websites, now) >= 0
  {
    FilterSplit(websites, IsCompletedSite(now), IsNotCompletedSite(now));
  }
}
