/** The WordPress website route: creating a site with its defaulted first log dated at the
    epoch, deleting a site by id, and listing the sites. */
module WebsitesRoute {
  import opened JsValues
  import opened JsDate
  import opened Cadence
  import opened Records
  import opened SiteStore
  import WpPage

  /** The JSON body of a `POST`; a missing field is `None`. */
  datatype PostBody = PostBody(
    name: string, url: string, server: Option<string>,
    wordpressVersion: Option<string>, phpVersion: Option<string>, dbVersion: Option<string>,
    plugins: Option<string>, theme: Option<string>, note: Option<string>)

  /** The first log: every version field `"-"` when not given, the note `""`, the check date the epoch. */
  function InitialLog(id: string, body: PostBody): (l: Log<WpFields>)
    ensures l.siteId == id && l.checkDate == NeverChecked
    ensures Truthy(body.note) ==> l.note == body.note.value
    ensures !Truthy(body.note) ==> l.note == ""
    ensures l.fields.wordpressVersion.Some? && l.fields.phpVersion.Some? && l.fields.dbVersion.Some?
    ensures l.fields.plugins.Some? && l.fields.theme.Some?
    ensures !Truthy(body.wordpressVersion) ==> l.fields.wordpressVersion == Some("-")
    ensures !Truthy(body.phpVersion) ==> l.fields.phpVersion == Some("-")
    ensures !Truthy(body.dbVersion) ==> l.fields.dbVersion == Some("-")
    ensures !Truthy(body.plugins) ==> l.fields.plugins == Some("-")
    ensures !Truthy(body.theme) ==> l.fields.theme == Some("-")
    ensures Truthy(body.wordpressVersion) ==> l.fields.wordpressVersion == body.wordpressVersion
    ensures Truthy(body.phpVersion) ==> l.fields.phpVersion == body.phpVersion
    ensures Truthy(body.dbVersion) ==> l.fields.dbVersion == body.dbVersion
    ensures Truthy(body.plugins) ==> l.fields.plugins == body.plugins
    ensures Truthy(body.theme) ==> l.fields.theme == body.theme
  {
    Log(id, NeverChecked, Or(body.note, ""),
      WpFields(Some(Or(body.wordpressVersion, "-")), Some(Or(body.phpVersion, "-")), Some(Or(body.dbVersion, "-")),
               Some(Or(body.plugins, "-")), Some(Or(body.theme, "-"))))
  }

  /** Every field of the first log is set and none is empty. */
  lemma InitialLogFieldsTruthy(id: string, body: PostBody)
    ensures var f := InitialLog(id, body).fields;
      Truthy(f.wordpressVersion) && Truthy(f.phpVersion) && Truthy(f.dbVersion) && Truthy(f.plugins) && Truthy(f.theme)
  {
  }

  /** A freshly created site is due in every week after the first week of 1970, and its card says "Never". */
  lemma FreshSiteIsDueAndNever(id: string, body: PostBody, now: int, format: int -> string)
    requires WeekStart(now) > WeekStart(NeverChecked)
    ensures WpPage.GetStatus([InitialLog(id, body)], now) == MaintenanceDue
    ensures WpPage.LastCheckLabel(Some(InitialLog(id, body)), format) == "Never"
  {
    WpPage.GetStatusIsWeeklyRule([InitialLog(id, body)], now);
    NeverCheckedDueWeekly(now);
    WpPage.NeverCheckedShowsNever(InitialLog(id, body), format);
  }

  /** The plugin text `"-"` the first log stores reads back as one plugin named `-`. */
  lemma DefaultPluginsParse(decode: string -> Option<Json>)
    ensures WpPage.ParsePlugins(Some("-"), decode) == JArray([Plugin("-", "-")])
  {
    assert !StartsWith("-", "[") by {
      assert "-"[..1][0] == '-';
    }
  }

  /** `POST`: creates the site and its first log under the id the database assigns, and answers
      with the site; `writeFails` stands for the database rejecting the write, answered with 500. */
  method Post(table: Table<WpFields>, id: string, body: PostBody, createdAt: int, writeFails: bool) returns (reply: Reply)
    requires table.Valid() && id !in table.used
    modifies table
    ensures table.Valid()
    ensures writeFails ==> reply == ErrorReply(500, "Failed to create website")
    ensures writeFails ==> table.sites == old(table.sites) && table.logs == old(table.logs) && table.used == old(table.used)
    ensures !writeFails ==> reply == CreatedSite(NewSite(id, body.name, body.url, body.server, createdAt))
    ensures !writeFails ==> table.sites == old(table.sites) + [NewSite(id, body.name, body.url, body.server, createdAt)]
    ensures !writeFails ==> table.logs == old(table.logs) + [InitialLog(id, body)]
    ensures !writeFails ==> table.used == old(table.used) + {id}
    ensures !writeFails ==> NewSite(id, body.name, body.url, body.server, createdAt) in SitesOf(table.List())
    ensures !writeFails ==> forall e :: e in table.List() && e.site.id == id ==> e.logs == [InitialLog(id, body)]
  {
    if writeFails {
      return ErrorReply(500, "Failed to create website");
    }
    var site := NewSite(id, body.name, body.url, body.server, createdAt);
    table.Create(site, InitialLog(id, body));
    reply := CreatedSite(site);
  }

  /** `DELETE`: 400 without an id, and nothing is deleted; otherwise the site row is removed,
      or 500 when there is no such site. */
  method Delete(table: Table<WpFields>, id: Option<string>) returns (reply: Reply)
    requires table.Valid()
    modifies table
    ensures table.Valid()
    ensures !Truthy(id) ==> reply == ErrorReply(400, "ID is required")
    ensures !Truthy(id) ==> table.sites == old(table.sites) && table.logs == old(table.logs)
    ensures Truthy(id) && old(table.HasId(id.value)) ==> reply == Message("Website deleted")
    ensures Truthy(id) && !old(table.HasId(id.value)) ==> reply == ErrorReply(500, "Failed to delete website")
    ensures Truthy(id) ==> !table.HasId(id.value)
    ensures Truthy(id) ==> forall s :: s in table.sites <==> s in old(table.sites) && s.id != id.value
    ensures table.logs == old(table.logs) && table.used == old(table.used)
  {
    if !Truthy(id) {
      return ErrorReply(400, "ID is required");
    }
    var found := table.Delete(id.value);
    if found {
      reply := Message("Website deleted");
    } else {
      reply := ErrorReply(500, "Failed to delete website");
    }
  }
}
