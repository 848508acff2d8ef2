/** The SupportPal website route: creating a site with its defaulted first log dated at the
    epoch, deleting a site by id, and listing the sites. */
module SupportPalWebsitesRoute {
  import opened JsValues
  import opened JsDate
  import opened Cadence
  import opened Records
  import opened SiteStore
  import SpPage

  /** The JSON body of a `POST`; a missing field is `None`. */
  datatype PostBody = PostBody(
    name: string, url: string, server: Option<string>,
    phpVersion: Option<string>, spVersion: Option<string>, dbVersion: Option<string>,
    nginxVersion: Option<string>, note: Option<string>)

  /** The first log: every version field `"-"` when not given, the note `""`, the check date the epoch. */
  function InitialLog(id: string, body: PostBody): (l: Log<SpFields>)
    ensures l.siteId == id && l.checkDate == NeverChecked
    ensures Truthy(body.note) ==> l.note == body.note.value
    ensures !Truthy(body.note) ==> l.note == ""
    ensures l.fields.phpVersion.Some? && l.fields.spVersion.Some? && l.fields.dbVersion.Some?
    ensures l.fields.nginxVersion.Some?
    ensures !Truthy(body.phpVersion) ==> l.fields.phpVersion == Some("-")
    ensures !Truthy(body.spVersion) ==> l.fields.spVersion == Some("-")
    ensures !Truthy(body.dbVersion) ==> l.fields.dbVersion == Some("-")
    ensures !Truthy(body.nginxVersion) ==> l.fields.nginxVersion == Some("-")
    ensures Truthy(body.phpVersion) ==> l.fields.phpVersion == body.phpVersion
    ensures Truthy(body.spVersion) ==> l.fields.spVersion == body.spVersion
    ensures Truthy(body.dbVersion) ==> l.fields.dbVersion == body.dbVersion
    ensures Truthy(body.nginxVersion) ==> l.fields.nginxVersion == body.nginxVersion
  {
    Log(id, NeverChecked, Or(body.note, ""),
      SpFields(Some(Or(body.phpVersion, "-")), Some(Or(body.spVersion, "-")), Some(Or(body.dbVersion, "-")),
               Some(Or(body.nginxVersion, "-"))))
  }

  /** Every field of the first log is set and none is empty. */
  lemma InitialLogFieldsTruthy(id: string, body: PostBody)
    ensures var f := InitialLog(id, body).fields;
      Truthy(f.phpVersion) && Truthy(f.spVersion) && Truthy(f.dbVersion) && Truthy(f.nginxVersion)
  {
  }

  /** A freshly created site is due in every month after January 1970, and its card waits for a check. */
  lemma FreshSiteIsDueAndWaiting(id: string, body: PostBody, now: int, format: int -> string)
    requires var c := CivilFromDays(DayIndex(now)); c.year > 1970 || (c.year == 1970 && c.month > 1)
    ensures SpPage.GetStatus([InitialLog(id, body)], now) == MaintenanceDue
    ensures SpPage.LastCheckedLabel(Some(InitialLog(id, body)), format) == "Waiting for check"
  {
    SpPage.CreatedSiteIsDue(InitialLog(id, body), [], now);
    assert [InitialLog(id, body)] + [] == [InitialLog(id, body)];
    SpPage.LastCheckedLabelCases(Some(InitialLog(id, body)), format);
  }

  /** `POST`: creates the site and its first log under the id the database assigns, and answers
      with the site; `writeFails` stands for the database rejecting the write, answered with 500. */
  method Post(table: Table<SpFields>, id: string, body: PostBody, createdAt: int, writeFails: bool) returns (reply: Reply)
    requires table.Valid() && id !in table.used
    modifies table
    ensures table.Valid()
    ensures writeFails ==> reply == ErrorReply(500, "Failed to create")
    ensures writeFails ==> table.sites == old(table.sites) && table.logs == old(table.logs) && table.used == old(table.used)
    ensures !writeFails ==> reply == CreatedSite(NewSite(id, body.name, body.url, body.server, createdAt))
    ensures !writeFails ==> table.sites == old(table.sites) + [NewSite(id, body.name, body.url, body.server, createdAt)]
    ensures !writeFails ==> table.logs == old(table.logs) + [InitialLog(id, body)]
    ensures !writeFails ==> table.used == old(table.used) + {id}
    ensures !writeFails ==> NewSite(id, body.name, body.url, body.server, createdAt) in SitesOf(table.List())
    ensures !writeFails ==> forall e :: e in table.List() && e.site.id == id ==> e.logs == [InitialLog(id, body)]
  {
    if writeFails {
      return ErrorReply(500, "Failed to create");
    }
    var site := NewSite(id, body.name, body.url, body.server, createdAt);
    table.Create(site, InitialLog(id, body));
    reply := CreatedSite(site);
  }

  /** `DELETE`: 400 without an id, and nothing is deleted; otherwise the site row is removed,
      or 500 when there is no such site. */
  method Delete(table: Table<SpFields>, id: Option<string>) returns (reply: Reply)
    requires table.Valid()
    modifies table
    ensures table.Valid()
    ensures !Truthy(id) ==> reply == ErrorReply(400, "ID required")
    ensures !Truthy(id) ==> table.sites == old(table.sites) && table.logs == old(table.logs)
    ensures Truthy(id) && old(table.HasId(id.value)) ==> reply == Message("Deleted")
    ensures Truthy(id) && !old(table.HasId(id.value)) ==> reply == ErrorReply(500, "Failed to delete")
    ensures Truthy(id) ==> !table.HasId(id.value)
    ensures Truthy(id) ==> forall s :: s in table.sites <==> s in old(table.sites) && s.id != id.value
    ensures table.logs == old(table.logs) && table.used == old(table.used)
  {
    if !Truthy(id) {
      return ErrorReply(400, "ID required");
    }
    var found := table.Delete(id.value);
    if found {
      reply := Message("Deleted");
    } else {
      reply := ErrorReply(500, "Failed to delete");
    }
  }
}
