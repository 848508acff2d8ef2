/** The records the dashboard works on, as the listing routes deliver them. */
module Records {
  import opened JsValues
  import opened JsDate

  /** A tracked website (WordPress or SupportPal); `server` is a free-text group label. */
  datatype Site = Site(id: string, name: string, url: string, server: string, createdAt: int)

  /** A maintenance check-in of the site `siteId`; `F` holds the family's version fields. */
  datatype Log<F> = Log(siteId: string, checkDate: int, note: string, fields: F)

  /** The version fields of a WordPress check-in; columns may be null. */
  datatype WpFields = WpFields(
    wordpressVersion: Option<string>,
    phpVersion: Option<string>,
    dbVersion: Option<string>,
    plugins: Option<string>,
    theme: Option<string>)

  /** The version fields of a SupportPal check-in; columns may be null. */
  datatype SpFields = SpFields(
    phpVersion: Option<string>,
    spVersion: Option<string>,
    dbVersion: Option<string>,
    nginxVersion: Option<string>)

  /** A site with its most recent logs, newest first. */
  datatype Listed<F> = Listed(site: Site, logs: seq<Log<F>>)

  /** `site.logs[0]`, `undefined` when the site has no log. */
  function Latest<F>(s: Listed<F>): Option<Log<F>> {
    if |s.logs| > 0 then Some(s.logs[0]) else None
  }

  /** `site.logs[1]`, the check-in before the latest one. */
  function Previous<F>(s: Listed<F>): Option<Log<F>> {
    if |s.logs| > 1 then Some(s.logs[1]) else None
  }

  /** An installed plugin as the plugin list stores it. */
  datatype Plugin = Plugin(name: string, version: string)

  /** What `JSON.parse` yields for a stored plugin list: an array (its entries read as
      `{name, version}` records) or some other JSON value. */
  datatype Json = JArray(entries: seq<Plugin>) | JOther

  /** The status badge of a site card; both families of sites use the same three labels. */
  datatype Status = Pending | Completed | MaintenanceDue {
    function Label(): string {
      match this
      case Pending => "Pending"
      case Completed => "Completed"
      case MaintenanceDue => "Maintenance Due"
    }
  }

  /** `isNew` on both site pages: a check date before the year 2000 is the creation sentinel. */
  predicate IsNew(checkDate: int) {
    GetFullYear(checkDate) < 2000
  }
}
