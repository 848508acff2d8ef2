/** An in-memory stand-in for one family's two database tables (sites and their logs),
    with the three operations the website routes perform on them: create a site with its
    first log, delete a site by id, and list the sites with their latest log. */
module SiteStore {
  import opened JsValues
  import opened Records

  /** `a <= b` in character-code order, the order the model takes `server: 'asc'` to sort by
      (the database's collation is not visible in the code). */
  predicate StrLeq(a: string, b: string)
    decreases |a|
  {
    a == [] || (b != [] && (a[0] < b[0] || (a[0] == b[0] && StrLeq(a[1..], b[1..]))))
  }

  lemma {:induction false} StrLeqTotal(a: string, b: string)
    ensures StrLeq(a, b) || StrLeq(b, a)
    decreases |a|
  {
    if a != [] && b != [] && a[0] == b[0] {
      StrLeqTotal(a[1..], b[1..]);
    }
  }

  lemma {:induction false} StrLeqAntisymmetric(a: string, b: string)
    requires StrLeq(a, b) && StrLeq(b, a)
    ensures a == b
    decreases |a|
  {
    if a != [] && b != [] {
      StrLeqAntisymmetric(a[1..], b[1..]);
      assert a == [a[0]] + a[1..] && b == [b[0]] + b[1..];
    }
  }

  lemma {:induction false} StrLeqTransitive(a: string, b: string, c: string)
    requires StrLeq(a, b) && StrLeq(b, c)
    ensures StrLeq(a, c)
    decreases |a|
  {
    if a != [] && b != [] && c != [] && a[0] == b[0] && b[0] == c[0] {
      StrLeqTransitive(a[1..], b[1..], c[1..]);
    }
  }

  /** The listing order: by server ascending, then by creation time, newest first. */
  predicate Precedes(a: Site, b: Site) {
    (a.server != b.server && StrLeq(a.server, b.server)) || (a.server == b.server && a.createdAt >= b.createdAt)
  }

  lemma PrecedesTotal(a: Site, b: Site)
    ensures Precedes(a, b) || Precedes(b, a)
  {
    StrLeqTotal(a.server, b.server);
  }

  lemma PrecedesTransitive(a: Site, b: Site, c: Site)
    requires Precedes(a, b) && Precedes(b, c)
    ensures Precedes(a, c)
  {
    if a.server != b.server && b.server != c.server {
      StrLeqTransitive(a.server, b.server, c.server);
      if a.server == c.server {
        StrLeqAntisymmetric(b.server, c.server);
      }
    }
  }

  predicate Sorted(s: seq<Site>) {
    forall i, j :: 0 <= i < j < |s| ==> Precedes(s[i], s[j])
  }

  /** Inserts a site before the first one it precedes. */
  function Insert(x: Site, s: seq<Site>): (r: seq<Site>)
    ensures multiset(r) == multiset(s) + multiset{x}
    ensures |r| == |s| + 1
  {
    if s == [] || Precedes(x, s[0]) then [x] + s
    else
      assert s == [s[0]] + s[1..];
      [s[0]] + Insert(x, s[1..])
  }

  lemma {:induction false} InsertSorted(x: Site, s: seq<Site>)
    requires Sorted(s)
    ensures Sorted(Insert(x, s))
  {
    if s == [] || Precedes(x, s[0]) {
      forall j | 1 <= j < |s| + 1
        ensures Precedes(x, ([x] + s)[j])
      {
        PrecedesTransitive(x, s[0], s[j - 1]);
      }
    } else {
      PrecedesTotal(x, s[0]);
      InsertSorted(x, s[1..]);
      var r := Insert(x, s[1..]);
      forall j | 0 <= j < |r|
        ensures Precedes(s[0], r[j])
      {
        assert r[j] in multiset(r);
        assert r[j] in multiset(s[1..]) + multiset{x};
        if r[j] != x {
          assert r[j] in s[1..];
        }
      }
    }
  }

  /** The sites in listing order. */
  function SortSites(s: seq<Site>): (r: seq<Site>)
    ensures multiset(r) == multiset(s)
    ensures |r| == |s|
  {
    if s == [] then []
    else
      assert s == s[..|s| - 1] + [s[|s| - 1]];
      Insert(s[|s| - 1], SortSites(s[..|s| - 1]))
  }

  /** The listing holds every site once and is in listing order. */
  lemma {:induction false} SortSitesSorted(s: seq<Site>)
    ensures Sorted(SortSites(s))
  {
    if s != [] {
      SortSitesSorted(s[..|s| - 1]);
      InsertSorted(s[|s| - 1], SortSites(s[..|s| - 1]));
    }
  }

  /** `logs: { orderBy: { checkDate: "desc" }, take: 1 }` for one site: a log of that site with the
      latest check date (the earliest stored one among ties), or none when the site has no log. */
  function LatestLog<F>(logs: seq<Log<F>>, id: string): (r: Option<Log<F>>)
    ensures r.None? <==> forall i :: 0 <= i < |logs| ==> logs[i].siteId != id
    ensures r.Some? ==> r.value in logs && r.value.siteId == id
    ensures r.Some? ==> forall i :: 0 <= i < |logs| && logs[i].siteId == id ==> logs[i].checkDate <= r.value.checkDate
  {
    if logs == [] then None
    else
      var init := logs[..|logs| - 1];
      var last := logs[|logs| - 1];
      var best := LatestLog(init, id);
      assert forall i :: 0 <= i < |init| ==> init[i] == logs[i];
      if last.siteId == id && (best.None? || last.checkDate > best.value.checkDate) then Some(last) else best
  }

  /** A site with the logs the listing attaches: at most one. */
  function WithLatest<F>(site: Site, logs: seq<Log<F>>): (r: Listed<F>)
    ensures r.site == site && |r.logs| <= 1
  {
    match LatestLog(logs, site.id)
    case None => Listed(site, [])
    case Some(l) => Listed(site, [l])
  }

  const DefaultServer: string := "Default Server"

  /** The site row a `POST` creates, its server `server || "Default Server"`; `id` and `createdAt`
      are what the database assigns. */
  function NewSite(id: string, name: string, url: string, server: Option<string>, createdAt: int): (s: Site)
    ensures s.id == id && s.name == name && s.url == url && s.createdAt == createdAt
    ensures Truthy(server) ==> s.server == server.value
    ensures !Truthy(server) ==> s.server == DefaultServer
  {
    Site(id, name, url, Or(server, DefaultServer), createdAt)
  }

  /** The log appended last is the latest log of its site when no earlier log belongs to that site. */
  lemma {:induction false} FreshLogIsLatest<F>(logs: seq<Log<F>>, l: Log<F>)
    requires forall i :: 0 <= i < |logs| ==> logs[i].siteId != l.siteId
    ensures LatestLog(logs + [l], l.siteId) == Some(l)
  {
    var all := logs + [l];
    assert all[..|all| - 1] == logs;
    var best := LatestLog(logs, l.siteId);
    assert best.None?;
  }

  /** Site ids are unique, and every site and every log belongs to an id in `used`. */
  ghost predicate Consistent<F>(sites: seq<Site>, logs: seq<Log<F>>, used: set<string>) {
    (forall i, j :: 0 <= i < j < |sites| ==> sites[i].id != sites[j].id)
    && (forall i :: 0 <= i < |sites| ==> sites[i].id in used)
    && (forall i :: 0 <= i < |logs| ==> logs[i].siteId in used)
  }

  /** Adding a site and its log under an id not in `used` keeps the tables consistent, and
      no earlier log carried that id. */
  lemma AppendConsistent<F>(sites: seq<Site>, logs: seq<Log<F>>, used: set<string>, site: Site, l: Log<F>)
    requires Consistent(sites, logs, used) && site.id !in used && l.siteId == site.id
    ensures Consistent(sites + [site], logs + [l], used + {site.id})
    ensures forall i :: 0 <= i < |logs| ==> logs[i].siteId != site.id
  {
    var s1, l1 := sites + [site], logs + [l];
    forall i, j | 0 <= i < j < |s1|
      ensures s1[i].id != s1[j].id
    {
      if j == |sites| {
        assert s1[i] == sites[i];
      }
    }
    forall i | 0 <= i < |l1|
      ensures l1[i].siteId in used + {site.id}
    {
      if i < |logs| {
        assert l1[i] == logs[i];
      }
    }
  }

  /** One family's tables. */
  class Table<F> {
    var sites: seq<Site>
    var logs: seq<Log<F>>
    /** Every id handed out so far, the ids of deleted sites included: the database never reuses one. */
    ghost var used: set<string>

    /** Site ids are unique, and every site and every log belongs to an id handed out. */
    ghost predicate Valid()
      reads this
    {
      Consistent(sites, logs, used)
    }

    constructor ()
      ensures Valid() && sites == [] && logs == [] && used == {}
    {
      sites := [];
      logs := [];
      used := {};
    }

    predicate HasId(id: string)
      reads this
    {
      exists i :: 0 <= i < |sites| && sites[i].id == id
    }

    /** `create` with a nested log, under an id the database has never handed out: both rows are
        added, and the new site is then listed with exactly that first log. */
    method Create(site: Site, firstLog: Log<F>)
      requires Valid() && site.id !in used
      modifies this
      ensures Valid()
      ensures sites == old(sites) + [site] && logs == old(logs) + [firstLog.(siteId := site.id)]
      ensures used == old(used) + {site.id}
      ensures site in SitesOf(List())
      ensures forall e :: e in List() && e.site.id == site.id ==> e.logs == [firstLog.(siteId := site.id)]
    {
      var l := firstLog.(siteId := site.id);
      AppendConsistent(sites, logs, used, site, l);
      FreshSiteListed(sites, logs, site, l);
      sites, logs, used := sites + [site], logs + [l], used + {site.id};
    }

    /** `delete({ where: { id } })`: removes the site row; it fails when no site has the id.
        The logs are left as they are (the model claims no cascade). */
    method Delete(id: string) returns (found: bool)
      requires Valid()
      modifies this
      ensures Valid()
      ensures found <==> old(HasId(id))
      ensures !HasId(id)
      ensures forall s :: s in sites <==> s in old(sites) && s.id != id
      ensures |sites| == |old(sites)| - (if found then 1 else 0)
      ensures logs == old(logs) && used == old(used)
    {
      found := HasId(id);
      RemoveIdFacts(sites, id);
      var r := RemoveId(sites, id);
      forall i | 0 <= i < |r|
        ensures r[i].id in used
      {
        assert r[i] in sites;
      }
      sites := r;
    }

    /** `findMany` with the latest log and the listing order. */
    function List(): (r: seq<Listed<F>>)
      reads this
      ensures r == Listing(sites, logs)
    {
      Listing(sites, logs)
    }
  }

  /** The listing of the tables: every site exactly once, ordered by server and then newest
      first, each with at most its latest log. */
  function Listing<F>(sites: seq<Site>, logs: seq<Log<F>>): (r: seq<Listed<F>>)
    ensures |r| == |sites|
    ensures multiset(SitesOf(r)) == multiset(sites)
    ensures Sorted(SitesOf(r))
    ensures forall i :: 0 <= i < |r| ==> r[i] == WithLatest(r[i].site, logs)
  {
    var order := SortSites(sites);
    SortSitesSorted(sites);
    var r := AttachLatest(order, logs);
    assert SitesOf(r) == order;
    r
  }

  /** A site added with a first log under an id no earlier log carries is listed, with exactly that log. */
  lemma FreshSiteListed<F>(sites: seq<Site>, logs: seq<Log<F>>, site: Site, l: Log<F>)
    requires l.siteId == site.id
    requires forall i :: 0 <= i < |logs| ==> logs[i].siteId != site.id
    ensures site in SitesOf(Listing(sites + [site], logs + [l]))
    ensures forall e :: e in Listing(sites + [site], logs + [l]) && e.site.id == site.id ==> e.logs == [l]
  {
    FreshLogIsLatest(logs, l);
    var listed := Listing(sites + [site], logs + [l]);
    assert (sites + [site])[|sites|] == site;
    assert site in multiset(SitesOf(listed));
    forall e | e in listed && e.site.id == site.id
      ensures e.logs == [l]
    {
      var i :| 0 <= i < |listed| && listed[i] == e;
    }
  }

  /** Each site of `order` with its latest log, in the same order. */
  function AttachLatest<F>(order: seq<Site>, logs: seq<Log<F>>): (r: seq<Listed<F>>)
    ensures |r| == |order|
    ensures forall i :: 0 <= i < |order| ==> r[i] == WithLatest(order[i], logs)
  {
    if order == [] then [] else AttachLatest(order[..|order| - 1], logs) + [WithLatest(order[|order| - 1], logs)]
  }

  /** The sites other than those with id `id`, in order. */
  function RemoveId(s: seq<Site>, id: string): (r: seq<Site>)
    ensures forall x :: x in r <==> x in s && x.id != id
  {
    if s == [] then []
    else RemoveId(s[..|s| - 1], id) + (if s[|s| - 1].id != id then [s[|s| - 1]] else [])
  }

  /** Removing an id keeps the other ids unique, and with unique ids removes at most one site. */
  lemma {:induction false} RemoveIdFacts(s: seq<Site>, id: string)
    requires forall i, j :: 0 <= i < j < |s| ==> s[i].id != s[j].id
    ensures var r := RemoveId(s, id);
      (forall i, j :: 0 <= i < j < |r| ==> r[i].id != r[j].id)
      && |r| == |s| - (if exists i :: 0 <= i < |s| && s[i].id == id then 1 else 0)
  {
    if s != [] {
      var init := s[..|s| - 1];
      RemoveIdFacts(init, id);
      var r := RemoveId(init, id);
      forall k | 0 <= k < |r|
        ensures r[k].id != s[|s| - 1].id
      {
        assert r[k] in init;
      }
      if s[|s| - 1].id == id {
        assert forall i :: 0 <= i < |init| ==> init[i].id != id;
      } else {
        assert (exists i :: 0 <= i < |s| && s[i].id == id) <==> (exists i :: 0 <= i < |init| && init[i].id == id);
      }
    }
  }

  function SitesOf<F>(r: seq<Listed<F>>): (s: seq<Site>)
    ensures |s| == |r|
    ensures forall i :: 0 <= i < |r| ==> s[i] == r[i].site
  {
    if r == [] then [] else SitesOf(r[..|r| - 1]) + [r[|r| - 1].site]
  }

  /** The answer of a website route. */
  datatype Reply = CreatedSite(site: Site) | Message(text: string) | ErrorReply(status: int, error: string) {
    function Status(): int {
      if ErrorReply? then status else 200
    }
  }
}
