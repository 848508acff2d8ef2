/** The home dashboard: which sites of either family are pending, the combined pending
    list, the total and the number of distinct servers. */
module DashboardPage {
  import opened JsValues
  import opened Cadence
  import opened Records
  import opened Sequences
  import ReportsPage

  /** `isWPPending(log)`: no log, or a check before Monday 00:00. */
  predicate IsWPPending(log: Option<Log<WpFields>>, now: int) {
    log.None? || log.value.checkDate < MondayAsWritten(now)
  }

  /** `isSPPending(log)`: no log, or a check before the 1st of the month at 00:00. */
  predicate IsSPPending(log: Option<Log<SpFields>>, now: int) {
    log.None? || log.value.checkDate < StartOfMonthAsWritten(now)
  }

  /** The dashboard's pending test is the negation of the weekly rule, and agrees with the reports page. */
  lemma IsWPPendingIsNotCompleted(log: Option<Log<WpFields>>, now: int)
    ensures IsWPPending(log, now) <==> !(log.Some? && CompletedThisWeek(log.value.checkDate, now))
    ensures IsWPPending(log, now) <==> ReportsPage.GetWPStatus(log, now) == "Pending"
  {
    MondayAsWrittenIsWeekStart(now);
    ReportsPage.GetWPStatusIsWeeklyRule(log, now);
  }

  /** The same for the monthly rule. */
  lemma IsSPPendingIsNotCompleted(log: Option<Log<SpFields>>, now: int)
    ensures IsSPPending(log, now) <==> !(log.Some? && CompletedThisMonth(log.value.checkDate, now))
    ensures IsSPPending(log, now) <==> ReportsPage.GetSPStatus(log, now) == "Pending"
  {
    StartOfMonthAsWrittenIsMonthStart(now);
    ReportsPage.GetSPStatusIsMonthlyRule(log, now);
  }

  /** A site in the pending list, tagged with its family. */
  datatype PendingEntry = WpEntry(wp: Listed<WpFields>) | SpEntry(sp: Listed<SpFields>) {
    /** `type` */
    function Type(): string {
      if WpEntry? then "WP" else "SP"
    }
    /** `url_path` */
    function UrlPath(): string {
      if WpEntry? then "/wp" else "/sp"
    }
  }

  function WpSitePending(now: int): Listed<WpFields> -> bool {
    (s: Listed<WpFields>) => IsWPPending(Latest(s), now)
  }

  function SpSitePending(now: int): Listed<SpFields> -> bool {
    (s: Listed<SpFields>) => IsSPPending(Latest(s), now)
  }

  function TagWp(sites: seq<Listed<WpFields>>): (r: seq<PendingEntry>)
    ensures |r| == |sites|
    ensures forall i :: 0 <= i < |sites| ==> r[i] == WpEntry(sites[i])
  {
    if sites == [] then [] else TagWp(sites[..|sites| - 1]) + [WpEntry(sites[|sites| - 1])]
  }

  function TagSp(sites: seq<Listed<SpFields>>): (r: seq<PendingEntry>)
    ensures |r| == |sites|
    ensures forall i :: 0 <= i < |sites| ==> r[i] == SpEntry(sites[i])
  {
    if sites == [] then [] else TagSp(sites[..|sites| - 1]) + [SpEntry(sites[|sites| - 1])]
  }

  /** `allPending = [...pendingWP, ...pendingSP]` */
  function AllPending(wpSites: seq<Listed<WpFields>>, spSites: seq<Listed<SpFields>>, now: int): seq<PendingEntry> {
    TagWp(Filter(wpSites, WpSitePending(now))) + TagSp(Filter(spSites, SpSitePending(now)))
  }

  /** The pending WordPress sites come first, tagged `WP` and `/wp`, then the pending SupportPal
      sites, tagged `SP` and `/sp`, each part in data order and each entry pending. */
  lemma AllPendingLayout(wpSites: seq<Listed<WpFields>>, spSites: seq<Listed<SpFields>>, now: int)
    ensures |AllPending(wpSites, spSites, now)|
      == |Filter(wpSites, WpSitePending(now))| + |Filter(spSites, SpSitePending(now))|
    ensures var pw := Filter(wpSites, WpSitePending(now)); var all := AllPending(wpSites, spSites, now);
      forall i :: 0 <= i < |pw| ==>
        (all[i] == WpEntry(pw[i]) && all[i].Type() == "WP" && all[i].UrlPath() == "/wp" && IsWPPending(Latest(pw[i]), now))
    ensures var pw := Filter(wpSites, WpSitePending(now)); var ps := Filter(spSites, SpSitePending(now));
      var all := AllPending(wpSites, spSites, now);
      forall j :: 0 <= j < |ps| ==>
        (all[|pw| + j] == SpEntry(ps[j]) && all[|pw| + j].Type() == "SP" && all[|pw| + j].UrlPath() == "/sp"
         && IsSPPending(Latest(ps[j]), now))
  {
    var pw := Filter(wpSites, WpSitePending(now));
    var ps := Filter(spSites, SpSitePending(now));
    TaggedConcat(pw, ps);
    var all := TagWp(pw) + TagSp(ps);
    forall i | 0 <= i < |pw|
      ensures all[i].Type() == "WP" && all[i].UrlPath() == "/wp" && IsWPPending(Latest(pw[i]), now)
    {
      assert WpSitePending(now)(pw[i]);
    }
    forall j | 0 <= j < |ps|
      ensures all[|pw| + j].Type() == "SP" && all[|pw| + j].UrlPath() == "/sp" && IsSPPending(Latest(ps[j]), now)
    {
      assert SpSitePending(now)(ps[j]);
    }
  }

  /** The WordPress tags followed by the SupportPal tags: each position holds the entry of its site. */
  lemma TaggedConcat(pw: seq<Listed<WpFields>>, ps: seq<Listed<SpFields>>)
    ensures |TagWp(pw) + TagSp(ps)| == |pw| + |ps|
    ensures forall i :: 0 <= i < |pw| ==> (TagWp(pw) + TagSp(ps))[i] == WpEntry(pw[i])
    ensures forall j :: 0 <= j < |ps| ==> (TagWp(pw) + TagSp(ps))[|pw| + j] == SpEntry(ps[j])
  {
    var tw, ts := TagWp(pw), TagSp(ps);
    forall i | 0 <= i < |pw|
      ensures (tw + ts)[i] == WpEntry(pw[i])
    {
      assert (tw + ts)[i] == tw[i];
    }
    forall j | 0 <= j < |ps|
      ensures (tw + ts)[|pw| + j] == SpEntry(ps[j])
    {
      assert (tw + ts)[|tw| + j] == ts[j];
    }
  }

  /** A WordPress site with no check this week is in the pending list. */
  lemma UncheckedWpSiteListed(wpSites: seq<Listed<WpFields>>, spSites: seq<Listed<SpFields>>, now: int, i: int)
    requires 0 <= i < |wpSites|
    requires !(Latest(wpSites[i]).Some? && CompletedThisWeek(Latest(wpSites[i]).value.checkDate, now))
    ensures WpEntry(wpSites[i]) in AllPending(wpSites, spSites, now)
  {
    IsWPPendingIsNotCompleted(Latest(wpSites[i]), now);
    FilterKeeps(wpSites, WpSitePending(now), i);
    var pw := Filter(wpSites, WpSitePending(now));
    var k :| 0 <= k < |pw| && pw[k] == wpSites[i];
    assert AllPending(wpSites, spSites, now)[k] == WpEntry(wpSites[i]);
  }

  /** `totalSites` */
  function TotalSites(wpSites: seq<Listed<WpFields>>, spSites: seq<Listed<SpFields>>): nat {
    |wpSites| + |spSites|
  }

  /** The server of each site, in order. */
  function Servers<F>(sites: seq<Listed<F>>): (r: seq<string>)
    ensures |r| == |sites|
    ensures forall i :: 0 <= i < |sites| ==> r[i] == sites[i].site.server
  {
    if sites == [] then [] else Servers(sites[..|sites| - 1]) + [sites[|sites| - 1].site.server]
  }

  /** `new Set(xs)`: the distinct elements, never more of them than there are entries. */
  function ToSet(xs: seq<string>): (r: set<string>)
    ensures forall x :: x in r <==> x in xs
    ensures |r| <= |xs|
  {
    if xs == [] then {} else ToSet(xs[..|xs| - 1]) + {xs[|xs| - 1]}
  }

  /** `allServers` */
  function AllServers(wpSites: seq<Listed<WpFields>>, spSites: seq<Listed<SpFields>>): set<string> {
    ToSet(Servers(wpSites) + Servers(spSites))
  }

  /** The servers are exactly those some site of either family names, and there are at most as many as sites. */
  lemma AllServersCounts(wpSites: seq<Listed<WpFields>>, spSites: seq<Listed<SpFields>>)
    ensures forall srv :: srv in AllServers(wpSites, spSites) <==>
      (exists i :: 0 <= i < |wpSites| && wpSites[i].site.server == srv)
      || (exists j :: 0 <= j < |spSites| && spSites[j].site.server == srv)
    ensures |AllServers(wpSites, spSites)| <= TotalSites(wpSites, spSites)
  {
    var xs := Servers(wpSites) + Servers(spSites);
    forall srv
      ensures srv in xs <==>
        (exists i :: 0 <= i < |wpSites| && wpSites[i].site.server == srv)
        || (exists j :: 0 <= j < |spSites| && spSites[j].site.server == srv)
    {
      if srv in xs {
        var k :| 0 <= k < |xs| && xs[k] == srv;
        if k >= |wpSites| {
          assert spSites[k - |wpSites|].site.server == srv;
        }
      }
      if exists j :: 0 <= j < |spSites| && spSites[j].site.server == srv {
        var j :| 0 <= j < |spSites| && spSites[j].site.server == srv;
        assert xs[|wpSites| + j] == srv;
      }
    }
  }
}
