/**
 * The background script's decision for each outgoing request
 * (src/background/index.js): whether a blocked-site pattern matches the
 * request, the statistics written when it does, the redirect to the study
 * page, and the click counter of the message handler.
 */
module Background {
  import opened Optional
  import opened Text
  import opened UrlText
  import opened Records
  import opened Lists

  /** The `interceptConfig` record; when unset, interception is enabled. */
  datatype InterceptConfig = InterceptConfig(enabled: bool)

  const DefaultConfig := InterceptConfig(true)

  /** The `blockStats` record: `lastBlocked` is the day label of the latest block. */
  datatype BlockStats = BlockStats(totalBlocked: int, todayBlocked: int, lastBlocked: Option<string>)

  const NoBlocksYet := BlockStats(0, 0, None)

  /** What the request listener resolves with, and where the active tab is sent. */
  datatype WebResponse = WebResponse(cancel: bool, redirectTo: Option<string>)

  /**
   * The comparison form of a pattern or a request URL: lower-cased first,
   * then one leading "http://" or "https://" and one leading "www." are
   * removed; the path is kept.
   */
  function Clean(url: string): (r: string)
    ensures IsLowerCase(r)
    ensures EndsWith(Lower(url), r)
  {
    var lowered := Lower(url);
    var r := StripWww(StripScheme(lowered));
    EndsWithTrans(lowered, StripScheme(lowered), r);
    SliceOfLowerCase(lowered, |lowered| - |r|, |lowered|);
    r
  }

  /**
   * Cleaning removes exactly one optional scheme and then one optional
   * "www.", each in any letter case, and lower-cases the rest.
   */
  lemma CleanRemovesSchemeThenWww(scheme: string, www: string, rest: string)
    requires IsScheme(Lower(scheme)) || Lower(scheme) == ""
    requires Lower(www) == "" || Lower(www) == "www."
    requires Lower(www) == "" ==> !StartsWith(Lower(rest), "www.")
    requires Lower(scheme) == "" && Lower(www) == "" ==>
               !StartsWith(Lower(rest), "http://") && !StartsWith(Lower(rest), "https://")
    ensures Clean(scheme + www + rest) == Lower(rest)
  {
    var low := Lower(rest);
    var lw := Lower(www);
    var t := lw + low;
    assert Lower(scheme + www + rest) == Lower(scheme) + t by {
      LowerConcat(scheme + www, rest);
      LowerConcat(scheme, www);
    }
    assert StripScheme(Lower(scheme) + t) == t by {
      if lw == "www." {
        assert !StartsWith(t, "http://") && !StartsWith(t, "https://") by {
          if |t| >= 7 { assert t[..7][0] == 'w'; }
          if |t| >= 8 { assert t[..8][0] == 'w'; }
        }
      }
      StripSchemeOf(Lower(scheme), t);
    }
    StripWwwOf(lw, low);
  }

  /** The lower-case schemes `/^https?:\/\//` removes. */
  predicate IsScheme(scheme: string) {
    scheme == "http://" || scheme == "https://"
  }

  lemma StripSchemeOf(scheme: string, tail: string)
    requires scheme == "" || scheme == "http://" || scheme == "https://"
    requires scheme == "" ==> !StartsWith(tail, "http://") && !StartsWith(tail, "https://")
    ensures StripScheme(scheme + tail) == tail
  {
    var s := scheme + tail;
    if scheme == "https://" {
      assert s[..8] == scheme;
      assert s[8..] == tail;
    } else if scheme == "http://" {
      assert s[..7] == scheme;
      assert s[7..] == tail;
      assert !StartsWith(s, "https://") by {
        if |s| >= 8 { assert s[4] == ':'; }
      }
    } else {
      assert s == tail;
    }
  }

  lemma StripWwwOf(www: string, tail: string)
    requires www == "" || www == "www."
    requires www == "" ==> !StartsWith(tail, "www.")
    ensures StripWww(www + tail) == tail
  {
    var s := www + tail;
    if www == "www." {
      assert s[..4] == www;
      assert s[4..] == tail;
    } else {
      assert s == tail;
    }
  }

  /**
   * One site's pattern matches a request when the cleaned request contains
   * the cleaned pattern, or the cleaned pattern contains the cleaned
   * request's text before its first '/'.
   */
  predicate Matches(requestUrl: string, siteUrl: string) {
    var site := Clean(siteUrl);
    var request := Clean(requestUrl);
    Contains(request, site) || Contains(site, BeforeSlash(request))
  }

  /** `blockedSites.some(...)`: the request is blocked by some site of the list. */
  function IsBlocked(requestUrl: string, sites: seq<BlockedSite>): (r: bool)
    ensures r <==> exists i :: 0 <= i < |sites| && Matches(requestUrl, sites[i].url)
  {
    var blocks := (site: BlockedSite) => Matches(requestUrl, site.url);
    assert forall i :: 0 <= i < |sites| ==> blocks(sites[i]) == Matches(requestUrl, sites[i].url);
    Any(sites, blocks)
  }

  /** Every site of `a` is also in `b`, so whatever `a` blocks `b` blocks. */
  lemma BlockedByMoreSites(requestUrl: string, a: seq<BlockedSite>, b: seq<BlockedSite>)
    requires forall s :: s in a ==> s in b
    ensures IsBlocked(requestUrl, a) ==> IsBlocked(requestUrl, b)
  {
    if IsBlocked(requestUrl, a) {
      var i :| 0 <= i < |a| && Matches(requestUrl, a[i].url);
      assert a[i] in b;
      var j :| 0 <= j < |b| && b[j] == a[i];
    }
  }

  /** Reordering the list never changes the outcome. */
  lemma BlockedIgnoresOrder(requestUrl: string, a: seq<BlockedSite>, b: seq<BlockedSite>)
    requires multiset(a) == multiset(b)
    ensures IsBlocked(requestUrl, a) == IsBlocked(requestUrl, b)
  {
    forall s | s in a ensures s in b {
      assert s in multiset(a);
    }
    forall s | s in b ensures s in a {
      assert s in multiset(b);
    }
    BlockedByMoreSites(requestUrl, a, b);
    BlockedByMoreSites(requestUrl, b, a);
  }

  /** Adding a site never unblocks a request. */
  lemma AddingSiteKeepsBlocked(requestUrl: string, sites: seq<BlockedSite>, site: BlockedSite)
    requires IsBlocked(requestUrl, sites)
    ensures IsBlocked(requestUrl, sites + [site]) && IsBlocked(requestUrl, [site] + sites)
  {
    BlockedByMoreSites(requestUrl, sites, sites + [site]);
    BlockedByMoreSites(requestUrl, sites, [site] + sites);
  }

  /** A request to exactly the URL stored for a site is blocked by it. */
  lemma SiteBlocksItsOwnUrl(sites: seq<BlockedSite>, i: int)
    requires 0 <= i < |sites|
    ensures IsBlocked(sites[i].url, sites)
  {
    var c := Clean(sites[i].url);
    assert OccursAt(c, c, 0) by { assert c[0..|c|] == c; }
    assert Matches(sites[i].url, sites[i].url);
  }

  /** A single pattern whose cleaned form occurs in the cleaned request blocks it. */
  lemma ContainedPatternBlocks(requestUrl: string, site: BlockedSite)
    requires Contains(Clean(requestUrl), Clean(site.url))
    ensures IsBlocked(requestUrl, [site])
  {
    assert Matches(requestUrl, [site][0].url);
  }

  /**
   * A pattern with a path blocks every page of its host: a site entered as
   * scheme, optional "www.", host, '/' and a path blocks every request of
   * scheme, optional "www.", the same host up to letter case, '/' and any
   * path, because the cleaned pattern contains the request's text before
   * its first '/'.
   */
  lemma PatternBlocksWholeHost(sites: seq<BlockedSite>, i: int, requestUrl: string,
                               siteScheme: string, siteWww: string, siteHost: string, sitePath: string,
                               scheme: string, www: string, host: string, path: string)
    requires 0 <= i < |sites| && sites[i].url == siteScheme + siteWww + siteHost + "/" + sitePath
    requires requestUrl == scheme + www + host + "/" + path
    requires IsScheme(Lower(siteScheme)) && (Lower(siteWww) == "" || Lower(siteWww) == "www.")
    requires IsScheme(Lower(scheme)) && (Lower(www) == "" || Lower(www) == "www.")
    requires Lower(siteHost) == Lower(host)
    requires '/' !in host && !StartsWith(Lower(host), "www.")
    ensures IsBlocked(requestUrl, sites)
  {
    CleanOfHostAndPath(sites[i].url, siteScheme, siteWww, siteHost, sitePath);
    CleanOfHostAndPath(requestUrl, scheme, www, host, path);
    LowerKeepsSlashFree(host);
    SharedHostMatches(requestUrl, sites[i].url, Lower(host), Lower(sitePath), Lower(path));
  }

  lemma SharedHostMatches(requestUrl: string, siteUrl: string, host: string, sitePath: string, requestPath: string)
    requires '/' !in host
    requires Clean(siteUrl) == host + "/" + sitePath
    requires Clean(requestUrl) == host + "/" + requestPath
    ensures Matches(requestUrl, siteUrl)
  {
    BeforeSlashOfSlashed(host, requestPath);
    HostIsContained(host, sitePath);
  }

  lemma HostIsContained(host: string, path: string)
    ensures Contains(host + "/" + path, host)
  {
    assert OccursAt(host + "/" + path, host, 0);
  }

  lemma CleanOfHostAndPath(url: string, scheme: string, www: string, host: string, path: string)
    requires IsScheme(Lower(scheme))
    requires Lower(www) == "" || Lower(www) == "www."
    requires !StartsWith(Lower(host), "www.")
    requires url == scheme + www + host + "/" + path
    ensures Clean(url) == Lower(host) + "/" + Lower(path)
  {
    var rest := host + "/" + path;
    LowerOfHostAndPath(host, path);
    assert !StartsWith(Lower(rest), "www.") by {
      if |host| >= 4 {
        assert Lower(rest)[..4] == Lower(host)[..4];
      } else if |Lower(rest)| >= 4 {
        assert Lower(rest)[..4][|host|] == '/';
      }
    }
    assert url == scheme + www + rest;
    CleanRemovesSchemeThenWww(scheme, www, rest);
  }

  lemma LowerOfHostAndPath(host: string, path: string)
    ensures Lower(host + "/" + path) == Lower(host) + "/" + Lower(path)
  {
    LowerConcat(host, "/");
    LowerConcat(host + "/", path);
    LowerOfLowerCase("/");
  }

  lemma LowerKeepsSlashFree(s: string)
    requires '/' !in s
    ensures '/' !in Lower(s)
  {
  }

  /** Cleaning is not idempotent: each application removes only one "www.". */
  lemma CleanRemovesOnlyOneWww(rest: string)
    requires !StartsWith(Lower(rest), "www.")
    ensures Clean("www.www." + rest) == "www." + Lower(rest)
    ensures Clean(Clean("www.www." + rest)) == Lower(rest)
  {
    var low := Lower(rest);
    WwwTwice(rest);
    CleanOfWww("www." + rest);
    LowerOfWwwPrefix(rest);
    CleanOfWww(low);
    LowerOfLowerCase(low);
  }

  lemma LowerOfWwwPrefix(rest: string)
    ensures Lower("www." + rest) == "www." + Lower(rest)
  {
    LowerConcat("www.", rest);
    LowerOfLowerCase("www.");
  }

  lemma WwwTwice(rest: string)
    ensures "www.www." + rest == "www." + ("www." + rest)
  {
    assert "www.www." == "www." + "www.";
  }

  /** A leading "www." without a scheme is removed, whatever follows it. */
  lemma CleanOfWww(t: string)
    ensures Clean("www." + t) == Lower(t)
  {
    LowerOfLowerCase("www.");
    assert Lower("") == "";
    assert "" + "www." + t == "www." + t;
    CleanRemovesSchemeThenWww("", "www.", t);
  }


  /**
   * The guarded decision of the listener: disabled interception or an empty
   * list lets every request through; otherwise the request is intercepted
   * exactly when it is blocked.
   */
  function Intercepts(config: InterceptConfig, sites: seq<BlockedSite>, requestUrl: string): (r: bool)
    ensures !config.enabled || sites == [] ==> !r
    ensures r <==> config.enabled && exists i :: 0 <= i < |sites| && Matches(requestUrl, sites[i].url)
  {
    if !config.enabled || |sites| == 0 then false
    else IsBlocked(requestUrl, sites)
  }

  /**
   * The statistics after one more block on day `today`: the total grows by
   * one, and the day's count restarts at 1 on a new day.
   */
  function NextStats(stats: BlockStats, today: string): (r: BlockStats)
    ensures r.totalBlocked == stats.totalBlocked + 1
    ensures r.lastBlocked == Some(today)
    ensures r.todayBlocked == if stats.lastBlocked == Some(today) then stats.todayBlocked + 1 else 1
  {
    BlockStats(
      stats.totalBlocked + 1,
      if stats.lastBlocked == Some(today) then stats.todayBlocked + 1 else 1,
      Some(today))
  }

  /** The consistency the statistics keep from their initial value on. */
  predicate StatsConsistent(stats: BlockStats) {
    && 0 <= stats.todayBlocked <= stats.totalBlocked
    && (stats.lastBlocked == None ==> stats.totalBlocked == 0)
  }

  lemma NextStatsKeepsConsistency(stats: BlockStats, today: string)
    requires StatsConsistent(stats)
    ensures StatsConsistent(NextStats(stats, today)) && StatsConsistent(NoBlocksYet)
    ensures 1 <= NextStats(stats, today).todayBlocked
  {
  }

  /** The statistics after `n` blocks, all on day `today`. */
  function BlocksOn(stats: BlockStats, today: string, n: nat): BlockStats
  {
    if n == 0 then stats else NextStats(BlocksOn(stats, today, n - 1), today)
  }

  /**
   * After `n` blocks on one day the day's count is `n` more than before if
   * the previous block was on that day too, and `n` otherwise.
   */
  lemma {:induction false} BlocksOnOneDay(stats: BlockStats, today: string, n: nat)
    requires n >= 1
    ensures BlocksOn(stats, today, n).totalBlocked == stats.totalBlocked + n
    ensures BlocksOn(stats, today, n).todayBlocked ==
              if stats.lastBlocked == Some(today) then stats.todayBlocked + n else n
  {
    if n > 1 {
      BlocksOnOneDay(stats, today, n - 1);
    }
  }

  /** Day rollover: the first block on a new day restarts the day's count. */
  lemma DayRollover()
    ensures NextStats(BlockStats(5, 3, Some("Mon Jan 01 2024")), "Tue Jan 02 2024").todayBlocked == 1
    ensures NextStats(BlockStats(5, 3, Some("Tue Jan 02 2024")), "Tue Jan 02 2024").todayBlocked == 4
  {
  }

  /** The study page URL with the original request as its `original` query parameter. */
  function RedirectTarget(customPageUrl: string, requestUrl: string, encode: string -> string): (r: string)
    ensures StartsWith(r, customPageUrl + "?original=")
    ensures r[|customPageUrl| + 10..] == encode(requestUrl)
  {
    customPageUrl + "?original=" + encode(requestUrl)
  }

  /**
   * The keys of the synchronised storage that the background script reads
   * and writes; `None` is an unset key.
   */
  class BackgroundStorage {
    var interceptConfig: Option<InterceptConfig>
    var blockedSites: Option<seq<BlockedSite>>
    var blockStats: Option<BlockStats>
    var count: Option<int>

    constructor (interceptConfig: Option<InterceptConfig>, blockedSites: Option<seq<BlockedSite>>,
                 blockStats: Option<BlockStats>, count: Option<int>)
      ensures this.interceptConfig == interceptConfig && this.blockedSites == blockedSites
      ensures this.blockStats == blockStats && this.count == count
    {
      this.interceptConfig := interceptConfig;
      this.blockedSites := blockedSites;
      this.blockStats := blockStats;
      this.count := count;
    }

    function Config(): InterceptConfig reads this {
      if interceptConfig.Some? then interceptConfig.value else DefaultConfig
    }

    function Sites(): seq<BlockedSite> reads this {
      if blockedSites.Some? then blockedSites.value else []
    }

    function Stats(): BlockStats reads this {
      if blockStats.Some? then blockStats.value else NoBlocksYet
    }

    /**
     * The request listener: an intercepted request is cancelled, the tab is
     * sent to the study page and one block is recorded; any other request
     * passes and no statistics are written.
     */
    method HandleWebRequest(requestUrl: string, today: string, customPageUrl: string, encode: string -> string)
      returns (response: WebResponse)
      modifies this`blockStats
      ensures Intercepts(Config(), Sites(), requestUrl) ==>
                && response == WebResponse(true, Some(RedirectTarget(customPageUrl, requestUrl, encode)))
                && blockStats == Some(NextStats(old(Stats()), today))
      ensures !Intercepts(Config(), Sites(), requestUrl) ==>
                response == WebResponse(false, None) && blockStats == old(blockStats)
    {
      var config := Config();
      var sites := Sites();
      var stats := Stats();
      if !config.enabled || |sites| == 0 {
        return WebResponse(false, None);
      }
      var isBlocked := IsBlocked(requestUrl, sites);
      if isBlocked {
        var newStats := NextStats(stats, today);
        blockStats := Some(newStats);
        var finalUrl := RedirectTarget(customPageUrl, requestUrl, encode);
        response := WebResponse(true, Some(finalUrl));
      } else {
        response := WebResponse(false, None);
      }
    }

    /** The `incrementCounter` message: an unset count counts as 0. */
    method IncrementCounter() returns (newCount: int)
      modifies this`count
      ensures newCount == (if old(count).Some? then old(count).value else 0) + 1
      ensures count == Some(newCount)
    {
      var current := if count.Some? then count.value else 0;
      newCount := current + 1;
      count := Some(newCount);
    }

    /** The `resetCounter` message. */
    method ResetCounter() returns (newCount: int)
      modifies this`count
      ensures newCount == 0 && count == Some(0)
    {
      count := Some(0);
      newCount := 0;
    }
  }
}
