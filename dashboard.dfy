/**
 * The options dashboard (src/options/Dashboard.jsx): the blocked-site list
 * with its validation and duplicate check on a normalised host, the
 * flashcard list, and the merge of a CSV import into it.
 */
module Dashboard {
  import opened Optional
  import opened Text
  import opened UrlText
  import opened Lists
  import opened Records
  import opened Csv
  import Background

  /**
   * `normalizeUrl`: one leading scheme and one leading "www." removed (both
   * case-sensitively), then lower-cased, then only the text before the
   * first '/' kept.
   */
  function NormalizeUrl(url: string): (r: string)
    ensures '/' !in r
    ensures IsLowerCase(r)
    ensures StartsWith(Lower(StripWww(StripScheme(url))), r)
  {
    var lowered := Lower(StripWww(StripScheme(url)));
    var r := BeforeSlash(lowered);
    SliceOfLowerCase(lowered, 0, |r|);
    r
  }

  /** The host part of a pattern as entered: scheme and "www." removed, path dropped, case kept. */
  function Host(url: string): (r: string)
    ensures '/' !in r
  {
    BeforeSlash(StripWww(StripScheme(url)))
  }

  /** `extractDomainName`: the host with its first character upper-cased. */
  function DomainName(url: string): (r: string)
    ensures |r| == |Host(url)| && '/' !in r
    ensures r != [] ==> r[0] == UpperChar(Host(url)[0]) && !('a' <= r[0] <= 'z') && r[1..] == Host(url)[1..]
  {
    var domain := Host(url);
    if domain == [] then [] else [UpperChar(domain[0])] + domain[1..]
  }

  lemma {:induction false} LowerBeforeSlash(s: string)
    ensures BeforeSlash(Lower(s)) == Lower(BeforeSlash(s))
    decreases |s|
  {
    if s != [] && s[0] != '/' {
      assert Lower(s)[1..] == Lower(s[1..]);
      LowerBeforeSlash(s[1..]);
      LowerConcat([s[0]], BeforeSlash(s[1..]));
    }
  }

  /** The normalised form of a pattern is its host, lower-cased. */
  lemma NormalizeUrlIsLoweredHost(url: string)
    ensures NormalizeUrl(url) == Lower(Host(url))
  {
    LowerBeforeSlash(StripWww(StripScheme(url)));
  }

  /** A site's display name is its normalised host up to the case of its letters. */
  lemma DomainNameIsNormalizedHost(url: string)
    ensures Lower(DomainName(url)) == NormalizeUrl(url)
  {
    NormalizeUrlIsLoweredHost(url);
    var domain := Host(url);
    if domain != [] {
      LowerOfCapitalised(domain);
    }
  }

  /** Upper-casing the first character is undone by lower-casing. */
  lemma LowerOfCapitalised(d: string)
    requires d != []
    ensures Lower([UpperChar(d[0])] + d[1..]) == Lower(d)
  {
    var n := [UpperChar(d[0])] + d[1..];
    forall k | 0 <= k < |d| ensures Lower(n)[k] == Lower(d)[k] {
      if k > 0 {
        assert n[k] == d[k];
      }
    }
  }


  /**
   * On a lower-case pattern the dashboard's normal form is the host part
   * of the background script's comparison form.
   */
  lemma NormalizeUrlOfLowerCase(url: string)
    requires IsLowerCase(url)
    ensures NormalizeUrl(url) == BeforeSlash(Background.Clean(url))
  {
    LowerOfLowerCase(url);
    var stripped := StripWww(StripScheme(url));
    EndsWithTrans(url, StripScheme(url), stripped);
    SliceOfLowerCase(url, |url| - |stripped|, |url|);
    LowerOfLowerCase(stripped);
  }

  lemma {:induction false} BeforeSlashOfSlashFree(s: string)
    requires '/' !in s
    ensures BeforeSlash(s) == s
    decreases |s|
  {
    if s != [] {
      assert s[0] in s;
      BeforeSlashOfSlashFree(s[1..]);
      assert [s[0]] + s[1..] == s;
    }
  }

  /**
   * The two normal forms differ: the dashboard strips the scheme before
   * lower-casing, so an upper-case scheme survives it as "http:", while
   * the background script removes it.
   */
  lemma NormalizationsDiffer(host: string)
    requires '/' !in host && IsLowerCase(host) && !StartsWith(host, "www.")
    ensures NormalizeUrl("HTTP://" + host) == "http:"
    ensures BeforeSlash(Background.Clean("HTTP://" + host)) == host
  {
    UpperSchemeIsKept(host);
    UpperSchemeIsLowered(host);
    SchemeBeforeSlash(host);
    CleanOfUpperScheme(host);
    BeforeSlashOfSlashFree(host);
  }

  lemma UpperSchemeIsKept(host: string)
    ensures StripWww(StripScheme("HTTP://" + host)) == "HTTP://" + host
  {
    var url := "HTTP://" + host;
    assert url[0] == 'H';
  }

  lemma UpperSchemeIsLowered(host: string)
    requires IsLowerCase(host)
    ensures Lower("HTTP://" + host) == "http://" + host
  {
    LowerConcat("HTTP://", host);
    LowerOfLowerCase(host);
    assert Lower("HTTP://") == "http://";
  }

  lemma SchemeBeforeSlash(host: string)
    ensures BeforeSlash("http://" + host) == "http:"
  {
    BeforeSlashOfSlashed("http:", "/" + host);
    assert "http:" + "/" + ("/" + host) == "http://" + host;
  }

  lemma CleanOfUpperScheme(host: string)
    requires IsLowerCase(host) && !StartsWith(host, "www.")
    ensures Background.Clean("HTTP://" + host) == host
  {
    UpperSchemeIsLowered(host);
    Background.StripSchemeOf("http://", host);
    Background.StripWwwOf("", host);
    assert "" + host == host;
  }

  /** The dashboard keeps only the host, where the background script keeps the path. */
  lemma DashboardDropsPath(host: string, path: string)
    requires '/' !in host && IsLowerCase(host) && IsLowerCase(path)
    requires |host| >= 4 && !StartsWith(host, "www.") && !StartsWith(host, "http")
    ensures NormalizeUrl(host + "/" + path) == host
    ensures Background.Clean(host + "/" + path) == host + "/" + path
  {
    var url := host + "/" + path;
    assert IsLowerCase(url) by {
      forall k | 0 <= k < |url| ensures !('A' <= url[k] <= 'Z') {
        if k > |host| {
          assert url[k] == path[k - |host| - 1];
        } else if k < |host| {
          assert url[k] == host[k];
        }
      }
    }
    LowerOfLowerCase(url);
    assert url[..4] == host[..4];
    assert StripScheme(url) == url && StripWww(url) == url;
    BeforeSlashOfSlashed(host, path);
  }

  /** Normalising is not idempotent: each application removes one "www.". */
  lemma NormalizeUrlRemovesOneWww(rest: string)
    requires '/' !in rest && IsLowerCase(rest)
    ensures NormalizeUrl("www.www." + rest) == "www." + rest
    ensures NormalizeUrl("www." + rest) == rest
    ensures NormalizeUrl(NormalizeUrl("www.www." + rest)) != NormalizeUrl("www.www." + rest)
  {
    var once := "www." + rest;
    WwwPrefixIsLowerCase(rest);
    NormalizeUrlOfWww(rest);
    NormalizeUrlOfWww(once);
    DoubleWww(rest);
    assert |rest| < |once|;
  }

  lemma DoubleWww(rest: string)
    ensures "www.www." + rest == "www." + ("www." + rest)
  {
    assert "www.www." == "www." + "www.";
  }

  /** A lower-case, '/'-free text behind "www." normalises to itself. */
  lemma NormalizeUrlOfWww(t: string)
    requires '/' !in t && IsLowerCase(t)
    ensures NormalizeUrl("www." + t) == t
  {
    var url := "www." + t;
    assert StripScheme(url) == url by {
      assert url[0] == 'w';
    }
    Background.StripWwwOf("www.", t);
    LowerOfLowerCase(t);
    BeforeSlashOfSlashFree(t);
  }

  lemma WwwPrefixIsLowerCase(t: string)
    requires '/' !in t && IsLowerCase(t)
    ensures '/' !in "www." + t && IsLowerCase("www." + t)
  {
    var u := "www." + t;
    forall k | 0 <= k < |u| ensures u[k] != '/' && !('A' <= u[k] <= 'Z') {
      if k >= 4 {
        assert u[k] == t[k - 4];
      }
    }
  }

  /** Why `addSite` refuses an input. */
  datatype SiteError = BlankSite | InvalidSite | DuplicateSite

  /** The pattern `addSite` stores for an input: trimmed, then lower-cased. */
  function Entered(input: string): string {
    Lower(Trim(input))
  }

  /** The basic validation: a '.' somewhere, or a leading "http". */
  predicate LooksLikeSite(site: string) {
    Contains(site, ".") || StartsWith(site, "http")
  }

  /** The key of the duplicate check. */
  function SiteHost(site: BlockedSite): string {
    NormalizeUrl(site.url)
  }

  /** Some site of the list already has the normalised host `host`. */
  predicate HasHost(sites: seq<BlockedSite>, host: string) {
    exists i :: 0 <= i < |sites| && SiteHost(sites[i]) == host
  }

  /** No two sites of the list share a normalised host. */
  predicate UniqueHosts(sites: seq<BlockedSite>) {
    DistinctKeys(sites, SiteHost)
  }

  /**
   * The outcome of `addSite` on `input` when the clock reads `now` and the
   * ISO date is `isoDate`: refused when blank, when it does not look like
   * a site, or when its normalised host is already listed; otherwise the
   * new record.
   */
  function NewSite(sites: seq<BlockedSite>, input: string, now: int, isoDate: string): (r: Result<BlockedSite, SiteError>)
    ensures r == Failure(BlankSite) <==> Trim(input) == ""
    ensures r == Failure(InvalidSite) <==> Trim(input) != "" && !LooksLikeSite(Entered(input))
    ensures r == Failure(DuplicateSite) <==>
              Trim(input) != "" && LooksLikeSite(Entered(input)) && HasHost(sites, NormalizeUrl(Entered(input)))
    ensures r.Success? ==> r.value == BlockedSite(now, Entered(input), DomainName(Entered(input)), isoDate, 0)
  {
    var site := Entered(input);
    if Trim(input) == "" then Failure(BlankSite)
    else if !LooksLikeSite(site) then Failure(InvalidSite)
    else if HasHost(sites, NormalizeUrl(site)) then Failure(DuplicateSite)
    else Success(BlockedSite(now, site, DomainName(site), isoDate, 0))
  }

  /** An accepted site keeps the normalised hosts of the list distinct. */
  lemma NewSiteKeepsUniqueHosts(sites: seq<BlockedSite>, input: string, now: int, isoDate: string)
    requires UniqueHosts(sites)
    requires NewSite(sites, input, now, isoDate).Success?
    ensures UniqueHosts(sites + [NewSite(sites, input, now, isoDate).value])
  {
    var site := NewSite(sites, input, now, isoDate).value;
    assert SiteHost(site) == NormalizeUrl(Entered(input));
    AppendKeepsDistinctKeys(sites, site, SiteHost);
  }

  /** An accepted site is stored lower-cased, so both normal forms agree on it. */
  lemma NewSiteIsLowerCase(sites: seq<BlockedSite>, input: string, now: int, isoDate: string)
    requires NewSite(sites, input, now, isoDate).Success?
    ensures IsLowerCase(NewSite(sites, input, now, isoDate).value.url)
    ensures SiteHost(NewSite(sites, input, now, isoDate).value)
              == BeforeSlash(Background.Clean(NewSite(sites, input, now, isoDate).value.url))
  {
    NormalizeUrlOfLowerCase(Entered(input));
  }

  /** An input differing only in scheme, "www." or path from a listed site is refused. */
  lemma SameHostIsDuplicate(sites: seq<BlockedSite>, i: int, input: string, now: int, isoDate: string)
    requires 0 <= i < |sites| && Trim(input) != "" && LooksLikeSite(Entered(input))
    requires NormalizeUrl(Entered(input)) == NormalizeUrl(sites[i].url)
    ensures NewSite(sites, input, now, isoDate) == Failure(DuplicateSite)
  {
    assert SiteHost(sites[i]) == NormalizeUrl(Entered(input));
  }

  /** The list without the entries whose id is `id` (`removeSite`), in order. */
  function WithoutSite(sites: seq<BlockedSite>, id: int): (r: seq<BlockedSite>)
    ensures forall s :: s in r <==> s in sites && s.id != id
  {
    Filter(sites, (s: BlockedSite) => s.id != id)
  }

  /** The list without the cards whose id is `id` (`removeFlashcard`), in order. */
  function WithoutCard(cards: seq<Flashcard>, id: int): (r: seq<Flashcard>)
    ensures forall c :: c in r <==> c in cards && c.id != id
  {
    Filter(cards, (c: Flashcard) => c.id != id)
  }

  /** Removal keeps the order: removing from a concatenation removes from each part. */
  lemma WithoutSiteOfConcat(a: seq<BlockedSite>, b: seq<BlockedSite>, id: int)
    ensures WithoutSite(a + b, id) == WithoutSite(a, id) + WithoutSite(b, id)
  {
    FilterConcat(a, b, (s: BlockedSite) => s.id != id);
  }

  /** Removing an id no site has changes nothing. */
  lemma WithoutAbsentSite(sites: seq<BlockedSite>, id: int)
    requires forall i :: 0 <= i < |sites| ==> sites[i].id != id
    ensures WithoutSite(sites, id) == sites
  {
    FilterKeepsAll(sites, (s: BlockedSite) => s.id != id);
  }

  /** Removal keeps the normalised hosts of the list distinct. */
  lemma WithoutSiteKeepsUniqueHosts(sites: seq<BlockedSite>, id: int)
    requires UniqueHosts(sites)
    ensures UniqueHosts(WithoutSite(sites, id))
  {
    FilterKeepsDistinctKeys(sites, (s: BlockedSite) => s.id != id, SiteHost);
  }

  lemma WithoutCardOfConcat(a: seq<Flashcard>, b: seq<Flashcard>, id: int)
    ensures WithoutCard(a + b, id) == WithoutCard(a, id) + WithoutCard(b, id)
  {
    FilterConcat(a, b, (c: Flashcard) => c.id != id);
  }

  lemma WithoutAbsentCard(cards: seq<Flashcard>, id: int)
    requires forall i :: 0 <= i < |cards| ==> cards[i].id != id
    ensures WithoutCard(cards, id) == cards
  {
    FilterKeepsAll(cards, (c: Flashcard) => c.id != id);
  }

  const DefaultFlashcardCategory := "General"

  /**
   * The card `addFlashcard` makes: none when the front or the back is
   * blank; otherwise the trimmed fields, a blank category becoming "General".
   */
  function NewFlashcard(front: string, back: string, category: string, now: int): (r: Option<Flashcard>)
    ensures r.None? <==> Trim(front) == "" || Trim(back) == ""
    ensures r.Some? ==> r.value.id == now && r.value.front == Trim(front) && r.value.back == Trim(back)
    ensures r.Some? ==> r.value.category == if Trim(category) == "" then DefaultFlashcardCategory else Trim(category)
  {
    if Trim(front) == "" || Trim(back) == "" then None
    else
      var trimmedCategory := Trim(category);
      Some(Flashcard(now, Trim(front), Trim(back),
                     if trimmedCategory == "" then DefaultFlashcardCategory else trimmedCategory))
  }

  /** A card added by hand has non-empty fields without white space at either end. */
  lemma NewFlashcardIsTrimmed(front: string, back: string, category: string, now: int)
    requires NewFlashcard(front, back, category, now).Some?
    ensures var card := NewFlashcard(front, back, category, now).value;
      && card.front != "" && card.back != "" && card.category != ""
      && Trimmed(card.front) && Trimmed(card.back) && Trimmed(card.category)
  {
    TrimFacts(front);
    TrimFacts(back);
    TrimFacts(category);
    var general := DefaultFlashcardCategory;
    assert general[0] == 'G' && general[|general| - 1] == 'l';
  }

  /** A file chosen for import: its name and its text. */
  datatype CsvFile = CsvFile(name: string, text: string)

  /** Why an import left the flashcards alone. */
  datatype ImportError = NoFile | NotCsv | NoCards

  /** `file.name.toLowerCase().endsWith(".csv")`. */
  predicate IsCsvName(name: string) {
    EndsWith(Lower(name), ".csv")
  }

  /**
   * The flashcards after `importFlashcardsCSV`: refused without a file,
   * for a name not ending in ".csv" (in any case), and when no card
   * parses; otherwise the parsed cards after the existing ones.
   */
  function MergeImport(existing: seq<Flashcard>, file: Option<CsvFile>, now: int): (r: Result<seq<Flashcard>, ImportError>)
    ensures file.None? <==> r == Failure(NoFile)
    ensures r == Failure(NotCsv) <==> file.Some? && !IsCsvName(file.value.name)
    ensures r == Failure(NoCards) <==> file.Some? && IsCsvName(file.value.name) && Parse(file.value.text, now) == []
    ensures r.Success? ==>
              && |r.value| > |existing|
              && r.value[..|existing|] == existing
              && r.value[|existing|..] == Parse(file.value.text, now)
  {
    if file.None? then Failure(NoFile)
    else if !IsCsvName(file.value.name) then Failure(NotCsv)
    else
      var imported := Parse(file.value.text, now);
      if |imported| == 0 then Failure(NoCards)
      else Success(existing + imported)
  }

  /** The file-name check ignores case. */
  lemma CsvNameIgnoresCase()
    ensures IsCsvName("Deck.CSV") && !IsCsvName("deck.txt")
  {
    assert Lower("Deck.CSV") == "deck.csv";
    assert Lower("deck.txt") == "deck.txt";
    assert "deck.csv"[4..] == ".csv";
  }

  /** Importing the same file twice appends its cards twice, stamped by each clock reading. */
  lemma ImportTwice(existing: seq<Flashcard>, file: CsvFile, now1: int, now2: int)
    requires MergeImport(existing, Some(file), now1).Success?
    ensures MergeImport(MergeImport(existing, Some(file), now1).value, Some(file), now2)
              == Success(existing + Parse(file.text, now1) + Parse(file.text, now2))
  {
    ParseCountIgnoresClock(file.text, now1, now2);
  }

  /**
   * The dashboard's two lists, each replaced by a new list when it
   * changes, as the component state is.
   */
  class DashboardState {
    var blockedSites: seq<BlockedSite>
    var flashcards: seq<Flashcard>

    constructor (blockedSites: seq<BlockedSite>, flashcards: seq<Flashcard>)
      ensures this.blockedSites == blockedSites && this.flashcards == flashcards
    {
      this.blockedSites := blockedSites;
      this.flashcards := flashcards;
    }

    /**
     * `addSite`: appends the new record unless the input is refused; a
     * list with distinct normalised hosts keeps them distinct.
     */
    method AddSite(input: string, now: int, isoDate: string) returns (outcome: Result<BlockedSite, SiteError>)
      modifies this`blockedSites
      ensures outcome == NewSite(old(blockedSites), input, now, isoDate)
      ensures outcome.Success? ==> blockedSites == old(blockedSites) + [outcome.value]
      ensures outcome.Failure? ==> blockedSites == old(blockedSites)
      ensures UniqueHosts(old(blockedSites)) ==> UniqueHosts(blockedSites)
    {
      if Trim(input) == "" {
        return Failure(BlankSite);
      }
      var siteToAdd := Lower(Trim(input));
      if !Contains(siteToAdd, ".") && !StartsWith(siteToAdd, "http") {
        return Failure(InvalidSite);
      }
      var normalizedUrl := NormalizeUrl(siteToAdd);
      if HasHost(blockedSites, normalizedUrl) {
        return Failure(DuplicateSite);
      }
      var newBlockedSite := BlockedSite(now, siteToAdd, DomainName(siteToAdd), isoDate, 0);
      if UniqueHosts(blockedSites) {
        NewSiteKeepsUniqueHosts(blockedSites, input, now, isoDate);
      }
      blockedSites := blockedSites + [newBlockedSite];
      outcome := Success(newBlockedSite);
    }

    /** `removeSite`: the sites with another id, in their order. */
    method RemoveSite(id: int)
      modifies this`blockedSites
      ensures blockedSites == WithoutSite(old(blockedSites), id)
      ensures UniqueHosts(old(blockedSites)) ==> UniqueHosts(blockedSites)
    {
      if UniqueHosts(blockedSites) {
        WithoutSiteKeepsUniqueHosts(blockedSites, id);
      }
      blockedSites := WithoutSite(blockedSites, id);
    }

    /** `clearAllSites`: empties the list when the user confirms. */
    method ClearAllSites(confirmed: bool)
      modifies this`blockedSites
      ensures blockedSites == if confirmed then [] else old(blockedSites)
    {
      if confirmed {
        blockedSites := [];
      }
    }

    /** `addFlashcard`: appends the new card unless its front or back is blank. */
    method AddFlashcard(front: string, back: string, category: string, now: int) returns (added: Option<Flashcard>)
      modifies this`flashcards
      ensures added == NewFlashcard(front, back, category, now)
      ensures flashcards == if added.Some? then old(flashcards) + [added.value] else old(flashcards)
    {
      if Trim(front) == "" || Trim(back) == "" {
        return None;
      }
      var trimmedCategory := Trim(category);
      var flashcardToAdd := Flashcard(now, Trim(front), Trim(back),
                                      if trimmedCategory == "" then DefaultFlashcardCategory else trimmedCategory);
      flashcards := flashcards + [flashcardToAdd];
      added := Some(flashcardToAdd);
    }

    /** `removeFlashcard`: the cards with another id, in their order. */
    method RemoveFlashcard(id: int)
      modifies this`flashcards
      ensures flashcards == WithoutCard(old(flashcards), id)
    {
      flashcards := WithoutCard(flashcards, id);
    }

    /**
     * `importFlashcardsCSV` once the file is read: the parsed cards are
     * appended unless the import is refused, and the number of cards
     * imported is returned.
     */
    method ImportFlashcardsCsv(file: Option<CsvFile>, now: int) returns (outcome: Result<nat, ImportError>)
      modifies this`flashcards
      ensures MergeImport(old(flashcards), file, now).Success? ==>
                && flashcards == MergeImport(old(flashcards), file, now).value
                && outcome == Success(|flashcards| - |old(flashcards)|)
      ensures MergeImport(old(flashcards), file, now).Failure? ==>
                && flashcards == old(flashcards)
                && outcome == Failure(MergeImport(old(flashcards), file, now).error)
    {
      if file.None? {
        return Failure(NoFile);
      }
      if !EndsWith(Lower(file.value.name), ".csv") {
        return Failure(NotCsv);
      }
      var importedFlashcards := ParseCsv(file.value.text, now);
      if |importedFlashcards| == 0 {
        return Failure(NoCards);
      }
      flashcards := flashcards + importedFlashcards;
      outcome := Success(|importedFlashcards|);
    }
  }
}
