/**
  * The legacy-URL redirect of src/middleware.ts. Old episode URLs
  * ("/episode/atn-123", "/atn123") are normalised to a slug and, when an
  * episode with that slug exists, answered with a permanent redirect to
  * "/episodes/{slug}/"; everything else falls through to the next handler.
  *
  * `Route` takes the two things the middleware reads from the content layer
  * as parameters: the series slugs (longest first) and the resolved episode
  * list that `getEpisodeBySlug` searches. `OnRequest` wires them to the
  * content model.
  */
module LegacyRedirect {
  import opened Wrappers
  import opened Seqs
  import opened ContentTypes
  import opened Slugs
  import opened Content
  import opened Digits

  // ---------------------------------------------------------------------------
  // Character classes of the two regular expressions

  predicate IsLetter(c: char) { 'a' <= c <= 'z' }

  predicate AllLetters(s: string) { forall i :: 0 <= i < |s| ==> IsLetter(s[i]) }

  function IsHyphen(c: char): bool { c == '-' }

  /**
    * `raw.match(/^([a-z]+)-(\d+)$/)`: the letters before the hyphen and the
    * digits after it. Letters contain no hyphen, so the only split that can
    * match is at the first hyphen.
    */
  function DashParts(raw: string): (r: Option<(string, string)>)
    ensures r.Some? ==> raw == r.value.0 + "-" + r.value.1
    ensures r.Some? ==> r.value.0 != [] && AllLetters(r.value.0) && r.value.1 != [] && AllDigits(r.value.1)
    ensures r.None? ==> forall k :: 0 <= k < |raw| && raw[k] == '-' ==>
              !(0 < k && AllLetters(raw[..k]) && k + 1 < |raw| && AllDigits(raw[k + 1..]))
  {
    match FirstIndex(raw, IsHyphen)
    case None => None
    case Some(k) =>
      var letters, digits := raw[..k], raw[k + 1..];
      assert raw == letters + "-" + digits;
      if letters != [] && AllLetters(letters) && digits != [] && AllDigits(digits) then Some((letters, digits))
      else
        LaterHyphensFollowHyphen(raw, k);
        None
  }

  /** A prefix that runs past a hyphen is not all letters. */
  lemma LaterHyphensFollowHyphen(raw: string, k: int)
    requires 0 <= k < |raw| && raw[k] == '-'
    ensures forall j :: k < j <= |raw| ==> !AllLetters(raw[..j])
  {
    forall j | k < j <= |raw| ensures !AllLetters(raw[..j]) {
      assert raw[..j][k] == '-';
    }
  }

  /** `raw.startsWith(prefix)` */
  predicate StartsWith(raw: string, prefix: string) {
    |prefix| <= |raw| && raw[..|prefix|] == prefix
  }

  /** `prefix` is a series slug that `raw` starts with, followed by a non-empty run of digits. */
  predicate PrefixFits(raw: string, prefix: string) {
    StartsWith(raw, prefix) && |raw| > |prefix| && AllDigits(raw[|prefix|..])
  }

  /**
    * The loop over `seriesSlugs`: it answers `raw` at the first prefix that
    * fits and keeps looking after one that does not.
    */
  function PrefixMatch(raw: string, prefixes: seq<string>): (r: Option<string>)
    ensures r.Some? ==> r.value == raw
    ensures r.Some? <==> exists i :: 0 <= i < |prefixes| && PrefixFits(raw, prefixes[i])
  {
    if prefixes == [] then None
    else if PrefixFits(raw, prefixes[0]) then Some(raw)
    else
      var r := PrefixMatch(raw, prefixes[1..]);
      assert forall i :: 0 < i < |prefixes| ==> prefixes[i] == prefixes[1..][i - 1];
      r
  }

  /**
    * `normalizeSlug(raw)` with the series slugs as a parameter: the
    * "letters-digits" form always normalises, by dropping its hyphen; any
    * other result is the raw slug unchanged.
    */
  function NormalizeSlug(raw: string, prefixes: seq<string>): (r: Option<string>)
    ensures DashParts(raw).Some? ==> r.Some?
    ensures r.Some? ==> r.value == raw || exists k :: 0 < k < |raw| && raw[k] == '-' && r.value == raw[..k] + raw[k + 1..]
  {
    match DashParts(raw)
    case Some((letters, digits)) =>
      var k := |letters|;
      assert raw[k] == '-' && raw[..k] == letters && raw[k + 1..] == digits;
      Some(letters + digits)
    case None => PrefixMatch(raw, prefixes)
  }

  /** "letters-digits" drops its hyphen, whether or not the letters name a series. */
  lemma NormalizeDashed(letters: string, digits: string, prefixes: seq<string>)
    requires letters != [] && AllLetters(letters) && digits != [] && AllDigits(digits)
    ensures NormalizeSlug(letters + "-" + digits, prefixes) == Some(letters + digits)
  {
    var raw := letters + "-" + digits;
    assert raw[|letters|] == '-';
    assert raw[..|letters|] == letters && raw[|letters| + 1..] == digits;
  }

  /**
    * Any other input is answered unchanged exactly when some series slug
    * is a prefix of it followed by a non-empty run of digits, and is
    * rejected otherwise.
    */
  lemma NormalizeDashless(raw: string, prefixes: seq<string>)
    requires DashParts(raw).None?
    ensures NormalizeSlug(raw, prefixes) == Some(raw) <==> exists i :: 0 <= i < |prefixes| && PrefixFits(raw, prefixes[i])
    ensures NormalizeSlug(raw, prefixes) != Some(raw) ==> NormalizeSlug(raw, prefixes) == None
  {
  }

  /** The order of the series slugs does not change the answer. */
  lemma NormalizeOrderIndependent(raw: string, prefixes: seq<string>, others: seq<string>)
    requires forall p :: p in prefixes <==> p in others
    ensures NormalizeSlug(raw, prefixes) == NormalizeSlug(raw, others)
  {
    if DashParts(raw).None? {
      var a := PrefixMatch(raw, prefixes);
      var b := PrefixMatch(raw, others);
      if a.Some? {
        var i :| 0 <= i < |prefixes| && PrefixFits(raw, prefixes[i]);
        assert prefixes[i] in others;
      }
      if b.Some? {
        var i :| 0 <= i < |others| && PrefixFits(raw, others[i]);
        assert others[i] in prefixes;
      }
    }
  }

  /** Every slug `normalizeSlug` yields ends in a digit, so it is never empty. */
  lemma NormalizeEndsInDigit(raw: string, prefixes: seq<string>)
    requires NormalizeSlug(raw, prefixes).Some?
    ensures var s := NormalizeSlug(raw, prefixes).value; s != [] && IsDigit(s[|s| - 1])
  {
    match DashParts(raw)
    case Some((letters, digits)) =>
      assert (letters + digits)[|letters + digits| - 1] == digits[|digits| - 1];
    case None =>
      var i :| 0 <= i < |prefixes| && PrefixFits(raw, prefixes[i]);
      assert raw[|raw| - 1] == raw[|prefixes[i]|..][|raw| - |prefixes[i]| - 1];
  }

  /** The dashed branch never yields a hyphen. */
  lemma DashedSlugHasNoHyphen(raw: string, prefixes: seq<string>)
    requires DashParts(raw).Some?
    ensures NormalizeSlug(raw, prefixes).Some? && '-' !in NormalizeSlug(raw, prefixes).value
  {
    var (letters, digits) := DashParts(raw).value;
    var s := letters + digits;
    forall i | 0 <= i < |s| ensures s[i] != '-' {
      if i < |letters| {
        assert s[i] == letters[i];
      } else {
        assert s[i] == digits[i - |letters|];
      }
    }
  }

  /** With hyphen-free series slugs, no slug `normalizeSlug` yields has a hyphen. */
  lemma NormalizedSlugHasNoHyphen(raw: string, prefixes: seq<string>)
    requires forall i :: 0 <= i < |prefixes| ==> '-' !in prefixes[i]
    requires NormalizeSlug(raw, prefixes).Some?
    ensures '-' !in NormalizeSlug(raw, prefixes).value
  {
    if DashParts(raw).Some? {
      DashedSlugHasNoHyphen(raw, prefixes);
    } else {
      var i :| 0 <= i < |prefixes| && PrefixFits(raw, prefixes[i]);
      var p := prefixes[i];
      forall j | 0 <= j < |raw| ensures raw[j] != '-' {
        if j < |p| {
          assert raw[j] == p[j];
        } else {
          assert raw[j] == raw[|p|..][j - |p|];
        }
      }
    }
  }

  // ---------------------------------------------------------------------------
  // Path classification

  /** `/^\/episode\/([^/]+)\/?$/`: the segment after "/episode/", one trailing "/" allowed. */
  function EpisodeSegment(path: string): (r: Option<string>)
    ensures r.Some? ==> r.value != [] && '/' !in r.value
    ensures r.Some? ==> path == "/episode/" + r.value || path == "/episode/" + r.value + "/"
  {
    if !StartsWith(path, "/episode/") then None
    else
      var rest := path[9..];
      var seg := if rest != [] && rest[|rest| - 1] == '/' then rest[..|rest| - 1] else rest;
      assert path == "/episode/" + rest;
      if seg != [] && '/' !in seg then Some(seg) else None
  }

  /** Every non-empty slash-free segment matches, with or without the trailing "/". */
  lemma EpisodeSegmentOf(seg: string)
    requires seg != [] && '/' !in seg
    ensures EpisodeSegment("/episode/" + seg) == Some(seg)
    ensures EpisodeSegment("/episode/" + seg + "/") == Some(seg)
  {
    var path := "/episode/" + seg;
    assert StartsWith(path, "/episode/") && path[9..] == seg;
    assert seg[|seg| - 1] in seg;
    var slashed := path + "/";
    assert StartsWith(slashed, "/episode/") && slashed[9..] == seg + "/";
    assert (seg + "/")[..|seg|] == seg;
  }

  /** One or more letters followed by one or more digits. */
  predicate LettersThenDigits(s: string) {
    exists k :: 0 < k < |s| && AllLetters(s[..k]) && AllDigits(s[k..])
  }

  /** `/^\/([a-z]+\d+)\/?$/`: a root segment of letters then digits, one trailing "/" allowed. */
  function RootSegment(path: string): (r: Option<string>)
    ensures r.Some? ==> LettersThenDigits(r.value)
    ensures r.Some? ==> path == "/" + r.value || path == "/" + r.value + "/"
  {
    if path == [] || path[0] != '/' then None
    else
      var rest := path[1..];
      var seg := if rest != [] && rest[|rest| - 1] == '/' then rest[..|rest| - 1] else rest;
      assert path == "/" + rest;
      if LettersThenDigits(seg) then Some(seg) else None
  }

  /** Every letters-then-digits segment matches, with or without the trailing "/". */
  lemma RootSegmentOf(seg: string)
    requires LettersThenDigits(seg)
    ensures RootSegment("/" + seg) == Some(seg)
    ensures RootSegment("/" + seg + "/") == Some(seg)
  {
    var k :| 0 < k < |seg| && AllLetters(seg[..k]) && AllDigits(seg[k..]);
    assert seg[|seg| - 1] == seg[k..][|seg| - 1 - k];
    var path := "/" + seg;
    assert path[1..] == seg;
    var slashed := path + "/";
    assert slashed[1..] == seg + "/";
    assert (seg + "/")[..|seg|] == seg;
  }

  /** A segment with a "/" in it is not letters then digits. */
  lemma SlashIsNotLettersThenDigits(s: string, j: nat)
    requires j < |s| && s[j] == '/'
    ensures !LettersThenDigits(s)
  {
    forall k | 0 < k < |s| ensures !(AllLetters(s[..k]) && AllDigits(s[k..])) {
      if j < k {
        assert s[..k][j] == '/';
      } else {
        assert s[k..][j - k] == '/';
      }
    }
  }

  /** Paths under "/episode/" never take the root-level branch. */
  lemma RootSkipsEpisodePaths(path: string, rest: string)
    requires path == "/episode/" + rest
    ensures RootSegment(path).None?
  {
    var tail := path[1..];
    assert tail[7] == '/';
    var seg := if tail != [] && tail[|tail| - 1] == '/' then tail[..|tail| - 1] else tail;
    if |seg| > 7 {
      assert seg[7] == '/';
      SlashIsNotLettersThenDigits(seg, 7);
    } else {
      assert !LettersThenDigits(seg) by {
        forall k | 0 < k < |seg| ensures !(AllLetters(seg[..k]) && AllDigits(seg[k..])) {
          assert seg[k..][|seg| - k - 1] == tail[|seg| - 1];
          assert seg == tail[..|seg|];
        }
      }
    }
  }

  // ---------------------------------------------------------------------------
  // The decision

  /** `context.redirect(location, status)` or `next()`. */
  datatype Response = Redirect(location: string, status: int) | Next

  /** `slug && getEpisodeBySlug(slug)`: a non-empty slug of a listed episode. */
  predicate Found(slug: Option<string>, episodes: seq<Episode>) {
    slug.Some? && slug.value != [] && FindEpisode(episodes, slug.value).Some?
  }

  function EpisodePage(slug: string): string { "/episodes/" + slug + "/" }

  /** `onRequest`, with the series slugs and the resolved episode list as parameters. */
  function Route(path: string, prefixes: seq<string>, episodes: seq<Episode>): (r: Response)
    ensures r.Redirect? ==> r.status == 301
    ensures r.Redirect? ==> StartsWith(r.location, "/episodes/") && r.location[|r.location| - 1] == '/'
  {
    if path == "/episode" || path == "/episode/" then Redirect("/episodes/", 301)
    else
      var fromEpisode := match EpisodeSegment(path)
        case Some(seg) => NormalizeSlug(seg, prefixes)
        case None => None;
      if Found(fromEpisode, episodes) then Redirect(EpisodePage(fromEpisode.value), 301)
      else
        var fromRoot := match RootSegment(path)
          case Some(seg) => NormalizeSlug(seg, prefixes)
          case None => None;
        if Found(fromRoot, episodes) then Redirect(EpisodePage(fromRoot.value), 301)
        else Next
  }

  /** The singular list page always goes to the plural one. */
  lemma RouteEpisodeList(path: string, prefixes: seq<string>, episodes: seq<Episode>)
    requires path == "/episode" || path == "/episode/"
    ensures Route(path, prefixes, episodes) == Redirect("/episodes/", 301)
  {
  }

  /**
    * Every other redirect goes to the page of an episode that exists, whose
    * slug is what `normalizeSlug` made of the path's segment.
    */
  lemma RouteRedirectsToExisting(path: string, prefixes: seq<string>, episodes: seq<Episode>)
    requires Route(path, prefixes, episodes).Redirect?
    requires path != "/episode" && path != "/episode/"
    ensures exists seg, slug ::
              (EpisodeSegment(path) == Some(seg) || RootSegment(path) == Some(seg))
              && NormalizeSlug(seg, prefixes) == Some(slug)
              && FindEpisode(episodes, slug).Some?
              && Route(path, prefixes, episodes).location == EpisodePage(slug)
  {
    match EpisodeSegment(path)
    case Some(seg) =>
      if Found(NormalizeSlug(seg, prefixes), episodes) {
        var slug := NormalizeSlug(seg, prefixes).value;
        assert Route(path, prefixes, episodes).location == EpisodePage(slug);
      } else {
        var seg' := RootSegment(path).value;
        var slug := NormalizeSlug(seg', prefixes).value;
        assert Route(path, prefixes, episodes).location == EpisodePage(slug);
      }
    case None =>
      var seg := RootSegment(path).value;
      var slug := NormalizeSlug(seg, prefixes).value;
      assert Route(path, prefixes, episodes).location == EpisodePage(slug);
  }

  /** Conversely, a "/episode/{seg}" path whose slug exists is redirected to it. */
  lemma RouteEpisodePath(path: string, seg: string, slug: string, prefixes: seq<string>, episodes: seq<Episode>)
    requires EpisodeSegment(path) == Some(seg)
    requires NormalizeSlug(seg, prefixes) == Some(slug) && FindEpisode(episodes, slug).Some?
    ensures Route(path, prefixes, episodes) == Redirect(EpisodePage(slug), 301)
  {
    NormalizeEndsInDigit(seg, prefixes);
  }

  /** Conversely, a root-level "/{letters}{digits}" path whose slug exists is redirected to it. */
  lemma RouteRootPath(path: string, seg: string, slug: string, prefixes: seq<string>, episodes: seq<Episode>)
    requires RootSegment(path) == Some(seg)
    requires NormalizeSlug(seg, prefixes) == Some(slug) && FindEpisode(episodes, slug).Some?
    ensures Route(path, prefixes, episodes) == Redirect(EpisodePage(slug), 301)
  {
    NormalizeEndsInDigit(seg, prefixes);
    if EpisodeSegment(path).Some? {
      RootSkipsEpisodePaths(path, path[9..]);
      assert false;
    }
    RootIsNotEpisodeList(path, seg);
  }

  /** A root-level match is never the list path: its segment ends in a digit. */
  lemma RootIsNotEpisodeList(path: string, seg: string)
    requires RootSegment(path) == Some(seg)
    ensures path != "/episode" && path != "/episode/"
  {
    var k :| 0 < k < |seg| && AllLetters(seg[..k]) && AllDigits(seg[k..]);
    assert IsDigit(seg[|seg| - 1]) by {
      assert seg[k..][|seg| - k - 1] == seg[|seg| - 1];
    }
    assert path[|seg|] == seg[|seg| - 1];
  }

  /** Every other path falls through to the next handler. */
  lemma RouteFallsThrough(path: string, prefixes: seq<string>, episodes: seq<Episode>)
    requires path != "/episode" && path != "/episode/"
    requires EpisodeSegment(path).Some? ==> !Found(NormalizeSlug(EpisodeSegment(path).value, prefixes), episodes)
    requires RootSegment(path).Some? ==> !Found(NormalizeSlug(RootSegment(path).value, prefixes), episodes)
    ensures Route(path, prefixes, episodes) == Next
  {
  }

  // ---------------------------------------------------------------------------
  // Wired to the content model

  function SeriesSlugOf(s: Series): string { s.slug }
  function SlugLength(s: string): int { |s| }

  /** `getAllSeries().map(s => s.slug).sort((a, b) => b.length - a.length)` */
  function SeriesSlugs(d: RawExport): (r: seq<string>)
    ensures |r| == |AllSeries(d)|
  {
    SortDesc(MapSeq(AllSeries(d), SeriesSlugOf), SlugLength)
  }

  /** The series slugs are longest first, a permutation of the listed series' slugs. */
  lemma SeriesSlugsOrder(d: RawExport)
    ensures NonIncreasing(SeriesSlugs(d), SlugLength)
    ensures multiset(SeriesSlugs(d)) == multiset(MapSeq(AllSeries(d), SeriesSlugOf))
  {
    SortDescSorted(MapSeq(AllSeries(d), SeriesSlugOf), SlugLength);
    SortDescPermutes(MapSeq(AllSeries(d), SeriesSlugOf), SlugLength);
  }

  /** Each series slug is the slug of a raw series. */
  lemma SeriesSlugsFromExport(d: RawExport)
    ensures forall j :: 0 <= j < |SeriesSlugs(d)| ==> exists i :: 0 <= i < |d.series| && SeriesSlugs(d)[j] == d.series[i].slug
  {
    var l := MapSeq(AllSeries(d), SeriesSlugOf);
    SortDescPermutes(l, SlugLength);
    AllSeriesFromExport(d);
    forall j | 0 <= j < |SeriesSlugs(d)| ensures exists i :: 0 <= i < |d.series| && SeriesSlugs(d)[j] == d.series[i].slug {
      assert SeriesSlugs(d)[j] in multiset(l);
      var k :| 0 <= k < |l| && l[k] == SeriesSlugs(d)[j];
      var i :| 0 <= i < |d.series| && AllSeries(d)[k] == SeriesOf(d, d.series[i]);
    }
  }

  /**
    * `onRequest(context)` on the site built from the export: every redirect
    * is permanent, and every redirect but the episode list's goes to the
    * page of an episode the site has.
    */
  function OnRequest(d: RawExport, path: string): (r: Response)
    requires WellFormed(d)
    ensures r.Redirect? ==> r.status == 301
    ensures r.Redirect? && path != "/episode" && path != "/episode/" ==>
              exists j :: 0 <= j < |AllEpisodes(d)| && r.location == EpisodePage(AllEpisodes(d)[j].slug)
  {
    var response := Route(path, SeriesSlugs(d), AllEpisodes(d));
    if response.Redirect? && path != "/episode" && path != "/episode/" then
      RouteRedirectsToExisting(path, SeriesSlugs(d), AllEpisodes(d));
      response
    else response
  }

  /** A "/episode/" path whose segment is "letters-digits". */
  lemma DashedEpisodePath(letters: string, digits: string)
    requires letters != [] && AllLetters(letters) && digits != [] && AllDigits(digits)
    ensures var path := "/episode/" + letters + "-" + digits;
      && EpisodeSegment(path) == Some(letters + "-" + digits)
      && RootSegment(path).None?
      && path != "/episode" && path != "/episode/"
  {
    var seg := letters + "-" + digits;
    var path := "/episode/" + seg;
    assert path == "/episode/" + letters + "-" + digits;
    assert path[..9] == "/episode/" && path[9..] == seg;
    assert seg[|seg| - 1] == digits[|digits| - 1];
    assert '/' !in seg by {
      forall i | 0 <= i < |seg| ensures seg[i] != '/' {
        if i < |letters| {
          assert seg[i] == letters[i];
        } else if i > |letters| {
          assert seg[i] == digits[i - |letters| - 1];
        }
      }
    }
    RootSkipsEpisodePaths(path, seg);
  }

  /**
    * A dashed legacy URL never reaches its episode: the dashed branch drops
    * the hyphen, while every stored slug has one.
    */
  lemma DashedLegacyUrlFallsThrough(d: RawExport, letters: string, digits: string)
    requires WellFormed(d)
    requires letters != [] && AllLetters(letters) && digits != [] && AllDigits(digits)
    ensures OnRequest(d, "/episode/" + letters + "-" + digits) == Next
  {
    var seg := letters + "-" + digits;
    DashedEpisodePath(letters, digits);
    NormalizeDashed(letters, digits, SeriesSlugs(d));
    DashedSlugHasNoHyphen(seg, SeriesSlugs(d));
    AllEpisodeSlugsHaveHyphen(d);
    var slug := letters + digits;
    assert FindEpisode(AllEpisodes(d), slug).None?;
  }

  /** A route whose every normalised slug is unknown only ever answers the list redirect or falls through. */
  lemma RouteWithoutMatches(path: string, prefixes: seq<string>, episodes: seq<Episode>)
    requires forall seg :: NormalizeSlug(seg, prefixes).Some? ==> FindEpisode(episodes, NormalizeSlug(seg, prefixes).value).None?
    ensures Route(path, prefixes, episodes) == Next || Route(path, prefixes, episodes) == Redirect("/episodes/", 301)
  {
  }

  /** Hyphen-free prefixes and hyphenated stored slugs never meet. */
  lemma HyphenFreeSlugsNeverFound(prefixes: seq<string>, episodes: seq<Episode>)
    requires forall i :: 0 <= i < |prefixes| ==> '-' !in prefixes[i]
    requires forall j :: 0 <= j < |episodes| ==> '-' in episodes[j].slug
    ensures forall seg :: NormalizeSlug(seg, prefixes).Some? ==> FindEpisode(episodes, NormalizeSlug(seg, prefixes).value).None?
  {
    forall seg | NormalizeSlug(seg, prefixes).Some? ensures FindEpisode(episodes, NormalizeSlug(seg, prefixes).value).None? {
      NormalizedSlugHasNoHyphen(seg, prefixes);
    }
  }

  /**
    * When no series slug has a hyphen, no legacy URL reaches an episode at
    * all: every request is the list redirect or falls through.
    */
  lemma LegacyUrlsNeverReachEpisodes(d: RawExport, path: string)
    requires WellFormed(d)
    requires forall i :: 0 <= i < |d.series| ==> '-' !in d.series[i].slug
    ensures OnRequest(d, path) == Next || OnRequest(d, path) == Redirect("/episodes/", 301)
  {
    var prefixes := SeriesSlugs(d);
    SeriesSlugsFromExport(d);
    assert forall i :: 0 <= i < |prefixes| ==> '-' !in prefixes[i];
    AllEpisodeSlugsHaveHyphen(d);
    HyphenFreeSlugsNeverFound(prefixes, AllEpisodes(d));
    RouteWithoutMatches(path, prefixes, AllEpisodes(d));
  }
}
