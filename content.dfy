/**
  * The content resolver of src/data/index.ts. At load time it builds lookup
  * tables from the static export (the `Map`s filled at lines 27-94); the
  * queries then resolve raw records into the records the pages read.
  *
  * Every table is specified by a function of the export; `BuildTables` is the
  * loop code that fills them and is proved to produce exactly those tables.
  * The queries are functions of the export, and `Site` holds the one piece of
  * mutable state, the memo of the resolved episode list.
  */
module Content {
  import opened Wrappers
  import opened Seqs
  import opened ContentTypes
  import opened Slugs

  // ---------------------------------------------------------------------------
  // Keys and the small records the grouping loops push

  function SeriesKey(s: RawSeries): int { s.id }
  function EpisodeKey(e: RawEpisode): int { e.id }
  function EpisodeSeriesKey(e: RawEpisode): int { e.seriesId }
  function MediaKey(m: RawEpisodeMedia): int { m.episodeId }
  function PersonKey(p: RawPerson): int { p.id }
  function RelEpisodeKey(r: RawPersonRelation): int { r.episodeId }
  function RelPersonKey(r: RawPersonRelation): int { r.personId }

  /** `{ person_id, role }`, pushed per episode. */
  datatype PersonLink = PersonLink(personId: int, role: Role)

  /** `{ episode_id, role }`, pushed per person. */
  datatype EpisodeLink = EpisodeLink(episodeId: int, role: Role)

  function ToPersonLink(r: RawPersonRelation): PersonLink { PersonLink(r.personId, r.role) }
  function ToEpisodeLink(r: RawPersonRelation): EpisodeLink { EpisodeLink(r.episodeId, r.role) }

  // ---------------------------------------------------------------------------
  // The lookup tables, as functions of the export

  function SeriesById(d: RawExport): map<int, RawSeries> { IndexBy(d.series, SeriesKey) }
  function EpisodeById(d: RawExport): map<int, RawEpisode> { IndexBy(d.episodes, EpisodeKey) }
  function MediaByEpisodeId(d: RawExport): map<int, RawEpisodeMedia> { IndexBy(d.episodeMedias, MediaKey) }

  function PeopleRelsByEpisode(d: RawExport): map<int, seq<PersonLink>> {
    GroupBy(d.peopleRelations, RelEpisodeKey, ToPersonLink)
  }

  function EpisodeRelsByPerson(d: RawExport): map<int, seq<EpisodeLink>> {
    GroupBy(d.peopleRelations, RelPersonKey, ToEpisodeLink)
  }

  /** `peopleRelsByEpisode.get(id) ?? []` */
  function PersonLinksOf(d: RawExport, episodeId: int): (links: seq<PersonLink>)
  {
    var m := PeopleRelsByEpisode(d);
    if episodeId in m then m[episodeId] else []
  }

  /** `episodeRelsByPerson.get(id) ?? []` */
  function EpisodeLinksOf(d: RawExport, personId: int): (links: seq<EpisodeLink>)
  {
    var m := EpisodeRelsByPerson(d);
    if personId in m then m[personId] else []
  }

  /**
    * The slug of the episode a relation points at, when that episode and its
    * series both exist (the two `continue`s of the relation loop).
    */
  function RelatedSlug(d: RawExport, rel: RawEpisodeRelation): (r: Option<string>)
    ensures r.Some? <==> rel.relatedId in EpisodeById(d) && EpisodeById(d)[rel.relatedId].seriesId in SeriesById(d)
  {
    var episodes := EpisodeById(d);
    if rel.relatedId !in episodes then None
    else
      var related := episodes[rel.relatedId];
      var series := SeriesById(d);
      if related.seriesId !in series then None
      else Some(EpisodeSlug(series[related.seriesId].slug, related.number))
  }

  /** The fringe or the parent map after the relation loop has run over `rels`. */
  function RelationMap(d: RawExport, rels: seq<RawEpisodeRelation>, kind: RelationKind): map<int, string> {
    if rels == [] then map[]
    else
      var m := RelationMap(d, rels[..|rels| - 1], kind);
      var rel := rels[|rels| - 1];
      var slug := RelatedSlug(d, rel);
      if slug.Some? && rel.kind == kind then m[rel.episodeId := slug.value] else m
  }

  function FringeMap(d: RawExport): map<int, string> { RelationMap(d, d.episodeRelations, Fringe) }
  function ParentMap(d: RawExport): map<int, string> { RelationMap(d, d.episodeRelations, Parent) }

  /** `new Map(people.map(p => [p.id, slugifyName(p.name)]))` */
  function PersonSlugById(d: RawExport): map<int, string> {
    var byId := IndexBy(d.people, PersonKey);
    map id | id in byId :: Slugify(byId[id].name)
  }

  /** `links.some(r => r.role === "host")` */
  function HasHosted(links: seq<EpisodeLink>): (r: bool)
    ensures r <==> exists j :: 0 <= j < |links| && links[j].role == Host
  {
    if links == [] then false
    else if links[0].role == Host then true
    else
      assert forall j :: 0 < j < |links| ==> links[j] == links[1..][j - 1];
      HasHosted(links[1..])
  }

  /** The role the loop assigns to a person id. */
  function RoleOf(d: RawExport, personId: int): Role {
    if HasHosted(EpisodeLinksOf(d, personId)) then Host else Guest
  }

  /** `personGlobalRole` after the loop has run over `people`. */
  function GlobalRoles(d: RawExport, people: seq<RawPerson>): (m: map<int, Role>)
    ensures forall i :: 0 <= i < |people| ==> people[i].id in m
  {
    if people == [] then map[]
    else
      var p := people[|people| - 1];
      GlobalRoles(d, people[..|people| - 1])[p.id := RoleOf(d, p.id)]
  }

  function PersonGlobalRole(d: RawExport): map<int, Role> { GlobalRoles(d, d.people) }

  function EpisodeCountBySeries(d: RawExport): map<int, nat> { CountBy(d.episodes, EpisodeSeriesKey) }

  // ---------------------------------------------------------------------------
  // What the tables hold

  lemma PersonLinksOfCollect(d: RawExport, episodeId: int)
    ensures PersonLinksOf(d, episodeId) == Collect(d.peopleRelations, RelEpisodeKey, ToPersonLink, episodeId)
  {
    GroupBySpec(d.peopleRelations, RelEpisodeKey, ToPersonLink, episodeId);
  }

  lemma EpisodeLinksOfCollect(d: RawExport, personId: int)
    ensures EpisodeLinksOf(d, personId) == Collect(d.peopleRelations, RelPersonKey, ToEpisodeLink, personId)
  {
    GroupBySpec(d.peopleRelations, RelPersonKey, ToEpisodeLink, personId);
  }

  /** A relation of `kind` on `episodeId` whose target resolves. */
  ghost predicate Resolves(d: RawExport, rel: RawEpisodeRelation, kind: RelationKind, episodeId: int) {
    rel.kind == kind && rel.episodeId == episodeId && RelatedSlug(d, rel).Some?
  }

  /**
    * An episode has a fringe (or parent) slug exactly when some relation of
    * that kind on it resolves: relations whose target episode or series is
    * missing are skipped.
    */
  lemma {:induction false} RelationMapSpec(d: RawExport, rels: seq<RawEpisodeRelation>, kind: RelationKind, episodeId: int)
    ensures episodeId in RelationMap(d, rels, kind)
        <==> exists i :: 0 <= i < |rels| && Resolves(d, rels[i], kind, episodeId)
  {
    if rels != [] {
      var init := rels[..|rels| - 1];
      RelationMapSpec(d, init, kind, episodeId);
      assert forall i :: 0 <= i < |init| ==> init[i] == rels[i];
    }
  }

  /** The slug stored for an episode is the one of the LAST resolving relation: a later one overwrites an earlier one. */
  lemma {:induction false} RelationMapLast(d: RawExport, rels: seq<RawEpisodeRelation>, kind: RelationKind, episodeId: int, i: int)
    requires 0 <= i < |rels| && Resolves(d, rels[i], kind, episodeId)
    requires forall j :: i < j < |rels| ==> !Resolves(d, rels[j], kind, episodeId)
    ensures episodeId in RelationMap(d, rels, kind)
    ensures RelationMap(d, rels, kind)[episodeId] == RelatedSlug(d, rels[i]).value
  {
    var init := rels[..|rels| - 1];
    if i < |rels| - 1 {
      assert !Resolves(d, rels[|rels| - 1], kind, episodeId);
      assert init[i] == rels[i];
      assert forall j :: i < j < |init| ==> init[j] == rels[j];
      RelationMapLast(d, init, kind, episodeId, i);
    }
  }

  /** The role stored for a person id is the one computed from its relations. */
  lemma {:induction false} GlobalRolesValue(d: RawExport, people: seq<RawPerson>, personId: int)
    requires personId in GlobalRoles(d, people)
    ensures GlobalRoles(d, people)[personId] == RoleOf(d, personId)
  {
    if people != [] && people[|people| - 1].id != personId {
      GlobalRolesValue(d, people[..|people| - 1], personId);
    }
  }

  /** A person is a host exactly when one of their relations has the host role. */
  lemma GlobalRoleIsHost(d: RawExport, i: nat)
    requires i < |d.people|
    ensures d.people[i].id in PersonGlobalRole(d)
    ensures PersonGlobalRole(d)[d.people[i].id] == Host
        <==> exists j :: 0 <= j < |d.peopleRelations|
               && d.peopleRelations[j].personId == d.people[i].id && d.peopleRelations[j].role == Host
  {
    var id := d.people[i].id;
    GlobalRolesValue(d, d.people, id);
    EpisodeLinksOfCollect(d, id);
    CollectExists(d.peopleRelations, RelPersonKey, ToEpisodeLink, id, IsHostLink);
  }

  predicate IsHostLink(l: EpisodeLink) { l.role == Host }

  /** The media row of an episode is the LAST row naming it. */
  lemma MediaIsLastRow(d: RawExport, i: nat)
    requires i < |d.episodeMedias|
    requires forall j :: i < j < |d.episodeMedias| ==> d.episodeMedias[j].episodeId != d.episodeMedias[i].episodeId
    ensures MediaByEpisodeId(d)[d.episodeMedias[i].episodeId] == d.episodeMedias[i]
  {
    IndexByLast(d.episodeMedias, MediaKey, i);
  }

  /** Every person id has a slug: the slugified name of the LAST person with that id. */
  lemma PersonSlugIsLastName(d: RawExport, i: nat)
    requires i < |d.people|
    requires forall j :: i < j < |d.people| ==> d.people[j].id != d.people[i].id
    ensures d.people[i].id in PersonSlugById(d)
    ensures PersonSlugById(d)[d.people[i].id] == Slugify(d.people[i].name)
    ensures IsSlug(PersonSlugById(d)[d.people[i].id])
  {
    IndexByLast(d.people, PersonKey, i);
    SlugifyIsSlug(d.people[i].name);
  }

  datatype Tables = Tables(
    seriesById: map<int, RawSeries>,
    episodeById: map<int, RawEpisode>,
    mediaByEpisodeId: map<int, RawEpisodeMedia>,
    peopleRelsByEpisode: map<int, seq<PersonLink>>,
    episodeRelsByPerson: map<int, seq<EpisodeLink>>,
    fringeMap: map<int, string>,
    parentMap: map<int, string>,
    personSlugById: map<int, string>,
    personGlobalRole: map<int, Role>,
    episodeCountBySeries: map<int, nat>)

  function TablesOf(d: RawExport): Tables {
    Tables(
      SeriesById(d), EpisodeById(d), MediaByEpisodeId(d),
      PeopleRelsByEpisode(d), EpisodeRelsByPerson(d),
      FringeMap(d), ParentMap(d), PersonSlugById(d),
      PersonGlobalRole(d), EpisodeCountBySeries(d))
  }

  // ---------------------------------------------------------------------------
  // The load-time loops

  /**
    * The two grouping loops of lines 40-44 and 51-55:
    * `list = m.get(key) ?? []; list.push(value); m.set(key, list)`.
    */
  method GroupLoop<T, V>(xs: seq<T>, key: T -> int, val: T -> V) returns (m: map<int, seq<V>>)
    ensures m == GroupBy(xs, key, val)
  {
    m := map[];
    var i := 0;
    while i < |xs|
      invariant 0 <= i <= |xs|
      invariant m == GroupBy(xs[..i], key, val)
    {
      var x := xs[i];
      var list := if key(x) in m then m[key(x)] else [];
      list := list + [val(x)];
      m := m[key(x) := list];
      assert xs[..i + 1][..i] == xs[..i];
      i := i + 1;
    }
    assert xs[..i] == xs;
  }

  /** The relation loop of lines 58-72, filling the fringe and the parent map together. */
  method RelationLoop(d: RawExport, episodeById: map<int, RawEpisode>, seriesById: map<int, RawSeries>)
    returns (fringeMap: map<int, string>, parentMap: map<int, string>)
    requires episodeById == EpisodeById(d) && seriesById == SeriesById(d)
    ensures fringeMap == FringeMap(d) && parentMap == ParentMap(d)
  {
    var rels := d.episodeRelations;
    fringeMap, parentMap := map[], map[];
    var i := 0;
    while i < |rels|
      invariant 0 <= i <= |rels|
      invariant fringeMap == RelationMap(d, rels[..i], Fringe)
      invariant parentMap == RelationMap(d, rels[..i], Parent)
    {
      var rel := rels[i];
      assert rels[..i + 1][..i] == rels[..i];
      i := i + 1;
      if rel.relatedId !in episodeById {
        continue;
      }
      var related := episodeById[rel.relatedId];
      if related.seriesId !in seriesById {
        continue;
      }
      var relatedSlug := EpisodeSlug(seriesById[related.seriesId].slug, related.number);
      if rel.kind == Fringe {
        fringeMap := fringeMap[rel.episodeId := relatedSlug];
      } else {
        parentMap := parentMap[rel.episodeId := relatedSlug];
      }
    }
    assert rels[..i] == rels;
  }

  /** The global-role loop of lines 80-85. */
  /** The role the loop computes from the grouped table is `RoleOf`. */
  lemma RoleOfLookup(d: RawExport, episodeRelsByPerson: map<int, seq<EpisodeLink>>, personId: int)
    requires episodeRelsByPerson == EpisodeRelsByPerson(d)
    ensures RoleOf(d, personId)
         == if HasHosted(if personId in episodeRelsByPerson then episodeRelsByPerson[personId] else [])
            then Host else Guest
  {
  }

  /** One more person through the role loop. */
  lemma GlobalRolesStep(d: RawExport, people: seq<RawPerson>, i: int)
    requires 0 <= i < |people|
    ensures GlobalRoles(d, people[..i + 1]) == GlobalRoles(d, people[..i])[people[i].id := RoleOf(d, people[i].id)]
  {
    assert people[..i + 1][..i] == people[..i];
  }

  method RoleLoop(d: RawExport, episodeRelsByPerson: map<int, seq<EpisodeLink>>) returns (m: map<int, Role>)
    requires episodeRelsByPerson == EpisodeRelsByPerson(d)
    ensures m == PersonGlobalRole(d)
  {
    var people := d.people;
    m := map[];
    var i := 0;
    while i < |people|
      invariant 0 <= i <= |people|
      invariant m == GlobalRoles(d, people[..i])
    {
      var person := people[i];
      var rels := if person.id in episodeRelsByPerson then episodeRelsByPerson[person.id] else [];
      var hasHosted := HasHosted(rels);
      RoleOfLookup(d, episodeRelsByPerson, person.id);
      GlobalRolesStep(d, people, i);
      m := m[person.id := if hasHosted then Host else Guest];
      i := i + 1;
    }
    assert people[..i] == people;
  }

  /** The counting loop of lines 88-94: `m.set(key, (m.get(key) ?? 0) + 1)`. */
  method CountLoop<T>(xs: seq<T>, key: T -> int) returns (m: map<int, nat>)
    ensures m == CountBy(xs, key)
  {
    m := map[];
    var i := 0;
    while i < |xs|
      invariant 0 <= i <= |xs|
      invariant m == CountBy(xs[..i], key)
    {
      var k := key(xs[i]);
      m := m[k := (if k in m then m[k] else 0) + 1];
      assert xs[..i + 1][..i] == xs[..i];
      i := i + 1;
    }
    assert xs[..i] == xs;
  }

  /** The module initialisation of src/data/index.ts, lines 27-94. */
  method BuildTables(d: RawExport) returns (t: Tables)
    ensures t == TablesOf(d)
  {
    var seriesById := IndexBy(d.series, SeriesKey);
    var episodeById := IndexBy(d.episodes, EpisodeKey);
    var mediaByEpisodeId := IndexBy(d.episodeMedias, MediaKey);
    var peopleRelsByEpisode := GroupLoop(d.peopleRelations, RelEpisodeKey, ToPersonLink);
    var episodeRelsByPerson := GroupLoop(d.peopleRelations, RelPersonKey, ToEpisodeLink);
    var fringeMap, parentMap := RelationLoop(d, episodeById, seriesById);
    var personSlugById := PersonSlugById(d);
    var personGlobalRole := RoleLoop(d, episodeRelsByPerson);
    var episodeCountBySeries := CountLoop(d.episodes, EpisodeSeriesKey);
    t := Tables(
      seriesById, episodeById, mediaByEpisodeId,
      peopleRelsByEpisode, episodeRelsByPerson,
      fringeMap, parentMap, personSlugById,
      personGlobalRole, episodeCountBySeries);
  }

  // ---------------------------------------------------------------------------
  // Series queries

  /** `episodeCountBySeries.get(id) ?? 0`: the number of raw episodes of the series. */
  function SeriesEpisodeCount(d: RawExport, seriesId: int): (n: nat)
    ensures n == CountKey(d.episodes, EpisodeSeriesKey, seriesId)
  {
    CountBySpec(d.episodes, EpisodeSeriesKey, seriesId);
    var m := EpisodeCountBySeries(d);
    if seriesId in m then m[seriesId] else 0
  }

  function SeriesOf(d: RawExport, s: RawSeries): Series {
    Series(s.id, s.name, s.slug, s.description, SeriesEpisodeCount(d, s.id))
  }

  function HasEpisodes(d: RawExport): RawSeries -> bool { (s: RawSeries) => SeriesEpisodeCount(d, s.id) > 0 }
  function ToSeries(d: RawExport): RawSeries -> Series { (s: RawSeries) => SeriesOf(d, s) }
  function EpisodeCountKey(s: Series): int { s.episodeCount }

  /** The series before the sort: those with an episode, resolved, in export order. */
  function ListedSeries(d: RawExport): seq<Series> {
    MapSeq(Filter(d.series, HasEpisodes(d)), ToSeries(d))
  }

  /** `getAllSeries()`: at most one entry per exported series. */
  function AllSeries(d: RawExport): (r: seq<Series>)
    ensures |r| <= |d.series|
  {
    SortDesc(ListedSeries(d), EpisodeCountKey)
  }

  /** Every series `getAllSeries` lists is a raw series with at least one episode. */
  lemma AllSeriesFromExport(d: RawExport)
    ensures forall j :: 0 <= j < |AllSeries(d)| ==>
              && AllSeries(d)[j].episodeCount > 0
              && exists i :: 0 <= i < |d.series| && AllSeries(d)[j] == SeriesOf(d, d.series[i])
  {
    var f := Filter(d.series, HasEpisodes(d));
    var l := ListedSeries(d);
    var r := AllSeries(d);
    forall j | 0 <= j < |r|
      ensures r[j].episodeCount > 0 && exists i :: 0 <= i < |d.series| && r[j] == SeriesOf(d, d.series[i])
    {
      SortDescFrom(l, EpisodeCountKey, j);
      var k :| 0 <= k < |l| && r[j] == l[k];
      assert l[k] == SeriesOf(d, f[k]);
      assert HasEpisodes(d)(f[k]);
      var i :| 0 <= i < |d.series| && d.series[i] == f[k];
    }
  }

  /**
    * Every raw series with at least one episode is listed, with its episode
    * count: the number of raw episodes naming it.
    */
  lemma AllSeriesComplete(d: RawExport)
    ensures forall i :: 0 <= i < |d.series| && CountKey(d.episodes, EpisodeSeriesKey, d.series[i].id) > 0 ==>
              SeriesOf(d, d.series[i]) in AllSeries(d)
              && SeriesOf(d, d.series[i]).episodeCount == CountKey(d.episodes, EpisodeSeriesKey, d.series[i].id)
  {
    var l := ListedSeries(d);
    SortDescPermutes(l, EpisodeCountKey);
    forall i | 0 <= i < |d.series| && CountKey(d.episodes, EpisodeSeriesKey, d.series[i].id) > 0
      ensures SeriesOf(d, d.series[i]) in AllSeries(d)
    {
      SeriesListed(d, i);
      assert SeriesOf(d, d.series[i]) in multiset(l);
    }
  }

  /** A raw series with an episode is among the listed series. */
  lemma SeriesListed(d: RawExport, i: nat)
    requires i < |d.series| && CountKey(d.episodes, EpisodeSeriesKey, d.series[i].id) > 0
    ensures SeriesOf(d, d.series[i]) in ListedSeries(d)
  {
    var f := Filter(d.series, HasEpisodes(d));
    assert HasEpisodes(d)(d.series[i]);
    var k :| 0 <= k < |f| && f[k] == d.series[i];
    assert ListedSeries(d)[k] == SeriesOf(d, d.series[i]);
  }

  /**
    * `getAllSeries` is ordered by episode count, most first; it is a
    * permutation of the listed series, and series with equal counts keep
    * their export order (the sort is stable).
    */
  lemma AllSeriesOrder(d: RawExport)
    ensures NonIncreasing(AllSeries(d), EpisodeCountKey)
    ensures multiset(AllSeries(d)) == multiset(ListedSeries(d))
    ensures forall k :: WithKey(AllSeries(d), EpisodeCountKey, k) == WithKey(ListedSeries(d), EpisodeCountKey, k)
  {
    SortDescSorted(ListedSeries(d), EpisodeCountKey);
    SortDescPermutes(ListedSeries(d), EpisodeCountKey);
    forall k ensures WithKey(AllSeries(d), EpisodeCountKey, k) == WithKey(ListedSeries(d), EpisodeCountKey, k) {
      SortDescStable(ListedSeries(d), EpisodeCountKey, k);
    }
  }

  /**
    * A series with more episodes is listed before one with fewer, whatever
    * their names: the list is not in name order as soon as the series with
    * fewer episodes has the alphabetically earlier name.
    */
  lemma MoreEpisodesFirst(d: RawExport, a: nat, b: nat)
    requires a < |d.series| && b < |d.series|
    requires CountKey(d.episodes, EpisodeSeriesKey, d.series[a].id) > CountKey(d.episodes, EpisodeSeriesKey, d.series[b].id) > 0
    ensures exists i, j :: 0 <= i < j < |AllSeries(d)|
              && AllSeries(d)[i] == SeriesOf(d, d.series[a]) && AllSeries(d)[j] == SeriesOf(d, d.series[b])
  {
    var r := AllSeries(d);
    AllSeriesComplete(d);
    AllSeriesOrder(d);
    var i :| 0 <= i < |r| && r[i] == SeriesOf(d, d.series[a]);
    var j :| 0 <= j < |r| && r[j] == SeriesOf(d, d.series[b]);
    assert EpisodeCountKey(r[i]) > EpisodeCountKey(r[j]);
  }

  function SeriesSlugIs(slug: string): RawSeries -> bool { (s: RawSeries) => s.slug == slug }

  /** `getSeriesBySlug(slug)`: the first series in export order with that slug. */
  function SeriesBySlug(d: RawExport, slug: string): (r: Option<Series>)
    ensures r.None? <==> forall i :: 0 <= i < |d.series| ==> d.series[i].slug != slug
    ensures r.Some? ==>
              exists i :: 0 <= i < |d.series| && d.series[i].slug == slug
                && (forall j :: 0 <= j < i ==> d.series[j].slug != slug)
                && r.value == SeriesOf(d, d.series[i])
  {
    match FirstIndex(d.series, SeriesSlugIs(slug))
    case None => None
    case Some(i) => Some(SeriesOf(d, d.series[i]))
  }

  // ---------------------------------------------------------------------------
  // Episode resolution

  function PersonIdIs(id: int): RawPerson -> bool { (p: RawPerson) => p.id == id }

  /** `data.people.find(p => p.id === id)`: the first person with that id. */
  function FindPerson(d: RawExport, id: int): (r: Option<RawPerson>)
    ensures r.Some? ==> r.value in d.people && r.value.id == id && r.value.id in PersonSlugById(d)
    ensures r.None? <==> forall i :: 0 <= i < |d.people| ==> d.people[i].id != id
    ensures r.Some? ==>
              exists i :: 0 <= i < |d.people| && d.people[i] == r.value
                && forall j :: 0 <= j < i ==> d.people[j].id != id
  {
    match FirstIndex(d.people, PersonIdIs(id))
    case None => None
    case Some(i) => Some(d.people[i])
  }

  /** The entry of the `people` list for a relation whose person exists. */
  function EpisodePersonOf(d: RawExport, link: PersonLink): EpisodePerson
    requires FindPerson(d, link.personId).Some?
  {
    var p := FindPerson(d, link.personId).value;
    EpisodePerson(p.id, p.name, PersonSlugById(d)[p.id], link.role)
  }

  /** The callback of lines 137-147: the entry for a relation, or `null` when its person is missing. */
  function PersonEntry(d: RawExport): PersonLink -> Option<EpisodePerson> {
    (link: PersonLink) => if FindPerson(d, link.personId).Some? then Some(EpisodePersonOf(d, link)) else None
  }

  /** The `map` to a person or `null`, then the `filter` of the nulls, of lines 136-148. */
  function JoinPeople(d: RawExport, links: seq<PersonLink>): (r: seq<EpisodePerson>)
    ensures |r| <= |links|
  {
    FilterMap(links, PersonEntry(d))
  }

  /**
    * The people join keeps exactly the relations whose person exists, in
    * relation order: entry `k` is built from the `k`-th such relation.
    */
  lemma JoinPeopleSpec(d: RawExport, links: seq<PersonLink>)
    ensures forall i :: 0 <= i < |links| ==>
              (IsPresent(PersonEntry(d))(links[i]) <==> FindPerson(d, links[i].personId).Some?)
    ensures |JoinPeople(d, links)| == |Filter(links, IsPresent(PersonEntry(d)))|
    ensures forall k :: 0 <= k < |JoinPeople(d, links)| ==>
              var link := Filter(links, IsPresent(PersonEntry(d)))[k];
              FindPerson(d, link.personId).Some? && JoinPeople(d, links)[k] == EpisodePersonOf(d, link)
  {
    FilterMapSpec(links, PersonEntry(d));
  }

  /** Every entry of the people join names its relation's person and role. */
  lemma JoinPeopleEntries(d: RawExport, links: seq<PersonLink>)
    ensures forall k :: 0 <= k < |JoinPeople(d, links)| ==>
              exists i :: 0 <= i < |links|
                && JoinPeople(d, links)[k].id == links[i].personId
                && JoinPeople(d, links)[k].role == links[i].role
  {
    JoinPeopleSpec(d, links);
    var f := Filter(links, IsPresent(PersonEntry(d)));
    forall k | 0 <= k < |JoinPeople(d, links)|
      ensures exists i :: 0 <= i < |links|
                && JoinPeople(d, links)[k].id == links[i].personId
                && JoinPeople(d, links)[k].role == links[i].role
    {
      var i :| 0 <= i < |links| && links[i] == f[k];
    }
  }

  function Lookup(m: map<int, string>, k: int): Option<string> {
    if k in m then Some(m[k]) else None
  }

  /**
    * `resolveEpisode(raw)`; the `seriesById.get(..)!` makes a missing series
    * a crash. The episode keeps its id and series; it takes the slug of a
    * series with that id and is named `series-number` after it; it has media
    * exactly when some media row names it.
    */
  function ResolveEpisode(d: RawExport, raw: RawEpisode): (e: Episode)
    requires raw.seriesId in SeriesById(d)
    ensures e.id == raw.id && e.seriesId == raw.seriesId
    ensures exists i :: 0 <= i < |d.series| && d.series[i].id == raw.seriesId && e.seriesSlug == d.series[i].slug
    ensures e.slug == EpisodeSlug(e.seriesSlug, raw.number)
    ensures e.media.Some? <==> exists i :: 0 <= i < |d.episodeMedias| && d.episodeMedias[i].episodeId == raw.id
    ensures e.seriesSlug == SeriesById(d)[raw.seriesId].slug && e.seriesName == SeriesById(d)[raw.seriesId].name
    ensures e.name == raw.name && e.number == raw.number
    ensures e.createdAt == raw.createdAt && e.updatedAt == raw.updatedAt
  {
    var series := SeriesById(d)[raw.seriesId];
    assert series in d.series;
    var medias := MediaByEpisodeId(d);
    var media := if raw.id in medias
      then Some(EpisodeMedia(medias[raw.id].mediaType, medias[raw.id].length, medias[raw.id].size, medias[raw.id].url))
      else None;
    Episode(
      raw.id, raw.name, raw.number, EpisodeSlug(series.slug, raw.number),
      raw.content, raw.description, raw.seriesId, series.slug, series.name,
      raw.createdAt, raw.updatedAt, media,
      JoinPeople(d, PersonLinksOf(d, raw.id)),
      Lookup(FringeMap(d), raw.id), Lookup(ParentMap(d), raw.id))
  }

  /** The series a resolved episode names is the LAST series row with its series id. */
  lemma ResolveEpisodeSeriesRow(d: RawExport, raw: RawEpisode, s: nat)
    requires s < |d.series| && d.series[s].id == raw.seriesId
    requires forall j :: s < j < |d.series| ==> d.series[j].id != raw.seriesId
    ensures raw.seriesId in SeriesById(d)
    ensures ResolveEpisode(d, raw).seriesSlug == d.series[s].slug
    ensures ResolveEpisode(d, raw).seriesName == d.series[s].name
  {
    IndexByLast(d.series, SeriesKey, s);
  }

  /** A resolved episode's media carries the values of the LAST media row naming it. */
  lemma ResolveEpisodeMediaRow(d: RawExport, raw: RawEpisode, i: nat)
    requires raw.seriesId in SeriesById(d)
    requires i < |d.episodeMedias| && d.episodeMedias[i].episodeId == raw.id
    requires forall j :: i < j < |d.episodeMedias| ==> d.episodeMedias[j].episodeId != raw.id
    ensures var m := d.episodeMedias[i];
      ResolveEpisode(d, raw).media == Some(EpisodeMedia(m.mediaType, m.length, m.size, m.url))
  {
    MediaIsLastRow(d, i);
  }

  /**
    * What a resolved episode draws from the relation tables: a fringe
    * (parent) slug exactly when some fringe (parent) relation on it
    * resolves, and the people of its relations, in relation order.
    */
  lemma ResolveEpisodeLinks(d: RawExport, raw: RawEpisode)
    requires raw.seriesId in SeriesById(d)
    ensures var e := ResolveEpisode(d, raw);
      && (e.fringeSlug.Some? <==> exists i :: 0 <= i < |d.episodeRelations| && Resolves(d, d.episodeRelations[i], Fringe, raw.id))
      && (e.parentSlug.Some? <==> exists i :: 0 <= i < |d.episodeRelations| && Resolves(d, d.episodeRelations[i], Parent, raw.id))
      && e.people == JoinPeople(d, Collect(d.peopleRelations, RelEpisodeKey, ToPersonLink, raw.id))
  {
    RelationMapSpec(d, d.episodeRelations, Fringe, raw.id);
    RelationMapSpec(d, d.episodeRelations, Parent, raw.id);
    PersonLinksOfCollect(d, raw.id);
  }

  /** Every episode's series is in the export: what `getAllEpisodes` needs not to crash. */
  predicate WellFormed(d: RawExport) {
    forall i :: 0 <= i < |d.episodes| ==> d.episodes[i].seriesId in SeriesById(d)
  }

  /** `raws.map(resolveEpisode)` */
  function ResolveEpisodes(d: RawExport, raws: seq<RawEpisode>): (r: seq<Episode>)
    requires forall i :: 0 <= i < |raws| ==> raws[i].seriesId in SeriesById(d)
    ensures |r| == |raws|
  {
    if raws == [] then []
    else
      assert forall i :: 0 <= i < |raws| - 1 ==> raws[1..][i] == raws[i + 1];
      [ResolveEpisode(d, raws[0])] + ResolveEpisodes(d, raws[1..])
  }

  /** Entry `i` of the mapped list is the `i`-th episode resolved. */
  lemma {:induction false} ResolveEpisodesAt(d: RawExport, raws: seq<RawEpisode>, i: int)
    requires forall j :: 0 <= j < |raws| ==> raws[j].seriesId in SeriesById(d)
    requires 0 <= i < |raws|
    ensures ResolveEpisodes(d, raws)[i] == ResolveEpisode(d, raws[i])
  {
    if i > 0 {
      var tail := raws[1..];
      forall j | 0 <= j < |tail|
        ensures tail[j].seriesId in SeriesById(d)
      {
        assert tail[j] == raws[j + 1];
      }
      assert ResolveEpisodes(d, raws)[1..] == ResolveEpisodes(d, tail);
      assert ResolveEpisodes(d, raws)[i] == ResolveEpisodes(d, tail)[i - 1];
      ResolveEpisodesAt(d, tail, i - 1);
      assert tail[i - 1] == raws[i];
    }
  }

  function CreatedKey(e: Episode): int { e.createdAt }

  /** The value `getAllEpisodes()` computes and caches: resolved, newest first. */
  function AllEpisodes(d: RawExport): (r: seq<Episode>)
    requires WellFormed(d)
    ensures |r| == |d.episodes|
  {
    SortDesc(ResolveEpisodes(d, d.episodes), CreatedKey)
  }

  /**
    * One resolved episode per raw episode, newest first, a permutation of the
    * resolved export list in which episodes created at the same time keep
    * their export order.
    */
  lemma AllEpisodesOrder(d: RawExport)
    requires WellFormed(d)
    ensures |AllEpisodes(d)| == |d.episodes|
    ensures NonIncreasing(AllEpisodes(d), CreatedKey)
    ensures multiset(AllEpisodes(d)) == multiset(ResolveEpisodes(d, d.episodes))
    ensures forall k :: WithKey(AllEpisodes(d), CreatedKey, k) == WithKey(ResolveEpisodes(d, d.episodes), CreatedKey, k)
  {
    var l := ResolveEpisodes(d, d.episodes);
    SortDescSorted(l, CreatedKey);
    SortDescPermutes(l, CreatedKey);
    forall k ensures WithKey(AllEpisodes(d), CreatedKey, k) == WithKey(l, CreatedKey, k) {
      SortDescStable(l, CreatedKey, k);
    }
  }

  /** Every listed episode is the resolution of a raw episode. */
  lemma AllEpisodesResolved(d: RawExport)
    requires WellFormed(d)
    ensures forall j :: 0 <= j < |AllEpisodes(d)| ==>
              exists i :: 0 <= i < |d.episodes| && AllEpisodes(d)[j] == ResolveEpisode(d, d.episodes[i])
  {
    var l := ResolveEpisodes(d, d.episodes);
    forall j | 0 <= j < |AllEpisodes(d)|
      ensures exists i :: 0 <= i < |d.episodes| && AllEpisodes(d)[j] == ResolveEpisode(d, d.episodes[i])
    {
      SortDescFrom(l, CreatedKey, j);
      var i :| 0 <= i < |l| && AllEpisodes(d)[j] == l[i];
      ResolveEpisodesAt(d, d.episodes, i);
    }
  }

  /** Every stored episode slug contains a hyphen. */
  lemma AllEpisodeSlugsHaveHyphen(d: RawExport)
    requires WellFormed(d)
    ensures forall j :: 0 <= j < |AllEpisodes(d)| ==> '-' in AllEpisodes(d)[j].slug
  {
    AllEpisodesResolved(d);
    forall j | 0 <= j < |AllEpisodes(d)| ensures '-' in AllEpisodes(d)[j].slug {
      var i :| 0 <= i < |d.episodes| && AllEpisodes(d)[j] == ResolveEpisode(d, d.episodes[i]);
      var series := SeriesById(d)[d.episodes[i].seriesId];
      EpisodeSlugHasHyphen(series.slug, d.episodes[i].number);
    }
  }

  function EpisodeSlugIs(slug: string): Episode -> bool { (e: Episode) => e.slug == slug }

  /** `getEpisodeBySlug(slug)` over a resolved episode list. */
  function FindEpisode(episodes: seq<Episode>, slug: string): (r: Option<Episode>)
    ensures r.None? <==> forall j :: 0 <= j < |episodes| ==> episodes[j].slug != slug
    ensures r.Some? ==>
              exists j :: 0 <= j < |episodes| && episodes[j] == r.value && r.value.slug == slug
                && forall k :: 0 <= k < j ==> episodes[k].slug != slug
  {
    match FirstIndex(episodes, EpisodeSlugIs(slug))
    case None => None
    case Some(j) => Some(episodes[j])
  }

  function InSeries(seriesSlug: string): Episode -> bool { (e: Episode) => e.seriesSlug == seriesSlug }

  /**
    * `getEpisodesBySeries(seriesSlug)` over a resolved episode list: the
    * episodes of that series and no other.
    */
  function FilterBySeries(episodes: seq<Episode>, seriesSlug: string): (r: seq<Episode>)
    ensures forall j :: 0 <= j < |r| ==> r[j].seriesSlug == seriesSlug && r[j] in episodes
    ensures forall j :: 0 <= j < |episodes| && episodes[j].seriesSlug == seriesSlug ==> episodes[j] in r
  {
    Filter(episodes, InSeries(seriesSlug))
  }

  /**
    * Filtering the newest-first list by series keeps exactly that series'
    * episodes, each as often as the export resolves it, newest first, and
    * episodes of that series created at the same time in export order.
    */
  lemma EpisodesBySeriesSpec(d: RawExport, seriesSlug: string)
    requires WellFormed(d)
    ensures var r := FilterBySeries(AllEpisodes(d), seriesSlug);
      && NonIncreasing(r, CreatedKey)
      && (forall j :: 0 <= j < |r| ==> r[j].seriesSlug == seriesSlug && r[j] in AllEpisodes(d))
      && (forall j :: 0 <= j < |AllEpisodes(d)| && AllEpisodes(d)[j].seriesSlug == seriesSlug ==> AllEpisodes(d)[j] in r)
    ensures var r := FilterBySeries(AllEpisodes(d), seriesSlug);
      forall e :: multiset(r)[e] == if e.seriesSlug == seriesSlug then multiset(ResolveEpisodes(d, d.episodes))[e] else 0
    ensures var r := FilterBySeries(AllEpisodes(d), seriesSlug);
      forall k :: WithKey(r, CreatedKey, k) == FilterBySeries(WithKey(ResolveEpisodes(d, d.episodes), CreatedKey, k), seriesSlug)
  {
    AllEpisodesOrder(d);
    FilterKeepsOrder(AllEpisodes(d), InSeries(seriesSlug), CreatedKey);
    FilterMultiset(AllEpisodes(d), InSeries(seriesSlug));
    forall k ensures WithKey(FilterBySeries(AllEpisodes(d), seriesSlug), CreatedKey, k)
                  == FilterBySeries(WithKey(ResolveEpisodes(d, d.episodes), CreatedKey, k), seriesSlug) {
      FilterWithKey(AllEpisodes(d), InSeries(seriesSlug), CreatedKey, k);
    }
  }

  // ---------------------------------------------------------------------------
  // People queries

  /** `personGlobalRole.get(id) ?? "guest"` */
  function GlobalRoleOf(d: RawExport, personId: int): Role {
    var m := PersonGlobalRole(d);
    if personId in m then m[personId] else Guest
  }

  /** The resolved person of `getAllPeople`; the `personSlugById.get(..)!` cannot fail for a listed person. */
  function PersonOf(d: RawExport, p: RawPerson): Person
    requires p.id in PersonSlugById(d)
  {
    Person(p.id, p.name, PersonSlugById(d)[p.id], p.content, GlobalRoleOf(d, p.id), |EpisodeLinksOf(d, p.id)|)
  }

  /** `people.map(p => ({ ... }))` */
  function ResolvePeople(d: RawExport, people: seq<RawPerson>): (r: seq<Person>)
    requires forall i :: 0 <= i < |people| ==> people[i].id in PersonSlugById(d)
    ensures |r| == |people|
  {
    if people == [] then []
    else
      assert forall i :: 0 <= i < |people| - 1 ==> people[1..][i] == people[i + 1];
      [PersonOf(d, people[0])] + ResolvePeople(d, people[1..])
  }

  /** Entry `i` of the mapped list is the `i`-th person resolved. */
  lemma {:induction false} ResolvePeopleAt(d: RawExport, people: seq<RawPerson>, i: int)
    requires forall j :: 0 <= j < |people| ==> people[j].id in PersonSlugById(d)
    requires 0 <= i < |people|
    ensures ResolvePeople(d, people)[i] == PersonOf(d, people[i])
  {
    var tail := people[1..];
    forall j | 0 <= j < |tail|
      ensures tail[j].id in PersonSlugById(d)
    {
      assert tail[j] == people[j + 1];
    }
    assert ResolvePeople(d, people) == [PersonOf(d, people[0])] + ResolvePeople(d, tail);
    if i > 0 {
      ResolvePeopleAt(d, tail, i - 1);
      assert tail[i - 1] == people[i];
    }
  }

  function PersonCountKey(p: Person): int { p.episodeCount }

  /** `getAllPeople()` */
  function AllPeople(d: RawExport): (r: seq<Person>)
    ensures |r| == |d.people|
  {
    assert forall i :: 0 <= i < |d.people| ==> d.people[i].id in IndexBy(d.people, PersonKey);
    SortDesc(ResolvePeople(d, d.people), PersonCountKey)
  }

  /**
    * A listed person is a host exactly when one of their relations has the
    * host role, and their episode count is the number of their relations.
    */
  lemma PersonOfSpec(d: RawExport, i: nat)
    requires i < |d.people|
    ensures d.people[i].id in PersonSlugById(d)
    ensures var p := PersonOf(d, d.people[i]);
      && (p.globalRole == Host <==>
            exists j :: 0 <= j < |d.peopleRelations|
              && d.peopleRelations[j].personId == d.people[i].id && d.peopleRelations[j].role == Host)
      && p.episodeCount == CountKey(d.peopleRelations, RelPersonKey, d.people[i].id)
  {
    assert d.people[i].id in IndexBy(d.people, PersonKey);
    GlobalRoleIsHost(d, i);
    EpisodeLinksOfCollect(d, d.people[i].id);
    CollectCount(d.peopleRelations, RelPersonKey, ToEpisodeLink, d.people[i].id);
  }

  /** Every value of the person slug map is a slug. */
  lemma PersonSlugsAreSlugs(d: RawExport, id: int)
    requires id in PersonSlugById(d)
    ensures IsSlug(PersonSlugById(d)[id])
  {
    SlugifyIsSlug(IndexBy(d.people, PersonKey)[id].name);
  }

  /**
    * `getAllPeople` resolves every person once, most relations first, as a
    * permutation of the resolved export list in which equal counts keep
    * export order.
    */
  lemma AllPeopleOrder(d: RawExport)
    ensures forall i :: 0 <= i < |d.people| ==> d.people[i].id in PersonSlugById(d)
    ensures |AllPeople(d)| == |d.people|
    ensures NonIncreasing(AllPeople(d), PersonCountKey)
    ensures multiset(AllPeople(d)) == multiset(ResolvePeople(d, d.people))
    ensures forall k :: WithKey(AllPeople(d), PersonCountKey, k) == WithKey(ResolvePeople(d, d.people), PersonCountKey, k)
  {
    assert forall i :: 0 <= i < |d.people| ==> d.people[i].id in IndexBy(d.people, PersonKey);
    var l := ResolvePeople(d, d.people);
    SortDescSorted(l, PersonCountKey);
    SortDescPermutes(l, PersonCountKey);
    forall k ensures WithKey(AllPeople(d), PersonCountKey, k) == WithKey(l, PersonCountKey, k) {
      SortDescStable(l, PersonCountKey, k);
    }
  }

  /** Every listed person is the resolution of a raw person. */
  lemma AllPeopleResolved(d: RawExport)
    ensures forall j :: 0 <= j < |AllPeople(d)| ==>
              exists i :: 0 <= i < |d.people| && AllPeople(d)[j] == PersonOf(d, d.people[i])
  {
    assert forall i :: 0 <= i < |d.people| ==> d.people[i].id in IndexBy(d.people, PersonKey);
    var l := ResolvePeople(d, d.people);
    forall j | 0 <= j < |AllPeople(d)|
      ensures exists i :: 0 <= i < |d.people| && AllPeople(d)[j] == PersonOf(d, d.people[i])
    {
      SortDescFrom(l, PersonCountKey, j);
      var i :| 0 <= i < |l| && AllPeople(d)[j] == l[i];
      ResolvePeopleAt(d, d.people, i);
    }
  }

  /** Every slug `getAllPeople` hands out is a slug. */
  lemma AllPeopleSlugs(d: RawExport)
    ensures forall j :: 0 <= j < |AllPeople(d)| ==> IsSlug(AllPeople(d)[j].slug)
  {
    AllPeopleResolved(d);
    forall j | 0 <= j < |AllPeople(d)| ensures IsSlug(AllPeople(d)[j].slug) {
      var i :| 0 <= i < |d.people| && AllPeople(d)[j] == PersonOf(d, d.people[i]);
      PersonSlugsAreSlugs(d, d.people[i].id);
    }
  }

  function PersonSlugIs(slug: string): Person -> bool { (p: Person) => p.slug == slug }

  /** `getPersonBySlug(slug)`: the first person of `getAllPeople` with that slug. */
  function PersonBySlug(d: RawExport, slug: string): (r: Option<Person>)
    ensures r.None? <==> forall j :: 0 <= j < |AllPeople(d)| ==> AllPeople(d)[j].slug != slug
    ensures r.Some? ==>
              exists j :: 0 <= j < |AllPeople(d)| && AllPeople(d)[j] == r.value && r.value.slug == slug
                && forall k :: 0 <= k < j ==> AllPeople(d)[k].slug != slug
  {
    var people := AllPeople(d);
    match FirstIndex(people, PersonSlugIs(slug))
    case None => None
    case Some(j) => Some(people[j])
  }

  // ---------------------------------------------------------------------------
  // Episodes of a person

  function HasPersonSlug(d: RawExport, slug: string): RawPerson -> bool {
    (p: RawPerson) => p.id in PersonSlugById(d) && PersonSlugById(d)[p.id] == slug
  }

  /** `data.people.find(p => personSlugById.get(p.id) === slug)` */
  function FindPersonBySlug(d: RawExport, slug: string): (r: Option<RawPerson>)
    ensures r.None? <==> forall i :: 0 <= i < |d.people| ==> PersonSlugById(d)[d.people[i].id] != slug
    ensures r.Some? ==> r.value in d.people && PersonSlugById(d)[r.value.id] == slug
    ensures r.Some? ==>
              exists i :: 0 <= i < |d.people| && d.people[i] == r.value
                && forall j :: 0 <= j < i ==> !HasPersonSlug(d, slug)(d.people[j])
  {
    assert forall i :: 0 <= i < |d.people| ==> d.people[i].id in IndexBy(d.people, PersonKey);
    match FirstIndex(d.people, HasPersonSlug(d, slug))
    case None => None
    case Some(i) => Some(d.people[i])
  }

  /** A relation whose episode exists also has that episode's series: the `!` of line 220. */
  predicate LinksResolvable(d: RawExport, links: seq<EpisodeLink>) {
    forall k :: 0 <= k < |links| && links[k].episodeId in EpisodeById(d) ==>
      EpisodeById(d)[links[k].episodeId].seriesId in SeriesById(d)
  }

  /** What `getEpisodesByPerson(slug)` needs not to crash. */
  predicate PersonEpisodesResolvable(d: RawExport, slug: string) {
    var p := FindPersonBySlug(d, slug);
    p.Some? ==> LinksResolvable(d, EpisodeLinksOf(d, p.value.id))
  }

  /** The entry of a person's episode list for a relation whose episode exists. */
  function PersonEpisodeOf(d: RawExport, link: EpisodeLink): PersonEpisode
    requires link.episodeId in EpisodeById(d)
    requires EpisodeById(d)[link.episodeId].seriesId in SeriesById(d)
  {
    var ep := EpisodeById(d)[link.episodeId];
    var series := SeriesById(d)[ep.seriesId];
    PersonEpisode(ep.id, ep.name, EpisodeSlug(series.slug, ep.number), ep.number, series.name, series.slug, link.role, ep.createdAt)
  }

  /**
    * The callback of lines 217-231: the entry for a relation, or `null`
    * when its episode is missing. (A missing series is the crash that
    * `LinksResolvable` rules out.)
    */
  function EpisodeEntry(d: RawExport): EpisodeLink -> Option<PersonEpisode> {
    (link: EpisodeLink) =>
      if link.episodeId in EpisodeById(d) && EpisodeById(d)[link.episodeId].seriesId in SeriesById(d)
      then Some(PersonEpisodeOf(d, link))
      else None
  }

  /** The `map` to an entry or `null`, then the `filter` of the nulls, of lines 216-233. */
  function JoinEpisodes(d: RawExport, links: seq<EpisodeLink>): (r: seq<PersonEpisode>)
    requires LinksResolvable(d, links)
    ensures |r| <= |links|
  {
    FilterMap(links, EpisodeEntry(d))
  }

  /**
    * The episode join keeps exactly the relations whose episode exists, in
    * relation order: entry `k` is built from the `k`-th such relation.
    */
  lemma JoinEpisodesSpec(d: RawExport, links: seq<EpisodeLink>)
    requires LinksResolvable(d, links)
    ensures forall i :: 0 <= i < |links| ==>
              (IsPresent(EpisodeEntry(d))(links[i]) <==> links[i].episodeId in EpisodeById(d))
    ensures |JoinEpisodes(d, links)| == |Filter(links, IsPresent(EpisodeEntry(d)))|
    ensures forall k :: 0 <= k < |JoinEpisodes(d, links)| ==>
              var link := Filter(links, IsPresent(EpisodeEntry(d)))[k];
              link.episodeId in EpisodeById(d) && JoinEpisodes(d, links)[k] == PersonEpisodeOf(d, link)
  {
    FilterMapSpec(links, EpisodeEntry(d));
  }

  function PersonEpisodeCreatedKey(e: PersonEpisode): int { e.createdAt }

  /** `getEpisodesByPerson(slug)`: empty for a slug no person has. */
  function EpisodesByPerson(d: RawExport, slug: string): (r: seq<PersonEpisode>)
    requires PersonEpisodesResolvable(d, slug)
    ensures FindPersonBySlug(d, slug).None? ==> r == []
  {
    match FindPersonBySlug(d, slug)
    case None => []
    case Some(p) => SortDesc(JoinEpisodes(d, EpisodeLinksOf(d, p.id)), PersonEpisodeCreatedKey)
  }

  /**
    * The list is newest first. For a known slug it is a permutation of the person's relations whose episode exists,
    * each entry carrying the episode's id and the relation's role; episodes
    * created at the same time keep relation order.
    */
  lemma EpisodesByPersonSpec(d: RawExport, slug: string)
    requires PersonEpisodesResolvable(d, slug)
    ensures NonIncreasing(EpisodesByPerson(d, slug), PersonEpisodeCreatedKey)
    ensures FindPersonBySlug(d, slug).Some? ==>
              var links := EpisodeLinksOf(d, FindPersonBySlug(d, slug).value.id);
              multiset(EpisodesByPerson(d, slug)) == multiset(JoinEpisodes(d, links))
              && |EpisodesByPerson(d, slug)| == |Filter(links, IsPresent(EpisodeEntry(d)))|
    ensures FindPersonBySlug(d, slug).Some? ==>
              var links := EpisodeLinksOf(d, FindPersonBySlug(d, slug).value.id);
              forall k :: WithKey(EpisodesByPerson(d, slug), PersonEpisodeCreatedKey, k)
                       == WithKey(JoinEpisodes(d, links), PersonEpisodeCreatedKey, k)
  {
    match FindPersonBySlug(d, slug)
    case None =>
    case Some(p) =>
      var links := EpisodeLinksOf(d, p.id);
      SortDescSorted(JoinEpisodes(d, links), PersonEpisodeCreatedKey);
      SortDescPermutes(JoinEpisodes(d, links), PersonEpisodeCreatedKey);
      JoinEpisodesSpec(d, links);
      forall k ensures WithKey(EpisodesByPerson(d, slug), PersonEpisodeCreatedKey, k)
                    == WithKey(JoinEpisodes(d, links), PersonEpisodeCreatedKey, k) {
        SortDescStable(JoinEpisodes(d, links), PersonEpisodeCreatedKey, k);
      }
  }

  // ---------------------------------------------------------------------------
  // The site, with its memo of the resolved episode list

  class Site {
    const data: RawExport
    /**
      * The maps built when the module loads (index.ts lines 27-94). The
      * queries read them through the functions `TablesOf` is made of, so
      * `Valid` ties this field to those functions.
      */
    const tables: Tables
    /** `_allEpisodes`: `null` until the first call of `getAllEpisodes`. */
    var allEpisodes: Option<seq<Episode>>

    ghost predicate Valid()
      reads this
    {
      && tables == TablesOf(data)
      && (allEpisodes.Some? ==> WellFormed(data) && allEpisodes.value == AllEpisodes(data))
    }

    /** Loading the module: the tables are built and nothing is cached yet. */
    constructor(d: RawExport)
      ensures data == d && Valid() && allEpisodes.None?
    {
      var t := BuildTables(d);
      data := d;
      tables := t;
      allEpisodes := None;
    }

    /**
      * `getAllEpisodes()`: the first call resolves and sorts the export and
      * stores the list; every later call returns the stored list unchanged.
      */
    method GetAllEpisodes() returns (episodes: seq<Episode>)
      requires Valid() && WellFormed(data)
      modifies this
      ensures Valid()
      ensures episodes == AllEpisodes(data)
      ensures allEpisodes == Some(episodes)
      ensures old(allEpisodes).Some? ==> episodes == old(allEpisodes).value
    {
      if allEpisodes.None? {
        allEpisodes := Some(AllEpisodes(data));
      }
      episodes := allEpisodes.value;
    }

    /** `getEpisodeBySlug(slug)` */
    method GetEpisodeBySlug(slug: string) returns (r: Option<Episode>)
      requires Valid() && WellFormed(data)
      modifies this
      ensures Valid() && allEpisodes == Some(AllEpisodes(data))
      ensures r == FindEpisode(AllEpisodes(data), slug)
    {
      var episodes := GetAllEpisodes();
      r := FindEpisode(episodes, slug);
    }

    /** `getEpisodesBySeries(seriesSlug)` */
    method GetEpisodesBySeries(seriesSlug: string) returns (r: seq<Episode>)
      requires Valid() && WellFormed(data)
      modifies this
      ensures Valid() && allEpisodes == Some(AllEpisodes(data))
      ensures r == FilterBySeries(AllEpisodes(data), seriesSlug)
    {
      var episodes := GetAllEpisodes();
      r := FilterBySeries(episodes, seriesSlug);
    }
  }
}
