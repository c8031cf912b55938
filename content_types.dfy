/**
  * The records of the static export and the resolved records the site reads.
  * Dates are integer timestamps (what `new Date(s).getTime()` yields for a
  * well-formed date). Resolved fields that the resolver never fills in
  * (`firstEpisodeDate`, `lastEpisodeDate`, `formattedTitle`, `gravatarUrl`)
  * are not part of these records.
  */
module ContentTypes {
  import opened Wrappers

  type Timestamp = int

  datatype Role = Host | Guest

  datatype RelationKind = Fringe | Parent

  // ---------------------------------------------------------------------------
  // The raw export

  datatype RawSeries = RawSeries(id: int, name: string, slug: string, description: string)

  datatype RawEpisode = RawEpisode(
    id: int,
    name: string,
    number: string,
    content: string,
    description: string,
    seriesId: int,
    createdAt: Timestamp,
    updatedAt: Timestamp)

  datatype RawEpisodeRelation = RawEpisodeRelation(kind: RelationKind, episodeId: int, relatedId: int)

  datatype RawEpisodeMedia = RawEpisodeMedia(
    mediaType: string, episodeId: int, length: string, size: string, url: string)

  datatype RawPerson = RawPerson(
    id: int, name: string, content: string, email: string, createdAt: Timestamp, updatedAt: Timestamp)

  datatype RawPersonRelation = RawPersonRelation(role: Role, personId: int, episodeId: int)

  datatype RawExport = RawExport(
    series: seq<RawSeries>,
    episodes: seq<RawEpisode>,
    episodeRelations: seq<RawEpisodeRelation>,
    episodeMedias: seq<RawEpisodeMedia>,
    people: seq<RawPerson>,
    peopleRelations: seq<RawPersonRelation>)

  // ---------------------------------------------------------------------------
  // Resolved records

  datatype Series = Series(id: int, name: string, slug: string, description: string, episodeCount: nat)

  datatype EpisodeMedia = EpisodeMedia(mediaType: string, length: string, size: string, url: string)

  datatype EpisodePerson = EpisodePerson(id: int, name: string, slug: string, role: Role)

  datatype Episode = Episode(
    id: int,
    name: string,
    number: string,
    slug: string,
    content: string,
    description: string,
    seriesId: int,
    seriesSlug: string,
    seriesName: string,
    createdAt: Timestamp,
    updatedAt: Timestamp,
    media: Option<EpisodeMedia>,
    people: seq<EpisodePerson>,
    fringeSlug: Option<string>,
    parentSlug: Option<string>)

  datatype Person = Person(
    id: int, name: string, slug: string, content: string, globalRole: Role, episodeCount: nat)

  datatype PersonEpisode = PersonEpisode(
    id: int,
    name: string,
    slug: string,
    number: string,
    seriesName: string,
    seriesSlug: string,
    role: Role,
    createdAt: Timestamp)
}
