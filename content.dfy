/** The display records the two content sources produce and the site's
    components consume (`Project`, `Article`, `TimelineItem`, skills), with
    JavaScript `Date` values abstracted as instants. */
module Content {
  import opened Wrappers

  /** A JavaScript `Date`: its time value in milliseconds and the three
      renderings the code asks for (`toISOString()`, the date part before
      `'T'`, and the `en-US` short-month-and-year label). The renderings
      are supplied with the instant; date formatting is not modelled. */
  datatype Instant = Instant(millis: int, iso: string, isoDay: string, monthYear: string)

  datatype Project = Project(
    id: string,
    name: string,
    description: string,
    technologies: seq<string>,
    githubUrl: string,
    liveUrl: Option<string>,
    imageUrl: Option<string>,
    stars: Option<int>,
    forks: Option<int>,
    language: string,
    featured: bool,
    createdAt: Instant,
    updatedAt: Instant)

  datatype Article = Article(
    id: string,
    title: string,
    excerpt: string,
    publishedAt: Instant,
    readTime: nat,
    url: string,
    imageUrl: Option<string>,
    tags: seq<string>,
    featured: bool)

  datatype TimelineKind = Education | Work | Achievement | Milestone

  datatype TimelineEntry = TimelineEntry(
    id: string,
    kind: TimelineKind,
    title: string,
    subtitle: string,
    date: Instant,
    endDate: Option<Instant>,
    description: string,
    technologies: Option<seq<string>>,
    location: Option<string>)

  datatype Skill = Skill(id: string, name: string)

  datatype SkillCategory = SkillCategory(id: string, name: string, skills: seq<Skill>)

  /** The site configuration values the generators read. */
  datatype SiteConfig = SiteConfig(name: string, title: string, description: string, url: string, email: string)
}
