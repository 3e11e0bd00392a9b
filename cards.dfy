/** The project cards of main-modern.js's `renderProjectGrid`: one card per
    catalog entry, in catalog order, with a shortened description and at most
    three tags. A click on a card opens the project whose id it carries. */
module Cards {
  import opened Catalog

  const DescriptionLimit: nat := 120
  const TagLimit: nat := 3
  const Ellipsis := "..."

  function Min(a: nat, b: nat): nat {
    if a < b then a else b
  }

  /** `description.slice(0, 120)` followed by "..." when something was cut. */
  function PreviewDescription(d: string): (r: string)
    ensures |d| <= DescriptionLimit ==> r == d
    ensures |d| > DescriptionLimit ==>
      |r| == DescriptionLimit + |Ellipsis| && r[..DescriptionLimit] == d[..DescriptionLimit]
      && r[DescriptionLimit..] == Ellipsis
  {
    d[..Min(|d|, DescriptionLimit)] + (if |d| > DescriptionLimit then Ellipsis else "")
  }

  /** `tags.slice(0, 3)`: the first three tags in order, or all of them. */
  function PreviewTags(tags: seq<string>): (r: seq<string>)
    ensures |r| == Min(|tags|, TagLimit)
    ensures r == tags[..|r|]
  {
    tags[..Min(|tags|, TagLimit)]
  }

  /** Shortening a preview again changes nothing. */
  lemma PreviewIdempotent(d: string, tags: seq<string>)
    ensures PreviewDescription(PreviewDescription(d)) == PreviewDescription(d)
    ensures PreviewTags(PreviewTags(tags)) == PreviewTags(tags)
  {
  }

  datatype Card = Card(projectId: string, thumbnail: Image, title: string, role: string,
                       client: string, description: string, tags: seq<string>)

  function CardFor(p: Project): Card {
    Card(p.id, p.thumbnail, p.title, p.role, p.client, PreviewDescription(p.description), PreviewTags(p.tags))
  }

  function Grid(projects: seq<Project>): (r: seq<Card>)
    ensures |r| == |projects|
    ensures forall k :: 0 <= k < |r| ==> r[k].projectId == projects[k].id
    ensures forall k :: 0 <= k < |r| ==>
      && r[k].description == PreviewDescription(projects[k].description)
      && r[k].tags == PreviewTags(projects[k].tags)
    ensures forall k :: 0 <= k < |r| ==>
      && r[k].thumbnail == projects[k].thumbnail && r[k].title == projects[k].title
      && r[k].role == projects[k].role && r[k].client == projects[k].client
  {
    seq(|projects|, k requires 0 <= k < |projects| => CardFor(projects[k]))
  }

  /** Every card opens a project with its own id; with unique ids, the very
      project it was rendered from. */
  lemma CardOpensItsProject(projects: seq<Project>, k: nat)
    requires k < |projects|
    ensures Find(projects, Grid(projects)[k].projectId).Some?
    ensures Find(projects, Grid(projects)[k].projectId).value.id == projects[k].id
    ensures UniqueIds(projects) ==> Find(projects, Grid(projects)[k].projectId) == Some(projects[k])
  {
  }
}
