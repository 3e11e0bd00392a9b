/** The project catalog both page variants read: an ordered sequence of
    projects loaded once at start-up and never changed afterwards. */
module Catalog {

  datatype Option<+T> = None | Some(value: T)

  /** A reference to an image asset (a file name under assets/images/). */
  type Image = string

  /** One catalog entry. `images` is None when the record has no `images`
      field at all; Some([]) is a present but empty gallery. */
  datatype Project = Project(
    id: string,
    title: string,
    client: string,
    role: string,
    description: string,
    tags: seq<string>,
    thumbnail: Image,
    images: Option<seq<Image>>,
    projectDate: string,
    clientLogo: Option<Image>,
    modalId: Option<string>)

  /** Position of the first project whose id is `id`, if any. */
  function FirstIndex(projects: seq<Project>, id: string): (r: Option<nat>)
    ensures r.Some? ==> r.value < |projects| && projects[r.value].id == id
    ensures r.Some? ==> forall j :: 0 <= j < r.value ==> projects[j].id != id
    ensures r.None? <==> forall k :: 0 <= k < |projects| ==> projects[k].id != id
  {
    if |projects| == 0 then None
    else if projects[0].id == id then Some(0)
    else match FirstIndex(projects[1..], id)
      case None => None
      case Some(k) => Some(k + 1)
  }

  /** `projects.find(p => p.id === id)`: the first project with that id. */
  function Find(projects: seq<Project>, id: string): (r: Option<Project>)
    ensures r.Some? <==> exists k :: 0 <= k < |projects| && projects[k].id == id
    ensures r.Some? ==> r.value.id == id && r.value in projects
    ensures r.Some? ==>
      exists k :: 0 <= k < |projects| && projects[k] == r.value
        && forall j :: 0 <= j < k ==> projects[j].id != id
  {
    match FirstIndex(projects, id)
    case None => None
    case Some(k) => Some(projects[k])
  }

  predicate UniqueIds(projects: seq<Project>) {
    forall j, k :: 0 <= j < k < |projects| ==> projects[j].id != projects[k].id
  }

  /** With unique ids, looking up a project's own id finds exactly that project. */
  lemma FindOwnId(projects: seq<Project>, k: nat)
    requires UniqueIds(projects) && k < |projects|
    ensures Find(projects, projects[k].id) == Some(projects[k])
  {
  }

  /** The image list guard of the navigation methods: a current project whose
      `images` field exists (it may still be empty). */
  predicate HasImageList(p: Option<Project>) {
    p.Some? && p.value.images.Some?
  }

  /** Number of images of the current project; 0 when there is none or the
      field is missing. */
  function ImageCount(p: Option<Project>): (n: nat)
    ensures n > 0 ==> HasImageList(p)
  {
    if HasImageList(p) then |p.value.images.value| else 0
  }
}
