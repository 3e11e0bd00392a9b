/** The gallery modal of `ModernPortfolio` (src/js/main-modern.js). Its state
    is the current project, the current image index and an explicit
    `isModalOpen` flag that is only ever set when the overlay element exists. */
module Modern {
  import opened Catalog
  import opened Navigation

  datatype ModernState = ModernState(currentProject: Option<Project>, currentImageIndex: int, isModalOpen: bool)

  /** The state the constructor establishes, and the state `closeModal` restores. */
  const Initial := ModernState(None, 0, false)

  /** `showModal`: the flag is raised only when the overlay exists. */
  function Show(hasOverlay: bool, s: ModernState): (r: ModernState)
    ensures r.currentProject == s.currentProject && r.currentImageIndex == s.currentImageIndex
    ensures r.isModalOpen == (hasOverlay || s.isModalOpen)
  {
    if hasOverlay then s.(isModalOpen := true) else s
  }

  /** `openModal(id)`. An unknown id clears the current project and returns
      before the index or the flag are touched. */
  function Open(projects: seq<Project>, hasOverlay: bool, s: ModernState, id: string): (r: ModernState)
    ensures r.currentProject == Find(projects, id)
    ensures r.currentProject.Some? <==> exists k :: 0 <= k < |projects| && projects[k].id == id
    ensures r.currentProject.Some? ==> r.currentImageIndex == 0 && r.isModalOpen == (hasOverlay || s.isModalOpen)
    ensures r.currentProject.None? ==> r.currentImageIndex == s.currentImageIndex && r.isModalOpen == s.isModalOpen
  {
    var found := Find(projects, id);
    if found.None? then s.(currentProject := None)
    else Show(hasOverlay, s.(currentProject := found, currentImageIndex := 0))
  }

  function Previous(s: ModernState): ModernState {
    s.(currentImageIndex := AfterPrevious(s.currentProject, s.currentImageIndex))
  }

  function Next(s: ModernState): ModernState {
    s.(currentImageIndex := AfterNext(s.currentProject, s.currentImageIndex))
  }

  function SetImage(s: ModernState, k: int): ModernState {
    s.(currentImageIndex := AfterSet(s.currentProject, s.currentImageIndex, k))
  }

  /** `closeModal`: resets everything, but only when the overlay exists. */
  function Close(hasOverlay: bool, s: ModernState): (r: ModernState)
    ensures hasOverlay ==> r == Initial
    ensures !hasOverlay ==> r == s
  {
    if hasOverlay then ModernState(None, 0, false) else s
  }

  /** `handleKeyNavigation`: gated by the `isModalOpen` flag. */
  function KeyPress(hasOverlay: bool, s: ModernState, key: string): ModernState {
    if !s.isModalOpen then s
    else if key == "Escape" then Close(hasOverlay, s)
    else if key == "ArrowLeft" then Previous(s)
    else if key == "ArrowRight" then Next(s)
    else s
  }

  /** Which gallery thumbnails carry the accent border (true): they are
      rendered only for more than one image. */
  function Thumbnails(s: ModernState): (r: seq<bool>)
    ensures ImageCount(s.currentProject) <= 1 ==> r == []
    ensures ImageCount(s.currentProject) > 1 ==> r == Highlights(ImageCount(s.currentProject), s.currentImageIndex)
  {
    var n := ImageCount(s.currentProject);
    if n > 1 then Highlights(n, s.currentImageIndex) else []
  }

  lemma ThumbnailHighlightUnique(s: ModernState)
    requires IndexValid(s.currentProject, s.currentImageIndex)
    requires ImageCount(s.currentProject) > 1
    ensures CountTrue(Thumbnails(s)) == 1
  {
    HighlightCount(ImageCount(s.currentProject), s.currentImageIndex);
  }

  /** Opening a present id selects its first match at image 0; the modal
      counts as open only if there is an overlay to show. */
  lemma OpenKnownId(projects: seq<Project>, hasOverlay: bool, s: ModernState, k: nat)
    requires k < |projects| && forall j :: 0 <= j < k ==> projects[j].id != projects[k].id
    ensures Open(projects, hasOverlay, s, projects[k].id) ==
            ModernState(Some(projects[k]), 0, hasOverlay || s.isModalOpen)
  {
  }

  /** Keyboard dispatch while the modal is open, and its silence otherwise. */
  lemma KeyNavigation(hasOverlay: bool, s: ModernState, key: string)
    ensures !s.isModalOpen ==> KeyPress(hasOverlay, s, key) == s
    ensures s.isModalOpen ==> KeyPress(hasOverlay, s, "Escape") == Close(hasOverlay, s)
    ensures s.isModalOpen ==> KeyPress(hasOverlay, s, "ArrowLeft") == Previous(s)
    ensures s.isModalOpen ==> KeyPress(hasOverlay, s, "ArrowRight") == Next(s)
    ensures s.isModalOpen && hasOverlay ==> KeyPress(hasOverlay, s, "Escape") == Initial
    ensures s.isModalOpen && key != "Escape" && key != "ArrowLeft" && key != "ArrowRight" ==>
            KeyPress(hasOverlay, s, key) == s
    ensures s.isModalOpen ==>
            KeyPress(hasOverlay, s, "ArrowRight") == s.(currentImageIndex := AfterNext(s.currentProject, s.currentImageIndex))
            && KeyPress(hasOverlay, s, "ArrowLeft") == s.(currentImageIndex := AfterPrevious(s.currentProject, s.currentImageIndex))
    ensures s.isModalOpen && HasImageList(s.currentProject) ==>
            KeyPress(hasOverlay, s, "ArrowRight").currentImageIndex
              == NextIndex(s.currentImageIndex, ImageCount(s.currentProject))
    ensures s.isModalOpen && HasImageList(s.currentProject) ==>
            KeyPress(hasOverlay, s, "ArrowLeft").currentImageIndex
              == PreviousIndex(s.currentImageIndex, ImageCount(s.currentProject))
  {
  }

  /** ArrowRight followed by ArrowLeft (and the reverse) restores the state. */
  lemma ArrowsAreInverse(hasOverlay: bool, s: ModernState)
    requires s.isModalOpen && ImageCount(s.currentProject) > 0
    requires IndexValid(s.currentProject, s.currentImageIndex)
    ensures KeyPress(hasOverlay, KeyPress(hasOverlay, s, "ArrowRight"), "ArrowLeft") == s
    ensures KeyPress(hasOverlay, KeyPress(hasOverlay, s, "ArrowLeft"), "ArrowRight") == s
  {
  }

  /** The existence check on `images` does not exclude an empty list: next
      goes to 0 and previous from 0 goes to -1. */
  lemma EmptyGallery(s: ModernState)
    requires HasImageList(s.currentProject) && ImageCount(s.currentProject) == 0
    ensures s.currentImageIndex >= -1 ==> Next(s).currentImageIndex == 0
    ensures s.currentImageIndex == 0 ==> Previous(s).currentImageIndex == -1
  {
  }

  function NextTimes(s: ModernState, k: nat): ModernState
    decreases k
  {
    if k == 0 then s else NextTimes(Next(s), k - 1)
  }

  lemma {:induction false} NextTimesIndex(s: ModernState, k: nat)
    ensures NextTimes(s, k) ==
            s.(currentImageIndex := if HasImageList(s.currentProject)
                                    then NextIndexTimes(k, s.currentImageIndex, ImageCount(s.currentProject))
                                    else s.currentImageIndex)
    decreases k
  {
    if k > 0 {
      NextTimesIndex(Next(s), k - 1);
    }
  }

  /** n calls of `nextImage` on a gallery of n images return to the same state. */
  lemma NextCycleReturns(s: ModernState)
    requires ImageCount(s.currentProject) > 0
    requires IndexValid(s.currentProject, s.currentImageIndex)
    ensures NextTimes(s, ImageCount(s.currentProject)) == s
  {
    NextTimesIndex(s, ImageCount(s.currentProject));
    NextCycle(s.currentImageIndex, ImageCount(s.currentProject));
  }

  lemma CloseIdempotent(hasOverlay: bool, s: ModernState)
    ensures Close(hasOverlay, Close(hasOverlay, s)) == Close(hasOverlay, s)
  {
  }

  /** The flag and the project are not kept in step: opening an unknown id
      while the modal is open leaves the flag raised with no project. */
  lemma OpenFlagOutlivesProject(p: Project, unknown: string)
    requires p.id != unknown
    ensures var s := Open([p], true, Open([p], true, Initial, p.id), unknown);
            s.isModalOpen && s.currentProject.None?
  {
  }

  /** A three-image project: open, three steps forward wrap to 0, one step
      back wraps to 2. An empty gallery keeps index 0 under next; an id
      missing from the catalog leaves the modal closed. */
  lemma Scenarios(p: Project, q: Project)
    requires p.images == Some(["1.png", "2.png", "3.png"]) && q.images == Some([])
    ensures var s0 := Open([p], true, Initial, p.id);
            && s0 == ModernState(Some(p), 0, true)
            && Next(s0).currentImageIndex == 1
            && Next(Next(s0)).currentImageIndex == 2
            && Next(Next(Next(s0))) == s0
            && Previous(Next(Next(Next(s0)))).currentImageIndex == 2
    ensures Next(Open([q], true, Initial, q.id)) == ModernState(Some(q), 0, true)
    ensures Open([], true, Initial, "x") == Initial
  {
  }

  /** User input as the page delivers it: a card click, a thumbnail click, a
      click on the close button or the overlay background, a key press. */
  datatype Event = CardClick(projectId: string) | ThumbnailClick(index: int) | CloseClick | KeyDown(key: string)

  function Step(projects: seq<Project>, hasOverlay: bool, s: ModernState, e: Event): ModernState {
    match e
    case CardClick(id) => Open(projects, hasOverlay, s, id)
    case ThumbnailClick(k) => SetImage(s, k)
    case CloseClick => Close(hasOverlay, s)
    case KeyDown(key) => KeyPress(hasOverlay, s, key)
  }

  /** A thumbnail carries the position it was rendered at, 0 to n - 1. */
  predicate Issuable(s: ModernState, e: Event) {
    e.ThumbnailClick? && HasImageList(s.currentProject) ==> 0 <= e.index < ImageCount(s.currentProject)
  }

  function Run(projects: seq<Project>, hasOverlay: bool, s: ModernState, es: seq<Event>): ModernState
    decreases |es|
  {
    if es == [] then s else Run(projects, hasOverlay, Step(projects, hasOverlay, s, es[0]), es[1..])
  }

  predicate Feasible(projects: seq<Project>, hasOverlay: bool, s: ModernState, es: seq<Event>)
    decreases |es|
  {
    es == [] || (Issuable(s, es[0]) && Feasible(projects, hasOverlay, Step(projects, hasOverlay, s, es[0]), es[1..]))
  }

  /** What every state reached from Initial satisfies: the flag is raised
      only when there is an overlay, the project comes from the catalog, and
      the index is valid whenever the project has images. */
  predicate Inv(projects: seq<Project>, hasOverlay: bool, s: ModernState) {
    && (s.isModalOpen ==> hasOverlay)
    && (s.currentProject.Some? ==> s.currentProject.value in projects)
    && IndexValid(s.currentProject, s.currentImageIndex)
  }

  lemma StepKeepsInv(projects: seq<Project>, hasOverlay: bool, s: ModernState, e: Event)
    requires Inv(projects, hasOverlay, s) && Issuable(s, e)
    ensures Inv(projects, hasOverlay, Step(projects, hasOverlay, s, e))
  {
  }

  lemma {:induction false} RunKeepsInv(projects: seq<Project>, hasOverlay: bool, s: ModernState, es: seq<Event>)
    requires Inv(projects, hasOverlay, s) && Feasible(projects, hasOverlay, s, es)
    ensures Inv(projects, hasOverlay, Run(projects, hasOverlay, s, es))
    decreases |es|
  {
    if es != [] {
      StepKeepsInv(projects, hasOverlay, s, es[0]);
      RunKeepsInv(projects, hasOverlay, Step(projects, hasOverlay, s, es[0]), es[1..]);
    }
  }

  /** Without an overlay the flag is never raised, so no key press from any
      reachable state has an effect. */
  lemma NoOverlayKeysInert(projects: seq<Project>, es: seq<Event>, key: string)
    requires Feasible(projects, false, Initial, es)
    ensures var s := Run(projects, false, Initial, es);
            !s.isModalOpen && KeyPress(false, s, key) == s
  {
    RunKeepsInv(projects, false, Initial, es);
  }

  /** `updateModalImage`'s thumbnail loop (main-modern.js): it runs only when
      the modal image element exists and the current project has an `images`
      field; each thumbnail then gets the accent border exactly at the index. */
  function Restyle(hasModalImage: bool, s: ModernState, thumbnails: seq<bool>): (r: seq<bool>)
    ensures |r| == |thumbnails|
    ensures hasModalImage && HasImageList(s.currentProject) ==>
            forall k :: 0 <= k < |r| ==> (r[k] <==> k == s.currentImageIndex)
    ensures !(hasModalImage && HasImageList(s.currentProject)) ==> r == thumbnails
  {
    if hasModalImage && HasImageList(s.currentProject) then Highlights(|thumbnails|, s.currentImageIndex)
    else thumbnails
  }

  /** The image `renderModal` puts in the modal (None where `images[i]` is
      undefined). Only a non-empty gallery sets it; otherwise the image shown
      before, `shown`, stays. */
  function RenderedImage(shown: Option<Image>, s: ModernState): (r: Option<Image>)
    ensures ImageCount(s.currentProject) == 0 ==> r == shown
    ensures ImageCount(s.currentProject) > 0 ==> r == ImageAt(s.currentProject.value.images.value, s.currentImageIndex)
  {
    if ImageCount(s.currentProject) > 0 then ImageAt(s.currentProject.value.images.value, s.currentImageIndex)
    else shown
  }

  /** Opening a project with no images after one with images leaves the
      earlier project's image in the modal. */
  lemma StaleImageAfterEmptyGallery(p: Project, q: Project, img: Image)
    requires p.images == Some([img]) && (q.images == None || q.images == Some([]))
    requires p.id != q.id
    ensures var s1 := Open([p, q], true, Initial, p.id);
            var s2 := Open([p, q], true, s1, q.id);
            && RenderedImage(None, s1) == Some(img)
            && s2.currentProject == Some(q)
            && RenderedImage(RenderedImage(None, s1), s2) == Some(img)
  {
    OpenKnownId([p, q], true, Initial, 0);
    OpenKnownId([p, q], true, Open([p, q], true, Initial, p.id), 1);
  }

  /** The modal object of main-modern.js. The catalog and the presence of the
      overlay and modal image elements are fixed for the page session. The
      navigation methods take the gallery's thumbnail buttons (true = accent
      border), which `updateModalImage` restyles after each step. */
  class ModernPortfolio {
    const projects: seq<Project>
    const hasOverlay: bool
    const hasModalImage: bool
    var currentProject: Option<Project>
    var currentImageIndex: int
    var isModalOpen: bool

    function State(): ModernState
      reads this
    {
      ModernState(currentProject, currentImageIndex, isModalOpen)
    }

    constructor (projects: seq<Project>, hasOverlay: bool, hasModalImage: bool)
      ensures this.projects == projects && this.hasOverlay == hasOverlay
      ensures this.hasModalImage == hasModalImage
      ensures State() == Initial
    {
      this.projects := projects;
      this.hasOverlay := hasOverlay;
      this.hasModalImage := hasModalImage;
      currentProject := None;
      currentImageIndex := 0;
      isModalOpen := false;
    }

    method OpenModal(projectId: string)
      modifies this
      ensures State() == Open(projects, hasOverlay, old(State()), projectId)
    {
      currentProject := Find(projects, projectId);
      if currentProject.None? {
        return;
      }
      currentImageIndex := 0;
      ShowModal();
    }

    method ShowModal()
      modifies this
      ensures State() == Show(hasOverlay, old(State()))
    {
      if hasOverlay {
        isModalOpen := true;
      }
    }

    method HandleKeyNavigation(key: string, thumbnails: array<bool>)
      modifies this, thumbnails
      ensures State() == KeyPress(hasOverlay, old(State()), key)
      ensures thumbnails[..] == if old(isModalOpen) && (key == "ArrowLeft" || key == "ArrowRight")
                                then Restyle(hasModalImage, State(), old(thumbnails[..]))
                                else old(thumbnails[..])
    {
      if !isModalOpen {
        return;
      }
      if key == "Escape" {
        CloseModal();
      } else if key == "ArrowLeft" {
        PreviousImage(thumbnails);
      } else if key == "ArrowRight" {
        NextImage(thumbnails);
      }
    }

    method PreviousImage(thumbnails: array<bool>)
      modifies this, thumbnails
      ensures State() == Previous(old(State()))
      ensures thumbnails[..] == Restyle(hasModalImage, State(), old(thumbnails[..]))
    {
      if currentProject.None? || currentProject.value.images.None? {
        return;
      }
      var n := |currentProject.value.images.value|;
      currentImageIndex := if currentImageIndex > 0 then currentImageIndex - 1 else n - 1;
      UpdateModalImage(thumbnails);
    }

    method NextImage(thumbnails: array<bool>)
      modifies this, thumbnails
      ensures State() == Next(old(State()))
      ensures thumbnails[..] == Restyle(hasModalImage, State(), old(thumbnails[..]))
    {
      if currentProject.None? || currentProject.value.images.None? {
        return;
      }
      var n := |currentProject.value.images.value|;
      currentImageIndex := if currentImageIndex < n - 1 then currentImageIndex + 1 else 0;
      UpdateModalImage(thumbnails);
    }

    method SetCurrentImage(index: int, thumbnails: array<bool>)
      modifies this, thumbnails
      ensures State() == SetImage(old(State()), index)
      ensures thumbnails[..] == Restyle(hasModalImage, State(), old(thumbnails[..]))
    {
      if currentProject.None? || currentProject.value.images.None? {
        return;
      }
      currentImageIndex := index;
      UpdateModalImage(thumbnails);
    }

    /** The thumbnail part of `updateModalImage`. */
    method UpdateModalImage(thumbnails: array<bool>)
      modifies thumbnails
      ensures thumbnails[..] == Restyle(hasModalImage, State(), old(thumbnails[..]))
    {
      if !hasModalImage || currentProject.None? || currentProject.value.images.None? {
        return;
      }
      HighlightButtons(thumbnails, currentImageIndex);
    }

    method CloseModal()
      modifies this
      ensures State() == Close(hasOverlay, old(State()))
    {
      if hasOverlay {
        isModalOpen := false;
        currentProject := None;
        currentImageIndex := 0;
      }
    }
  }
}
