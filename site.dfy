/** The gallery modal of `PortfolioSite` (src/js/main.js). There is no open
    flag: the modal counts as open exactly when a current project is set, and
    `closeModal` clears the state whether or not the overlay element exists. */
module Site {
  import opened Catalog
  import opened Navigation

  datatype SiteState = SiteState(currentProject: Option<Project>, currentImageIndex: int)

  const Initial := SiteState(None, 0)

  /** `openModal(id)`: an unknown id clears the project and keeps the index. */
  function Open(projects: seq<Project>, s: SiteState, id: string): (r: SiteState)
    ensures r.currentProject == Find(projects, id)
    ensures r.currentProject.Some? <==> exists k :: 0 <= k < |projects| && projects[k].id == id
    ensures r.currentProject.Some? ==> r.currentImageIndex == 0
    ensures r.currentProject.None? ==> r.currentImageIndex == s.currentImageIndex
  {
    var found := Find(projects, id);
    if found.None? then s.(currentProject := None) else SiteState(found, 0)
  }

  function Previous(s: SiteState): SiteState {
    s.(currentImageIndex := AfterPrevious(s.currentProject, s.currentImageIndex))
  }

  function Next(s: SiteState): SiteState {
    s.(currentImageIndex := AfterNext(s.currentProject, s.currentImageIndex))
  }

  function SetImage(s: SiteState, k: int): SiteState {
    s.(currentImageIndex := AfterSet(s.currentProject, s.currentImageIndex, k))
  }

  /** `closeModal`: the overlay test guards only the styling, not the reset. */
  function Close(s: SiteState): (r: SiteState)
    ensures r.currentProject.None? && r.currentImageIndex == 0
  {
    Initial
  }

  /** The keydown listener: gated by a current project being set. */
  function KeyPress(s: SiteState, key: string): SiteState {
    if s.currentProject.None? then s
    else if key == "Escape" then Close(s)
    else if key == "ArrowLeft" then Previous(s)
    else if key == "ArrowRight" then Next(s)
    else s
  }

  lemma OpenKnownId(projects: seq<Project>, s: SiteState, k: nat)
    requires k < |projects| && forall j :: 0 <= j < k ==> projects[j].id != projects[k].id
    ensures Open(projects, s, projects[k].id) == SiteState(Some(projects[k]), 0)
  {
  }

  lemma CloseIdempotent(s: SiteState)
    ensures Close(Close(s)) == Close(s)
  {
  }

  lemma KeyNavigation(s: SiteState, key: string)
    ensures s.currentProject.None? ==> KeyPress(s, key) == s
    ensures s.currentProject.Some? ==> KeyPress(s, "Escape") == Close(s) == Initial
    ensures s.currentProject.Some? ==> KeyPress(s, "ArrowLeft") == Previous(s)
    ensures s.currentProject.Some? ==> KeyPress(s, "ArrowRight") == Next(s)
    ensures key != "Escape" && key != "ArrowLeft" && key != "ArrowRight" ==> KeyPress(s, key) == s
    ensures KeyPress(s, "ArrowRight") == s.(currentImageIndex := AfterNext(s.currentProject, s.currentImageIndex))
    ensures KeyPress(s, "ArrowLeft") == s.(currentImageIndex := AfterPrevious(s.currentProject, s.currentImageIndex))
    ensures HasImageList(s.currentProject) ==>
            KeyPress(s, "ArrowRight").currentImageIndex
              == NextIndex(s.currentImageIndex, ImageCount(s.currentProject))
    ensures HasImageList(s.currentProject) ==>
            KeyPress(s, "ArrowLeft").currentImageIndex
              == PreviousIndex(s.currentImageIndex, ImageCount(s.currentProject))
  {
  }

  /** For n > 0 images, next and previous wrap as (i +/- 1) mod n and undo
      each other; next from the last position or beyond goes to 0. */
  lemma WrapAround(s: SiteState)
    requires ImageCount(s.currentProject) > 0
    ensures var n := ImageCount(s.currentProject);
            s.currentImageIndex >= n - 1 ==> Next(s).currentImageIndex == 0
    ensures var n, i := ImageCount(s.currentProject), s.currentImageIndex;
            0 <= i < n ==> Next(s).currentImageIndex == (i + 1) % n
                           && Previous(s).currentImageIndex == (i - 1 + n) % n
                           && Previous(Next(s)) == s && Next(Previous(s)) == s
  {
  }

  /** What the image side of the modal shows: a placeholder for no images,
      otherwise the current image (None where `images[i]` is undefined) with
      arrows and indicators only for more than one image. */
  datatype ImagePane = Placeholder | Viewer(mainImage: Option<Image>, arrows: bool, indicators: seq<bool>)

  /** `renderModal`'s image side; None when there is no current project (it
      returns without rendering). */
  function Pane(s: SiteState): (r: Option<ImagePane>)
    ensures r.None? <==> s.currentProject.None?
    ensures r.Some? ==> (r.value.Placeholder? <==> ImageCount(s.currentProject) == 0)
    ensures r.Some? && r.value.Viewer? ==>
      var n, i := ImageCount(s.currentProject), s.currentImageIndex;
      && (r.value.mainImage.Some? <==> 0 <= i < n)
      && (0 <= i < n ==> r.value.mainImage == Some(s.currentProject.value.images.value[i]))
      && (r.value.arrows <==> n > 1)
      && |r.value.indicators| == (if n > 1 then n else 0)
  {
    if s.currentProject.None? then None
    else if ImageCount(s.currentProject) == 0 then Some(Placeholder)
    else
      var images := s.currentProject.value.images.value;
      var n := |images|;
      Some(Viewer(ImageAt(images, s.currentImageIndex), n > 1,
                  if n > 1 then Highlights(n, s.currentImageIndex) else []))
  }

  /** Exactly the indicator at the current index is accented; none at all
      when the index is out of range. */
  lemma IndicatorHighlight(s: SiteState)
    requires ImageCount(s.currentProject) > 1
    ensures var r := Pane(s).value.indicators;
            (forall k :: 0 <= k < |r| ==> (r[k] <==> k == s.currentImageIndex))
            && CountTrue(r) == if 0 <= s.currentImageIndex < |r| then 1 else 0
  {
    HighlightCount(ImageCount(s.currentProject), s.currentImageIndex);
  }

  /** On a project with an empty image list no arrows are shown, yet
      ArrowLeft still reaches `previousImage` and drives the index to -1. */
  lemma ArrowLeftOnEmptyGallery(s: SiteState)
    requires HasImageList(s.currentProject) && ImageCount(s.currentProject) == 0
    requires s.currentImageIndex == 0
    ensures Pane(s) == Some(Placeholder)
    ensures KeyPress(s, "ArrowLeft").currentImageIndex == -1
    ensures Pane(KeyPress(s, "ArrowLeft")) == Some(Placeholder)
  {
  }

  /** User input: a card, the arrow buttons, an indicator, the close button
      or the overlay background, a key press. */
  datatype Event = CardClick(projectId: string) | PrevClick | NextClick | IndicatorClick(index: int)
                 | CloseClick | KeyDown(key: string)

  function Step(projects: seq<Project>, s: SiteState, e: Event): SiteState {
    match e
    case CardClick(id) => Open(projects, s, id)
    case PrevClick => Previous(s)
    case NextClick => Next(s)
    case IndicatorClick(k) => SetImage(s, k)
    case CloseClick => Close(s)
    case KeyDown(key) => KeyPress(s, key)
  }

  /** An indicator carries the position it was rendered at, 0 to n - 1. */
  predicate Issuable(s: SiteState, e: Event) {
    e.IndicatorClick? && HasImageList(s.currentProject) ==> 0 <= e.index < ImageCount(s.currentProject)
  }

  function Run(projects: seq<Project>, s: SiteState, es: seq<Event>): SiteState
    decreases |es|
  {
    if es == [] then s else Run(projects, Step(projects, s, es[0]), es[1..])
  }

  predicate Feasible(projects: seq<Project>, s: SiteState, es: seq<Event>)
    decreases |es|
  {
    es == [] || (Issuable(s, es[0]) && Feasible(projects, Step(projects, s, es[0]), es[1..]))
  }

  predicate Inv(projects: seq<Project>, s: SiteState) {
    && (s.currentProject.Some? ==> s.currentProject.value in projects)
    && IndexValid(s.currentProject, s.currentImageIndex)
  }

  lemma StepKeepsInv(projects: seq<Project>, s: SiteState, e: Event)
    requires Inv(projects, s) && Issuable(s, e)
    ensures Inv(projects, Step(projects, s, e))
  {
  }

  /** From any valid state, input the page can deliver keeps the project in
      the catalog and the index inside a non-empty gallery; in particular the
      main image is then always defined. */
  lemma {:induction false} RunKeepsInv(projects: seq<Project>, s: SiteState, es: seq<Event>)
    requires Inv(projects, s) && Feasible(projects, s, es)
    ensures Inv(projects, Run(projects, s, es))
    ensures var t := Run(projects, s, es);
            Pane(t).Some? && Pane(t).value.Viewer? ==> Pane(t).value.mainImage.Some?
    decreases |es|
  {
    if es != [] {
      StepKeepsInv(projects, s, es[0]);
      RunKeepsInv(projects, Step(projects, s, es[0]), es[1..]);
    }
  }

  /** The indicator loop of `updateModalImage` (main.js): it runs whenever
      the method is reached, and gives each indicator the accent colour
      exactly at the index (true = accent). Navigation that returns early
      does not reach it. */
  function Restyle(s: SiteState, indicators: seq<bool>): (r: seq<bool>)
    ensures |r| == |indicators|
    ensures HasImageList(s.currentProject) ==>
            forall k :: 0 <= k < |r| ==> (r[k] <==> k == s.currentImageIndex)
    ensures !HasImageList(s.currentProject) ==> r == indicators
  {
    if HasImageList(s.currentProject) then Highlights(|indicators|, s.currentImageIndex) else indicators
  }

  /** The modal object of main.js. Its overlay test in `showModal` and
      `closeModal` guards only styling, so the presence of the overlay does
      not enter the state. The navigation methods take the indicator buttons
      that `updateModalImage` restyles after each step. */
  class PortfolioSite {
    const projects: seq<Project>
    var currentProject: Option<Project>
    var currentImageIndex: int

    function State(): SiteState
      reads this
    {
      SiteState(currentProject, currentImageIndex)
    }

    constructor (projects: seq<Project>)
      ensures this.projects == projects
      ensures State() == Initial
    {
      this.projects := projects;
      currentProject := None;
      currentImageIndex := 0;
    }

    method OpenModal(projectId: string)
      modifies this
      ensures State() == Open(projects, old(State()), projectId)
    {
      currentProject := Find(projects, projectId);
      if currentProject.None? {
        return;
      }
      currentImageIndex := 0;
    }

    method PreviousImage(indicators: array<bool>)
      modifies this, indicators
      ensures State() == Previous(old(State()))
      ensures indicators[..] == Restyle(State(), old(indicators[..]))
    {
      if currentProject.None? || currentProject.value.images.None? {
        return;
      }
      var n := |currentProject.value.images.value|;
      currentImageIndex := if currentImageIndex > 0 then currentImageIndex - 1 else n - 1;
      UpdateModalImage(indicators);
    }

    method NextImage(indicators: array<bool>)
      modifies this, indicators
      ensures State() == Next(old(State()))
      ensures indicators[..] == Restyle(State(), old(indicators[..]))
    {
      if currentProject.None? || currentProject.value.images.None? {
        return;
      }
      var n := |currentProject.value.images.value|;
      currentImageIndex := if currentImageIndex < n - 1 then currentImageIndex + 1 else 0;
      UpdateModalImage(indicators);
    }

    method SetCurrentImage(index: int, indicators: array<bool>)
      modifies this, indicators
      ensures State() == SetImage(old(State()), index)
      ensures indicators[..] == Restyle(State(), old(indicators[..]))
    {
      if currentProject.None? || currentProject.value.images.None? {
        return;
      }
      currentImageIndex := index;
      UpdateModalImage(indicators);
    }

    /** The indicator restyling of `updateModalImage`; it does not depend on
        the main image element. */
    method UpdateModalImage(indicators: array<bool>)
      modifies indicators
      ensures indicators[..] == Highlights(indicators.Length, currentImageIndex)
    {
      HighlightButtons(indicators, currentImageIndex);
    }

    /** The reset happens whether or not the overlay exists. */
    method CloseModal()
      modifies this
      ensures State() == Close(old(State()))
    {
      currentProject := None;
      currentImageIndex := 0;
    }

    /** The keydown listener installed by `setupEventListeners`. */
    method HandleKeyDown(key: string, indicators: array<bool>)
      modifies this, indicators
      ensures State() == KeyPress(old(State()), key)
      ensures indicators[..] == if old(currentProject).Some? && (key == "ArrowLeft" || key == "ArrowRight")
                                then Restyle(State(), old(indicators[..]))
                                else old(indicators[..])
    {
      if currentProject.Some? {
        if key == "Escape" {
          CloseModal();
        } else if key == "ArrowLeft" {
          PreviousImage(indicators);
        } else if key == "ArrowRight" {
          NextImage(indicators);
        }
      }
    }
  }
}
