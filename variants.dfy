/** How the two page variants relate. With an overlay present and the open
    flag in step with the current project, main-modern.js and main.js make
    the same transitions on (current project, image index). */
module Variants {
  import opened Catalog
  import Modern
  import Site

  function Forget(s: Modern.ModernState): Site.SiteState {
    Site.SiteState(s.currentProject, s.currentImageIndex)
  }

  predicate InStep(s: Modern.ModernState) {
    s.isModalOpen <==> s.currentProject.Some?
  }

  function Translate(e: Modern.Event): Site.Event {
    match e
    case CardClick(id) => Site.CardClick(id)
    case ThumbnailClick(k) => Site.IndicatorClick(k)
    case CloseClick => Site.CloseClick
    case KeyDown(key) => Site.KeyDown(key)
  }

  /** Every input except opening an unknown id while open keeps the flag in
      step and agrees with main.js. */
  lemma OverlayVariantsAgree(projects: seq<Project>, s: Modern.ModernState, e: Modern.Event)
    requires InStep(s)
    requires !(e.CardClick? && s.isModalOpen && Find(projects, e.projectId).None?)
    ensures InStep(Modern.Step(projects, true, s, e))
    ensures Forget(Modern.Step(projects, true, s, e)) == Site.Step(projects, Forget(s), Translate(e))
  {
  }

  /** Without an overlay main-modern.js never opens and never closes, while
      main.js still tracks the project and resets on close. */
  lemma NoOverlayVariantsDiffer(s: Modern.ModernState, key: string)
    requires !s.isModalOpen && s.currentProject.Some?
    ensures Modern.KeyPress(false, s, key) == s
    ensures Modern.Close(false, s) == s
    ensures Site.Close(Forget(s)) == Site.Initial != Forget(s)
  {
  }
}
