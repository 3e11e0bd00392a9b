# Portfolio gallery modal — a Dafny model

This project models the gallery modal of a static portfolio site. The site
exists in two versions. `ModernPortfolio` (src/js/main-modern.js) and
`PortfolioSite` (src/js/main.js) each keep a current project and a current
image index, and main-modern.js also keeps an explicit `isModalOpen` flag.
Both respond to the same inputs: open a project by id, next image, previous
image, set image, close, and the keyboard (Escape, ArrowLeft, ArrowRight).

Layout:

- `catalog.dfy` (module `Catalog`): the project record, `find` by id, and the
  `images` existence guard. A missing `images` field is `None` and an
  empty one is `Some([])`, because the code tests only that the field exists.
- `navigation.dfy` (module `Navigation`): the index arithmetic of
  `nextImage`, `previousImage` and `setCurrentImage`. This code is identical
  in both files. The module also has the highlight rule for thumbnails and
  indicators, and the in-place restyling loop of `updateModalImage`.
- `modern.dfy` (module `Modern`): main-modern.js. It defines the state
  value, the transitions as functions, an input-event step function and the
  invariant it keeps. Class `ModernPortfolio` has one method per source
  method, and each method is proved to make exactly the transition of its
  function.
- `site.dfy` (module `Site`): the same for main.js, class `PortfolioSite`. It
  also models what the image side of the modal shows.
- `theme.dfy` (module `Theme`): `initializeTheme` and `toggleTheme` over the
  `light-theme` class and the stored `theme` entry.
- `cards.dfy` (module `Cards`): the card preview in `renderProjectGrid`. The
  description is cut to 120 characters plus "...", and at most 3 tags are kept.
- `variants.dfy` (module `Variants`): when the overlay exists and the flag
  matches the project, the two versions make the same transitions.

The presence of the overlay element is the constant `hasOverlay` of each
class. The catalog is a constant sequence given to the constructor. A key is
the `key` string of the keyboard event.

Behaviour of the code worth knowing. Each point is proved:

- Opening an unknown id is not a no-op. The code sets the current project to
  none and keeps the index. In main-modern.js it also keeps the flag
  (`Modern.Open`, `Site.Open`).
- main-modern.js does not keep the open flag and the current project in
  step. Opening an unknown id while the modal is open leaves the flag raised
  with no project (`Modern.OpenFlagOutlivesProject`). When the overlay
  exists, `Variants.OverlayVariantsAgree` shows this is the only input that
  breaks it. Without an overlay the flag never rises, so any successful open
  leaves a project current with the flag down.
- The navigation guard tests only that `images` exists. With an empty list,
  next sets the index to 0 and previous from 0 sets it to -1
  (`Modern.EmptyGallery`, `Site.ArrowLeftOnEmptyGallery`).
- `setCurrentImage` has no bounds check. The index stays valid for a
  non-empty gallery only for the inputs the page can deliver: a thumbnail
  or indicator click carries a position of the current gallery
  (`Modern.RunKeepsInv`, `Site.RunKeepsInv`).
- In main-modern.js, `renderModal` sets the modal image only for a non-empty
  gallery. Opening a project without images after one with images leaves
  the earlier image in view (`Modern.StaleImageAfterEmptyGallery`).

## Model

| member | source | states |
|---|---|---|
| Catalog.FirstIndex | src/js/main-modern.js:87 | the position of the first project with the id; none exactly when no project has it |
| Catalog.Find | src/js/main.js:60 | `find` returns a project exactly when one has the id; the result has that id, is in the catalog and has no earlier match |
| Catalog.FindOwnId | src/js/main-modern.js:57-63 | with unique ids, looking up a project's own id returns that project |
| Navigation.NextIndex | src/js/main-modern.js:227-229 | for 0 <= i < n the result is (i+1) mod n; from n-1 or beyond it is 0; from -1 or above it is never negative |
| Navigation.PreviousIndex | src/js/main-modern.js:217-219 | for 0 <= i < n the result is (i-1+n) mod n; from 0 or below it is n-1, so -1 for an empty list |
| Navigation.PreviousUndoesNext | src/js/main.js:180-198 | previous after next returns to any valid index |
| Navigation.NextUndoesPrevious | src/js/main.js:180-198 | next after previous returns to any valid index |
| Navigation.NextIndexTimesAdd | src/js/main-modern.js:224-232 | k+m steps forward equal m steps after k steps |
| Navigation.NextIndexTimesStraight | src/js/main-modern.js:227-228 | below the last image, k steps forward add k |
| Navigation.NextCycle | src/js/main-modern.js:224-232 | n calls of next in a gallery of n images return to the start index |
| Navigation.AfterNext | src/js/main-modern.js:224-232 | next leaves the index alone unless a project with an `images` field is current |
| Navigation.AfterPrevious | src/js/main-modern.js:214-222 | previous leaves the index alone unless a project with an `images` field is current |
| Navigation.AfterSet | src/js/main-modern.js:234-239 | set stores k with no bounds check when a project with `images` is current, and is a no-op otherwise |
| Navigation.NavigationKeepsIndexValid | src/js/main.js:180-198 | next and previous keep the index inside a non-empty gallery |
| Navigation.Highlights | src/js/main-modern.js:260-264 | one flag per button; a button is accented exactly when its position is the current index |
| Navigation.HighlightCount | src/js/main.js:214-220 | exactly one button is accented if the index is in range, none otherwise |
| Navigation.HighlightButtons | src/js/main.js:214-220 | the restyling loop leaves every button styled by the highlight rule |
| Modern.Show | src/js/main-modern.js:267-277 | `showModal` raises the flag only when the overlay exists and changes nothing else |
| Modern.Open | src/js/main-modern.js:86-93 | the project becomes the first match; if found, index 0 and the flag raised only with an overlay; if not found, index and flag are kept |
| Modern.Close | src/js/main-modern.js:279-289 | with the overlay, close gives the initial state; without it, nothing changes |
| Modern.Thumbnails | src/js/main-modern.js:161-178 | thumbnails appear only for more than one image and follow the highlight rule |
| Modern.ThumbnailHighlightUnique | src/js/main-modern.js:170 | with a valid index, exactly one thumbnail has the accent border |
| Modern.OpenKnownId | src/js/main-modern.js:86-93 | opening the id of the first project that has it gives that project, index 0 and the flag (overlay or previous flag) |
| Modern.KeyNavigation | src/js/main-modern.js:198-212 | keys are ignored while the flag is down; while it is up, Escape is exactly close, ArrowLeft exactly previous and ArrowRight exactly next (only the index moves), and other keys do nothing |
| Modern.ArrowsAreInverse | src/js/main-modern.js:198-232 | ArrowRight then ArrowLeft, or the reverse, restores an open state with a valid index |
| Modern.EmptyGallery | src/js/main-modern.js:214-232 | with an empty image list, next goes to 0 and previous from 0 goes to -1 |
| Modern.NextTimesIndex | src/js/main-modern.js:224-232 | k calls of next change only the index, by k steps of NextIndex |
| Modern.NextCycleReturns | src/js/main-modern.js:224-232 | n calls of next on n > 0 images return to the same state |
| Modern.CloseIdempotent | src/js/main-modern.js:279-289 | closing twice is the same as closing once |
| Modern.OpenFlagOutlivesProject | src/js/main-modern.js:86-93 | opening an unknown id while open leaves the flag up with no project |
| Modern.Scenarios | src/js/main-modern.js:86-232 | 3 images: open gives 0, then next gives 1, 2 and 0, and previous gives 2; an empty gallery stays at 0; an empty catalog stays closed |
| Modern.StepKeepsInv | src/js/main-modern.js:198-289 | each input keeps the invariant: flag only with an overlay, project from the catalog, valid index |
| Modern.RunKeepsInv | src/js/main-modern.js:198-289 | any sequence of inputs the page can deliver keeps the invariant |
| Modern.NoOverlayKeysInert | src/js/main-modern.js:267-271 | without an overlay the flag never goes up, so no key press has an effect |
| Modern.ModernPortfolio.constructor | src/js/main-modern.js:3-10 | the object starts with no project, index 0 and the flag down |
| Modern.Restyle | src/js/main-modern.js:241-264 | with the modal image present and an `images` field, each thumbnail is accented exactly at the index; otherwise the buttons are left as they were |
| Modern.RenderedImage | src/js/main-modern.js:110-116 | a non-empty gallery shows `images[i]`; an empty or missing one keeps the image shown before |
| Modern.StaleImageAfterEmptyGallery | src/js/main-modern.js:86-116 | opening a project without images after one with images keeps the earlier image in view |
| Modern.ModernPortfolio.OpenModal | src/js/main-modern.js:86-93 | makes exactly the `Open` transition |
| Modern.ModernPortfolio.ShowModal | src/js/main-modern.js:267-277 | makes exactly the `Show` transition |
| Modern.ModernPortfolio.HandleKeyNavigation | src/js/main-modern.js:198-212 | makes exactly the key transition; the thumbnails are restyled only for an arrow key while the flag is up |
| Modern.ModernPortfolio.PreviousImage | src/js/main-modern.js:214-222 | makes exactly the previous transition, then restyles the thumbnails by `Restyle` |
| Modern.ModernPortfolio.NextImage | src/js/main-modern.js:224-232 | makes exactly the next transition, then restyles the thumbnails by `Restyle` |
| Modern.ModernPortfolio.SetCurrentImage | src/js/main-modern.js:234-239 | makes exactly the set transition, then restyles the thumbnails by `Restyle` |
| Modern.ModernPortfolio.UpdateModalImage | src/js/main-modern.js:241-265 | restyles the thumbnails by `Restyle`: by the highlight rule when the modal image exists and the project has `images`, otherwise not at all |
| Modern.ModernPortfolio.CloseModal | src/js/main-modern.js:279-289 | makes exactly the `Close` transition |
| Theme.InitialTheme | src/js/main-modern.js:517-521 | a non-empty saved theme wins; otherwise 'dark' exactly when the system prefers dark, and 'light' if not |
| Theme.Initialize | src/js/main-modern.js:515-531 | the chosen initial theme is stored; the light class is present exactly when it is 'light'; a saved non-empty name is kept; with nothing saved, 'dark' is stored and no light class set exactly when the system prefers dark |
| Theme.ToggleFlips | src/js/main-modern.js:533-544 | toggling flips the class and stores the matching name; two toggles restore the class |
| Theme.ToggleTwiceRestores | src/js/main-modern.js:533-544 | when class and stored name agree, two toggles restore the whole state |
| Theme.ReloadKeepsTheme | src/js/main-modern.js:515-531 | initialising again on a later load keeps the first choice, whatever the system preference is |
| Theme.InitializeConsistent | src/js/main-modern.js:521-530 | with nothing, 'light' or 'dark' stored, class and name agree after init; any other stored string is kept and gives the dark look |
| Theme.ThemeSettings.constructor | src/js/main-modern.js:517 | starts from the given class and stored value |
| Theme.ThemeSettings.InitializeTheme | src/js/main-modern.js:515-531 | makes exactly the `Initialize` transition |
| Theme.ThemeSettings.ToggleTheme | src/js/main-modern.js:533-553 | makes exactly the `Toggle` transition |
| Cards.PreviewDescription | src/js/main-modern.js:46 | short descriptions are kept; longer ones become their first 120 characters plus "..." |
| Cards.PreviewTags | src/js/main-modern.js:48 | the first min(n, 3) tags, in order |
| Cards.PreviewIdempotent | src/js/main-modern.js:46-48 | applying a preview a second time changes nothing |
| Cards.Grid | src/js/main-modern.js:35-54 | one card per project, in catalog order; card k carries project k's id, thumbnail, title, role and client, its preview description and its first three tags |
| Cards.CardOpensItsProject | src/js/main-modern.js:57-63 | every card's id finds a project with that id, and with unique ids it is the card's own project |
| Site.Open | src/js/main.js:59-66 | the project becomes the first match; if found the index is 0, and if not the index is kept |
| Site.Close | src/js/main.js:235-248 | close clears the project and sets the index to 0 whether or not the overlay exists |
| Site.OpenKnownId | src/js/main.js:59-66 | opening the id of the first project that has it gives that project at index 0 |
| Site.CloseIdempotent | src/js/main.js:235-248 | closing twice is the same as closing once |
| Site.KeyNavigation | src/js/main.js:262-276 | keys are ignored with no current project; otherwise Escape is exactly close, ArrowLeft exactly previous and ArrowRight exactly next (only the index moves), and other keys do nothing |
| Site.WrapAround | src/js/main.js:180-198 | with n > 0 images, next from n-1 or beyond goes to 0; on valid indices next and previous are (i±1) mod n and undo each other |
| Navigation.ImageAt | src/js/main.js:86 | `images[i]` is defined exactly for 0 <= i < n, and is that image |
| Site.Pane | src/js/main.js:84-110 | no pane without a project; a placeholder exactly for 0 images; otherwise images[i], with arrows and n indicators only when n > 1 |
| Site.IndicatorHighlight | src/js/main.js:100-103 | exactly the indicator at the index is accented, and none when the index is out of range |
| Site.ArrowLeftOnEmptyGallery | src/js/main.js:180-188 | with an empty list the placeholder shows, yet ArrowLeft sets the index to -1 |
| Site.StepKeepsInv | src/js/main.js:172-205 | each input keeps the project in the catalog and the index valid |
| Site.RunKeepsInv | src/js/main.js:172-205 | any sequence of inputs the page can deliver keeps the invariant, so the main image is always defined |
| Site.Restyle | src/js/main.js:207-221 | when navigation reaches `updateModalImage`, each indicator is accented exactly at the index; otherwise they are left as they were |
| Site.PortfolioSite.constructor | src/js/main.js:3-9 | the object starts with no project and index 0 |
| Site.PortfolioSite.OpenModal | src/js/main.js:59-66 | makes exactly the `Open` transition |
| Site.PortfolioSite.PreviousImage | src/js/main.js:180-188 | makes exactly the previous transition; unless it returned early, the indicators are restyled |
| Site.PortfolioSite.NextImage | src/js/main.js:190-198 | makes exactly the next transition; unless it returned early, the indicators are restyled |
| Site.PortfolioSite.SetCurrentImage | src/js/main.js:200-205 | makes exactly the set transition; unless it returned early, the indicators are restyled |
| Site.PortfolioSite.UpdateModalImage | src/js/main.js:207-221 | styles each indicator by the highlight rule |
| Site.PortfolioSite.CloseModal | src/js/main.js:235-248 | makes exactly the `Close` transition, with or without an overlay |
| Site.PortfolioSite.HandleKeyDown | src/js/main.js:262-276 | makes exactly the key transition; the indicators are restyled only for an arrow key with a project current |
| Variants.OverlayVariantsAgree | src/js/main-modern.js:198-212 | with an overlay and the flag matching the project, every input except opening an unknown id while open keeps them matched and makes the same transition as main.js |
| Variants.NoOverlayVariantsDiffer | src/js/main.js:235-248 | without an overlay main-modern.js ignores keys and close, while main.js still resets on close |

## Left out

- Loading the catalog with `fetch`, and the empty-catalog fallback on error. This is network I/O, so the catalog is a constructor argument.
- HTML templates, `innerHTML`, inline styles and class-list changes. This is presentation. Only the decisions are modelled: which pane shows, which buttons are accented, and the card preview.
- Event-listener wiring. main-modern.js adds a new keydown listener on every `renderModal`, so listeners pile up. The model has one handler call per key press.
- `renderModal` in both files. It only reads the state, so the model of the transitions leaves it out. Its decisions are `Site.Pane`, `Modern.Thumbnails` and `Modern.RenderedImage`. The project details it renders (title, role, date, logo, tags, description) are presentation.
- The styling in main.js `showModal`. It changes no state, so `Site.PortfolioSite` has no `ShowModal`.
- The main-image swap in `updateModalImage`: the 150 ms opacity timer, and the `src` and CSS property updates. This is timer-driven presentation. `Site.Pane` gives the image shown. In main-modern.js, after next or previous on an empty gallery, the timer sets the image to `images[i]`, which is undefined. The model does not cover this.
- Timers, debounce, the scroll poll, page-load fades, scroll and parallax effects, section reveals, smooth scrolling and the mobile menu. These are time-, layout- or floating-point-driven presentation.
- `parseInt` of the `data-image-index` attribute. The index is an `int` input.
- Ids are strings and are compared with string equality. A numeric id in the JSON would never match the string attribute in the code, and the model does not cover that case.
- `description.slice(0, 120)` counts UTF-16 code units. The model counts Dafny characters.
- serve-md.py is not part of this model. It is an HTTP server around a markdown library and file I/O.
- Modern.RunKeepsInv: covers only inputs the page can deliver. A thumbnail click's index must be a position in the current gallery. Arbitrary `setCurrentImage` arguments do break the index invariant.
- Site.RunKeepsInv: same restriction on indicator clicks.
