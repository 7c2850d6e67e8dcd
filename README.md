# Portfolio site: gallery, filter, navigation and contact-form logic in Dafny

The site is a single-page React portfolio for an architectural and interior
designer. Almost all of it is markup and animation. This project models the
four pieces that hold state or compute something, and proves what they promise:

- **Portfolio section** (`portfolio.dfy`, module `Portfolio`). It has the
  fixed eight-project catalog, the category filter, the modal's image list
  and display mode, and the card's gallery badge. `ImageGallery` is a class
  holding `current` and `direction`. Arrows, keys and drags step it with
  wrap-around, and a dot click jumps straight to that dot's image. `PortfolioSection` is a class holding `activeFilter`, the
  selected project, the body's `overflow` style and the mounted gallery.
- **Navigation bar** (`navbar.dfy`, module `Navbar`). It has the `scrolled`
  threshold and the bottom-up scan that picks the active section. It also has
  the active-link test, the menu toggle and anchor navigation. Section offsets
  come in as a sequence of optional integers (`None` means no element with
  that id).
- **Contact form** (`contact.dfy`, module `Contact`). This is a class with the
  four fields, the focused field, `loading` and `submitted`. The 1800 ms timer
  that ends the simulated send is the explicit step `Complete`.
- **Footer** (`footer.dfy`, module `Footer`). It derives a link label from an
  anchor and scrolls to that anchor when it exists.

Shared modules: `Wrappers` (`Option`), `JsText` (JavaScript's
`replace` of the first match, and the first-letter capitalisation) and `Dom`
(the page as the set of element ids present, and `querySelector` plus
`scrollIntoView`).

Three behaviours of the code are easy to misread:

- The scroll-lock effect in `ProjectModal` depends on `onClose`. `onClose` is
  a new closure on every render of `Portfolio`, so while the modal is open the
  lock is released and taken again on each re-render. The model tracks the resulting `overflow` value. That value is
  `'hidden'` exactly while a project is selected.
- A card can still be activated with Enter while the modal is open, because
  focus is not trapped in the modal. Then React keeps the mounted
  `ImageGallery` and its index. The index is not reset to 0. `Select` models that
  case. The index stays in bounds because only the Cafe project has a gallery
  (`CatalogHasSingleGallery`).
- JavaScript's `%` truncates toward zero. `JsRem` models it. `Wrap` proves
  that `(prev + dir + len) % len` is the intended wrap-around.

## Model

| member | source | states |
|---|---|---|
| `Portfolio.WithCategory` | src/components/Portfolio.jsx:369 | a project is in the filtered list iff it is in the input and has the category; the list is never longer than the input |
| `Portfolio.WithCategoryIsSubsequence` | src/components/Portfolio.jsx:369 | the category filter keeps catalog order: its result is a subsequence of its input |
| `Portfolio.FilteredSpec` | src/components/Portfolio.jsx:367-369 | `'All'` yields the whole list; any other filter yields exactly the projects of that category; either way the result is an order-preserving subsequence |
| `Portfolio.WithCategoryAppend` | src/components/Portfolio.jsx:369 | filtering a concatenation is the concatenation of the filtered parts |
| `Portfolio.WithCategoryKeepsAll` | src/components/Portfolio.jsx:369 | a list whose projects all have the category passes the filter unchanged |
| `Portfolio.CatalogBlocks` | src/components/Portfolio.jsx:6-111 | the catalog has 8 projects: 2 Architecture, then 5 Interior, then 1 Cafe |
| `Portfolio.AllFilter` | src/components/Portfolio.jsx:367-368 | filter `'All'` shows all eight catalog projects |
| `Portfolio.InteriorFilter` | src/components/Portfolio.jsx:367-369 | filter `'Interior'` shows exactly projects 3 to 7, in catalog order |
| `Portfolio.ArchitectureFilter` | src/components/Portfolio.jsx:367-369 | filter `'Architecture'` shows exactly the first two projects |
| `Portfolio.CafeFilter` | src/components/Portfolio.jsx:367-369 | filter `'Cafe'` shows only the Cafe project |
| `Portfolio.ConceptsFilter` | src/components/Portfolio.jsx:113 | filter `'Concepts'` shows nothing, since no project has that category |
| `Portfolio.ModalImages` | src/components/Portfolio.jsx:202 | the modal's images are `images` when present, else `[image]` when `image` is non-empty, else `[]` (all three cases stated) |
| `Portfolio.ModalImageArea` | src/components/Portfolio.jsx:238-254 | a gallery iff there is more than one image, a single image iff exactly one, text only iff none |
| `Portfolio.BadgeMatchesGallery` | src/components/Portfolio.jsx:310 | the card's photo badge (`hasGallery`) shows iff the modal would open a gallery |
| `Portfolio.OnlyCafeHasGallery` | src/components/Portfolio.jsx:91-106 | among catalog projects only the Cafe project opens a gallery, and it has 5 images |
| `Portfolio.CatalogHasSingleGallery` | src/components/Portfolio.jsx:6-111 | every catalog project that opens a gallery opens it over the same images |
| `Portfolio.JsRem` | src/components/Portfolio.jsx:122 | JavaScript remainder: in `[0, n)` for a non-negative dividend, in `(-n, 0]` for a negative one |
| `Portfolio.JsRemDivision` | src/components/Portfolio.jsx:122 | the JavaScript remainder is a true remainder: `a == q * n + JsRem(a, n)` for some quotient `q` |
| `Portfolio.Wrap` | src/components/Portfolio.jsx:122 | `(prev + dir + len) % len` stays in `[0, len)`; +1 from `len-1` gives 0, -1 from 0 gives `len-1`, otherwise it moves by one |
| `Portfolio.StepsForward` | src/components/Portfolio.jsx:120-123 | up to `len` calls of `go(1)` from `start` reach `start + k`, wrapped once past the end |
| `Portfolio.StepsBackward` | src/components/Portfolio.jsx:120-123 | up to `len` calls of `go(-1)` from `start` reach `start - k`, wrapped once past the front |
| `Portfolio.StepsCompose` | src/components/Portfolio.jsx:120-123 | `a` steps then `b` steps equal `a + b` steps |
| `Portfolio.FullCycle` | src/components/Portfolio.jsx:120-123 | `len` calls of `go(dir)` return to the starting image |
| `Portfolio.StepsPeriodic` | src/components/Portfolio.jsx:120-123 | `len` further steps in one direction do not change the image reached |
| `Portfolio.CafeWalk` | src/components/Portfolio.jsx:100-106 | on the 5 Cafe images, four `go(1)` from 0 reach 4 and a fifth reaches 0 |
| `Portfolio.KeyDirection` | src/components/Portfolio.jsx:127-130 | `ArrowLeft` means -1, `ArrowRight` means +1, any other key means nothing |
| `Portfolio.DragDirection` | src/components/Portfolio.jsx:160-163 | a drag offset below -60 means +1, above 60 means -1, and within ±60 means nothing |
| `Portfolio.Counter` | src/components/Portfolio.jsx:180 | the displayed counter `current + 1` lies in `1..len` |
| `Portfolio.ImageGallery.constructor` | src/components/Portfolio.jsx:117-118 | a mounted gallery starts at image 0 with direction 0 |
| `Portfolio.ImageGallery.Go` | src/components/Portfolio.jsx:120-123 | `go(dir)` records `dir` as the direction, moves by `Wrap` and keeps the index in bounds |
| `Portfolio.ImageGallery.ClickDot` | src/components/Portfolio.jsx:190 | a dot click jumps to its index; the direction is 1 if that is ahead of the current index, else -1 (also for the active dot) |
| `Portfolio.ImageGallery.KeyDown` | src/components/Portfolio.jsx:126-133 | arrow keys call `go` in their direction; other keys leave index and direction unchanged |
| `Portfolio.ImageGallery.DragEnd` | src/components/Portfolio.jsx:160-163 | a drag past the threshold calls `go` in its direction; a drag within ±60 changes nothing |
| `Portfolio.WalkCafeGallery` | src/components/Portfolio.jsx:100-123 | a freshly mounted Cafe gallery shows images 1, 2, 3, 4, 0 after five "next" presses |
| `Portfolio.PortfolioSection.constructor` | src/components/Portfolio.jsx:364-365 | the section starts on `'All'` with no project selected, no gallery and the page not locked |
| `Portfolio.PortfolioSection.SetFilter` | src/components/Portfolio.jsx:388-392 | a filter button sets the active filter and leaves the modal state alone |
| `Portfolio.PortfolioSection.Select` | src/components/Portfolio.jsx:204-205 | selecting a visible card opens its modal and locks scrolling; a gallery is mounted at index 0, kept if one is already mounted, or absent if the project has at most one image |
| `Portfolio.PortfolioSection.Close` | src/components/Portfolio.jsx:208-209 | closing clears the selection, unmounts the gallery and resets `overflow` to `''` |
| `Portfolio.PortfolioSection.KeyDown` | src/components/Portfolio.jsx:206 | Escape closes an open modal; arrow keys move a mounted gallery by `Wrap` and record the key's direction; the lock always equals "a project is selected" |
| `Navbar.SectionIdsRoundTrip` | src/components/Navbar.jsx:24 | putting `#` back in front of each section id gives that link's href, in list order |
| `Navbar.SectionIdsValue` | src/components/Navbar.jsx:5-12 | the section ids are hero, about, portfolio, philosophy, skills, contact |
| `Navbar.LastReached` | src/components/Navbar.jsx:25-31 | the scan's pick is the highest-index section whose element exists with `scrollY >= offsetTop - 120`; it is None iff no section qualifies |
| `Navbar.AtMostOneActive` | src/components/Navbar.jsx:63 | since the hrefs are distinct, at most one link is marked active |
| `Navbar.ActiveLinkOfSection` | src/components/Navbar.jsx:63 | when the active section is one of the bar's, exactly its link is marked active |
| `Navbar.NavbarState.constructor` | src/components/Navbar.jsx:15-17 | the bar starts unscrolled, with the menu closed and `'hero'` active |
| `Navbar.NavbarState.HandleScroll` | src/components/Navbar.jsx:20-31 | `scrolled` iff `scrollY > 60`; the active section becomes the scan's pick, or keeps its previous value when nothing qualifies |
| `Navbar.NavbarState.HandleNavClick` | src/components/Navbar.jsx:37-41 | the menu is always closed afterwards; the page scrolls only when the target exists |
| `Navbar.NavbarState.ToggleMenu` | src/components/Navbar.jsx:84 | the hamburger negates `menuOpen` |
| `Navbar.ToggleTwiceRestores` | src/components/Navbar.jsx:84 | two presses of the hamburger restore `menuOpen` |
| `Dom.ScrollToAnchor` | src/components/Footer.jsx:7-8 | the page scrolls to the id the href names when it exists, and does nothing otherwise |
| `JsText.RemoveFirstSplices` | src/components/Footer.jsx:41 | `replace('#', '')` cuts out the character at the first `#` only, or returns the string unchanged when there is none |
| `JsText.RemoveFirstLength` | src/components/Footer.jsx:41 | removing the first `#` shortens the string by one iff it contains a `#` |
| `Footer.NavLabelShape` | src/components/Footer.jsx:41 | the label is the href without its first `#`, with the first remaining character upper-cased |
| `Footer.NavLabelOfAnchor` | src/components/Footer.jsx:41 | the label of `'#' + w` is `w` with its first character upper-cased |
| `Footer.NavLabelLength` | src/components/Footer.jsx:41 | a label is one character shorter than an href containing `#`, and as long otherwise |
| `Footer.NavLabelOfHashOnly` | src/components/Footer.jsx:41 | the href `'#'` yields the empty label |
| `Footer.FooterLabels` | src/components/Footer.jsx:34-41 | the six footer links read Hero, About, Portfolio, Philosophy, Skills, Contact, in that order |
| `Footer.HandleNav` | src/components/Footer.jsx:7-8 | `handleNav` scrolls to the anchor's section when it exists and does nothing otherwise |
| `Contact.FormData.With` | src/components/Contact.jsx:19 | `{...prev, [name]: value}` sets the named field and leaves the other three as they were |
| `Contact.ContactForm.CurrentPhase` | src/components/Contact.jsx:124 | the phase is Submitted iff `submitted`, Submitting iff `loading`; the invariant keeps the two exclusive |
| `Contact.ContactForm.constructor` | src/components/Contact.jsx:13-16 | all four fields and `focused` start as `''`, with nothing loading, submitted, filled or focused |
| `Contact.ContactForm.HandleChange` | src/components/Contact.jsx:18-20 | only the named field changes; its `filled` flag holds iff the new value is non-empty |
| `Contact.ContactForm.Focus` | src/components/Contact.jsx:149 | focusing a field marks exactly that field as focused |
| `Contact.ContactForm.Blur` | src/components/Contact.jsx:150 | blur resets `focused` to `''`, so no field is marked focused |
| `Contact.ContactForm.HandleSubmit` | src/components/Contact.jsx:22-24 | submit moves Editing to Submitting and disables the submit button |
| `Contact.ContactForm.Complete` | src/components/Contact.jsx:25-28 | completion moves Submitting to Submitted, clears `loading` and hides the form; it is the only writer of `submitted`, and every other step requires the form shown, so Submitted is terminal |
| `Contact.SendJanesMessage` | src/components/Contact.jsx:124-139 | typing Jane, j@x.com, Hi and Hello, submitting and completing ends in the success view with those values |

## Left out

- Reveal-on-scroll: the IntersectionObserver latches in `App.jsx`, `About.jsx`, `Skills.jsx` and `ProjectCard` (`Portfolio.jsx:295-308`). When an element intersects is up to the browser, and the code only adds a class.
- Timers and staggers: the card stagger `index * 80`, the skill bars, and the contact form's 1800 ms delay. The delay is the explicit step `Complete`.
- Animation and floating point: framer-motion variants, exit animations, parallax and the skill-circle geometry.
- Portfolio.PortfolioSection.Close: resets `overflow` at once. In the page, `AnimatePresence` keeps the modal mounted for its 0.4 s exit animation, and the reset happens at unmount.
- Portfolio.PortfolioSection.Select: requires the card to be visible under the active filter, as a card is only rendered then.
- Event-listener registration and removal, `scrollIntoView` behaviour, and `getElementById`. Element existence and `offsetTop` are inputs.
- Navbar.NavbarState.HandleScroll: `scrollY` and `offsetTop` are integers here. The browser may report fractional pixels.
- Portfolio.DragDirection: the drag offset `info.offset.x` is an integer here. In the page it is a fractional pixel value; only its comparison with ±60 matters.
- Portfolio.ImageGallery.constructor: requires at least one image. The modal mounts a gallery only for two or more, and with none the source would compute `NaN`.
- Project text fields (subtitle, description, tags, gradient, year, area) and the card's text truncation. They are presentation only.
- JsText.ToUpper: upper-cases ASCII letters only. `toUpperCase` also maps other scripts, but every anchor here is ASCII.
- Contact.ContactForm.HandleSubmit: the browser's `required` check is a precondition (all four fields non-empty). The `type="email"` format check is not modelled.
- Contact.ContactForm.HandleChange, Focus, Blur and HandleSubmit require the form to be shown (`!submitted`), since the success view has no inputs.
- The copyright year `new Date().getFullYear()` and all static markup, copy and styling.
