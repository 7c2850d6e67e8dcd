/**
 * The portfolio section: a fixed project catalog, a category filter over it,
 * a card grid, and a modal that shows the selected project, with a swipeable
 * image gallery when the project has several images. While the modal is
 * mounted the page body's `overflow` style is `'hidden'`.
 */
module Portfolio {
  import opened Wrappers

  /** A catalog entry, reduced to the fields the logic reads. */
  datatype Project = Project(
    id: int,
    category: string,
    title: string,
    image: Option<string>,         // `image`, a URL; `''` is falsy like a missing one
    images: Option<seq<string>>)   // `images`, present only on gallery projects

  /** `projects`: the hand-written catalog, in display order. */
  function Catalog(): seq<Project>
  {
    [ Project(1, "Architecture", "Exterior Design I", Some("/exterior/1.jpeg"), None),
      Project(2, "Architecture", "Exterior Design II", Some("/exterior/2.jpeg"), None),
      Project(3, "Interior", "Living Space", Some("/interior/2.jpg.jpeg"), None),
      Project(4, "Interior", "Front Elevation Interior", Some("/interior/front[1].jpg.jpeg"), None),
      Project(5, "Interior", "Kitchen Design I", Some("/interior/kitchen 3.jpg.jpeg"), None),
      Project(6, "Interior", "Kitchen Design II", Some("/interior/kitchen33.jpg.jpeg"), None),
      Project(7, "Interior", "Kitchen Design III", Some("/interior/kitchen44.jpg.jpeg"), None),
      Project(8, "Cafe", "Cafe Design", Some("/exterior/cafe1.jpeg"),
              Some(["/exterior/cafe1.jpeg", "/exterior/cafe-2.jpeg", "/exterior/cafe-3.jpeg",
                    "/exterior/cafe-4.jpeg", "/exterior/cafe-6.jpeg"])) ]
  }

  /** `filters`: the filter buttons, in display order. */
  function Filters(): seq<string>
  {
    ["All", "Architecture", "Interior", "Cafe", "Concepts"]
  }

  // ---------------------------------------------------------------------------
  // Filtering

  /** `ps.filter(p => p.category === c)`. */
  function WithCategory(ps: seq<Project>, c: string): (r: seq<Project>)
    ensures |r| <= |ps|
    ensures forall p :: p in r <==> p in ps && p.category == c
  {
    if ps == [] then []
    else if ps[0].category == c then [ps[0]] + WithCategory(ps[1..], c)
    else WithCategory(ps[1..], c)
  }

  /** `activeFilter === 'All' ? projects : projects.filter(p => p.category === activeFilter)`. */
  function Filtered(ps: seq<Project>, filter: string): seq<Project>
  {
    if filter == "All" then ps else WithCategory(ps, filter)
  }

  /** `r` is `s` with some elements dropped and the rest kept in their order. */
  ghost predicate Subsequence(r: seq<Project>, s: seq<Project>)
    decreases |s|
  {
    if r == [] then true
    else if s == [] then false
    else (r[0] == s[0] && Subsequence(r[1..], s[1..])) || Subsequence(r, s[1..])
  }

  lemma {:induction false} WithCategoryIsSubsequence(ps: seq<Project>, c: string)
    ensures Subsequence(WithCategory(ps, c), ps)
    decreases |ps|
  {
    if ps != [] {
      WithCategoryIsSubsequence(ps[1..], c);
      var rest := WithCategory(ps[1..], c);
      if ps[0].category == c {
        assert ([ps[0]] + rest)[1..] == rest;
      }
    }
  }

  /**
   * The filter keeps catalog order: the visible list is always a subsequence
   * of the catalog. `'All'` shows every project; any other filter shows
   * exactly the projects of that category.
   */
  lemma FilteredSpec(ps: seq<Project>, filter: string)
    ensures Subsequence(Filtered(ps, filter), ps)
    ensures filter == "All" ==> Filtered(ps, filter) == ps
    ensures filter != "All" ==>
              forall p :: p in Filtered(ps, filter) <==> p in ps && p.category == filter
  {
    if filter == "All" {
      SubsequenceReflexive(ps);
    } else {
      WithCategoryIsSubsequence(ps, filter);
    }
  }

  lemma {:induction false} SubsequenceReflexive(s: seq<Project>)
    ensures Subsequence(s, s)
    decreases |s|
  {
    if s != [] {
      SubsequenceReflexive(s[1..]);
    }
  }

  /** Every project a filter shows comes from the list it filters. */
  lemma FilteredMembers(ps: seq<Project>, filter: string, p: Project)
    requires p in Filtered(ps, filter)
    ensures p in ps
  {
  }

  /** Filtering a concatenation filters each part. */
  lemma {:induction false} WithCategoryAppend(a: seq<Project>, b: seq<Project>, c: string)
    ensures WithCategory(a + b, c) == WithCategory(a, c) + WithCategory(b, c)
    decreases |a|
  {
    if a != [] {
      WithCategoryAppend(a[1..], b, c);
      assert (a + b)[1..] == a[1..] + b;
    } else {
      assert a + b == b;
    }
  }

  /** A list whose projects all have category `c` passes its filter unchanged. */
  lemma {:induction false} WithCategoryKeepsAll(ps: seq<Project>, c: string)
    requires forall i :: 0 <= i < |ps| ==> ps[i].category == c
    ensures WithCategory(ps, c) == ps
    decreases |ps|
  {
    if ps != [] {
      WithCategoryKeepsAll(ps[1..], c);
      assert ps == [ps[0]] + ps[1..];
    }
  }

  /** A list with no project of category `c` filters to nothing. */
  lemma WithCategoryDropsAll(ps: seq<Project>, c: string)
    requires forall i :: 0 <= i < |ps| ==> ps[i].category != c
    ensures WithCategory(ps, c) == []
  {
  }

  /** The catalog in its three category blocks: Architecture 2, Interior 5, Cafe 1. */
  lemma CatalogBlocks()
    ensures |Catalog()| == 8
    ensures Catalog() == Catalog()[..2] + Catalog()[2..7] + Catalog()[7..]
    ensures forall i :: 0 <= i < 2 ==> Catalog()[i].category == "Architecture"
    ensures forall i :: 2 <= i < 7 ==> Catalog()[i].category == "Interior"
    ensures Catalog()[7].category == "Cafe"
  {
  }

  /** `'All'` shows the whole catalog of eight projects. */
  lemma AllFilter()
    ensures Filtered(Catalog(), "All") == Catalog() && |Catalog()| == 8
  {
    CatalogBlocks();
  }

  /** Filtering three blocks of which only the middle one has category `cat` yields that block. */
  lemma MiddleBlock(a: seq<Project>, b: seq<Project>, d: seq<Project>, cat: string)
    requires forall i :: 0 <= i < |a| ==> a[i].category != cat
    requires forall i :: 0 <= i < |b| ==> b[i].category == cat
    requires forall i :: 0 <= i < |d| ==> d[i].category != cat
    ensures WithCategory(a + b + d, cat) == b
  {
    WithCategoryAppend(a + b, d, cat);
    WithCategoryAppend(a, b, cat);
    WithCategoryDropsAll(a, cat);
    WithCategoryKeepsAll(b, cat);
    WithCategoryDropsAll(d, cat);
  }

  /** `'Interior'` shows exactly the five Interior projects, in catalog order. */
  lemma InteriorFilter()
    ensures Filtered(Catalog(), "Interior") == Catalog()[2..7]
  {
    var c := Catalog();
    CatalogBlocks();
    MiddleBlock(c[..2], c[2..7], c[7..], "Interior");
  }

  /** `'Architecture'` shows the two Architecture projects. */
  lemma ArchitectureFilter()
    ensures Filtered(Catalog(), "Architecture") == Catalog()[..2]
  {
    var c := Catalog();
    CatalogBlocks();
    MiddleBlock([], c[..2], c[2..], "Architecture");
    assert [] + c[..2] + c[2..] == c;
  }

  /** `'Cafe'` shows the Cafe project alone. */
  lemma CafeFilter()
    ensures Filtered(Catalog(), "Cafe") == Catalog()[7..]
  {
    var c := Catalog();
    CatalogBlocks();
    MiddleBlock(c[..7], c[7..], [], "Cafe");
    assert c[..7] + c[7..] + [] == c;
  }

  /** No project is in the `'Concepts'` category, so that filter shows an empty grid. */
  lemma ConceptsFilter()
    ensures Filtered(Catalog(), "Concepts") == []
  {
    CatalogBlocks();
    WithCategoryDropsAll(Catalog(), "Concepts");
  }

  // ---------------------------------------------------------------------------
  // The modal's images

  /** `project.images || (project.image ? [project.image] : [])`. */
  function ModalImages(p: Project): (imgs: seq<string>)
    ensures p.images.Some? ==> imgs == p.images.value
    ensures p.images.None? ==> |imgs| <= 1
    ensures p.images.None? && p.image.Some? && p.image.value != "" ==> imgs == [p.image.value]
    ensures p.images.None? && !(p.image.Some? && p.image.value != "") ==> imgs == []
  {
    if p.images.Some? then p.images.value
    else if p.image.Some? && p.image.value != "" then [p.image.value]
    else []
  }

  /** What the modal's image area shows. */
  datatype ImageArea = GalleryView(images: seq<string>) | SingleImage(src: string) | TextOnly

  /** `images.length > 1 ? <ImageGallery/> : images.length === 1 ? <img/> : <text/>`. */
  function ModalImageArea(p: Project): (area: ImageArea)
    ensures area.GalleryView? <==> |ModalImages(p)| > 1
    ensures area.GalleryView? ==> area.images == ModalImages(p)
    ensures area.SingleImage? <==> |ModalImages(p)| == 1
    ensures area.SingleImage? ==> [area.src] == ModalImages(p)
    ensures area.TextOnly? <==> ModalImages(p) == []
  {
    var imgs := ModalImages(p);
    if |imgs| > 1 then GalleryView(imgs)
    else if |imgs| == 1 then SingleImage(imgs[0])
    else TextOnly
  }

  /** `ProjectCard`'s `hasGallery`: `project.images && project.images.length > 1`. */
  predicate HasGallery(p: Project)
  {
    p.images.Some? && |p.images.value| > 1
  }

  /** The card's "photos" badge shows exactly when the modal would open a gallery. */
  lemma BadgeMatchesGallery(p: Project)
    ensures HasGallery(p) <==> ModalImageArea(p).GalleryView?
  {
  }

  /** In this catalog only the Cafe project has a gallery, and it has five images. */
  lemma OnlyCafeHasGallery(p: Project)
    requires p in Catalog()
    ensures ModalImageArea(p).GalleryView? <==> p == Catalog()[7]
    ensures |ModalImages(Catalog()[7])| == 5
  {
    var c := Catalog();
    var i :| 0 <= i < |c| && c[i] == p;
    assert i < 7 ==> |ModalImages(c[i])| == 1;
  }

  /** All projects of `ps` that open a gallery open it over the same images. */
  ghost predicate SingleGallery(ps: seq<Project>)
  {
    forall i, j ::
      (0 <= i < |ps| && 0 <= j < |ps| &&
       ModalImageArea(ps[i]).GalleryView? && ModalImageArea(ps[j]).GalleryView?) ==>
        ModalImages(ps[i]) == ModalImages(ps[j])
  }

  /**
   * The catalog has a single gallery, so a gallery kept mounted across a
   * re-selection stays in bounds.
   */
  lemma CatalogHasSingleGallery()
    ensures SingleGallery(Catalog())
  {
    forall i, j | 0 <= i < |Catalog()| && 0 <= j < |Catalog()| &&
      ModalImageArea(Catalog()[i]).GalleryView? && ModalImageArea(Catalog()[j]).GalleryView?
      ensures ModalImages(Catalog()[i]) == ModalImages(Catalog()[j])
    {
      OnlyCafeHasGallery(Catalog()[i]);
      OnlyCafeHasGallery(Catalog()[j]);
    }
  }

  // ---------------------------------------------------------------------------
  // Gallery navigation

  /** JavaScript's `a % n` for `n > 0`: the remainder takes the sign of `a`. */
  function JsRem(a: int, n: int): (r: int)
    requires n > 0
    ensures a >= 0 ==> 0 <= r < n
    ensures a < 0 ==> -n < r <= 0
  {
    if a >= 0 then a % n else -((-a) % n)
  }

  /** JsRem is a remainder: `a` is a multiple of `n` plus the result. */
  lemma JsRemDivision(a: int, n: int) returns (q: int)
    requires n > 0
    ensures a == q * n + JsRem(a, n)
  {
    if a >= 0 {
      q := a / n;
      assert a == (a / n) * n + a % n;
    } else {
      q := -((-a) / n);
      assert -a == ((-a) / n) * n + (-a) % n;
    }
  }

  lemma ModBelow(x: int, len: int)
    requires 0 <= x < len
    ensures x % len == x
  {
  }

  lemma ModOnce(x: int, len: int)
    requires len >= 1 && len <= x <= 2 * len
    ensures x % len == if x == 2 * len then 0 else x - len
  {
    assert (x - len) % len == x % len;
    if x == 2 * len {
      assert (x - 2 * len) % len == (x - len) % len;
    } else {
      ModBelow(x - len, len);
    }
  }

  /** The index after `go(dir)`: `(prev + dir + len) % len`. */
  function Wrap(prev: int, dir: int, len: int): (next: int)
    requires len >= 1 && 0 <= prev < len && (dir == -1 || dir == 1)
    ensures 0 <= next < len
    ensures dir == 1 ==> next == (if prev == len - 1 then 0 else prev + 1)
    ensures dir == -1 ==> next == (if prev == 0 then len - 1 else prev - 1)
  {
    var x := prev + dir + len;
    if x < len then ModBelow(x, len); JsRem(x, len)
    else ModOnce(x, len); JsRem(x, len)
  }

  /** The index after `k` calls of `go(dir)`. */
  function Steps(start: int, dir: int, len: int, k: nat): (i: int)
    requires len >= 1 && 0 <= start < len && (dir == -1 || dir == 1)
    ensures 0 <= i < len
  {
    if k == 0 then start else Wrap(Steps(start, dir, len, k - 1), dir, len)
  }

  /** Up to `len` forward steps from `start` land on `start + k`, wrapped once past the end. */
  lemma {:induction false} StepsForward(start: int, len: int, k: nat)
    requires len >= 1 && 0 <= start < len && k <= len
    ensures Steps(start, 1, len, k) == if start + k < len then start + k else start + k - len
  {
    if k > 0 {
      StepsForward(start, len, k - 1);
    }
  }

  /** Up to `len` backward steps from `start` land on `start - k`, wrapped once past the front. */
  lemma {:induction false} StepsBackward(start: int, len: int, k: nat)
    requires len >= 1 && 0 <= start < len && k <= len
    ensures Steps(start, -1, len, k) == if start - k >= 0 then start - k else start - k + len
  {
    if k > 0 {
      StepsBackward(start, len, k - 1);
    }
  }

  /** `a` steps followed by `b` steps are `a + b` steps. */
  lemma {:induction false} StepsCompose(start: int, dir: int, len: int, a: nat, b: nat)
    requires len >= 1 && 0 <= start < len && (dir == -1 || dir == 1)
    ensures Steps(start, dir, len, a + b) == Steps(Steps(start, dir, len, a), dir, len, b)
  {
    if b > 0 {
      StepsCompose(start, dir, len, a, b - 1);
    }
  }

  /** `len` calls of `go(dir)` come back to the starting image. */
  lemma FullCycle(start: int, dir: int, len: int)
    requires len >= 1 && 0 <= start < len && (dir == -1 || dir == 1)
    ensures Steps(start, dir, len, len) == start
  {
    if dir == 1 { StepsForward(start, len, len); } else { StepsBackward(start, len, len); }
  }

  /** Navigation is periodic: `len` more steps in the same direction change nothing. */
  lemma StepsPeriodic(start: int, dir: int, len: int, k: nat)
    requires len >= 1 && 0 <= start < len && (dir == -1 || dir == 1)
    ensures Steps(start, dir, len, k + len) == Steps(start, dir, len, k)
  {
    StepsCompose(start, dir, len, k, len);
    FullCycle(Steps(start, dir, len, k), dir, len);
  }

  /** On the five Cafe images, four steps forward from 0 reach 4 and a fifth returns to 0. */
  lemma CafeWalk()
    ensures Steps(0, 1, |ModalImages(Catalog()[7])|, 4) == 4
    ensures Steps(0, 1, |ModalImages(Catalog()[7])|, 5) == 0
  {
    OnlyCafeHasGallery(Catalog()[7]);
    StepsForward(0, 5, 4);
    StepsForward(0, 5, 5);
  }

  /** `key === 'ArrowLeft'` steps back, `key === 'ArrowRight'` forward; other keys do nothing. */
  function KeyDirection(key: string): (dir: Option<int>)
    ensures dir.Some? <==> key == "ArrowLeft" || key == "ArrowRight"
    ensures dir == Some(-1) <==> key == "ArrowLeft"
    ensures dir == Some(1) <==> key == "ArrowRight"
  {
    if key == "ArrowLeft" then Some(-1)
    else if key == "ArrowRight" then Some(1)
    else None
  }

  /** `onDragEnd`: a drag past 60 pixels to the left steps forward, to the right steps back. */
  function DragDirection(offsetX: int): (dir: Option<int>)
    ensures dir == Some(1) <==> offsetX < -60
    ensures dir == Some(-1) <==> offsetX > 60
    ensures dir.None? <==> -60 <= offsetX <= 60
  {
    if offsetX < -60 then Some(1)
    else if offsetX > 60 then Some(-1)
    else None
  }

  /** The counter under the image, `current + 1`, runs from 1 to the image count. */
  function Counter(current: int, len: int): (shown: int)
    requires 0 <= current < len
    ensures 1 <= shown <= len
  {
    current + 1
  }

  /** `ImageGallery`: the index of the image shown and the direction of the last move. */
  class ImageGallery {
    const images: seq<string>
    var current: int
    var direction: int

    ghost predicate Valid()
      reads this
    {
      |images| >= 1 && 0 <= current < |images| && -1 <= direction <= 1
    }

    /** A freshly mounted gallery shows the first image: `useState(0)`, `useState(0)`. */
    constructor (images: seq<string>)
      requires |images| >= 1
      ensures Valid() && this.images == images
      ensures current == 0 && direction == 0
    {
      this.images := images;
      current, direction := 0, 0;
    }

    /** `go(dir)`: record the direction and move with wrap-around. */
    method Go(dir: int)
      requires Valid() && (dir == -1 || dir == 1)
      modifies this
      ensures Valid() && direction == dir
      ensures current == Wrap(old(current), dir, |images|)
      ensures dir == 1 && old(current) == |images| - 1 ==> current == 0
      ensures dir == -1 && old(current) == 0 ==> current == |images| - 1
    {
      direction := dir;
      current := Wrap(current, dir, |images|);
    }

    /** A dot click: `setDirection(i > current ? 1 : -1); setCurrent(i)`. */
    method ClickDot(i: int)
      requires Valid() && 0 <= i < |images|
      modifies this
      ensures Valid() && current == i
      ensures direction == (if i > old(current) then 1 else -1)
      ensures i == old(current) ==> direction == -1
    {
      direction := if i > current then 1 else -1;
      current := i;
    }

    /** The window `keydown` handler of the gallery. */
    method KeyDown(key: string)
      requires Valid()
      modifies this
      ensures Valid()
      ensures match KeyDirection(key)
              case Some(d) => current == Wrap(old(current), d, |images|) && direction == d
              case None => current == old(current) && direction == old(direction)
    {
      if key == "ArrowLeft" { Go(-1); }
      if key == "ArrowRight" { Go(1); }
    }

    /** `onDragEnd` with the horizontal drag offset in pixels. */
    method DragEnd(offsetX: int)
      requires Valid()
      modifies this
      ensures Valid()
      ensures match DragDirection(offsetX)
              case Some(d) => current == Wrap(old(current), d, |images|) && direction == d
              case None => current == old(current) && direction == old(direction)
    {
      if offsetX < -60 { Go(1); }
      else if offsetX > 60 { Go(-1); }
    }
  }

  /** The Cafe gallery, freshly mounted, walked forward with the "next" arrow five times. */
  method WalkCafeGallery() returns (seen: seq<int>)
    ensures seen == [1, 2, 3, 4, 0]
  {
    OnlyCafeHasGallery(Catalog()[7]);
    var g := new ImageGallery(ModalImages(Catalog()[7]));
    g.Go(1);
    seen := [g.current];
    g.Go(1);
    seen := seen + [g.current];
    g.Go(1);
    seen := seen + [g.current];
    g.Go(1);
    seen := seen + [g.current];
    g.Go(1);
    seen := seen + [g.current];
  }

  // ---------------------------------------------------------------------------
  // The section

  /** `Portfolio`: the filter, the selected project, the body's overflow style and the mounted gallery. */
  class PortfolioSection {
    const projects: seq<Project>
    var activeFilter: string
    var selected: Option<Project>
    var bodyOverflow: string
    var gallery: ImageGallery?

    /**
     * The page is scroll-locked exactly while a project is selected (the
     * modal is mounted), and a gallery is mounted exactly while the selected
     * project has more than one image, over that project's images.
     */
    ghost predicate Valid()
      reads this, gallery
    {
      activeFilter in Filters() &&
      SingleGallery(projects) &&
      (selected.Some? ==> selected.value in projects) &&
      (bodyOverflow == "hidden" <==> selected.Some?) &&
      (selected.None? ==> bodyOverflow == "") &&
      (gallery != null <==> selected.Some? && ModalImageArea(selected.value).GalleryView?) &&
      (gallery != null ==> gallery.Valid() && gallery.images == ModalImages(selected.value))
    }

    predicate ScrollLocked()
      reads this
    {
      bodyOverflow == "hidden"
    }

    /** The cards in the grid. */
    function Visible(): seq<Project>
      reads this
    {
      Filtered(projects, activeFilter)
    }

    /** The section over the `projects` catalog, showing all of it with no modal open. */
    constructor ()
      ensures Valid() && projects == Catalog()
      ensures activeFilter == "All" && selected == None && gallery == null && !ScrollLocked()
      ensures Visible() == projects
    {
      projects := Catalog();
      activeFilter, selected, bodyOverflow, gallery := "All", None, "", null;
      CatalogHasSingleGallery();
    }

    /** A filter button: `setActiveFilter(f)`. */
    method SetFilter(f: string)
      requires Valid() && f in Filters()
      modifies this
      ensures Valid() && activeFilter == f
      ensures selected == old(selected) && gallery == old(gallery) && bodyOverflow == old(bodyOverflow)
    {
      activeFilter := f;
    }

    /**
     * A card click (or Enter on a focused card): `setSelectedProject(p)`.
     * Mounting the modal sets the body's overflow to `'hidden'`. A gallery
     * already mounted stays mounted, with its index, when the new project
     * also shows a gallery; otherwise a gallery is mounted fresh at image 0.
     */
    method Select(p: Project)
      requires Valid() && p in Visible()
      modifies this
      ensures Valid() && selected == Some(p) && ScrollLocked()
      ensures activeFilter == old(activeFilter)
      ensures !ModalImageArea(p).GalleryView? ==> gallery == null
      ensures ModalImageArea(p).GalleryView? && old(gallery) != null ==> gallery == old(gallery)
      ensures ModalImageArea(p).GalleryView? && old(gallery) == null ==>
                gallery != null && fresh(gallery) && gallery.current == 0 && gallery.direction == 0
    {
      FilteredMembers(projects, activeFilter, p);
      if ModalImageArea(p).GalleryView? {
        if gallery == null {
          gallery := new ImageGallery(ModalImages(p));
        } else {
          var i :| 0 <= i < |projects| && projects[i] == p;
          var j :| 0 <= j < |projects| && projects[j] == selected.value;
          assert ModalImages(p) == ModalImages(selected.value);
        }
      } else {
        gallery := null;
      }
      selected := Some(p);
      bodyOverflow := "hidden";
    }

    /**
     * `onClose`, from the close button, a click on the overlay or Escape:
     * `setSelectedProject(null)`. Unmounting the modal resets the overflow to `''`.
     */
    method Close()
      requires Valid()
      modifies this
      ensures Valid() && selected == None && gallery == null && !ScrollLocked() && bodyOverflow == ""
      ensures activeFilter == old(activeFilter)
    {
      selected := None;
      gallery := null;
      bodyOverflow := "";
    }

    /**
     * A window `keydown`: the modal's handler closes on Escape, and the
     * gallery's handler steps on the arrow keys; each listens only while mounted.
     */
    method KeyDown(key: string)
      requires Valid()
      modifies this, gallery
      ensures Valid() && activeFilter == old(activeFilter)
      ensures old(selected).Some? && key == "Escape" ==> selected == None && !ScrollLocked()
      ensures old(selected).None? || key != "Escape" ==>
                selected == old(selected) && gallery == old(gallery) && bodyOverflow == old(bodyOverflow)
      ensures old(gallery) != null && KeyDirection(key).Some? ==>
                gallery.current == Wrap(old(gallery.current), KeyDirection(key).value, |gallery.images|) &&
                gallery.direction == KeyDirection(key).value
      ensures old(gallery) != null && KeyDirection(key).None? && key != "Escape" ==>
                gallery.current == old(gallery.current) && gallery.direction == old(gallery.direction)
    {
      if gallery != null {
        gallery.KeyDown(key);
      }
      if selected.Some? && key == "Escape" {
        Close();
      }
    }
  }
}
