/**
 * The three components of src/components/GalleryImage.jsx: a single image with a
 * placeholder, the hero slideshow that rotates through a folder's images, and the
 * responsive grid.
 *
 * Rendering is modelled as the value a component decides to show; markup, classes
 * and animation are not. `Math.random` becomes an index chosen by the caller.
 */
module GalleryImage {
  import opened Wrappers
  import GalleryLoader

  // ---------------------------------------------------------------------------
  // GalleryImage
  // ---------------------------------------------------------------------------

  const PlaceholderColors: seq<string> := [
    "from-amber-700 to-amber-900",
    "from-primary-600 to-primary-800",
    "from-stone-600 to-stone-800",
    "from-gold-600 to-gold-800"
  ]

  const DefaultAlt: string := "Imagen de galería"

  /** What `GalleryImage` shows: a coloured placeholder or the picture itself. */
  datatype ImageView =
    | Placeholder(color: string)
    | Picture(src: string, alt: string)

  /** `!src`: the source is missing or the empty string. */
  predicate Falsy(src: Option<string>) {
    src.None? || src.value == ""
  }

  /** `GalleryImage`; `colorPick` stands for `Math.floor(Math.random() * 4)`. */
  function RenderImage(src: Option<string>, colorPick: nat, alt: string := DefaultAlt): (v: ImageView)
    requires colorPick < |PlaceholderColors|
    ensures v.Placeholder? <==> Falsy(src)
    ensures v.Placeholder? ==> v.color in PlaceholderColors
    ensures v.Picture? ==> src == Some(v.src) && v.src != "" && v.alt == alt
  {
    if Falsy(src) then Placeholder(PlaceholderColors[colorPick]) else Picture(src.value, alt)
  }

  /** The decimal numeral of `n`, as a template literal prints it. */
  function Decimal(n: nat): string
    decreases n
  {
    var digit := ['0' + (n % 10) as char];
    if n < 10 then digit else Decimal(n / 10) + digit
  }

  // ---------------------------------------------------------------------------
  // HeroSlideshow
  // ---------------------------------------------------------------------------

  /** One rendered slide: its picture, its alt text and whether it is the opaque one. */
  datatype Slide = Slide(src: string, alt: string, visible: bool)

  /** What `HeroSlideshow` shows: the plain backdrop, or every slide stacked. */
  datatype SlideshowView =
    | Backdrop
    | Slides(slides: seq<Slide>)

  function SlideCount(images: Option<seq<GalleryLoader.Image>>): nat {
    if images.None? then 0 else |images.value|
  }

  /** The effect installs a timer unless `!images || images.length <= 1`. */
  predicate Rotates(images: Option<seq<GalleryLoader.Image>>) {
    SlideCount(images) >= 2
  }

  /** The timer's update `(prev + 1) % images.length`; both operands are non-negative. */
  function NextIndex(prev: int, n: int): (next: int)
    requires 0 <= prev && 1 <= n
    ensures 0 <= next < n
    ensures prev < n ==> next == if prev == n - 1 then 0 else prev + 1
  {
    (prev + 1) % n
  }

  /** The index after `k` updates starting from `i`. */
  function Ticks(i: int, k: nat, n: int): (r: int)
    requires 0 <= i && 1 <= n
    ensures 0 <= r
    ensures i < n ==> r < n
  {
    if k == 0 then i else NextIndex(Ticks(i, k - 1, n), n)
  }

  lemma {:induction false} TicksCompose(i: int, a: nat, b: nat, n: int)
    requires 0 <= i && 1 <= n
    ensures Ticks(i, a + b, n) == Ticks(Ticks(i, a, n), b, n)
  {
    if b > 0 {
      TicksCompose(i, a, b - 1, n);
    }
  }

  /** Before it reaches the last slide the index just counts up. */
  lemma {:induction false} TicksCountUp(i: int, k: nat, n: int)
    requires 0 <= i && i + k < n
    ensures Ticks(i, k, n) == i + k
  {
    if k > 0 {
      TicksCountUp(i, k - 1, n);
    }
  }

  /** After as many updates as there are slides the index is back where it started. */
  lemma TicksCycle(i: int, n: int)
    requires 0 <= i < n
    ensures Ticks(i, n, n) == i
  {
    TicksCountUp(i, n - 1 - i, n);
    assert Ticks(i, n - i, n) == 0;
    TicksCompose(i, n - i, i, n);
    TicksCountUp(0, i, n);
  }

  /** From any slide every other slide comes up within fewer than `n` updates. */
  lemma TicksReachEvery(i: int, j: int, n: int)
    requires 0 <= i < n && 0 <= j < n
    ensures exists k :: 0 <= k < n && Ticks(i, k, n) == j
  {
    if i <= j {
      TicksCountUp(i, j - i, n);
    } else {
      TicksCountUp(i, n - 1 - i, n);
      assert Ticks(i, n - i, n) == 0;
      TicksCompose(i, n - i, j, n);
      TicksCountUp(0, j, n);
      assert Ticks(i, n - i + j, n) == j;
    }
  }

  /** The markup decision of `HeroSlideshow`: the backdrop for no images, else one slide per image. */
  function RenderSlideshow(images: Option<seq<GalleryLoader.Image>>, current: int): (v: SlideshowView)
    ensures v.Backdrop? <==> SlideCount(images) == 0
    ensures v.Slides? ==> |v.slides| == SlideCount(images)
    ensures v.Slides? ==> forall k :: 0 <= k < |v.slides| ==>
      v.slides[k].src == images.value[k].src && v.slides[k].alt == "Slide " + Decimal(k + 1)
  {
    if SlideCount(images) == 0 then Backdrop
    else
      var imgs := images.value;
      Slides(seq(|imgs|, k requires 0 <= k < |imgs| =>
        Slide(imgs[k].src, "Slide " + Decimal(k + 1), k == current)))
  }

  function VisibleCount(slides: seq<Slide>): nat {
    if slides == [] then 0 else (if slides[0].visible then 1 else 0) + VisibleCount(slides[1..])
  }

  lemma {:induction false} VisibleCountMarked(slides: seq<Slide>, current: int)
    requires forall k :: 0 <= k < |slides| ==> (slides[k].visible <==> k == current)
    ensures VisibleCount(slides) == if 0 <= current < |slides| then 1 else 0
  {
    if slides != [] {
      var rest := slides[1..];
      forall k | 0 <= k < |rest| ensures rest[k].visible <==> k == current - 1 {
        assert rest[k] == slides[k + 1];
      }
      VisibleCountMarked(rest, current - 1);
    }
  }

  /** Exactly one slide, the current one, is opaque while the index is in range. */
  lemma ExactlyOneSlideVisible(images: Option<seq<GalleryLoader.Image>>, current: int)
    requires 0 <= current < SlideCount(images)
    ensures RenderSlideshow(images, current).Slides?
    ensures var slides := RenderSlideshow(images, current).slides;
      VisibleCount(slides) == 1 && slides[current].visible
  {
    VisibleCountMarked(RenderSlideshow(images, current).slides, current);
  }

  /** The state of one mounted `HeroSlideshow`. */
  class HeroSlideshow {
    const images: Option<seq<GalleryLoader.Image>>
    const interval: int
    var currentIndex: int
    /** Whether the effect's `setInterval` timer is installed. */
    var timerRunning: bool

    ghost predicate Valid()
      reads this
    {
      && 0 <= currentIndex
      && (SlideCount(images) >= 1 ==> currentIndex < SlideCount(images))
      && (!Rotates(images) ==> currentIndex == 0)
      && (timerRunning ==> Rotates(images))
    }

    /** `useState(0)`; the default interval is 5000 ms. */
    constructor(images: Option<seq<GalleryLoader.Image>>, interval: int := 5000)
      ensures Valid()
      ensures this.images == images && this.interval == interval
      ensures currentIndex == 0 && !timerRunning
    {
      this.images := images;
      this.interval := interval;
      currentIndex := 0;
      timerRunning := false;
    }

    /** The effect after mounting: a timer only for two or more images. */
    method Mount()
      requires Valid()
      modifies this
      ensures Valid()
      ensures timerRunning == Rotates(images)
      ensures currentIndex == old(currentIndex)
    {
      timerRunning := Rotates(images);
    }

    /** One `interval` elapses: the installed timer, and only it, moves the index on. */
    method Tick()
      requires Valid()
      modifies this
      ensures Valid()
      ensures timerRunning == old(timerRunning)
      ensures currentIndex == if timerRunning then NextIndex(old(currentIndex), SlideCount(images)) else old(currentIndex)
    {
      if timerRunning {
        currentIndex := NextIndex(currentIndex, SlideCount(images));
      }
    }

    /** The effect's cleanup, `clearInterval(timer)`, when the slideshow unmounts. */
    method Unmount()
      requires Valid()
      modifies this
      ensures Valid()
      ensures !timerRunning
      ensures currentIndex == old(currentIndex)
    {
      timerRunning := false;
    }

    function View(): SlideshowView
      reads this
    {
      RenderSlideshow(images, currentIndex)
    }
  }

  // ---------------------------------------------------------------------------
  // GalleryGrid
  // ---------------------------------------------------------------------------

  /** The `gridCols` table, keyed by column count. */
  const GridCols: map<int, string> := map[
    1 := "grid-cols-1",
    2 := "grid-cols-1 md:grid-cols-2",
    3 := "grid-cols-1 md:grid-cols-2 lg:grid-cols-3",
    4 := "grid-cols-1 md:grid-cols-2 lg:grid-cols-4"
  ]

  /** `gridCols[columns] || gridCols[3]` */
  function ColumnsClass(columns: int): (cls: string)
    ensures 1 <= columns <= 4 ==> cls == GridCols[columns]
    ensures !(1 <= columns <= 4) ==> cls == GridCols[3]
  {
    if columns in GridCols then GridCols[columns] else GridCols[3]
  }

  /** What `GalleryGrid` shows: the column class, the gap and one cell per image. */
  datatype GridView = GridView(columnsClass: string, gap: int, cells: seq<ImageView>)

  /** `GalleryGrid`; `picks[k]` is the random colour index of the k-th cell's placeholder. */
  function RenderGrid(images: seq<GalleryLoader.Image>, picks: seq<nat>, columns: int := 3, gap: int := 8): (g: GridView)
    requires |picks| == |images|
    requires forall k :: 0 <= k < |picks| ==> picks[k] < |PlaceholderColors|
    ensures g.columnsClass == ColumnsClass(columns) && g.gap == gap
    ensures |g.cells| == |images|
    ensures forall k :: 0 <= k < |images| ==>
      && (g.cells[k].Picture? <==> images[k].src != "")
      && (g.cells[k].Picture? ==> g.cells[k].src == images[k].src && g.cells[k].alt == "Imagen " + Decimal(k + 1))
  {
    GridView(ColumnsClass(columns), gap,
      seq(|images|, k requires 0 <= k < |images| =>
        RenderImage(Some(images[k].src), picks[k], "Imagen " + Decimal(k + 1))))
  }
}
