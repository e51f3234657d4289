# Kitchen-design site gallery core, modelled in Dafny

The site is a single React page. Almost all of it is markup and animation. Three parts hold logic, and this project models those three:

- **The image-folder index** (`src/utils/galleryLoader.js`, module `GalleryLoader`). The bundler's eager glob yields `(path, src)` pairs for every image under `galeria/`. `getImagesFromFolder(folder)` keeps the pairs whose path starts with `../../galeria/<folder>/`. It pushes one `{src, name, path}` record per pair, where `name` is the file name cut at its first `.`. It then sorts the records by `name` with `localeCompare`. `getImageByIndex`, `getImageCount` and `hasImages` each rebuild that list and read it.
- **The project gallery** (`src/components/Gallery.jsx`, module `Gallery`). It has a fixed catalogue of six projects and four filter buttons. It holds two state cells: the active category, which starts at `'todas'`, and the project shown in the detail overlay, which starts at `null`. The visible list is the whole catalogue under `'todas'`. Otherwise it is the order-preserving filter of projects whose lower-cased category equals the lower-cased active category.
- **The image components** (`src/components/GalleryImage.jsx`, module `GalleryImage`). `GalleryImage` shows a picture, or a coloured placeholder when `src` is falsy. `HeroSlideshow` keeps a `currentIndex`. A timer moves it to `(prev + 1) % images.length`, but only when there are at least two images. Exactly the current slide is opaque. `GalleryGrid` picks a column class from a four-entry table, falls back to the 3-column class, and renders one `GalleryImage` per image.

Modelling choices:

- The glob's object is an input `seq<(string, string)>` in key order.
- `localeCompare` is a comparator parameter `(string, string) -> int`. The records come out sorted whenever that comparator is a total preorder. `OrdinalCompare`, case-sensitive order by character code, is proved to be one.
- The engine's `Array.prototype.sort` is modelled by a stable insertion sort (`SortByName`).
- Unicode `toLowerCase` is a parameter `lower: string -> string`.
- `Math.random`'s colour choice is an index supplied by the caller.
- The slideshow's timer is the field `timerRunning`. `Mount` models the effect, `Unmount` its cleanup, and `Tick` one elapsed interval.
- JavaScript's `null` is `Option.None`. A falsy `src` is a missing value or the empty string.
- The source's `label` field of a category is called `caption`, because `label` is a Dafny keyword.

Facts about the code that the model keeps:

- The slideshow's only transition is the auto-advance tick.
- Names are compared with `localeCompare`. Ordinal comparison is only one admissible instance of the comparator.
- Each project carries its own gradient class. No project is paired with a gallery image.
- There is no manifest of all folders. Every accessor call filters the whole input again.
- Only the path prefix is tested, so images in a sub-folder of `<folder>` are listed under `<folder>`. The extension filter lives in the glob pattern, which is not part of this model.
- The wildcard category is `'todas'`.

## Model

| member | source | states |
|---|---|---|
| GalleryLoader.LastSegmentSpec | src/utils/galleryLoader.js:23 | `split('/').pop()` is the longest suffix of the path without a '/': it has no '/', and it is the whole path or follows a '/' |
| GalleryLoader.LastSegmentUnique | src/utils/galleryLoader.js:23 | any suffix with those three properties is the last segment, so the properties fully characterise it |
| GalleryLoader.BeforeFirstDot | src/utils/galleryLoader.js:23 | `split('.')[0]` is the longest prefix without a '.': it has no '.', and it is the whole segment or is followed by a '.' |
| GalleryLoader.BeforeFirstDotUnique | src/utils/galleryLoader.js:23 | any prefix with those three properties is the text before the first dot |
| GalleryLoader.NameOfShape | src/utils/galleryLoader.js:23 | a record's name contains neither '/' nor '.' and is a prefix of the path's last segment |
| GalleryLoader.NameOfParts | src/utils/galleryLoader.js:23 | a path made of directories, a dot-free base and a dotted tail is named after exactly its base |
| GalleryLoader.Select | src/utils/galleryLoader.js:18-22 | the kept entries are exactly those whose path starts with `../../galeria/<folder>/`, each with its input multiplicity; none is invented |
| GalleryLoader.RecordsMultiset | src/utils/galleryLoader.js:24-28 | the pushed `{src, name, path}` record determines its entry, so each record occurs exactly as often as its entry |
| GalleryLoader.InsertByName | src/utils/galleryLoader.js:33 | inserting a record adds exactly that record |
| GalleryLoader.SortByName | src/utils/galleryLoader.js:33 | sorting is a permutation: no record is dropped, duplicated or invented |
| GalleryLoader.InsertByNameSorted | src/utils/galleryLoader.js:33 | under a consistent comparator, inserting into a name-sorted list keeps it sorted |
| GalleryLoader.SortByNameSorted | src/utils/galleryLoader.js:33 | under a consistent comparator, the sorted list is non-decreasing by name for every pair of positions |
| GalleryLoader.OrdinalCompare | src/utils/galleryLoader.js:33 | ordinal comparison answers 0 exactly for equal names |
| GalleryLoader.OrdinalAntisymmetric | src/utils/galleryLoader.js:33 | ordinal comparison is total, and a negative answer one way is a positive answer the other way |
| GalleryLoader.OrdinalTransitive | src/utils/galleryLoader.js:33 | "not after" under ordinal comparison is transitive |
| GalleryLoader.OrdinalIsTotalPreorder | src/utils/galleryLoader.js:33 | ordinal comparison meets the condition under which the folder list comes out sorted |
| GalleryLoader.ImagesFromFolderSound | src/utils/galleryLoader.js:17-35 | every record returned for a folder has a path under that folder and is named after its own path |
| GalleryLoader.GetImagesFromFolder | src/utils/galleryLoader.js:17-36 | the loop and sort return every matching asset exactly once as its record, nothing else, as many records as matching entries, sorted by name under a consistent comparator |
| GalleryLoader.GetImageByIndex | src/utils/galleryLoader.js:44-47 | the result is the src of the index-th sorted record when the index is in range and that src is non-empty, and null otherwise; the index defaults to 0 |
| GalleryLoader.GetImageCount | src/utils/galleryLoader.js:54-56 | the count is the length of the folder's list, which is the number of matching entries |
| GalleryLoader.HasImages | src/utils/galleryLoader.js:63-65 | true exactly when the count is positive, which is exactly when some discovered path lies under the folder |
| GalleryLoader.SiblingFolderExcluded | src/utils/galleryLoader.js:18-22 | because of the prefix's trailing '/', a path under `<folder><suffix>` is not under `<folder>` |
| GalleryLoader.SiblingFolderContributesNothing | src/utils/galleryLoader.js:17-35 | no record listed for a folder comes from a sibling folder whose name extends it |
| Gallery.FilterByCategory | src/components/Gallery.jsx:69 | the filter keeps every project whose lower-cased category matches, as often as it occurs, drops all others, and keeps their order |
| Gallery.FilteredProjects | src/components/Gallery.jsx:67-69 | under `'todas'` the visible list is the catalogue itself; otherwise it holds exactly the matching projects with their multiplicities; it is always an order-preserving subsequence, no longer than the catalogue |
| Gallery.SubsequenceNoLonger | src/components/Gallery.jsx:67-69 | a subsequence is no longer than the list it is taken from |
| Gallery.CategoryButtonShowsItsLabel | src/components/Gallery.jsx:56-69 | each button other than `'todas'` shows exactly the catalogue's projects whose category is its label, when lower-casing maps labels to ids |
| Gallery.CategoryIdsDistinct | src/components/Gallery.jsx:56-61 | no two filter buttons share an id |
| Gallery.GalleryState.AtMostOneButtonActive | src/components/Gallery.jsx:101-109 | with the `activeCategory === category.id` test, at most one of the four buttons is drawn as active, whatever the active category |
| Gallery.GalleryState.constructor | src/components/Gallery.jsx:64-65 | the gallery starts on `'todas'` with no project selected |
| Gallery.GalleryState.SetActiveCategory | src/components/Gallery.jsx:104 | a button click sets the active category and leaves the selection alone |
| Gallery.GalleryState.SelectProject | src/components/Gallery.jsx:133 | a card click selects that project and leaves the category alone |
| Gallery.GalleryState.CloseProject | src/components/Gallery.jsx:203-217 | the backdrop and the close button clear the selection and leave the category alone |
| GalleryImage.RenderImage | src/components/GalleryImage.jsx:24-67 | the placeholder is shown exactly when `src` is falsy, in one of the four colours; otherwise the picture of that non-empty `src` with the given alt text |
| GalleryImage.NextIndex | src/components/GalleryImage.jsx:80 | a tick lands in `[0, n)`: it moves to the next slide and wraps from the last to the first |
| GalleryImage.Ticks | src/components/GalleryImage.jsx:79-81 | repeated ticks from an in-range index stay in range |
| GalleryImage.TicksCompose | src/components/GalleryImage.jsx:79-81 | `a + b` ticks are `a` ticks followed by `b` ticks |
| GalleryImage.TicksCountUp | src/components/GalleryImage.jsx:80 | until it reaches the last slide, the index just counts up |
| GalleryImage.TicksCycle | src/components/GalleryImage.jsx:80 | after `n` ticks from any in-range index the index is back at its start |
| GalleryImage.TicksReachEvery | src/components/GalleryImage.jsx:80 | from any slide, every slide comes up within fewer than `n` ticks |
| GalleryImage.RenderSlideshow | src/components/GalleryImage.jsx:86-111 | a missing or empty list renders the backdrop and no slides; otherwise one slide per image, in order, with its src and its `Slide k` alt text |
| GalleryImage.VisibleCountMarked | src/components/GalleryImage.jsx:98-103 | with opacity decided by `index === currentIndex`, one slide is opaque when the index is in range and none otherwise |
| GalleryImage.ExactlyOneSlideVisible | src/components/GalleryImage.jsx:98-103 | for an in-range index, exactly one slide is opaque, and it is the one at `currentIndex` |
| GalleryImage.HeroSlideshow.constructor | src/components/GalleryImage.jsx:73-74 | a slideshow starts at index 0 with no timer, and the interval defaults to 5000 |
| GalleryImage.HeroSlideshow.Mount | src/components/GalleryImage.jsx:76-81 | the effect installs a timer exactly when there are two or more images, so with zero or one image the index stays 0 |
| GalleryImage.HeroSlideshow.Tick | src/components/GalleryImage.jsx:79-81 | an elapsed interval moves the index to the next slide when a timer is installed, and changes nothing otherwise; the index stays in range |
| GalleryImage.HeroSlideshow.Unmount | src/components/GalleryImage.jsx:83 | the cleanup removes the timer, so later intervals no longer move the index |
| GalleryImage.ColumnsClass | src/components/GalleryImage.jsx:122-130 | columns 1 to 4 get their own class from the table; any other value gets the 3-column class |
| GalleryImage.RenderGrid | src/components/GalleryImage.jsx:121-140 | the grid uses the column class and gap, and has one cell per image in order: a picture with alt `Imagen k` for a non-empty src, a placeholder otherwise |

## Left out

- `import.meta.glob` is a build-time bundler feature. Its result is the input sequence. The extension filter in its pattern is not modelled.
- `localeCompare` is locale-dependent collation. It is a comparator parameter. `OrdinalCompare` is one admissible instance.
- GalleryLoader.GetImagesFromFolder: the result is proved sorted only when the comparator is a total preorder. The engine promises no order for an inconsistent comparator either.
- GalleryLoader.SortByName: stable tie order is not stated as a property. It comes from the engine's `Array.prototype.sort`, not from this code. The model's insertion sort is stable by construction.
- Unicode `toLowerCase` is a parameter, because case mapping of accented text is runtime behaviour.
- GalleryImage.RenderGrid: a missing `images` prop makes `images.map` throw a TypeError, because `GalleryGrid` has no default and no guard for it. The model takes a sequence, so that error path is not modelled.
- `Math.random` in `GalleryImage` is an index chosen by the caller, because it is non-deterministic.
- The `onError` handler of `GalleryImage` hides a broken image and paints the placeholder colour. It is DOM mutation after a failed load, so it is not modelled.
- `setInterval` timing and the value of `interval` are not modelled. A `Tick` is one elapsed interval, whatever its length.
- GalleryImage.HeroSlideshow.Tick: a change of the `images` or `interval` props that re-runs the effect is not modelled, because `images` is fixed per instance. The code does not reset `currentIndex` when the list shrinks.
- The `className` and `aspectRatio` props, framer-motion animation, JSX markup, Tailwind classes and `tailwind.config.js` are presentation.
- `test.js` is browser automation.
- `Navbar.jsx`, `Contact.jsx`, `Services.jsx`, `Hero.jsx`, `About.jsx`, `Testimonials.jsx` and `Footer.jsx` are static content or trivial UI toggles, so they are not part of this model.
- The gallery's "Ver Todos los Proyectos" button has no handler in the code, so there is nothing to model.
