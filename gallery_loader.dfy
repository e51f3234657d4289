/**
 * The image-folder index of src/utils/galleryLoader.js.
 *
 * The bundler's eager glob becomes an input sequence of (path, src) pairs in the
 * key order of the object it produces, and `localeCompare` becomes a comparator
 * parameter. Every accessor rebuilds the folder's list, as the source does.
 */
module GalleryLoader {
  import opened Wrappers

  /** One discovered asset: its path relative to the loader and its resolved URL. */
  type Entry = (string, string)

  /** The record pushed for each asset of a folder: `{src, name, path}`. */
  datatype Image = Image(src: string, name: string, path: string)

  /** A three-way comparison on names, negative / zero / positive like `localeCompare`. */
  type Comparator = (string, string) -> int

  const GaleriaRoot: string := "../../galeria/"

  /** The prefix `../../galeria/<folder>/` that an asset of `folder` has. */
  function FolderPath(folder: string): string {
    GaleriaRoot + folder + "/"
  }

  predicate StartsWith(s: string, prefix: string) {
    |prefix| <= |s| && s[..|prefix|] == prefix
  }

  predicate InFolder(path: string, folder: string) {
    StartsWith(path, FolderPath(folder))
  }

  // ---------------------------------------------------------------------------
  // Name extraction: `path.split('/').pop().split('.')[0]`
  // ---------------------------------------------------------------------------

  /** The last piece of `split('/')`. */
  function LastSegment(s: string): string {
    if s == [] || s[|s| - 1] == '/' then []
    else LastSegment(s[..|s| - 1]) + [s[|s| - 1]]
  }

  /** The first piece of `split('.')`: the longest prefix without a '.'. */
  function BeforeFirstDot(s: string): (r: string)
    ensures |r| <= |s| && s[..|r|] == r
    ensures '.' !in r
    ensures |r| < |s| ==> s[|r|] == '.'
  {
    if s == [] || s[0] == '.' then [] else [s[0]] + BeforeFirstDot(s[1..])
  }

  /** The `name` of the record built for `path`. */
  function NameOf(path: string): string {
    BeforeFirstDot(LastSegment(path))
  }

  /** The last piece of `split('/')` is the longest suffix without a '/'. */
  lemma {:induction false} LastSegmentSpec(s: string)
    ensures var r := LastSegment(s);
      && |r| <= |s| && s[|s| - |r|..] == r
      && '/' !in r
      && (|r| < |s| ==> s[|s| - |r| - 1] == '/')
  {
    if s != [] && s[|s| - 1] != '/' {
      var init := s[..|s| - 1];
      LastSegmentSpec(init);
      var r0 := LastSegment(init);
      assert s == init + [s[|s| - 1]];
      assert s[|s| - |r0| - 1..] == init[|init| - |r0|..] + [s[|s| - 1]];
    }
  }

  /** A name holds neither '/' nor '.', and it is a prefix of the file's segment. */
  lemma NameOfShape(path: string)
    ensures '/' !in NameOf(path) && '.' !in NameOf(path)
    ensures StartsWith(LastSegment(path), NameOf(path))
  {
    LastSegmentSpec(path);
    var segment := LastSegment(path);
    var name := NameOf(path);
    assert forall k :: 0 <= k < |name| ==> name[k] == segment[k];
  }

  /** The three facts LastSegment ensures pin it down: no other suffix has them. */
  lemma LastSegmentUnique(s: string, r: string)
    requires |r| <= |s| && s[|s| - |r|..] == r
    requires '/' !in r
    requires |r| < |s| ==> s[|s| - |r| - 1] == '/'
    ensures r == LastSegment(s)
  {
    LastSegmentSpec(s);
    var l := LastSegment(s);
    assert r == s[|s| - |r|..] == l;
  }

  /** The three facts BeforeFirstDot ensures pin it down: no other prefix has them. */
  lemma BeforeFirstDotUnique(s: string, r: string)
    requires |r| <= |s| && s[..|r|] == r
    requires '.' !in r
    requires |r| < |s| ==> s[|r|] == '.'
    ensures r == BeforeFirstDot(s)
  {
    var d := BeforeFirstDot(s);
    assert r == s[..|r|] == d;
  }

  /**
   * A path split as directories, a base and a dotted tail is named after its base:
   * `<dir>/cocina-1.final.jpg` is named `cocina-1`.
   */
  lemma NameOfParts(dir: string, base: string, tail: string)
    requires dir == [] || dir[|dir| - 1] == '/'
    requires '/' !in base && '.' !in base
    requires '/' !in tail && (tail == [] || tail[0] == '.')
    ensures NameOf(dir + base + tail) == base
  {
    var path := dir + base + tail;
    var segment := base + tail;
    assert path == dir + segment;
    assert path[|path| - |segment|..] == segment;
    assert forall c :: c in segment ==> c in base || c in tail;
    if |segment| < |path| {
      assert path[|path| - |segment| - 1] == dir[|dir| - 1];
    }
    LastSegmentUnique(path, segment);
    assert segment[..|base|] == base;
    if |base| < |segment| {
      assert segment[|base|] == tail[0];
    }
    BeforeFirstDotUnique(segment, base);
  }

  // ---------------------------------------------------------------------------
  // The forEach / push loop
  // ---------------------------------------------------------------------------

  /** The entries that lie under `folder`, in discovery order. */
  function Select(es: seq<Entry>, folder: string): (r: seq<Entry>)
    ensures |r| <= |es|
    ensures forall e :: multiset(r)[e] == if InFolder(e.0, folder) then multiset(es)[e] else 0
  {
    if es == [] then []
    else
      var init, last := es[..|es| - 1], es[|es| - 1];
      assert es == init + [last];
      Select(init, folder) + (if InFolder(last.0, folder) then [last] else [])
  }

  /** The record the loop pushes for an entry. */
  function ToImage(e: Entry): Image {
    Image(e.1, NameOf(e.0), e.0)
  }

  /** The records for `es`, one per entry, in the same order. */
  function Records(es: seq<Entry>): (r: seq<Image>)
    ensures |r| == |es|
    ensures forall i :: 0 <= i < |es| ==> r[i] == ToImage(es[i])
  {
    if es == [] then [] else Records(es[..|es| - 1]) + [ToImage(es[|es| - 1])]
  }

  /** The `images` array once the forEach loop is done. */
  function Collect(es: seq<Entry>, folder: string): seq<Image> {
    Records(Select(es, folder))
  }

  /** A record is the image of exactly one entry, so counts carry over from entries to records. */
  lemma {:induction false} RecordsMultiset(es: seq<Entry>, e: Entry)
    ensures multiset(Records(es))[ToImage(e)] == multiset(es)[e]
  {
    if es != [] {
      var init, last := es[..|es| - 1], es[|es| - 1];
      assert es == init + [last];
      assert Records(es) == Records(init) + [ToImage(last)];
      assert multiset(Records(es)) == multiset(Records(init)) + multiset{ToImage(last)};
      assert multiset(es) == multiset(init) + multiset{last};
      RecordsMultiset(init, e);
      assert ToImage(last) == ToImage(e) ==> last == e;
    }
  }

  // ---------------------------------------------------------------------------
  // `images.sort((a, b) => a.name.localeCompare(b.name))`
  // ---------------------------------------------------------------------------

  /** What a consistent comparator promises: "comes no later than" is total and transitive. */
  ghost predicate TotalPreorder(cmp: Comparator) {
    && (forall a, b :: cmp(a, b) <= 0 || cmp(b, a) <= 0)
    && (forall a, b, c :: cmp(a, b) <= 0 && cmp(b, c) <= 0 ==> cmp(a, c) <= 0)
  }

  ghost predicate SortedByName(s: seq<Image>, cmp: Comparator) {
    forall i, j :: 0 <= i < j < |s| ==> cmp(s[i].name, s[j].name) <= 0
  }

  /** Puts `x` before the first record it does not follow, so equal names keep their order. */
  function InsertByName(x: Image, s: seq<Image>, cmp: Comparator): (r: seq<Image>)
    ensures multiset(r) == multiset(s) + multiset{x}
  {
    if s == [] || cmp(x.name, s[0].name) <= 0 then [x] + s
    else
      assert s == [s[0]] + s[1..];
      [s[0]] + InsertByName(x, s[1..], cmp)
  }

  /** The stable sort the engine applies: a permutation of its input. */
  function SortByName(s: seq<Image>, cmp: Comparator): (r: seq<Image>)
    ensures multiset(r) == multiset(s)
  {
    if s == [] then []
    else
      assert s == [s[0]] + s[1..];
      InsertByName(s[0], SortByName(s[1..], cmp), cmp)
  }

  /** A sorted list stays sorted under a new head that comes no later than any of its records. */
  lemma PrependSorted(h: Image, t: seq<Image>, cmp: Comparator)
    requires SortedByName(t, cmp)
    requires forall y :: y in t ==> cmp(h.name, y.name) <= 0
    ensures SortedByName([h] + t, cmp)
  {
    var r := [h] + t;
    forall i, j | 0 <= i < j < |r| ensures cmp(r[i].name, r[j].name) <= 0 {
      assert r[j] == t[j - 1];
      if i > 0 {
        assert r[i] == t[i - 1];
      }
    }
  }

  lemma {:induction false} InsertByNameSorted(x: Image, s: seq<Image>, cmp: Comparator)
    requires TotalPreorder(cmp) && SortedByName(s, cmp)
    ensures SortedByName(InsertByName(x, s, cmp), cmp)
  {
    if s == [] || cmp(x.name, s[0].name) <= 0 {
      forall y | y in s ensures cmp(x.name, y.name) <= 0 {
        var k :| 0 <= k < |s| && s[k] == y;
        if k > 0 {
          assert cmp(s[0].name, s[k].name) <= 0;
        }
      }
      PrependSorted(x, s, cmp);
    } else {
      var tail := s[1..];
      var rest := InsertByName(x, tail, cmp);
      assert SortedByName(tail, cmp) by {
        forall i, j | 0 <= i < j < |tail| ensures cmp(tail[i].name, tail[j].name) <= 0 {
          assert tail[i] == s[i + 1] && tail[j] == s[j + 1];
        }
      }
      InsertByNameSorted(x, tail, cmp);
      forall y | y in rest ensures cmp(s[0].name, y.name) <= 0 {
        assert y in multiset(rest);
        if y != x {
          assert y in multiset(tail);
          var k :| 0 <= k < |tail| && tail[k] == y;
          assert s[k + 1] == y;
        }
      }
      PrependSorted(s[0], rest, cmp);
    }
  }

  lemma {:induction false} SortByNameSorted(s: seq<Image>, cmp: Comparator)
    requires TotalPreorder(cmp)
    ensures SortedByName(SortByName(s, cmp), cmp)
  {
    if s != [] {
      SortByNameSorted(s[1..], cmp);
      InsertByNameSorted(s[0], SortByName(s[1..], cmp), cmp);
    }
  }

  // ---------------------------------------------------------------------------
  // Ordinal string order: one comparator that meets TotalPreorder
  // ---------------------------------------------------------------------------

  /** Case-sensitive comparison by character code, shorter prefix first. */
  function OrdinalCompare(a: string, b: string): (r: int)
    ensures r == 0 <==> a == b
  {
    if a == [] && b == [] then 0
    else if a == [] then -1
    else if b == [] then 1
    else if a[0] < b[0] then -1
    else if a[0] > b[0] then 1
    else
      assert a == [a[0]] + a[1..] && b == [b[0]] + b[1..];
      OrdinalCompare(a[1..], b[1..])
  }

  lemma {:induction false} OrdinalAntisymmetric(a: string, b: string)
    ensures OrdinalCompare(a, b) <= 0 || OrdinalCompare(b, a) <= 0
    ensures OrdinalCompare(a, b) < 0 <==> OrdinalCompare(b, a) > 0
  {
    if a != [] && b != [] && a[0] == b[0] {
      OrdinalAntisymmetric(a[1..], b[1..]);
    }
  }

  lemma {:induction false} OrdinalTransitive(a: string, b: string, c: string)
    requires OrdinalCompare(a, b) <= 0 && OrdinalCompare(b, c) <= 0
    ensures OrdinalCompare(a, c) <= 0
  {
    if a != [] && b != [] && c != [] && a[0] == b[0] && b[0] == c[0] {
      OrdinalTransitive(a[1..], b[1..], c[1..]);
    }
  }

  /** Ordinal order meets what SortByName needs to produce a sorted list. */
  lemma OrdinalIsTotalPreorder()
    ensures TotalPreorder(OrdinalCompare)
  {
    forall a, b ensures OrdinalCompare(a, b) <= 0 || OrdinalCompare(b, a) <= 0 {
      OrdinalAntisymmetric(a, b);
    }
    forall a, b, c | OrdinalCompare(a, b) <= 0 && OrdinalCompare(b, c) <= 0
      ensures OrdinalCompare(a, c) <= 0
    {
      OrdinalTransitive(a, b, c);
    }
  }

  // ---------------------------------------------------------------------------
  // The folder accessors
  // ---------------------------------------------------------------------------

  /** What `getImagesFromFolder(folder)` returns. */
  function ImagesFromFolder(allImages: seq<Entry>, folder: string, cmp: Comparator): seq<Image> {
    SortByName(Collect(allImages, folder), cmp)
  }

  /** Every record listed for a folder lies under it and is named after its own path. */
  lemma ImagesFromFolderSound(allImages: seq<Entry>, folder: string, cmp: Comparator)
    ensures forall img :: img in ImagesFromFolder(allImages, folder, cmp) ==>
      InFolder(img.path, folder) && img.name == NameOf(img.path)
  {
    var collected := Collect(allImages, folder);
    forall img | img in ImagesFromFolder(allImages, folder, cmp)
      ensures InFolder(img.path, folder) && img.name == NameOf(img.path)
    {
      assert img in multiset(collected);
      var k :| 0 <= k < |collected| && collected[k] == img;
      var sel := Select(allImages, folder);
      assert sel[k] in multiset(sel);
    }
  }

  /**
   * `getImagesFromFolder`: every matching asset once, as a record named after its file,
   * sorted by name when the comparator is consistent.
   */
  method GetImagesFromFolder(allImages: seq<Entry>, folder: string, cmp: Comparator)
    returns (images: seq<Image>)
    ensures images == ImagesFromFolder(allImages, folder, cmp)
    ensures forall img :: img in images ==> InFolder(img.path, folder) && img.name == NameOf(img.path)
    ensures forall e :: multiset(images)[ToImage(e)] == if InFolder(e.0, folder) then multiset(allImages)[e] else 0
    ensures |images| == |Select(allImages, folder)|
    ensures TotalPreorder(cmp) ==> SortedByName(images, cmp)
  {
    var folderPath := FolderPath(folder);
    images := [];
    var i := 0;
    while i < |allImages|
      invariant 0 <= i <= |allImages|
      invariant images == Collect(allImages[..i], folder)
    {
      var (path, src) := allImages[i];
      assert allImages[..i + 1][..i] == allImages[..i];
      if StartsWith(path, folderPath) {
        var name := NameOf(path);
        ghost var selected := Select(allImages[..i], folder);
        assert Select(allImages[..i + 1], folder) == selected + [allImages[i]];
        assert (selected + [allImages[i]])[..|selected|] == selected;
        images := images + [Image(src, name, path)];
      } else {
        assert Select(allImages[..i + 1], folder) == Select(allImages[..i], folder);
      }
      i := i + 1;
    }
    assert allImages[..i] == allImages;
    var collected := images;
    images := SortByName(images, cmp);
    ImagesFromFolderSound(allImages, folder, cmp);
    forall e ensures multiset(images)[ToImage(e)] == if InFolder(e.0, folder) then multiset(allImages)[e] else 0 {
      RecordsMultiset(Select(allImages, folder), e);
    }
    if TotalPreorder(cmp) {
      SortByNameSorted(collected, cmp);
    }
  }

  /** `getImageByIndex`: the src of the index-th record, or null when there is none or it is empty. */
  method GetImageByIndex(allImages: seq<Entry>, folder: string, cmp: Comparator, index: int := 0)
    returns (src: Option<string>)
    ensures var images := ImagesFromFolder(allImages, folder, cmp);
      src.Some? <==> 0 <= index < |images| && images[index].src != ""
    ensures src.Some? ==> src.value == ImagesFromFolder(allImages, folder, cmp)[index].src
  {
    var images := GetImagesFromFolder(allImages, folder, cmp);
    if 0 <= index < |images| && images[index].src != "" {
      src := Some(images[index].src);
    } else {
      src := None;
    }
  }

  /** `getImageCount`: the number of assets under the folder. */
  method GetImageCount(allImages: seq<Entry>, folder: string, cmp: Comparator) returns (count: nat)
    ensures count == |ImagesFromFolder(allImages, folder, cmp)|
    ensures count == |Select(allImages, folder)|
  {
    var images := GetImagesFromFolder(allImages, folder, cmp);
    count := |images|;
  }

  /** `hasImages`: some discovered asset lies under the folder. */
  method HasImages(allImages: seq<Entry>, folder: string, cmp: Comparator) returns (b: bool)
    ensures b <==> |ImagesFromFolder(allImages, folder, cmp)| > 0
    ensures b <==> exists e :: e in allImages && InFolder(e.0, folder)
  {
    var count := GetImageCount(allImages, folder, cmp);
    b := count > 0;
    var sel := Select(allImages, folder);
    if b {
      assert sel[0] in multiset(sel);
    } else {
      forall e | e in allImages ensures !InFolder(e.0, folder) {
        assert e in multiset(allImages);
      }
    }
  }

  /**
   * The '/' that closes the folder prefix: a folder whose name merely extends `folder`
   * (`galleryX` beside `gallery`) shares none of its assets.
   */
  lemma SiblingFolderExcluded(path: string, folder: string, suffix: string)
    requires suffix != [] && suffix[0] != '/'
    requires InFolder(path, folder + suffix)
    ensures !InFolder(path, folder)
  {
    var k := |GaleriaRoot| + |folder|;
    assert FolderPath(folder + suffix)[k] == suffix[0];
    assert path[k] == suffix[0];
    assert FolderPath(folder)[k] == '/';
  }

  /** No record listed for `folder` comes from a sibling folder whose name extends it. */
  lemma SiblingFolderContributesNothing(allImages: seq<Entry>, folder: string, suffix: string, cmp: Comparator)
    requires suffix != [] && suffix[0] != '/'
    ensures forall img :: img in ImagesFromFolder(allImages, folder, cmp) ==> !InFolder(img.path, folder + suffix)
  {
    ImagesFromFolderSound(allImages, folder, cmp);
    forall img | img in ImagesFromFolder(allImages, folder, cmp) ensures !InFolder(img.path, folder + suffix) {
      if InFolder(img.path, folder + suffix) {
        SiblingFolderExcluded(img.path, folder, suffix);
        assert false;
      }
    }
  }
}
