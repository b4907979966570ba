/** SwingSnapshots.kt: snapshot testing of a component's rendering. The
    component is painted into an image, which is compared with a reference
    image stored under `src/test/resources/__snapshots__/<calling class>/`.
    In update mode the reference is (re)written instead; on a mismatch the
    rendered image and the comparison library's diff image are written
    next to the reference and the test fails. Screenshot tests can be
    restricted to one operating system. */
module Snapshots {
  import opened Util

  // ---------------------------------------------------------------------------
  // Points and images

  /** `java.awt.Point`. */
  datatype Point = Point(x: int, y: int)

  /** `xRange.map { x -> Point(x, y) }` for `xRange = 0 until width`. */
  function Row(width: int, y: int): (r: seq<Point>)
    ensures |r| == if width > 0 then width else 0
    ensures forall i :: 0 <= i < |r| ==> r[i] == Point(i, y)
  {
    if width <= 0 then [] else Row(width - 1, y) + [Point(width - 1, y)]
  }

  /** `getPointList(width, height)`: one row of points per `y` in
      `0 until height`, flattened in order. */
  function PointList(width: int, height: int): seq<Point>
  {
    if height <= 0 then [] else PointList(width, height - 1) + Row(width, height - 1)
  }

  /** Every listed point lies inside the `width` x `height` rectangle. */
  lemma {:induction false} PointListInBounds(width: int, height: int)
    ensures forall i :: 0 <= i < |PointList(width, height)| ==>
      0 <= PointList(width, height)[i].x < width && 0 <= PointList(width, height)[i].y < height
  {
    if height > 0 {
      PointListInBounds(width, height - 1);
      var before: seq<Point>, row: seq<Point> := PointList(width, height - 1), Row(width, height - 1);
      var all: seq<Point> := before + row;
      assert PointList(width, height) == all;
      forall i | 0 <= i < |all|
        ensures 0 <= all[i].x < width && 0 <= all[i].y < height
      {
        if i < |before| {
          assert all[i] == before[i];
        } else {
          assert all[i] == row[i - |before|];
        }
      }
    }
  }

  lemma PointListCons(width: nat, height: nat)
    requires height > 0
    ensures PointList(width, height) == PointList(width, height - 1) + Row(width, height - 1)
    ensures |Row(width, height - 1)| == width
  {
  }

  lemma MulSucc(a: nat, b: nat)
    ensures a * (b + 1) == a * b + a
  {
  }

  /** There are `width * height` points. */
  lemma {:induction false} PointListLength(width: nat, height: nat)
    ensures |PointList(width, height)| == width * height
  {
    if height > 0 {
      PointListLength(width, height - 1);
      PointListCons(width, height);
      MulSucc(width, height - 1);
    }
  }

  /** Row-major order: `Point(x, y)` is the `(y * width + x)`-th point, so
      `y` is the outer and `x` the inner loop and every point of the
      rectangle is listed exactly once. */
  lemma {:induction false} PointListAt(width: nat, height: nat, x: nat, y: nat)
    requires x < width && y < height
    ensures y * width + x < |PointList(width, height)|
    ensures PointList(width, height)[y * width + x] == Point(x, y)
  {
    if y < height - 1 {
      PointListAt(width, height - 1, x, y);
      PointListCons(width, height);
      var before := PointList(width, height - 1);
      assert (before + Row(width, height - 1))[y * width + x] == before[y * width + x];
    } else {
      PointListLastRow(width, height, x);
    }
  }

  /** The last row comes after all the others. */
  lemma PointListLastRow(width: nat, height: nat, x: nat)
    requires x < width && 0 < height
    ensures (height - 1) * width + x < |PointList(width, height)|
    ensures PointList(width, height)[(height - 1) * width + x] == Point(x, height - 1)
  {
    var before, row := PointList(width, height - 1), Row(width, height - 1);
    PointListCons(width, height);
    PointListLength(width, height - 1);
    assert |before| == (height - 1) * width;
    assert (before + row)[|before| + x] == row[x];
  }

  /** The list for a 3 x 2 image. */
  lemma PointListExample()
    ensures PointList(3, 2) == [Point(0, 0), Point(1, 0), Point(2, 0), Point(0, 1), Point(1, 1), Point(2, 1)]
  {
    assert Row(3, 0) == [Point(0, 0), Point(1, 0), Point(2, 0)];
    assert Row(3, 1) == [Point(0, 1), Point(1, 1), Point(2, 1)];
  }

  /** A `BufferedImage`: its size and one ARGB value per pixel, row by row. */
  datatype Image = Image(width: int, height: int, rgb: seq<seq<int>>)

  /** A real `BufferedImage` has a positive size and a pixel at every point
      of it. */
  predicate WellFormed(img: Image)
  {
    && 0 < img.width && 0 < img.height
    && |img.rgb| == img.height
    && forall y :: 0 <= y < img.height ==> |img.rgb[y]| == img.width
  }

  predicate InBounds(img: Image, p: Point)
  {
    0 <= p.x < img.width && 0 <= p.y < img.height
  }

  /** `getRGB(x, y)`. */
  function Rgb(img: Image, p: Point): int
    requires WellFormed(img) && InBounds(img, p)
  {
    img.rgb[p.y][p.x]
  }

  /** `points.all { getRGB(it.x, it.y) == other.getRGB(it.x, it.y) }`. */
  function AllPixelsMatch(a: Image, b: Image, points: seq<Point>): bool
    requires WellFormed(a) && WellFormed(b)
    requires forall i :: 0 <= i < |points| ==> InBounds(a, points[i]) && InBounds(b, points[i])
  {
    points == [] || (Rgb(a, points[0]) == Rgb(b, points[0]) && AllPixelsMatch(a, b, points[1..]))
  }

  lemma {:induction false} AllPixelsMatchMeaning(a: Image, b: Image, points: seq<Point>)
    requires WellFormed(a) && WellFormed(b)
    requires forall i :: 0 <= i < |points| ==> InBounds(a, points[i]) && InBounds(b, points[i])
    ensures AllPixelsMatch(a, b, points) <==> forall i :: 0 <= i < |points| ==> Rgb(a, points[i]) == Rgb(b, points[i])
  {
    if points != [] {
      AllPixelsMatchMeaning(a, b, points[1..]);
      assert forall i :: 1 <= i < |points| ==> points[i] == points[1..][i - 1];
    }
  }

  /** For two images of one size, comparing the pixels of the point list
      compares every pixel, and agreeing on every pixel is value equality. */
  lemma PixelsMatchIsEquality(a: Image, b: Image)
    requires WellFormed(a) && WellFormed(b) && a.width == b.width && a.height == b.height
    ensures forall i :: 0 <= i < |PointList(a.width, a.height)| ==>
      InBounds(a, PointList(a.width, a.height)[i]) && InBounds(b, PointList(a.width, a.height)[i])
    ensures AllPixelsMatch(a, b, PointList(a.width, a.height))
      <==> forall x, y :: 0 <= x < a.width && 0 <= y < a.height ==> a.rgb[y][x] == b.rgb[y][x]
    ensures AllPixelsMatch(a, b, PointList(a.width, a.height)) <==> a == b
  {
    var points := PointList(a.width, a.height);
    PointListInBounds(a.width, a.height);
    AllPixelsMatchMeaning(a, b, points);
    if forall i :: 0 <= i < |points| ==> Rgb(a, points[i]) == Rgb(b, points[i]) {
      forall x, y | 0 <= x < a.width && 0 <= y < a.height
        ensures a.rgb[y][x] == b.rgb[y][x]
      {
        PointListAt(a.width, a.height, x, y);
        assert points[y * a.width + x] == Point(x, y);
      }
      forall y | 0 <= y < a.height
        ensures a.rgb[y] == b.rgb[y]
      {
        assert forall x :: 0 <= x < a.width ==> a.rgb[y][x] == b.rgb[y][x];
      }
      assert a.rgb == b.rgb;
    }
  }

  /** `BufferedImage.isEqual(other)`: false when the sizes differ, otherwise
      a comparison of every pixel. For well-formed images that is exactly
      value equality, so it is reflexive and symmetric. */
  function IsEqual(a: Image, b: Image): (r: bool)
    requires WellFormed(a) && WellFormed(b)
    ensures r <==>
      && a.width == b.width && a.height == b.height
      && forall x, y :: 0 <= x < a.width && 0 <= y < a.height ==> a.rgb[y][x] == b.rgb[y][x]
    ensures r <==> a == b
  {
    if a.width != b.width || a.height != b.height then false
    else
      PixelsMatchIsEquality(a, b);
      AllPixelsMatch(a, b, PointList(a.width, a.height))
  }

  // ---------------------------------------------------------------------------
  // The size a component is captured at

  const DEFAULT_WIDTH := 200
  const DEFAULT_HEIGHT := 200

  /** The size and preferred size of a `JComponent`. */
  datatype Component = Component(width: int, height: int, preferredWidth: int, preferredHeight: int)

  /** `getWidthForSnapshot()`: always a size a `BufferedImage` accepts. */
  function WidthForSnapshot(c: Component): (r: int)
    ensures r > 0
    ensures c.width > 0 ==> r == c.width
    ensures c.width <= 0 && c.preferredWidth > 0 ==> r == c.preferredWidth
    ensures c.width <= 0 && c.preferredWidth <= 0 ==> r == DEFAULT_WIDTH
  {
    if c.width > 0 then c.width
    else if c.preferredWidth > 0 then c.preferredWidth
    else DEFAULT_WIDTH
  }

  /** `getHeightForSnapshot()`: the same rule as for the width. */
  function HeightForSnapshot(c: Component): (r: int)
    ensures r > 0
    ensures c.height > 0 ==> r == c.height
    ensures c.height <= 0 && c.preferredHeight > 0 ==> r == c.preferredHeight
    ensures c.height <= 0 && c.preferredHeight <= 0 ==> r == DEFAULT_HEIGHT
  {
    if c.height > 0 then c.height
    else if c.preferredHeight > 0 then c.preferredHeight
    else DEFAULT_HEIGHT
  }

  /** A renderer that paints a component into a well-formed image of the
      requested size (painting itself is not modelled). */
  ghost predicate Renders(render: (int, int) -> Image)
  {
    forall w, h :: w > 0 && h > 0 ==>
      WellFormed(render(w, h)) && render(w, h).width == w && render(w, h).height == h
  }

  /** `JComponent.toBufferedImage()`: the rendered image is well formed and
      has the snapshot size, even for a component that was never laid out. */
  lemma SnapshotImageWellFormed(c: Component, render: (int, int) -> Image)
    requires Renders(render)
    ensures WellFormed(render(WidthForSnapshot(c), HeightForSnapshot(c)))
    ensures render(WidthForSnapshot(c), HeightForSnapshot(c)).width == WidthForSnapshot(c)
    ensures render(WidthForSnapshot(c), HeightForSnapshot(c)).height == HeightForSnapshot(c)
  {
    assert WidthForSnapshot(c) > 0 && HeightForSnapshot(c) > 0;
  }

  // ---------------------------------------------------------------------------
  // The operating-system restriction

  /** The configured operating system, lower-cased, `""` when unset. */
  function OsFilter(screenshotOs: Option<string>): string
  {
    Lower(OrEmpty(screenshotOs))
  }

  /** Whether a screenshot test is skipped: a filter is configured and the
      lower-cased `os.name` does not contain it. */
  predicate WrongOs(screenshotOs: Option<string>, osName: string)
  {
    OsFilter(screenshotOs) != "" && !Contains(Lower(osName), OsFilter(screenshotOs))
  }

  /** `verifyOs()`: the reason the test is skipped with, if it is. */
  function VerifyOs(screenshotOs: Option<string>, osName: string): Option<string>
  {
    if WrongOs(screenshotOs, osName) then
      Some("Wrong OS for screenshot tests (wanted " + OsFilter(screenshotOs) + ", found " + Lower(osName) + ")")
    else
      None
  }

  /** Without a configured operating system nothing is skipped. */
  lemma NoFilterNeverSkips(osName: string)
    ensures !WrongOs(None, osName) && !WrongOs(Some(""), osName)
  {
    assert Lower("") == "";
  }

  /** The check ignores case on both sides: configuring the operating
      system's own name, in any case, never skips. */
  lemma OwnOsNeverSkips(configured: string, osName: string)
    requires Lower(configured) == Lower(osName)
    ensures !WrongOs(Some(configured), osName)
  {
    assert OccursAt(Lower(osName), Lower(configured), 0);
  }

  /** A configured value that is a lower-cased part of `os.name` keeps the
      test; one that is no part of it skips it. */
  lemma WrongOsMeaning(configured: string, osName: string)
    requires configured != ""
    ensures WrongOs(Some(configured), osName) <==> !Contains(Lower(osName), Lower(configured))
  {
    assert |Lower(configured)| == |configured|;
  }

  // ---------------------------------------------------------------------------
  // The snapshot store

  /** Where the files of a snapshot live, relative to the project. */
  const SNAPSHOT_ROOT := "src/test/resources/__snapshots__/"

  /** `imgPath`: one directory per calling class. */
  function SnapshotDir(callingSite: string): string
  {
    SNAPSHOT_ROOT + callingSite
  }

  /** `"$imgPath/$imageName"`, the common stem of the three file names. */
  function Stem(callingSite: string, imageName: string): string
  {
    SnapshotDir(callingSite) + "/" + imageName
  }

  function ReferencePath(callingSite: string, imageName: string): string
  {
    Stem(callingSite, imageName) + ".png"
  }

  function FailedPath(callingSite: string, imageName: string): string
  {
    Stem(callingSite, imageName) + ".failed.png"
  }

  function ComparisonPath(callingSite: string, imageName: string): string
  {
    Stem(callingSite, imageName) + ".comparison.png"
  }

  /** The three files of one snapshot are different files, so writing the
      failed and comparison images never touches the reference. */
  lemma PathsDistinct(callingSite: string, imageName: string)
    ensures ReferencePath(callingSite, imageName) != FailedPath(callingSite, imageName)
    ensures ReferencePath(callingSite, imageName) != ComparisonPath(callingSite, imageName)
    ensures FailedPath(callingSite, imageName) != ComparisonPath(callingSite, imageName)
  {
    var stem := Stem(callingSite, imageName);
    var k := |stem| + 1;
    assert ReferencePath(callingSite, imageName)[k] == 'p';
    assert FailedPath(callingSite, imageName)[k] == 'f';
    assert ComparisonPath(callingSite, imageName)[k] == 'c';
  }

  /** What a snapshot assertion ends with: passing, failing with an
      assertion error, being skipped by a failed assumption, or (in the
      oldest revision) `BufferedImage` rejecting a size that is not
      positive. */
  datatype Verdict = Pass | Fail(message: string) | Skipped(reason: string) | InvalidImageSize

  /** The verdict and the store afterwards. */
  datatype Step = Step(verdict: Verdict, files: map<string, Image>)

  /** The image files on disk, by path; directories are not modelled. */
  class SnapshotStore {
    var files: map<string, Image>

    constructor (initial: map<string, Image>)
      ensures files == initial
    {
      files := initial;
    }

    /** Every stored file decodes to a well-formed image. */
    predicate Valid()
      reads this
    {
      forall path :: path in files ==> WellFormed(files[path])
    }

    /** `ImageIO.read(file)` of a file that exists. */
    method Read(path: string) returns (img: Image)
      requires path in files
      ensures img == files[path]
    {
      img := files[path];
    }

    /** `ImageIO.write(img, "png", file)`: creates or replaces the file. */
    method Write(path: string, img: Image)
      modifies this
      ensures files == old(files)[path := img]
    {
      files := files[path := img];
    }
  }

  // ---------------------------------------------------------------------------
  // shouldMatchImage

  /** What `shouldMatchImage` reads from outside: the `updateSnapshots` and
      `screenshotOs` settings, `os.name`, and the class of the calling test
      (found on the stack). */
  datatype Environment = Environment(updateSnapshots: Option<string>, screenshotOs: Option<string>,
                                     osName: string, callingSite: string)

  /** Update mode is on only for the exact value `"true"`. */
  predicate Overwrite(env: Environment)
  {
    env.updateSnapshots == Some("true")
  }

  /** `ImageComparison(expected, actual).compareImages()`: whether the state
      is `MATCH`, and the diff image it draws. */
  datatype Comparison = Comparison(matched: bool, result: Image)

  function NotFoundMessage(path: string): string
  {
    "Snapshot image not found: " + path + ". Run with system property -DupdateSnapshots=true to write for the first time."
  }

  function MismatchMessage(path: string): string
  {
    "Snapshot image did not match: " + path + ". Run with system property -DupdateSnapshots=true to overwrite."
  }

  /** The whole effect of `component.shouldMatchImage(imageName)` on a store
      holding `files`, with `img` the rendered component and `compare` the
      comparison library. */
  function Outcome(files: map<string, Image>, env: Environment, imageName: string, img: Image,
                   compare: (Image, Image) -> Comparison): Step
  {
    if WrongOs(env.screenshotOs, env.osName) then
      Step(Skipped(VerifyOs(env.screenshotOs, env.osName).value), files)
    else
      AgainstReference(files, env, imageName, img, compare)
  }

  /** What happens once the operating system is accepted: the reference is
      missing, rewritten, matched or not matched. */
  function AgainstReference(files: map<string, Image>, env: Environment, imageName: string, img: Image,
                            compare: (Image, Image) -> Comparison): Step
  {
    var reference := ReferencePath(env.callingSite, imageName);
    if reference !in files && !Overwrite(env) then
      Step(Fail(NotFoundMessage(reference)), files)
    else if Overwrite(env) then
      Step(Pass, files[reference := img])
    else
      var result := compare(files[reference], img);
      if result.matched then
        Step(Pass, files)
      else
        Step(Fail(MismatchMessage(reference)),
             files[FailedPath(env.callingSite, imageName) := img][ComparisonPath(env.callingSite, imageName) := result.result])
  }

  /** `JComponent.shouldMatchImage(imageName)`, painting with `render`. */
  method ShouldMatchImage(store: SnapshotStore, env: Environment, component: Component, imageName: string,
                          render: (int, int) -> Image, compare: (Image, Image) -> Comparison)
    returns (v: Verdict)
    modifies store
    ensures Step(v, store.files) ==
      Outcome(old(store.files), env, imageName, render(WidthForSnapshot(component), HeightForSnapshot(component)), compare)
  {
    var skip := VerifyOs(env.screenshotOs, env.osName);
    if skip.Some? {
      return Skipped(skip.value);
    }
    var img := render(WidthForSnapshot(component), HeightForSnapshot(component));
    v := CheckReference(store, env, imageName, img, compare);
  }

  /** The part of `shouldMatchImage` after the image is rendered: the
      existence check, then either the update or the comparison. */
  method CheckReference(store: SnapshotStore, env: Environment, imageName: string, img: Image,
                        compare: (Image, Image) -> Comparison)
    returns (v: Verdict)
    modifies store
    ensures Step(v, store.files) == AgainstReference(old(store.files), env, imageName, img, compare)
  {
    ghost var expected := AgainstReference(store.files, env, imageName, img, compare);
    var overwrite := env.updateSnapshots == Some("true");
    var file := ReferencePath(env.callingSite, imageName);
    if file !in store.files && !overwrite {
      return Fail(NotFoundMessage(file));
    }
    if overwrite {
      store.Write(file, img);
    } else {
      var savedImg := store.Read(file);
      var result := compare(savedImg, img);
      if !result.matched {
        store.Write(FailedPath(env.callingSite, imageName), img);
        store.Write(ComparisonPath(env.callingSite, imageName), result.result);
        assert expected == Step(Fail(MismatchMessage(file)), store.files);
        return Fail(MismatchMessage(file));
      }
    }
    v := Pass;
  }

  /** A skipped test writes nothing. */
  lemma SkipWritesNothing(files: map<string, Image>, env: Environment, imageName: string, img: Image,
                          compare: (Image, Image) -> Comparison)
    requires WrongOs(env.screenshotOs, env.osName)
    ensures Outcome(files, env, imageName, img, compare).verdict.Skipped?
    ensures Outcome(files, env, imageName, img, compare).files == files
  {
  }

  /** A missing reference outside update mode fails before anything is
      written. */
  lemma MissingReferenceFails(files: map<string, Image>, env: Environment, imageName: string, img: Image,
                              compare: (Image, Image) -> Comparison)
    requires !WrongOs(env.screenshotOs, env.osName) && !Overwrite(env)
    requires ReferencePath(env.callingSite, imageName) !in files
    ensures Outcome(files, env, imageName, img, compare)
         == Step(Fail(NotFoundMessage(ReferencePath(env.callingSite, imageName))), files)
  {
  }

  /** Update mode stores the rendered image as the reference and passes
      without comparing: the comparison library is never consulted. */
  lemma OverwriteStores(files: map<string, Image>, env: Environment, imageName: string, img: Image,
                        compare: (Image, Image) -> Comparison, other: (Image, Image) -> Comparison)
    requires !WrongOs(env.screenshotOs, env.osName) && Overwrite(env)
    ensures Outcome(files, env, imageName, img, compare).verdict == Pass
    ensures Outcome(files, env, imageName, img, compare).files == files[ReferencePath(env.callingSite, imageName) := img]
    ensures Outcome(files, env, imageName, img, compare) == Outcome(files, env, imageName, img, other)
  {
  }

  /** A mismatch fails, writes the rendered image to `.failed.png` and the
      diff to `.comparison.png`, and leaves the reference and every other
      file as they were. */
  lemma MismatchKeepsReference(files: map<string, Image>, env: Environment, imageName: string, img: Image,
                               compare: (Image, Image) -> Comparison)
    requires !WrongOs(env.screenshotOs, env.osName) && !Overwrite(env)
    requires ReferencePath(env.callingSite, imageName) in files
    requires !compare(files[ReferencePath(env.callingSite, imageName)], img).matched
    ensures var after := Outcome(files, env, imageName, img, compare);
      && after.verdict == Fail(MismatchMessage(ReferencePath(env.callingSite, imageName)))
      && after.files.Keys == files.Keys + {FailedPath(env.callingSite, imageName), ComparisonPath(env.callingSite, imageName)}
      && after.files[FailedPath(env.callingSite, imageName)] == img
      && after.files[ComparisonPath(env.callingSite, imageName)]
           == compare(files[ReferencePath(env.callingSite, imageName)], img).result
      && after.files[ReferencePath(env.callingSite, imageName)] == files[ReferencePath(env.callingSite, imageName)]
      && forall path :: path in files && path !in {FailedPath(env.callingSite, imageName), ComparisonPath(env.callingSite, imageName)}
           ==> after.files[path] == files[path]
  {
    PathsDistinct(env.callingSite, imageName);
  }

  /** A match passes and writes nothing. */
  lemma MatchWritesNothing(files: map<string, Image>, env: Environment, imageName: string, img: Image,
                           compare: (Image, Image) -> Comparison)
    requires !WrongOs(env.screenshotOs, env.osName) && !Overwrite(env)
    requires ReferencePath(env.callingSite, imageName) in files
    requires compare(files[ReferencePath(env.callingSite, imageName)], img).matched
    ensures Outcome(files, env, imageName, img, compare) == Step(Pass, files)
  {
  }

  /** Recording a snapshot in update mode and then checking the same
      rendering passes and writes nothing more, as long as the comparison
      library finds an image equal to itself. */
  lemma RecordThenCheck(files: map<string, Image>, record: Environment, check: Environment, imageName: string,
                        img: Image, compare: (Image, Image) -> Comparison)
    requires !WrongOs(record.screenshotOs, record.osName) && Overwrite(record)
    requires !WrongOs(check.screenshotOs, check.osName) && !Overwrite(check)
    requires check.callingSite == record.callingSite
    requires compare(img, img).matched
    ensures var recorded := Outcome(files, record, imageName, img, compare).files;
      Outcome(recorded, check, imageName, img, compare) == Step(Pass, recorded)
  {
    var recorded := Outcome(files, record, imageName, img, compare).files;
    assert recorded[ReferencePath(check.callingSite, imageName)] == img;
  }
}
