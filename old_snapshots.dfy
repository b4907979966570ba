/** The oldest revision of SwingSnapshots.kt (default package). It reads
    `updateSnapshots` and `screenshotOs` from environment variables, paints
    the component at exactly its current size, compares with its own
    `isEqual` instead of a comparison library, and on a mismatch writes only
    the `.failed.png` file. Points, images and `isEqual` are the same code
    as in the newer revision and are shared with it. */
module OldSnapshots {
  import opened Util
  import opened Snapshots

  /** The skip reason of the oldest OS check: only the lower-cased
      `os.name`, after `Assume.assumeTrue`. */
  function OsSkipReason(osName: string): string
  {
    "Wrong OS for screenshot tests: " + Lower(osName)
  }

  function NotFoundMessage(path: string): string
  {
    "Snapshot image not found: " + path + ". Run with env var updateSnapshots=true to write for the first time."
  }

  function MismatchMessage(path: string): string
  {
    "Snapshot image did not match: " + path + ". Run with env var updateSnapshots=true to overwrite."
  }

  /** The whole effect of `component.shouldMatchImage(imageName)` in the
      oldest revision on a store holding `files`. The component is painted
      at `width` x `height`; `BufferedImage` refuses a size that is not
      positive. */
  function Outcome(files: map<string, Image>, env: Environment, width: int, height: int, imageName: string,
                   render: (int, int) -> Image): Step
    requires forall path :: path in files ==> WellFormed(files[path])
    requires Renders(render)
  {
    if WrongOs(env.screenshotOs, env.osName) then
      Step(Skipped(OsSkipReason(env.osName)), files)
    else if width <= 0 || height <= 0 then
      Step(InvalidImageSize, files)
    else
      AgainstReference(files, env, imageName, render(width, height))
  }

  /** What happens to a rendered image: the reference is missing,
      rewritten, equal or not equal. */
  function AgainstReference(files: map<string, Image>, env: Environment, imageName: string, img: Image): Step
    requires forall path :: path in files ==> WellFormed(files[path])
    requires WellFormed(img)
  {
    var reference := ReferencePath(env.callingSite, imageName);
    if reference !in files && !Overwrite(env) then
      Step(Fail(NotFoundMessage(reference)), files)
    else if Overwrite(env) then
      Step(Pass, files[reference := img])
    else if IsEqual(img, files[reference]) then
      Step(Pass, files)
    else
      Step(Fail(MismatchMessage(reference)), files[FailedPath(env.callingSite, imageName) := img])
  }

  /** `JComponent.shouldMatchImage(imageName)`, oldest revision. */
  method ShouldMatchImage(store: SnapshotStore, env: Environment, width: int, height: int, imageName: string,
                          render: (int, int) -> Image)
    returns (v: Verdict)
    requires store.Valid() && Renders(render)
    modifies store
    ensures store.Valid()
    ensures Step(v, store.files) == Outcome(old(store.files), env, width, height, imageName, render)
  {
    if WrongOs(env.screenshotOs, env.osName) {
      return Skipped(OsSkipReason(env.osName));
    }
    if width <= 0 || height <= 0 {
      return InvalidImageSize;
    }
    var img := render(width, height);
    v := CheckReference(store, env, imageName, img);
  }

  /** The part of `shouldMatchImage` after the image is painted. */
  method CheckReference(store: SnapshotStore, env: Environment, imageName: string, img: Image)
    returns (v: Verdict)
    requires store.Valid() && WellFormed(img)
    modifies store
    ensures store.Valid()
    ensures Step(v, store.files) == AgainstReference(old(store.files), env, imageName, img)
  {
    ghost var expected := AgainstReference(store.files, env, imageName, img);
    var overwrite := env.updateSnapshots == Some("true");
    var file := ReferencePath(env.callingSite, imageName);
    if file !in store.files && !overwrite {
      return Fail(NotFoundMessage(file));
    }
    if overwrite {
      store.Write(file, img);
    } else {
      var savedImg := store.Read(file);
      var matched := IsEqual(img, savedImg);
      if !matched {
        store.Write(FailedPath(env.callingSite, imageName), img);
        assert expected == Step(Fail(MismatchMessage(file)), store.files);
        return Fail(MismatchMessage(file));
      }
    }
    v := Pass;
  }

  /** A missing reference outside update mode fails and stores nothing. */
  lemma MissingReferenceFails(files: map<string, Image>, env: Environment, width: int, height: int,
                              imageName: string, render: (int, int) -> Image)
    requires forall path :: path in files ==> WellFormed(files[path])
    requires Renders(render)
    requires !WrongOs(env.screenshotOs, env.osName) && !Overwrite(env) && width > 0 && height > 0
    requires ReferencePath(env.callingSite, imageName) !in files
    ensures Outcome(files, env, width, height, imageName, render)
         == Step(Fail(NotFoundMessage(ReferencePath(env.callingSite, imageName))), files)
  {
  }

  /** Update mode replaces the reference with the rendered image. */
  lemma OverwriteStores(files: map<string, Image>, env: Environment, width: int, height: int,
                        imageName: string, render: (int, int) -> Image)
    requires forall path :: path in files ==> WellFormed(files[path])
    requires Renders(render)
    requires !WrongOs(env.screenshotOs, env.osName) && Overwrite(env) && width > 0 && height > 0
    ensures Outcome(files, env, width, height, imageName, render)
         == Step(Pass, files[ReferencePath(env.callingSite, imageName) := render(width, height)])
  {
  }

  /** A reference that differs from the rendering in any pixel, or in size,
      fails the test; the rendering goes to `.failed.png` and nothing else
      changes, the reference included. An identical reference passes and
      nothing is written. */
  lemma CompareOutcome(files: map<string, Image>, env: Environment, width: int, height: int,
                       imageName: string, render: (int, int) -> Image)
    requires forall path :: path in files ==> WellFormed(files[path])
    requires Renders(render)
    requires !WrongOs(env.screenshotOs, env.osName) && !Overwrite(env) && width > 0 && height > 0
    requires ReferencePath(env.callingSite, imageName) in files
    ensures var reference := files[ReferencePath(env.callingSite, imageName)];
      var after := Outcome(files, env, width, height, imageName, render);
      && (reference == render(width, height) ==> after == Step(Pass, files))
      && (reference != render(width, height) ==>
            && after.verdict == Fail(MismatchMessage(ReferencePath(env.callingSite, imageName)))
            && after.files == files[FailedPath(env.callingSite, imageName) := render(width, height)]
            && after.files[ReferencePath(env.callingSite, imageName)] == reference)
  {
    PathsDistinct(env.callingSite, imageName);
  }

  /** A component that has never been given a size cannot be captured: the
      oldest revision has no fallback to the preferred or default size. */
  lemma UnsizedComponentIsRejected(files: map<string, Image>, env: Environment, width: int, height: int,
                                   imageName: string, render: (int, int) -> Image)
    requires forall path :: path in files ==> WellFormed(files[path])
    requires Renders(render)
    requires !WrongOs(env.screenshotOs, env.osName) && (width <= 0 || height <= 0)
    ensures Outcome(files, env, width, height, imageName, render) == Step(InvalidImageSize, files)
  {
  }

  /** Recording in update mode and then checking the same rendering passes
      and writes nothing more. */
  lemma RecordThenCheck(files: map<string, Image>, record: Environment, check: Environment, width: int,
                        height: int, imageName: string, render: (int, int) -> Image)
    requires forall path :: path in files ==> WellFormed(files[path])
    requires Renders(render)
    requires !WrongOs(record.screenshotOs, record.osName) && Overwrite(record)
    requires !WrongOs(check.screenshotOs, check.osName) && !Overwrite(check)
    requires check.callingSite == record.callingSite && width > 0 && height > 0
    ensures var recorded := Outcome(files, record, width, height, imageName, render).files;
      (forall path :: path in recorded ==> WellFormed(recorded[path]))
      && Outcome(recorded, check, width, height, imageName, render) == Step(Pass, recorded)
  {
    var img := render(width, height);
    var recorded := Outcome(files, record, width, height, imageName, render).files;
    assert recorded[ReferencePath(check.callingSite, imageName)] == img;
  }
}
