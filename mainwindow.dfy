/**
 * MainWindow: the screensaver window's catalogue state and the code that drives it.
 * `videoList` is the catalogue, `currentMediaIndex` the position shown; OnLoaded builds the
 * list (from the cache file or from a scan), shuffles it and shows the first entry;
 * NextMediaItem and PreviousMediaItem move through it.
 *
 * Everything the window gets from outside is an input: the configured folder, whether folders
 * and the cache file exist, what the directory enumeration yields, what the cache's
 * deserializer and serializer do, the random numbers, and the metadata read from a media file.
 * Where the code lets an exception escape (an index out of range, an exception the catch
 * clauses do not name) the method returns that as its outcome.
 */
module Screensaver {
  import opened Wrappers
  import opened VideoLists
  import opened MediaFilter
  import opened Navigation

  /**
   * What SetNewMedia learns about a file.  `gotDate` and `longDate` stand for the EXIF
   * DateTimeDigitized lookup and its ToLongDateString(); `title` is the bitmap metadata title,
   * None when GetTitle throws InvalidCastException.
   */
  datatype MediaInfo = MediaInfo(gotDate: bool, longDate: string, title: Option<string>)

  /** The caption text (PictureInfo.Text) built from what the metadata lookups obtained. */
  function InfoText(fileName: string, gotDate: bool, longDate: string, gotCaption: bool, title: string): (r: string)
    ensures !gotDate && !gotCaption ==> r == fileName
    ensures gotDate && !gotCaption ==> r == longDate
    ensures gotCaption && |title| > 0 ==> r == (if gotDate then longDate else "") + "- " + title
    ensures gotCaption && |title| == 0 ==> r == if gotDate then longDate else ""
  {
    if gotDate || gotCaption then
      (if gotDate then longDate else "") + (if gotCaption && |title| > 0 then "- " + title else "")
    else
      fileName
  }

  /** What NextMediaItem and PreviousMediaItem end with. */
  datatype Shown =
    | Displayed(path: string)
      /** `videoList[currentMediaIndex]` threw ArgumentOutOfRangeException. */
    | IndexOutOfRange(index: int)

  /** What the cache file's deserialization does when the file exists. */
  datatype CacheLoad =
    | Deserialized(catalog: Catalog)
      /** An IOException: caught and logged, the list stays as it was. */
    | LoadIOException
      /**
       * Any other exception (a SerializationException on a corrupt file, an InvalidCastException
       * when the object is not a VideoList): not caught, so OnLoaded ends there.
       */
    | LoadException

  /** What writing the cache file does. */
  datatype CacheSave =
    | Serialized
      /** An IOException: caught and logged. */
    | SaveIOException
      /** Any other exception (UnauthorizedAccessException, say): not caught. */
    | SaveException

  /** The file system as OnLoaded sees it. */
  datatype Disk = Disk(
    directories: set<string>,  // folders for which Directory.Exists holds
    cacheExists: bool,         // File.Exists("ScreenSaver.data.bin")
    load: CacheLoad,
    scan: Enumeration,         // what enumerating the chosen folder yields
    save: CacheSave)

  datatype Abort = CacheLoadFailed | CacheSaveFailed | NoMediaToShow

  /** How OnLoaded ends. */
  datatype Startup =
    | NeedsConfiguration
    | Started(path: string)
      /** An exception escaped OnLoaded. */
    | Aborted(reason: Abort)

  const ConfigureMessage := "This screensaver needs to be configured before anthing is displayed."
  const VolumeHint := "When fullscreen, control volume with up/down arrows or mouse wheel."

  /** The folder to scan: the configured one, or the Pictures folder when none is configured. */
  function RootFolder(videoSetting: string, myPictures: string): (root: string)
    ensures |videoSetting| > 0 ==> root == videoSetting
    ensures |videoSetting| == 0 ==> root == myPictures
  {
    if |videoSetting| == 0 then myPictures else videoSetting
  }

  /**
   * The list OnLoaded has before shuffling, starting from `current` on a configured folder; None
   * when an exception escapes on the way.  A cache file, when present, is used whatever machine
   * name it carries, and no scan happens; otherwise the scan's media files are appended.
   */
  function CatalogBeforeShuffle(current: Catalog, disk: Disk): (r: Option<Catalog>)
    ensures r.None? <==> (disk.cacheExists && disk.load.LoadException?) || (!disk.cacheExists && disk.save.SaveException?)
    ensures disk.cacheExists && disk.load.LoadIOException? ==> r == Some(current)
    ensures !disk.cacheExists && r.Some? ==> r.value == ScannedCatalog(current, disk.scan)
  {
    if disk.cacheExists then
      match disk.load
      case Deserialized(c) => Some(c)
      case LoadIOException => Some(current)
      case LoadException => None
    else if disk.save.SaveException? then
      None
    else
      Some(ScannedCatalog(current, disk.scan))
  }

  /** The list after GetAllVideos: the media files reached by the scan follow the old entries. */
  function ScannedCatalog(current: Catalog, scan: Enumeration): (c: Catalog)
    ensures c.paths == current.paths + MediaFiles(Reached(scan))
    ensures forall f :: f in c.paths[|current.paths|..] <==> f in Reached(scan) && HasMediaExtension(f)
    ensures c.machineName == current.machineName
  {
    MediaFilesMembers(Reached(scan));
    var c := Catalog(current.paths + MediaFiles(Reached(scan)), current.machineName);
    assert c.paths[|current.paths|..] == MediaFiles(Reached(scan));
    c
  }

  /** On a cache hit the outcome does not depend on the scan or on the cache write. */
  lemma CacheHitSkipsScan(current: Catalog, disk: Disk, scan: Enumeration, save: CacheSave)
    requires disk.cacheExists
    ensures CatalogBeforeShuffle(current, disk) == CatalogBeforeShuffle(current, disk.(scan := scan, save := save))
  {
  }

  /**
   * The machine name is never set: the list keeps the name it had, or the name stored in the
   * cache, and a cached list is taken whatever name it carries.
   */
  lemma MachineNameNeverChecked(current: Catalog, disk: Disk)
    ensures disk.cacheExists && disk.load.Deserialized? ==> CatalogBeforeShuffle(current, disk) == Some(disk.load.catalog)
    ensures !(disk.cacheExists && disk.load.Deserialized?) && CatalogBeforeShuffle(current, disk).Some? ==>
              CatalogBeforeShuffle(current, disk).value.machineName == current.machineName
  {
  }

  /** The keys the shuffle draws: the first `n` values of the random stream. */
  function RandomKeys(random: nat -> int, n: nat): (keys: seq<int>)
    ensures |keys| == n
  {
    seq(n, i requires 0 <= i => random(i))
  }

  class MainWindow {
    const preview: bool
    var videoList: VideoList
    var currentMediaIndex: int
    var currentMediaPath: string
    var currentMediaTitle: string
    /** PictureInfo.Text: the caption under the picture. */
    var pictureInfo: string
    /** ErrorText.Text: the message ShowError puts up. */
    var errorText: string
    /** The number GeneralData.Text shows after "File count: ", once OnLoaded has set it. */
    var fileCount: Option<nat>

    /** The position is on an entry whenever there is one. */
    ghost predicate IndexValid()
      reads this, videoList
    {
      |videoList.paths| > 0 ==> 0 <= currentMediaIndex < |videoList.paths|
    }

    /** The window shows `path`, with the title and caption SetNewMedia derives from `info`. */
    ghost predicate Displays(path: string, info: MediaInfo)
      reads this
    {
      && currentMediaPath == path
      && currentMediaTitle == (if info.title.Some? then info.title.value else "")
      && pictureInfo == (if info.gotDate then info.longDate else path)
    }

    constructor (preview: bool)
      ensures this.preview == preview
      ensures fresh(videoList) && videoList.paths == [] && videoList.machineName == ""
      ensures currentMediaIndex == 0 && IndexValid()
      ensures errorText == if preview then VolumeHint else ""
      ensures fileCount.None?
    {
      this.preview := preview;
      videoList := new VideoList();
      currentMediaIndex := 0;
      currentMediaPath, currentMediaTitle, pictureInfo := "", "", "";
      errorText := if preview then VolumeHint else "";
      fileCount := None;
    }

    method ShowError(message: string)
      modifies this
      ensures errorText == message
      ensures videoList == old(videoList) && currentMediaIndex == old(currentMediaIndex)
      ensures currentMediaPath == old(currentMediaPath) && currentMediaTitle == old(currentMediaTitle)
      ensures pictureInfo == old(pictureInfo) && fileCount == old(fileCount)
    {
      errorText := message;
    }

    /**
     * Shows `fileName`.  `gotCaption` is never set to true, so the caption is the long date
     * when one was read, and the file name otherwise; the title never appears in it.
     */
    method SetNewMedia(fileName: string, info: MediaInfo)
      modifies this
      ensures currentMediaPath == fileName
      ensures currentMediaTitle == if info.title.Some? then info.title.value else ""
      ensures pictureInfo == if info.gotDate then info.longDate else fileName
      ensures videoList == old(videoList) && currentMediaIndex == old(currentMediaIndex)
      ensures errorText == old(errorText) && fileCount == old(fileCount)
    {
      var gotDate := info.gotDate;
      var gotCaption := false;
      currentMediaPath := fileName;
      match info.title {
        case Some(t) =>
          currentMediaTitle := t;
        case None =>
          gotCaption := false;
          currentMediaTitle := "";
      }
      pictureInfo := InfoText(fileName, gotDate, info.longDate, gotCaption, currentMediaTitle);
    }

    /** Shows the entry at `currentMediaIndex`, or reports that the index is out of range. */
    method ShowCurrent(metadata: string -> MediaInfo) returns (shown: Shown)
      modifies this
      ensures videoList == old(videoList) && currentMediaIndex == old(currentMediaIndex)
      ensures errorText == old(errorText) && fileCount == old(fileCount)
      ensures 0 <= currentMediaIndex < |videoList.paths| ==>
                var path := videoList.paths[currentMediaIndex];
                shown == Displayed(path) && Displays(path, metadata(path))
      ensures !(0 <= currentMediaIndex < |videoList.paths|) ==>
                && shown == IndexOutOfRange(currentMediaIndex)
                && currentMediaPath == old(currentMediaPath)
                && currentMediaTitle == old(currentMediaTitle)
                && pictureInfo == old(pictureInfo)
    {
      if 0 <= currentMediaIndex < |videoList.paths| {
        var path := videoList.paths[currentMediaIndex];
        SetNewMedia(path, metadata(path));
        shown := Displayed(path);
      } else {
        shown := IndexOutOfRange(currentMediaIndex);
      }
    }

    /** Steps forward, wrapping from the last entry (or beyond) to the first, and shows it. */
    method NextMediaItem(metadata: string -> MediaInfo) returns (shown: Shown)
      modifies this
      ensures currentMediaIndex == NextIndex(old(currentMediaIndex), |videoList.paths|)
      ensures videoList == old(videoList) && errorText == old(errorText) && fileCount == old(fileCount)
      ensures old(IndexValid()) ==> IndexValid()
      ensures |videoList.paths| > 0 && old(IndexValid()) ==> shown.Displayed?
      ensures 0 <= currentMediaIndex < |videoList.paths| ==>
                var path := videoList.paths[currentMediaIndex];
                shown == Displayed(path) && Displays(path, metadata(path))
      ensures !(0 <= currentMediaIndex < |videoList.paths|) ==>
                && shown == IndexOutOfRange(currentMediaIndex)
                && currentMediaPath == old(currentMediaPath)
                && currentMediaTitle == old(currentMediaTitle)
                && pictureInfo == old(pictureInfo)
    {
      if currentMediaIndex >= videoList.Count() - 1 {
        currentMediaIndex := 0;
      } else {
        currentMediaIndex := currentMediaIndex + 1;
      }
      shown := ShowCurrent(metadata);
    }

    /** Steps back, wrapping from the first entry (or before) to the last, and shows it. */
    method PreviousMediaItem(metadata: string -> MediaInfo) returns (shown: Shown)
      modifies this
      ensures currentMediaIndex == PreviousIndex(old(currentMediaIndex), |videoList.paths|)
      ensures videoList == old(videoList) && errorText == old(errorText) && fileCount == old(fileCount)
      ensures old(IndexValid()) ==> IndexValid()
      ensures |videoList.paths| > 0 && old(IndexValid()) ==> shown.Displayed?
      ensures 0 <= currentMediaIndex < |videoList.paths| ==>
                var path := videoList.paths[currentMediaIndex];
                shown == Displayed(path) && Displays(path, metadata(path))
      ensures !(0 <= currentMediaIndex < |videoList.paths|) ==>
                && shown == IndexOutOfRange(currentMediaIndex)
                && currentMediaPath == old(currentMediaPath)
                && currentMediaTitle == old(currentMediaTitle)
                && pictureInfo == old(pictureInfo)
    {
      if currentMediaIndex <= 0 {
        currentMediaIndex := videoList.Count() - 1;
      } else {
        currentMediaIndex := currentMediaIndex - 1;
      }
      shown := ShowCurrent(metadata);
    }

    /**
     * Appends to the list every enumerated file with a media extension, in enumeration order.
     * An UnauthorizedAccessException or PathTooLongException ends the scan and is swallowed;
     * the entries appended before it stay.
     */
    method GetAllVideos(scan: Enumeration)
      modifies videoList
      ensures videoList.Image() == ScannedCatalog(old(videoList.Image()), scan)
      ensures videoList.paths == old(videoList.paths) + MediaFiles(Reached(scan))
    {
      var i := 0;
      while i < |scan.entries| && scan.failsAt != Some(i)
        invariant 0 <= i <= |scan.entries|
        invariant scan.failsAt.Some? ==> i <= scan.failsAt.value
        invariant videoList.paths == old(videoList.paths) + MediaFiles(scan.entries[..i])
        invariant videoList.machineName == old(videoList.machineName)
      {
        var f := scan.entries[i];
        assert scan.entries[..i + 1][..i] == scan.entries[..i];
        assert MediaFiles(scan.entries[..i + 1]) == MediaFiles(scan.entries[..i]) + if HasMediaExtension(f) then [f] else [];
        if HasMediaExtension(f) {
          videoList.Add(f);
        }
        i := i + 1;
      }
      assert scan.entries[..i] == Reached(scan);
      assert videoList.paths == old(videoList.paths) + MediaFiles(Reached(scan));
    }

    /**
     * The window's Loaded handler.  On an unconfigured folder it only shows a message.
     * Otherwise it takes the list from the cache file if there is one, and else scans the
     * folder and writes the result to the cache (`cacheWrite` is what it hands the
     * serializer); then it shuffles the list with keys drawn from `random` and shows the entry
     * at `currentMediaIndex`.
     */
    method OnLoaded(videoSetting: string, myPictures: string, disk: Disk,
                    random: nat -> int, metadata: string -> MediaInfo)
      returns (outcome: Startup, cacheWrite: Option<Catalog>)
      modifies this, videoList
      ensures RootFolder(videoSetting, myPictures) !in disk.directories ==>
                && outcome == NeedsConfiguration && errorText == ConfigureMessage
                && videoList == old(videoList) && videoList.Image() == old(videoList.Image())
                && currentMediaIndex == old(currentMediaIndex) && fileCount == old(fileCount)
                && currentMediaPath == old(currentMediaPath) && currentMediaTitle == old(currentMediaTitle)
                && pictureInfo == old(pictureInfo) && cacheWrite.None?
      ensures cacheWrite == if RootFolder(videoSetting, myPictures) in disk.directories && !disk.cacheExists
                            then Some(ScannedCatalog(old(videoList.Image()), disk.scan)) else None
      ensures outcome.Started? ==> IndexValid()
      ensures RootFolder(videoSetting, myPictures) in disk.directories ==>
                && errorText == old(errorText)
                && currentMediaIndex == old(currentMediaIndex)
                && match CatalogBeforeShuffle(old(videoList.Image()), disk)
                   case None =>
                     && outcome == Aborted(if disk.cacheExists then CacheLoadFailed else CacheSaveFailed)
                     && videoList == old(videoList)
                     && videoList.Image() == (if disk.cacheExists then old(videoList.Image()) else cacheWrite.value)
                     && fileCount == old(fileCount)
                     && currentMediaPath == old(currentMediaPath) && currentMediaTitle == old(currentMediaTitle)
                     && pictureInfo == old(pictureInfo)
                   case Some(c) =>
                     && fresh(videoList)
                     && videoList.paths == Shuffled(RandomKeys(random, |c.paths|), c.paths)
                     && multiset(videoList.paths) == multiset(c.paths)
                     && videoList.machineName == c.machineName
                     && fileCount == Some(|c.paths|)
                     && if 0 <= currentMediaIndex < |c.paths| then
                          var path := videoList.paths[currentMediaIndex];
                          outcome == Started(path) && Displays(path, metadata(path))
                        else
                          && outcome == Aborted(NoMediaToShow)
                          && currentMediaPath == old(currentMediaPath) && currentMediaTitle == old(currentMediaTitle)
                          && pictureInfo == old(pictureInfo)
    {
      var videoPath := RootFolder(videoSetting, myPictures);
      cacheWrite := None;
      if videoPath !in disk.directories {
        ShowError(ConfigureMessage);
        return NeedsConfiguration, None;
      }
      ghost var before := videoList.Image();
      if disk.cacheExists {
        match disk.load
        case Deserialized(c) =>
          var loaded := new VideoList();
          loaded.paths, loaded.machineName := c.paths, c.machineName;
          videoList := loaded;
        case LoadIOException =>
        case LoadException =>
          return Aborted(CacheLoadFailed), None;
      } else {
        GetAllVideos(disk.scan);
        cacheWrite := Some(videoList.Image());
        if disk.save.SaveException? {
          return Aborted(CacheSaveFailed), cacheWrite;
        }
      }
      assert CatalogBeforeShuffle(before, disk) == Some(videoList.Image());
      outcome := ShuffleAndShow(random, metadata);
    }

    /**
     * The end of OnLoaded: replaces the list by a shuffled copy (keys drawn from `random`),
     * shows the file count, and shows the entry at `currentMediaIndex`.
     */
    method ShuffleAndShow(random: nat -> int, metadata: string -> MediaInfo) returns (outcome: Startup)
      modifies this
      ensures fresh(videoList)
      ensures videoList.paths == Shuffled(RandomKeys(random, |old(videoList.paths)|), old(videoList.paths))
      ensures multiset(videoList.paths) == multiset(old(videoList.paths))
      ensures videoList.machineName == old(videoList.machineName)
      ensures fileCount == Some(|old(videoList.paths)|)
      ensures currentMediaIndex == old(currentMediaIndex) && errorText == old(errorText)
      ensures if 0 <= currentMediaIndex < |videoList.paths| then
                var path := videoList.paths[currentMediaIndex];
                outcome == Started(path) && Displays(path, metadata(path))
              else
                && outcome == Aborted(NoMediaToShow)
                && currentMediaPath == old(currentMediaPath) && currentMediaTitle == old(currentMediaTitle)
                && pictureInfo == old(pictureInfo)
    {
      videoList := videoList.ShuffleFilePaths(RandomKeys(random, videoList.Count()));
      fileCount := Some(videoList.Count());
      var shown := ShowCurrent(metadata);
      outcome := if shown.Displayed? then Started(shown.path) else Aborted(NoMediaToShow);
    }
  }
}
