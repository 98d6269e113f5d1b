# Random video screensaver: the media list, in Dafny

This project models the media-list logic of a Windows screensaver that shows the photos and
videos under a folder in random order. Everything else in the program is WPF, Win32 or
registry glue. The model covers three things:

- **The catalogue** (`VideoList`, file `videolist.dfy`). It is a list of file paths that also
  carries a machine name. `ShuffleFilePaths` draws one random key per path, orders the
  (key, path) pairs with a LINQ `orderby` (module `OrderBy`, file `orderby.dfy`), and copies the
  paths into a fresh list with the same machine name. The random numbers are an input sequence,
  so the shuffle is a deterministic function of them. The result is proved to be a permutation
  of the receiver, ordered by key, with equal keys in their original order. Any order with
  those properties is proved equal to it. The receiver is not modified.
- **Navigation** (module `Navigation`, and `NextMediaItem`/`PreviousMediaItem` of class
  `MainWindow`). The current index moves one step forward or back and wraps at both ends. In a
  non-empty list the index stays on an entry. Next and Previous undo each other, and `Count`
  Next steps come back to the start. On an empty list the code indexes out of range. The
  methods report this as the outcome `IndexOutOfRange`; in the program it is an uncaught
  exception.
- **Building the list** (module `MediaFilter`, and `GetAllVideos`, `OnLoaded`, `SetNewMedia`
  of class `MainWindow`, file `mainwindow.dfy`).
  - A scanned file is kept exactly when its name ends in `.mp4`, `.mov`, `.png` or `.jpg`,
    ignoring case. Kept files follow the existing entries in enumeration order.
  - An access or path-length error ends the whole scan. What was kept before it stays.
  - At start-up the list comes from the cache file if it exists, with no scan. Otherwise the
    folder is scanned and the result is written to the cache. Either way the list is then
    shuffled and the entry at the current index is shown.
  - The caption under a picture is its long date when one was read, and otherwise its file
    name. The title never appears, because `gotCaption` is never set.

Inputs from outside are parameters:

- the configured folder and the Pictures folder;
- the set of existing folders;
- whether the cache file exists, and what its deserializer and serializer do;
- the entries the directory enumeration yields, and where it throws;
- the random stream;
- the metadata read from each file.

Where the code lets an exception escape, the method returns it as an outcome: an index out of
range, or a cache exception that is not an `IOException`.

In these respects the model follows the code, not what the names suggest:

- No code sets the machine name to the host's name or compares it; only the constructors
  (to "") and `ShuffleFilePaths` (a copy) assign it. A cached list is used whatever name it
  carries, and a scanned list keeps the name it had.
- Neither Next nor Previous skips files that no longer exist.
- A scan error does not skip one folder. It ends the whole scan.
- The cache is the file `ScreenSaver.data.bin` in the current directory.
  `VideoList.GetCacheFileName` builds a path under the local application-data folder, but no
  code calls it.
- An empty but configured folder does not show a message. `videoList[0]` throws, modelled as
  `Aborted(NoMediaToShow)`.
- Only `IOException` is caught around the cache. A corrupt file throws a
  `SerializationException`, which escapes `OnLoaded` (`Aborted(CacheLoadFailed)`).

## Model

| member | source | states |
|---|---|---|
| OrderBy.SortByKey | VideoScreensaver/VideoList.cs:53-56 | the `orderby item.Key` result has the input's length and multiset of pairs and is ordered by non-decreasing key |
| OrderBy.SortByKeyStable | VideoScreensaver/VideoList.cs:54-56 | for every key, the output lists that key's pairs in input order (`orderby` is stable) |
| OrderBy.StableOrderUnique | VideoScreensaver/VideoList.cs:54-56 | two key-ordered sequences that agree on the order within every key are equal |
| OrderBy.SortByKeyCharacterized | VideoScreensaver/VideoList.cs:54-56 | a sequence is the `orderby` result iff it is key-ordered and keeps each key's input order |
| OrderBy.SortByKeyPermutesValues | VideoScreensaver/VideoList.cs:48-67 | the paths read out after sorting have the same multiset as the paths that went in |
| OrderBy.ValuesOfZip | VideoScreensaver/VideoList.cs:48-51 | pairing each path with its key and reading the paths back gives the original list |
| VideoLists.Shuffled | VideoScreensaver/VideoList.cs:40-70 | for any keys, the shuffled order has the receiver's length and is a permutation of its paths |
| VideoLists.ShuffledIsStableKeyOrder | VideoScreensaver/VideoList.cs:40-70 | for any keys, the shuffled list has the same length and multiset as the receiver, and it is the paths read out of a stable key order of the (key, path) pairs |
| VideoLists.ShuffledEqualKeysIsIdentity | VideoScreensaver/VideoList.cs:54-56 | with all keys equal the shuffle keeps the input order |
| VideoLists.VideoList.constructor | VideoScreensaver/VideoList.cs:16-20 | a new list is empty with machine name "" |
| VideoLists.VideoList.WithCapacity | VideoScreensaver/VideoList.cs:22-26 | a list created with a capacity is empty with machine name "" |
| VideoLists.VideoList.Add | VideoScreensaver/VideoList.cs:66 | `ArrayList.Add` appends the path at the end and leaves the machine name |
| VideoLists.VideoList.ShuffleFilePaths | VideoScreensaver/VideoList.cs:40-70 | returns a fresh list holding the receiver's paths stably ordered by the drawn keys, a permutation of them, with the same machine name; the receiver is not modified |
| MediaFilter.HasMediaExtension | VideoScreensaver/MainWindow.xaml.cs:177-180 | a path that passes the filter has at least four characters, the fourth from last being the dot of the extension |
| MediaFilter.HasMediaExtensionByLastFour | VideoScreensaver/MainWindow.xaml.cs:177-180 | a path passes the filter iff it has at least four characters and its last four, lower-cased, are one of .mp4, .mov, .png, .jpg |
| MediaFilter.HasMediaExtensionIgnoresCase | VideoScreensaver/MainWindow.xaml.cs:177-180 | paths that differ only in letter case are both kept or both dropped |
| MediaFilter.LastCharacterDecides | VideoScreensaver/MainWindow.xaml.cs:177-180 | a path whose last character is not 4, v or g in either case is dropped |
| MediaFilter.FourMediaFilesKept | VideoScreensaver/MainWindow.xaml.cs:175-184 | x.mp4, x.mov, x.png and x.jpg are all kept, in order |
| MediaFilter.FilterExamples | VideoScreensaver/MainWindow.xaml.cs:175-184 | of x.mp4, x.mov, x.png, x.jpg, x.txt, x.exe exactly the first four are kept |
| MediaFilter.FilterCaseExamples | VideoScreensaver/MainWindow.xaml.cs:175-184 | X.MP4 and a/b.Jpg are kept, x.mp4.txt is dropped |
| MediaFilter.MediaFiles | VideoScreensaver/MainWindow.xaml.cs:175-184 | the kept files are never more than the enumerated ones and every kept file has a media extension |
| MediaFilter.MediaFilesCount | VideoScreensaver/MainWindow.xaml.cs:175-184 | a path occurs among the kept files as often as it was enumerated if it has a media extension, otherwise never |
| MediaFilter.MediaFilesMembers | VideoScreensaver/MainWindow.xaml.cs:175-184 | a path is kept iff it was enumerated and has a media extension |
| MediaFilter.MediaFilesAppend | VideoScreensaver/MainWindow.xaml.cs:175-184 | filtering two stretches of the enumeration one after the other gives the filter of the whole: the kept files stay in enumeration order |
| MediaFilter.Reached | VideoScreensaver/MainWindow.xaml.cs:171-196 | the entries the scan loop sees are a prefix of the enumeration: exactly the first n entries when the enumeration throws at n, and all of it when nothing throws |
| MediaFilter.ScanErrorKeepsPrefix | VideoScreensaver/MainWindow.xaml.cs:171-196 | what a scan that throws keeps is a prefix of what the scan without the error keeps |
| Navigation.NextIndex | VideoScreensaver/MainWindow.xaml.cs:278-285 | from a valid index the new index is (index + 1) mod Count; from any index at least -1 in a non-empty list it lies in [0, Count) |
| Navigation.PreviousIndex | VideoScreensaver/MainWindow.xaml.cs:292-299 | from a valid index the new index is (index - 1) mod Count; in a non-empty list it lies in [0, Count) from any index up to Count; in an empty list it is -1 from any index up to 0 |
| Navigation.NextPreviousInverse | VideoScreensaver/MainWindow.xaml.cs:276-302 | Next then Previous, and Previous then Next, return to a valid starting index |
| Navigation.NextIndexTimesBeforeWrap | VideoScreensaver/MainWindow.xaml.cs:278-285 | n Next steps that stay below the last entry add n to the index |
| Navigation.NextIndexTimesCompose | VideoScreensaver/MainWindow.xaml.cs:276-288 | a Next steps followed by b Next steps are a + b Next steps |
| Navigation.NextIndexFullCycle | VideoScreensaver/MainWindow.xaml.cs:276-288 | Count consecutive Next steps return to the starting index |
| Screensaver.InfoText | VideoScreensaver/MainWindow.xaml.cs:342-352 | with neither date nor caption the text is the file name; with only a date it is the long date; with a caption and a non-empty title it is the long date (or nothing) followed by "- " and the title; with a caption and an empty title, the long date or nothing |
| Screensaver.RootFolder | VideoScreensaver/MainWindow.xaml.cs:200-205 | the folder used is the configured one, or the Pictures folder when the setting is empty |
| Screensaver.ScannedCatalog | VideoScreensaver/MainWindow.xaml.cs:235 | after the scan the list is the old entries followed by the reached files with a media extension, in enumeration order, once each; the entries after the old ones are exactly the reached media files, and the machine name is unchanged |
| Screensaver.CatalogBeforeShuffle | VideoScreensaver/MainWindow.xaml.cs:213-251 | the start-up list is missing (an exception escaped) exactly when a cache load throws something other than `IOException` or, without a cache file, the cache write does; an `IOException` on load leaves the old list; on a cache miss the list is `ScannedCatalog` of the old one: the old entries followed by the reached media files |
| Screensaver.CacheHitSkipsScan | VideoScreensaver/MainWindow.xaml.cs:213-251 | when the cache file exists, the list does not depend on the scan or on the cache write |
| Screensaver.MachineNameNeverChecked | VideoScreensaver/MainWindow.xaml.cs:213-251 | a deserialized list is used whatever machine name it carries; otherwise the list keeps its own machine name |
| Screensaver.RandomKeys | VideoScreensaver/VideoList.cs:42-51 | one key is drawn per path |
| Screensaver.MainWindow.constructor | VideoScreensaver/MainWindow.xaml.cs:67-80 | the window starts with a fresh empty list, index 0, and the volume hint as error text in preview mode |
| Screensaver.MainWindow.ShowError | VideoScreensaver/MainWindow.xaml.cs:262-269 | the error text becomes the message and nothing else in the model changes |
| Screensaver.MainWindow.SetNewMedia | VideoScreensaver/MainWindow.xaml.cs:304-354 | the current path becomes the file; the title is the read title or "" on InvalidCastException; the caption is the long date if a date was read and the file name otherwise |
| Screensaver.MainWindow.ShowCurrent | VideoScreensaver/MainWindow.xaml.cs:287 | `SetNewMedia(videoList[currentMediaIndex])`: shows the entry at the index with its title (or "") and its caption (long date, else file name), or reports the index out of range and leaves path, title and caption as they were |
| Screensaver.MainWindow.NextMediaItem | VideoScreensaver/MainWindow.xaml.cs:276-288 | the index becomes NextIndex of the old one; a valid index stays valid and its entry is shown with its title and caption; an empty list ends out of range with path, title and caption unchanged |
| Screensaver.MainWindow.PreviousMediaItem | VideoScreensaver/MainWindow.xaml.cs:290-302 | the index becomes PreviousIndex of the old one; a valid index stays valid and its entry is shown with its title and caption; an empty list ends out of range at -1 with path, title and caption unchanged |
| Screensaver.MainWindow.GetAllVideos | VideoScreensaver/MainWindow.xaml.cs:167-197 | the list becomes `ScannedCatalog` of its old value: its old entries followed by the media files of the entries reached before any enumeration error, with the machine name unchanged |
| Screensaver.MainWindow.OnLoaded | VideoScreensaver/MainWindow.xaml.cs:199-260 | unconfigured folder: the message, and nothing else changes (list, machine name, count, display); cache hit: the cached list, no scan and no write; miss: scan then write; an escaping cache exception leaves the list (paths and machine name, or the scanned list after a miss), the count and the display as they were; otherwise a fresh shuffled copy with the same machine name, the file count, and the entry at the index shown with its title and caption, or no media to show; the error text is kept on a configured folder |
| Screensaver.MainWindow.ShuffleAndShow | VideoScreensaver/MainWindow.xaml.cs:253-258 | the list is replaced by a fresh shuffled copy with the same machine name, the file count is its length, the index is kept, and the entry at the index is shown with its title and caption, or the start ends with no media to show and the display unchanged |

## Left out

- Rendering and metadata reading: `FullScreenMedia`, `ExifReader` and the bitmap metadata in
  `GetTitle` are outside calls. Their results are the `MediaInfo` input. An exception from them
  other than `InvalidCastException` is not modelled.
- `currentMediaDateTaken` (a `DateTime`) is not modelled. Only its long-date text reaches the
  caption; the field itself only feeds the info dialog.
- The volume property, its clamp and its adjustments, and `PreferenceManager`: they are
  `double` arithmetic and registry access. The folder setting is a parameter.
- Logging, the key and mouse handlers, `ShowInfo`, `EndFullScreensaver`, `MediaEnded`,
  `App.xaml.cs`, `MediaOperations.cs` and `PropertiesControl.xaml.cs`: UI and OS calls. The key
  handler only forwards Right and Left to `NextMediaItem` and `PreviousMediaItem`.
- The cache file's mechanics (`BinaryFormatter`, `File.Open`, `GetCacheFileName`): load and
  save are abstract outcomes.
- `System.Random`: replaced by the `keys` sequence and the `random` stream.
- Case folding covers ASCII letters only. Every character of the four extensions is ASCII.
- Enumeration exceptions other than `UnauthorizedAccessException` and `PathTooLongException`
  (a folder deleted after the existence check, say) are not modelled.
- `ArrayList` capacity has no counterpart. Strings the C# code leaves `null` start as "".
- `Screensaver.MainWindow.constructor`: the volume read from the registry is not modelled.
- `Screensaver.MainWindow.OnLoaded`: `GeneralData.Text` is modelled as the count it shows, not
  as the formatted string.
