# images.newbold.cloud API handlers, modelled in Dafny

The repository is a small image-hosting service. Its files live in a
content store under `public/<folder>/<name>`. Each folder may also hold a
`metadata.json` sidecar that maps file names to `{tags, description,
uploadedAt, updatedAt}`. Six serverless handlers in `api/` make up its logic:

- `folders.js` lists the directories and creates a folder by writing a
  README under a sanitised name;
- `images.js` catalogues the image files of one folder or of five default
  folders, merged with their metadata;
- `download.js` lists the media files of a folder with download and view
  links;
- `stats.js` runs one pass over every folder. It adds up image counts and
  sizes, counts tagged images and normalised tags, and reports the ten
  newest uploads and the twenty most used tags;
- `metadata.js` replaces one file's entry in the sidecar;
- `delete.js` deletes a file, then removes its sidecar entry.

The model treats every store reply as input:

- a one-shot call is a `Reply` (`Ok(value)` or `Failed(status, message)`);
- a folder is seen through a `Store` function that gives its listing
  (`None` when the listing failed) and its parsed metadata map;
- a sidecar read by a writer is a `MetaRead` (the read failed, or it gave a
  version token and a body that may not parse).

The handlers become functions where the source only computes values, and
methods where it updates accumulators step by step (`stats.js`,
`metadata.js`, the folder loop of `images.js`, `removeFromMetadata`). Every
handler also returns the sequence of store calls it issues. This makes
"no write", "at most one DELETE" and "the version token sent" statable.
Each method is proved against specification functions of its inputs.
Lemmas then state what the source promises about those functions: sums,
bounds, ordering, normalisation, round trips and "nothing else changes".

Modules: `Common` (shared values), `Seqs` (filter, sort, top-n), `Text`
(ASCII lower-casing, trim, comma split, extension tests), `Files` (listing
predicates and the folder-read trace), then one module per handler
(`Folders`, `Images`, `Download`, `Stats`, `MetadataApi`, `Delete`), and
`Census` for the finding below.

Two facts are only visible across handlers, and the model proves both:
- `upload.js` never writes `uploadedAt`, and `metadata.js` replaces the
  whole entry. So after a metadata update a file no longer appears among
  the recent uploads (`MetadataApi.StatsReadBack`).
- The catalogue and the analytics count the same images for the same
  folders (`Images.CatalogueCountsLikeStats`).

## Model

| member | source | states |
|---|---|---|
| `Common.OrNull` | api/images.js:69-71 | `x \|\| null` on an optional string is present exactly when the value is non-empty, and is then the value itself |
| `Common.PublicUrl` | api/images.js:66 | the public URL is the service base, the folder, `/` and the file name, in that order |
| `Common.FilePath` | api/delete.js:19 | the store path is `public/`, the folder, `/` and the file name |
| `Common.MetadataPath` | api/metadata.js:19 | the sidecar path is the file path of `metadata.json` in the folder |
| `Common.RouteFor` | api/images.js:7-13 | OPTIONS is a preflight, a served method is handled, any other method is refused, each case exactly |
| `Seqs.Filter` | api/stats.js:70 | the filtered sequence holds exactly the elements satisfying the predicate and is no longer than the input |
| `Seqs.FilterConcat` | api/download.js:38-40 | filtering keeps input order: it distributes over concatenation |
| `Seqs.FilterEmpty` | api/download.js:42 | the filter is empty exactly when no element satisfies the predicate |
| `Seqs.InsertDesc` | api/stats.js:107 | inserting into a non-increasing sequence keeps it non-increasing and adds exactly the one element |
| `Seqs.SortDesc` | api/stats.js:107 | the sort by a descending comparator gives a non-increasing permutation of the input |
| `Seqs.TopPrefix` | api/stats.js:108 | cutting a sorted permutation to n gives min(n, size) elements, sorted, drawn from the input, none left out ranking above one kept |
| `Seqs.DistinctSub` | api/stats.js:111 | any part of a repetition-free sequence is repetition-free |
| `Text.LowerChar` | api/folders.js:51 | an upper-case ASCII letter moves down by 32, every other character is unchanged, and no upper-case letter results |
| `Text.Lower` | api/folders.js:51 | `toLowerCase` keeps the length; `Text.LowerAt` gives its meaning |
| `Text.LowerAt` | api/folders.js:51 | lower-casing works character by character and leaves no upper-case ASCII letter |
| `Text.LowerIdempotent` | api/folders.js:51 | lower-casing twice is lower-casing once |
| `Text.Trim` | api/stats.js:86 | `trim` keeps the slice after the leading white space, drops only white space after it, and leaves no white space at either end |
| `Text.Split` | api/stats.js:85 | `split(',')` gives at least one piece and no piece holds a comma |
| `Text.JoinSplit` | api/stats.js:85 | joining the pieces with commas gives back the tags string |
| `Text.SplitJoin` | api/stats.js:85 | splitting comma-free pieces joined by commas gives back the pieces |
| `Text.NormalizeTag` | api/stats.js:86 | `tag.trim().toLowerCase()`: `Text.NormalizeTagIsNormal` proves a non-empty result of a comma-free piece is a normal token, `Text.NormalTokenFixed` that a normal token is its own result, and the lemmas below that case and padding do not change it |
| `Text.NormalizeTagIsNormal` | api/stats.js:86 | the non-empty token of a comma-free piece is non-empty, comma-free, free of upper-case ASCII and trimmed at both ends |
| `Text.NormalTokenFixed` | api/stats.js:86 | a normal token is its own token |
| `Text.NormalizeTags` | api/stats.js:85-87 | the non-empty tokens of the comma-separated pieces, in order: `Text.NormalizeTagsAreNormal`, `Text.NormalizeTwoPieces` and `Text.NormalizeTagsAlike` state what it gives |
| `Text.NormalizeTagsAreNormal` | api/stats.js:85-87 | every counted token is non-empty, comma-free, lower-case and trimmed |
| `Text.NormalizeTagIgnoresCase` | api/stats.js:86 | a piece and its lower-cased form give the same token |
| `Text.NormalizeTagIgnoresPadding` | api/stats.js:86 | white space added on either side of a piece does not change its token |
| `Text.NormalizeTagIgnoresPaddingRun` | api/stats.js:86 | white-space padding of any length on either side of a piece does not change its token |
| `Text.NormalizeTwoPieces` | api/stats.js:85-87 | two comma-free pieces whose tokens are both non-empty, joined by a comma, give those two tokens, in order |
| `Text.SplitLower` | api/stats.js:85-86 | lower-casing a tags string lower-cases each piece and keeps the piece count |
| `Text.NormalizeTagsIgnoreCase` | api/stats.js:85-87 | a tags string and its lower-cased form give the same tokens |
| `Text.NormalizePiecesAlike` | api/stats.js:85-87 | two lists of pieces that normalise pairwise alike give the same tokens |
| `Text.NormalizeTagsAlike` | api/stats.js:85-87 | two tags strings with as many pieces, which normalise pairwise alike (differing only in ASCII case or padding), give the same tokens |
| `Text.NormalizeTagsExample` | api/stats.js:85-87 | "Red, BLUE" and "red,blue" both give the tokens `red` and `blue` |
| `Text.LastExtension` | api/stats.js:70 | the extension is the text after the last dot of the name, and there is none without a dot |
| `Text.HasExtension` | api/stats.js:70 | the case-insensitive `\.(e1\|e2\|...)$` test: the lower-cased name ends with a dot and one of the extensions; `Text.HasExtensionByLastDot` proves this is the same as the lower-cased text after the last dot being in the list |
| `Text.IsImageName` | api/images.js:62 | the image regex of api/stats.js:70 and api/images.js:62, over `jpg`, `jpeg`, `png`, `gif`, `webp` and `svg`; `Text.MediaNameByLastDot` gives it by the last extension and `Text.ImageIsMedia` proves it implies `Text.IsMediaName` |
| `Text.IsMediaName` | api/download.js:39 | the media regex: the image extensions and `pdf`, `mp4`, `mov`, `webm`, `mp3`, `wav`; `Text.MediaNameByLastDot` gives it by the last extension |
| `Text.HasExtensionByLastDot` | api/stats.js:70 | the case-insensitive suffix test agrees with "the lower-cased text after the last dot is in the list" |
| `Text.MediaNameByLastDot` | api/download.js:39 | a name is an image (or media) file exactly when its lower-cased last extension is an image (or media) extension |
| `Text.ImageIsMedia` | api/download.js:39 | every image name is a media name |
| `Files.IsImageFile` | api/stats.js:70 | a listing item is an image when its name passes `Text.IsImageName`; the analytics and catalogue filter listings by it |
| `Files.IsMediaFile` | api/download.js:39 | a listing item is a media file when its name passes `Text.IsMediaName`; `Download.ListMedia` filters by it and `Download.LinksAreMedia` states the result |
| `Files.FolderImages` | api/stats.js:70 | the image files of a successful listing, in listing order, and none for a failed one: `Seqs.Filter`'s contract gives exactly the files whose name has an image extension |
| `Files.EntryOf` | api/stats.js:81 | `metadata[img.name]`: the file's entry, a missing key read as a falsy value; the contracts of the analytics, catalogue and removal read entries through it |
| `Files.FolderReads` | api/stats.js:39-63 | the reads of the folder loop, folder by folder: the listing, then the sidecar only when the listing succeeded; `Stats.Aggregate` ensures its calls are these and `Files.FolderReadsOnly` that they are all GETs |
| `Files.FolderReadsOnly` | api/stats.js:39-63 | the per-folder pass issues only GET calls |
| `Folders.DirNames` | api/folders.js:30-32 | the listing names are exactly the names of the `dir` items |
| `Folders.DirNamesConcat` | api/folders.js:30-32 | the directory filter keeps listing order |
| `Folders.ReplaceDisallowed` | api/folders.js:51 | the result has the same length, keeps every allowed character in place, puts a dash for every other one, and holds only allowed characters |
| `Folders.CollapseDashes` | api/folders.js:51 | collapsing dash runs leaves no two dashes in a row, keeps the first character and adds no character |
| `Folders.CollapseRun` | api/folders.js:51 | two dashes in a row anywhere collapse as one does, so every run shrinks to one dash where it stood (with `Folders.CollapseFixpoint`, which leaves a string without runs as it is) |
| `Folders.CollapseFixpoint` | api/folders.js:51 | a string without two dashes in a row is left as it is |
| `Folders.Sanitize` | api/folders.js:51 | the sanitised name uses only `a-z`, `0-9`, `-` and `_`, has no two dashes in a row, is no longer than the name, and is non-empty for a non-empty name |
| `Folders.SanitizeDisallowed` | api/folders.js:51 | a character outside `a-z`, `0-9`, `-` and `_` once lower-cased is sanitised as if it were a dash, at its own position |
| `Folders.SanitizeFixpoint` | api/folders.js:51 | a name is its own sanitised form exactly when it already uses only allowed characters and has no two dashes in a row |
| `Folders.SanitizeIdempotent` | api/folders.js:51 | sanitising twice is sanitising once |
| `Folders.SanitizeKeepsContent` | api/folders.js:51 | apart from dashes, the sanitised name keeps every allowed character of the lower-cased name, in order |
| `Folders.ReadmePath` | api/folders.js:52 | the created path is the file path of `README.md` in the sanitised folder: `public/`, the name and `/README.md` |
| `Folders.ReadmeText` | api/folders.js:55 | the README body: a `# ` heading with the name as requested (not sanitised), a blank line and `Custom folder for images.`; `Folders.CreateFolder` ensures it is what the one write carries |
| `Folders.ListFolders` | api/folders.js:25-34 | a failed listing answers with the store's status; otherwise the answer is the directory names in listing order (`Folders.DirNames`), and lists exactly the names of the `dir` items |
| `Folders.CreateFolder` | api/folders.js:44-78 | a missing or empty name gets 400 and no store call; otherwise exactly one README write under the sanitised name, and the store's error or the sanitised folder is reported |
| `Folders.Handle` | api/folders.js:6-85 | OPTIONS, GET and POST are served as above; every other method gets 405 with no store call |
| `Folders.CreateWritesReadmeOnly` | api/folders.js:46-71 | folder creation writes at most one file, only for a non-empty name, and only the README inside the slash-free sanitised folder |
| `Stats.SumSizes` | api/stats.js:74 | the sum of the sizes, a missing size counting 0: `Stats.FolderStatsAre` gives it as a folder's `size` and `Stats.TotalsAreSums` sums it into `totalSize` |
| `Stats.Bump` | api/stats.js:87 | the intended `tagCounts[t] = (tagCounts[t] \|\| 0) + 1`, one token counted once more: `Stats.CountsAreMultiplicities` gives what repeated bumps build |
| `Stats.Counts` | api/stats.js:85-88 | the intended census of a token list: `Stats.CountsAreMultiplicities` proves it holds exactly the tokens seen, each with its number of occurrences |
| `Stats.IsTagged` | api/stats.js:81-84 | a file counts as tagged exactly when its entry is truthy and its `tags` are; `Stats.ScanImage` adds 1 to the tagged count exactly then, and `Stats.TaggedAtMostImages` bounds the total |
| `Stats.UploadOf` | api/stats.js:90-97 | a file gives one upload record, with its name, folder, public URL and upload time, exactly when its entry is truthy and has an upload time; `Stats.ScanImage` appends it and `Stats.UploadsAreDatedImages` characterises the pool |
| `Stats.TotalImages` | api/stats.js:77 | `totalImages`, the image count summed over the listed folders; `Stats.Aggregate` reports it and `Stats.TotalsAreSums` relates it to the per-folder counts |
| `Stats.TotalSize` | api/stats.js:74-78 | `totalSize`, the image sizes (missing ones as 0) summed over the listed folders; `Stats.Aggregate` reports it and `Stats.TotalsAreSums` relates it to the per-folder sizes |
| `Stats.TotalTagged` | api/stats.js:81-84 | `totalTagged`, the tagged images counted over the listed folders; `Stats.Aggregate` reports it and `Stats.TaggedAtMostImages` bounds it by `totalImages` |
| `Stats.AllTokens` | api/stats.js:85-87 | the stream of tokens the census is bumped with, folder by folder and image by image; `Stats.TokensAreNormal` proves every one normal, `Stats.CountsAreMultiplicities` and `Stats.TopTagsAreTokenCounts` relate the census and top tags to it |
| `Stats.AllUploads` | api/stats.js:90-97 | the `recentUploads` pool before sorting; `Stats.UploadsAreDatedImages` proves it holds exactly the dated image files, and `Stats.Aggregate` reports its top ten |
| `Stats.FolderStats` | api/stats.js:72-75 | `folderStats`: one count-and-size record per successfully listed folder, the last visit winning; `Stats.FolderStatsAre` states its contents and `Stats.Aggregate` reports it |
| `Stats.Advance` | api/stats.js:39-98 | one folder's step of the loop: a failed listing adds only its read, a successful one adds its images to every accumulator; `Stats.VisitListed` is proved against it, `Stats.PassSnoc` chains it and `Stats.AdvanceOnlyImages` shows it depends only on the image files and the metadata |
| `Stats.PassAfter` | api/stats.js:29-99 | the accumulators after the folder loop has visited some folders, each field given by its specification function; `Stats.VisitFolder` keeps it as the loop invariant and `Stats.PassSnoc` relates consecutive values |
| `Stats.Percent` | api/stats.js:122 | the percentage is 0 without images, otherwise 100·tagged/total rounded half up, and at most 100 when tagged ≤ total |
| `Stats.Entries` | api/stats.js:111 | the entries list every tag of the census once, each with its count |
| `Stats.CountTags` | api/stats.js:85-88 | bumping the pieces of one tags string leaves the census of the tokens seen so far followed by that string's tokens |
| `Stats.ScanImage` | api/stats.js:81-98 | one image adds 1 to the tagged count exactly when its entry has tags, adds its tokens to the census, and adds its upload record exactly when its entry has an upload time |
| `Stats.ScanImages` | api/stats.js:80-99 | the image loop adds the folder's tagged count, tokens and upload records to the accumulators |
| `Stats.VisitFolder` | api/stats.js:36-99 | one turn of the folder loop moves the accumulators from the specification after the earlier folders to the specification after this one; a failed listing only adds its read |
| `Stats.RecentOf` | api/stats.js:106-108 | the recent uploads are the top 10 of the pool by upload time: at most 10, newest first, drawn from the pool, none left out newer than one kept |
| `Stats.TopTagsOf` | api/stats.js:110-114 | the top tags are at most 20 distinct census tags, each with its count, non-increasing, none left out more used than one kept |
| `Stats.VisitListed` | api/stats.js:50-99 | the turn for a folder whose listing succeeded adds its metadata read, its image count and size, its tagged count, tokens and upload records to the accumulators, as the one-folder step of the specification says |
| `Stats.PassSnoc` | api/stats.js:36-99 | the accumulators after one more folder are the one-folder step applied to those before it, given the tokens seen so far |
| `Stats.BuildReport` | api/stats.js:106-123 | from the accumulators after the last folder, the summary, folder statistics, ten newest uploads and twenty top tags are those of the specification |
| `Stats.Aggregate` | api/stats.js:29-123 | the report's totals, percentage, folder count, folder statistics, recent uploads and top tags are those the specification functions give for the folder names, and the reads are the per-folder reads |
| `Stats.Handle` | api/stats.js:6-143 | OPTIONS is a preflight; GET with a failed root listing is a 500; GET reports the aggregate of the directory names; POST only acknowledges; other methods get 405; no call ever writes |
| `Stats.TaggedAtMostImages` | api/stats.js:81-84 | no more images are tagged than there are images, so the percentage is at most 100 |
| `Stats.FolderStatsAre` | api/stats.js:49 | a folder has statistics exactly when it was listed and its listing succeeded, and they are its image count and the sum of its image sizes (missing sizes as 0) |
| `Stats.TotalsAreSums` | api/stats.js:72-78 | with distinct folder names, `totalImages` and `totalSize` are the sums of the per-folder counts and sizes |
| `Stats.UploadsAreDatedImages` | api/stats.js:90-97 | the upload pool holds exactly the image files of successfully listed folders whose entry has an upload time, each with its public URL |
| `Stats.TokensAreNormal` | api/stats.js:85-87 | every counted token is non-empty, trimmed and lower-case |
| `Stats.CountsAreMultiplicities` | api/stats.js:87 | the census holds exactly the tokens seen, each with the number of times it was seen |
| `Stats.TopTagsAreTokenCounts` | api/stats.js:111-114 | every reported tag is a normal token and its count is its number of occurrences over all tagged images |
| `Stats.OnlyImagesMatter` | api/stats.js:70 | stores that agree on image files, metadata and listing success give the same accumulators: other files count in no statistic |
| `Images.FoldersToScan` | api/images.js:21 | a non-empty `folder` query scans exactly that folder, verbatim; otherwise the five default folders, in order |
| `Images.EntryFor` | api/images.js:63-72 | an entry copies the file's name, raw URL and size, builds its public URL, and takes tags and description when the metadata has them non-empty (else null), and the upload time when present |
| `Images.FolderEntries` | api/images.js:61-72 | one entry per image file of a successful listing, in listing order: `Images.CatalogueIsListedImages` gives its contents |
| `Images.AllEntries` | api/images.js:24-78 | the catalogue of a list of folders: `Images.AllEntriesConcat`, `Images.FailedFolderSkipped`, `Images.CatalogueIsListedImages` and `Images.CatalogueCountsLikeStats` state what it holds |
| `Images.Collect` | api/images.js:24-78 | the folder loop appends the catalogue of each folder in turn, skipping failed listings, and issues the per-folder reads |
| `Images.Handle` | api/images.js:7-91 | GET answers with the catalogue, its length as `totalImages` and always the five default folder names; other methods get 405; no call writes |
| `Images.AllEntriesConcat` | api/images.js:74 | the catalogue is in folder order, then listing order |
| `Images.FailedFolderSkipped` | api/images.js:37 | a folder whose listing fails contributes nothing and the later folders are still catalogued |
| `Images.CatalogueIsListedImages` | api/images.js:61-72 | the catalogue holds exactly the entries of the image files of the successfully listed scanned folders |
| `Images.CatalogueCountsLikeStats` | api/images.js:84 | the catalogue of some folders has as many entries as the analytics count images over them |
| `Download.LinkFor` | api/download.js:47-52 | a link copies name, download URL and size and builds the view URL |
| `Download.LinksFor` | api/download.js:47-52 | there is one link per file, in order |
| `Download.ListMedia` | api/download.js:31-57 | a failed listing is 404 "Folder not found"; no media file is 404 "No files found in folder"; otherwise the links of the media files, with `count` their number |
| `Download.Handle` | api/download.js:6-58 | OPTIONS, 405 for other methods, 400 without a folder and no store call; with a folder, one listing read and the media answer |
| `Download.MissingFolderIgnoresStore` | api/download.js:11-13 | without a folder the answer does not depend on the store and no call is made |
| `Download.LinksAreMedia` | api/download.js:38-52 | the links are exactly those of the media files of the listing |
| `Download.CatalogueImagesDownloadable` | api/download.js:39 | every image the catalogue lists for a folder has a download link with the same name and URL |
| `MetadataApi.NewEntry` | api/metadata.js:46-50 | the written entry has tags and description when sent non-empty (else null), the request time, and no upload time |
| `MetadataApi.BaseOf` | api/metadata.js:22-43 | the map the update starts from: the parsed sidecar after a successful read and parse, otherwise the empty map; `MetadataApi.Handle` writes it with the file's entry replaced |
| `MetadataApi.ShaOf` | api/metadata.js:59-61 | the version token is sent exactly when a sidecar was read with a non-empty token, and it is that token |
| `MetadataApi.Handle` | api/metadata.js:6-86 | 405 and 400 make no store call; otherwise one sidecar read, then one write of the base map with the file's entry replaced, carrying the token rule above; the response echoes the request or the store's error |
| `MetadataApi.UpdateKeepsOthers` | api/metadata.js:46 | only the file's key changes: every other entry stays as it was |
| `MetadataApi.RetryRestampsEntry` | api/metadata.js:22-50 | a later retry whose read returns the map the first request wrote, under any version token, writes the same keys: every other entry as it was, and the file's entry with only `updatedAt` changed to the retry's time; the two writes are equal exactly when both requests have the same time |
| `MetadataApi.CatalogueReadsBack` | api/metadata.js:46-50 | the catalogue reads back the tags and description written, and no upload time |
| `MetadataApi.StatsReadBack` | api/metadata.js:46-50 | after an update the file is tagged exactly when tags were sent, its tokens are those tags', and it is no longer an upload |
| `Delete.IsRemoval` | api/delete.js:70-113 | the specification of the removal: one sidecar read; a second call exactly when the read and parse succeeded and the map holds a truthy entry for the file, and then that call writes the map less the file's key with the token read; `Delete.RemoveFromMetadata` is proved against it |
| `Delete.RemoveFromMetadata` | api/delete.js:70-113 | a failed or unparseable read ends it after the read; the map is written back without the file's key, with the token read, exactly when it holds a truthy entry for the file |
| `Delete.Handle` | api/delete.js:6-68 | 405 and 400 make no store call; a failed lookup is 404 with no DELETE; a failed DELETE reports its error; otherwise the answer is `deleted` whatever the metadata removal did; the only DELETE targets `public/<folder>/<filename>` with the looked-up token, and the only PUT the folder's sidecar |
| `Delete.RemovalKeepsOthers` | api/delete.js:89-90 | removal takes out exactly the file's key and keeps every other entry |
| `Delete.RemoveAfterUpdate` | api/delete.js:89-90 | deleting a file just updated finds a truthy entry and writes back the map as it was before the update, less the file's key |
| `Census.JsBump` | api/stats.js:87 | `tagCounts[t] = (tagCounts[t] \|\| 0) + 1` as written, for a key with no upper-case ASCII letter on an object with `Object.prototype` behind it: `Census.ConstructorTagMiscounted` and `Census.ProtoTagDropped` show where it departs from `Stats.Bump` |
| `Census.JsCounts` | api/stats.js:34-88 | the census as written: `Census.JsCountsAgree` proves it equals `Stats.Counts` on lower-case tokens other than the two prototype-named ones |
| `Census.JsCountsAgree` | api/stats.js:87 | while every token has no upper-case ASCII letter and none is `constructor` or `__proto__`, the census as written holds the intended counts, as numbers |
| `Census.PassCensusAgrees` | api/stats.js:85-87 | the analytics pass only feeds the census lower-cased tokens, so when its tokens include neither `constructor` nor `__proto__` the census as written holds the intended counts |
| `Census.ConstructorTagMiscounted` | api/stats.js:34 | one tag `constructor` is counted as the string `"function Object() { [native code] }1"` instead of 1 |
| `Census.ProtoTagDropped` | api/stats.js:87 | for every token list, `__proto__` never enters the census as written, while the intended census holds it whenever it occurs |

## Findings

| source | as written | input that shows it | evidently intended | confidence | as-written member | corrected member |
|---|---|---|---|---|---|---|
| api/stats.js:34 | `tagCounts` is the object literal `{}`, so `tagCounts[t] \|\| 0` reads the inherited `Object.prototype` property for a token that names one. The token `constructor` gets `Object + 1`, a string, and every later occurrence appends `"1"`. The token `__proto__` is assigned through the prototype setter, which ignores a string, so it is never counted. | an image whose metadata `tags` is `"constructor"` (or `"__proto__"`) | every token counted by its number of occurrences, as with a `Map` or `Object.create(null)` | high; not executed | `Census.ConstructorTagMiscounted` | `Stats.CountsAreMultiplicities` |

`Census.JsCounts` models the census as written and `Stats.Counts` models the
corrected one. `Census.JsCountsAgree` proves the two agree on every input
of lower-case tokens without those two, and `Census.PassCensusAgrees` that
the analytics pass only produces lower-case tokens. The rest of the model uses `Stats.Counts`.

## Left out

- Network, HTTP plumbing, CORS headers and the GitHub token: store replies are inputs and handlers return the calls they would make.
- Base64 and JSON encoding and decoding: a sidecar body is either a parsed map or "does not parse". A body that parses to something other than an object (for example `null`) would make `metadata[name]` throw. The model does not represent that.
- Request fields and metadata fields are absent or strings. A JSON value of another type (for example numeric `tags`, on which `split` throws) is not represented, and neither is a query parameter given twice (an array).
- The 500 paths that only an exception reaches: a thrown fetch, a throw inside `images.js` or `stats.js` that abandons one folder half-way, and the outer `catch` of each handler. The failed root listing of `stats.js`, which throws on `items.filter`, is modelled as its 500.
- Stats.FolderStatsAre: `folderStats` is the object literal `{}` of api/stats.js:32. A directory named `__proto__` is assigned through the prototype setter (api/stats.js:72), so it is missing from the `folders` answer (api/stats.js:125) while `totalImages` and `totalSize` still count it. Stats.FolderStats and this lemma treat `folderStats` as a plain map and list that directory.
- Census.Get: only keys without an upper-case ASCII letter are modelled, and of the `Object.prototype` names only `constructor` and `__proto__` are such keys. Keys such as `toString` or `valueOf` read `Undefined` here where JavaScript finds the inherited method. The census never sees them, because every token is lower-cased first (api/stats.js:86).
- Stats.Percent: the result is exact rounding half up of 100·tagged/total. `Math.round` on floating point can differ just below a half: 29 tagged of 200 gives 14 in JavaScript and 15 here.
- Stats.Handle: `totalSizeMB` (`toFixed(2)`) and `generatedAt` (the clock) are not part of the report.
- Stats.RecentOf: upload times are abstract integers compared as numbers. Date parsing (an invalid date sorts as `NaN`) is not modelled, and the order of equal times is left open.
- Stats.TopTagsOf: the order of tags with equal counts, and the order in which `Object.entries` lists the census, are left open. So is how the engine sorts once the `constructor` finding has put a string count into the list.
- Seqs.SortDesc: any non-increasing permutation is accepted. The engine's sort algorithm and its handling of ties are not modelled.
- Text.Lower: `toLowerCase` is modelled on ASCII letters only. Other Unicode case mappings (for example KELVIN SIGN to `k`) are not.
- File names that are `Object.prototype` keys, in `metadata.js` and `delete.js`. A filename `__proto__` replaces the sidecar's prototype instead of adding an entry, and `constructor` reads as a truthy entry. The model treats the metadata as a plain map. The analytics case is the finding above.
- Folder and file names go into store paths verbatim, as in the source. How the store resolves names holding `/` or `..` is the store's own behaviour and is not modelled.
- The read-modify-write race on `metadata.json` between concurrent writers: the model is sequential.
- `upload.js` (a presence check and a single PUT) and `qr.js` (a call to an external chart service) are not part of this model.
