/** The catalogue handler: lists the image files of one folder, or of the
    five default folders, each with its public URL and the tags,
    description and upload time recorded in the folder's metadata. */
module Images {
  import opened Common
  import opened Seqs
  import opened Text
  import opened Files
  import Stats

  const DefaultFolders: seq<string> := ["references", "logos", "textures", "photos", "assets"]

  /** The folders one request scans: the `folder` query parameter when it is
      non-empty, taken verbatim, and the five defaults otherwise. */
  function FoldersToScan(query: Option<string>): (r: seq<string>)
    ensures Truthy(query) ==> r == [query.value]
    ensures !Truthy(query) ==> r == DefaultFolders
  {
    if Truthy(query) then [query.value] else DefaultFolders
  }

  /** One element of the `images` array. */
  datatype CatalogueEntry = CatalogueEntry(
    name: string, folder: string, url: string, rawUrl: Option<string>, size: Option<nat>,
    tags: Option<string>, description: Option<string>, uploadedAt: Option<int>)

  /** The catalogue entry of one image file: `metadata[file.name]?.x || null`
      for each metadata field. */
  function EntryFor(folder: string, meta: Metadata, f: FileItem): (c: CatalogueEntry)
    ensures c.name == f.name && c.folder == folder && c.url == PublicUrl(folder, f.name)
    ensures c.rawUrl == f.downloadUrl && c.size == f.size
    ensures var e := EntryOf(meta, f.name);
            && (c.tags.Some? <==> e.Entry? && Truthy(e.tags))
            && (c.tags.Some? ==> c.tags == e.tags)
            && (c.description.Some? <==> e.Entry? && Truthy(e.description))
            && (c.description.Some? ==> c.description == e.description)
            && c.uploadedAt == (if e.Entry? then e.uploadedAt else None)
  {
    var e := EntryOf(meta, f.name);
    CatalogueEntry(f.name, folder, PublicUrl(folder, f.name), f.downloadUrl, f.size,
                   if e.Entry? then OrNull(e.tags) else None,
                   if e.Entry? then OrNull(e.description) else None,
                   if e.Entry? then e.uploadedAt else None)
  }

  /** `files.filter(isImage).map(...)` for one folder. */
  function FolderEntries(folder: string, d: FolderData): seq<CatalogueEntry> {
    var images := FolderImages(d);
    seq(|images|, i requires 0 <= i < |images| => EntryFor(folder, d.metadata, images[i]))
  }

  /** The catalogue of the scanned folders, folder by folder. */
  function AllEntries(folders: seq<string>, store: Store): seq<CatalogueEntry> {
    if folders == [] then []
    else
      var f := folders[|folders| - 1];
      AllEntries(folders[..|folders| - 1], store) + FolderEntries(f, store(f))
  }

  datatype ImagesResponse =
    | PreflightOk
    | Catalogue(totalImages: nat, folders: seq<string>, images: seq<CatalogueEntry>)
    | Error(status: int, error: string)

  /** The loop over the scanned folders: a folder whose listing fails is
      skipped, the others' entries are appended in turn. */
  method Collect(folders: seq<string>, store: Store) returns (all: seq<CatalogueEntry>, scan: seq<StoreCall>)
    ensures all == AllEntries(folders, store)
    ensures scan == FolderReads(folders, store)
  {
    all, scan := [], [];
    for i := 0 to |folders|
      invariant all == AllEntries(folders[..i], store)
      invariant scan == FolderReads(folders[..i], store)
    {
      var f := folders[i];
      assert folders[..i + 1][..i] == folders[..i] && folders[..i + 1][i] == f;
      var d := store(f);
      scan := scan + [GetContent("public/" + f)];
      if d.listing.None? {
        assert FolderEntries(f, d) == [];
        assert all + [] == all && scan + [] == scan;
        continue;
      }
      scan := scan + [GetContent(MetadataPath(f))];
      var images := Filter(d.listing.value, IsImageFile);
      var entries := seq(|images|, j requires 0 <= j < |images| => EntryFor(f, d.metadata, images[j]));
      all := all + entries;
    }
    assert folders[..|folders|] == folders;
  }

  /** The handler: OPTIONS, GET, or 405. The reported `folders` are always
      the five defaults, whatever was scanned. */
  method Handle(verb: string, query: Option<string>, store: Store) returns (r: ImagesResponse, calls: seq<StoreCall>)
    ensures verb == "OPTIONS" ==> r == PreflightOk && calls == []
    ensures verb == "GET" ==>
              && r == Catalogue(|AllEntries(FoldersToScan(query), store)|, DefaultFolders,
                                AllEntries(FoldersToScan(query), store))
              && calls == FolderReads(FoldersToScan(query), store)
    ensures verb != "OPTIONS" && verb != "GET" ==> r == Error(405, "Method not allowed") && calls == []
    ensures forall c :: c in calls ==> !IsWrite(c)
  {
    match RouteFor(verb, {"GET"})
    case Preflight =>
      r, calls := PreflightOk, [];
    case NotAllowed =>
      r, calls := Error(405, "Method not allowed"), [];
    case Serve =>
      var folders := FoldersToScan(query);
      var all, scan := Collect(folders, store);
      FolderReadsOnly(folders, store);
      r, calls := Catalogue(|all|, DefaultFolders, all), scan;
  }

  // ---------------------------------------------------------------------
  // Properties of the catalogue.
  // ---------------------------------------------------------------------

  /** Scanning one more folder appends that folder's catalogue. */
  lemma {:induction false} AllEntriesSnoc(a: seq<string>, k: string, store: Store)
    ensures AllEntries(a + [k], store) == AllEntries(a, store) + FolderEntries(k, store(k))
  {
    assert (a + [k])[..|a + [k]| - 1] == a;
  }

  /** The catalogue keeps folder order: it distributes over `+`. */
  lemma {:induction false} AllEntriesConcat(a: seq<string>, b: seq<string>, store: Store)
    ensures AllEntries(a + b, store) == AllEntries(a, store) + AllEntries(b, store)
    decreases |b|
  {
    if b == [] {
      assert a + b == a;
    } else {
      var b', k := b[..|b| - 1], b[|b| - 1];
      assert b == b' + [k];
      AllEntriesConcat(a, b', store);
      AllEntriesConcatStep(a, b', k, store);
    }
  }

  /** The inductive step of `AllEntriesConcat`: one more folder at the end. */
  lemma {:induction false} AllEntriesConcatStep(a: seq<string>, b: seq<string>, k: string, store: Store)
    requires AllEntries(a + b, store) == AllEntries(a, store) + AllEntries(b, store)
    ensures AllEntries(a + (b + [k]), store) == AllEntries(a, store) + AllEntries(b + [k], store)
  {
    var x, y, t := AllEntries(a, store), AllEntries(b, store), FolderEntries(k, store(k));
    assert a + (b + [k]) == (a + b) + [k];
    AllEntriesSnoc(a + b, k, store);
    AllEntriesSnoc(b, k, store);
    AppendAssoc(x, y, t);
  }

  /** A folder whose listing fails contributes nothing, and the folders
      after it are still catalogued. */
  lemma FailedFolderSkipped(a: seq<string>, k: string, b: seq<string>, store: Store)
    requires store(k).listing.None?
    ensures AllEntries(a + [k] + b, store) == AllEntries(a, store) + AllEntries(b, store)
  {
    assert FolderImages(store(k)) == [];
    assert FolderEntries(k, store(k)) == [];
    assert AllEntries([k], store) == AllEntries([k][..0], store) + FolderEntries(k, store(k));
    assert [k][..0] == [];
    AllEntriesConcat(a, [k], store);
    AllEntriesConcat(a + [k], b, store);
  }

  /** An entry describes an image file of a scanned folder whose listing
      succeeded, with its public URL. */
  predicate ListedImage(c: CatalogueEntry, folders: seq<string>, store: Store) {
    var d := store(c.folder);
    && c.folder in folders
    && d.listing.Some?
    && IsImageName(c.name)
    && (exists f :: f in d.listing.value && c == EntryFor(c.folder, d.metadata, f))
  }

  /** The catalogue holds exactly the entries of the image files of the
      scanned folders whose listing succeeded. */
  lemma {:induction false} CatalogueIsListedImages(folders: seq<string>, store: Store)
    ensures forall c :: c in AllEntries(folders, store) <==> ListedImage(c, folders, store)
  {
    if folders != [] {
      var init, k := folders[..|folders| - 1], folders[|folders| - 1];
      CatalogueIsListedImages(init, store);
      InLast(folders);
      var d := store(k);
      forall c ensures c in AllEntries(folders, store) <==> ListedImage(c, folders, store) {
        if c in FolderEntries(k, d) {
          var i :| 0 <= i < |FolderEntries(k, d)| && FolderEntries(k, d)[i] == c;
          assert FolderImages(d)[i] in FolderImages(d);
        }
        if ListedImage(c, folders, store) && c !in AllEntries(init, store) {
          assert c.folder == k;
          var f :| f in d.listing.value && c == EntryFor(k, d.metadata, f);
          assert f in FolderImages(d);
          var i :| 0 <= i < |FolderImages(d)| && FolderImages(d)[i] == f;
          assert FolderEntries(k, d)[i] == c;
        }
      }
    }
  }

  /** The catalogue of some folders has as many entries as the analytics
      report counts images over the same folders. */
  lemma {:induction false} CatalogueCountsLikeStats(folders: seq<string>, store: Store)
    ensures |AllEntries(folders, store)| == Stats.TotalImages(folders, store)
  {
    if folders != [] {
      CatalogueCountsLikeStats(folders[..|folders| - 1], store);
    }
  }
}
