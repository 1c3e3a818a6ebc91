/** What the handlers look at in a folder listing: which files are images
    or media, and the metadata entry recorded for a file. */
module Files {
  import opened Common
  import opened Seqs
  import opened Text

  /** `/\.(jpg|jpeg|png|gif|webp|svg)$/i.test(f.name)`. */
  predicate IsImageFile(f: FileItem) {
    IsImageName(f.name)
  }

  /** `/\.(jpg|...|svg|pdf|mp4|mov|webm|mp3|wav)$/i.test(f.name)`. */
  predicate IsMediaFile(f: FileItem) {
    IsMediaName(f.name)
  }

  /** The image files of a folder, in listing order; none when its listing
      failed. */
  function FolderImages(d: FolderData): seq<FileItem> {
    if d.listing.Some? then Filter(d.listing.value, IsImageFile) else []
  }

  /** `metadata[name]`, with a missing key read as a falsy value. */
  function EntryOf(meta: Metadata, name: string): MetaEntry {
    if name in meta then meta[name] else Falsy
  }

  /** The store reads of a pass over folders: each folder's listing, and its
      metadata sidecar when the listing succeeded. */
  function FolderReads(names: seq<string>, store: Store): seq<StoreCall> {
    if names == [] then []
    else
      var folder := names[|names| - 1];
      FolderReads(names[..|names| - 1], store) + [GetContent("public/" + folder)]
        + (if store(folder).listing.Some? then [GetContent(MetadataPath(folder))] else [])
  }

  /** Such a pass only reads: every call it issues is a GET. */
  lemma {:induction false} FolderReadsOnly(names: seq<string>, store: Store)
    ensures forall c :: c in FolderReads(names, store) ==> c.GetContent?
  {
    if names != [] {
      FolderReadsOnly(names[..|names| - 1], store);
    }
  }
}
