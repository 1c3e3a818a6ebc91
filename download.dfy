/** The download handler: the download and view links of every media file
    of one folder. */
module Download {
  import opened Common
  import opened Seqs
  import opened Text
  import opened Files
  import Images

  /** One element of the `files` array. */
  datatype Link = Link(name: string, downloadUrl: Option<string>, viewUrl: string, size: Option<nat>)

  datatype DownloadResponse =
    | PreflightOk
    | Links(folder: string, count: nat, files: seq<Link>)
    | Error(status: int, error: string)

  datatype Outcome = Outcome(calls: seq<StoreCall>, response: DownloadResponse)

  /** The link of one file of `folder`. */
  function LinkFor(folder: string, f: FileItem): (l: Link)
    ensures l.name == f.name && l.downloadUrl == f.downloadUrl && l.size == f.size
    ensures l.viewUrl == PublicUrl(folder, f.name)
  {
    Link(f.name, f.downloadUrl, PublicUrl(folder, f.name), f.size)
  }

  /** `mediaFiles.map(...)`. */
  function LinksFor(folder: string, files: seq<FileItem>): (r: seq<Link>)
    ensures |r| == |files|
    ensures forall i :: 0 <= i < |files| ==> r[i] == LinkFor(folder, files[i])
  {
    seq(|files|, i requires 0 <= i < |files| => LinkFor(folder, files[i]))
  }

  /** GET with a folder: 404 when the listing fails or holds no media file,
      otherwise the links of its media files. */
  function ListMedia(folder: string, listing: Reply<seq<FileItem>>): (r: DownloadResponse)
    ensures listing.Failed? ==> r == Error(404, "Folder not found")
    ensures listing.Ok? && Filter(listing.value, IsMediaFile) == [] ==> r == Error(404, "No files found in folder")
    ensures r.Links? ==> listing.Ok? && r.folder == folder && r.count == |r.files| > 0
    ensures r.Links? ==> r.files == LinksFor(folder, Filter(listing.value, IsMediaFile))
    ensures listing.Ok? && Filter(listing.value, IsMediaFile) != [] ==> r.Links?
  {
    match listing
    case Failed(_, _) => Error(404, "Folder not found")
    case Ok(files) =>
      var media := Filter(files, IsMediaFile);
      if |media| == 0 then Error(404, "No files found in folder")
      else
        var links := LinksFor(folder, media);
        Links(folder, |links|, links)
  }

  /** The handler: OPTIONS, GET, or 405; a GET without a folder gets 400
      before the store is read. */
  function Handle(verb: string, folder: Option<string>, listing: Reply<seq<FileItem>>): (r: Outcome)
    ensures verb == "OPTIONS" ==> r == Outcome([], PreflightOk)
    ensures verb != "OPTIONS" && verb != "GET" ==> r == Outcome([], Error(405, "Method not allowed"))
    ensures verb == "GET" && !Truthy(folder) ==> r == Outcome([], Error(400, "Folder parameter required"))
    ensures verb == "GET" && Truthy(folder) ==>
              r == Outcome([GetContent("public/" + folder.value)], ListMedia(folder.value, listing))
  {
    match RouteFor(verb, {"GET"})
    case Preflight => Outcome([], PreflightOk)
    case NotAllowed => Outcome([], Error(405, "Method not allowed"))
    case Serve =>
      if !Truthy(folder) then Outcome([], Error(400, "Folder parameter required"))
      else Outcome([GetContent("public/" + folder.value)], ListMedia(folder.value, listing))
  }

  /** A missing folder is answered without looking at the store: the
      outcome is the same whatever the listing would have been. */
  lemma MissingFolderIgnoresStore(verb: string, folder: Option<string>, l1: Reply<seq<FileItem>>, l2: Reply<seq<FileItem>>)
    requires !Truthy(folder)
    ensures Handle(verb, folder, l1) == Handle(verb, folder, l2)
    ensures Handle(verb, folder, l1).calls == []
  {
  }

  /** The links name exactly the media files of the listing, each with its
      view URL. */
  lemma {:induction false} LinksAreMedia(folder: string, files: seq<FileItem>)
    requires Filter(files, IsMediaFile) != []
    ensures var r := ListMedia(folder, Ok(files));
            && r.Links?
            && (forall l :: l in r.files <==>
                  exists f :: f in files && IsMediaName(f.name) && l == LinkFor(folder, f))
  {
    var media := Filter(files, IsMediaFile);
    var r := ListMedia(folder, Ok(files));
    forall l ensures l in r.files <==> exists f :: f in files && IsMediaName(f.name) && l == LinkFor(folder, f) {
      if l in r.files {
        var i :| 0 <= i < |r.files| && r.files[i] == l;
        assert media[i] in media;
      }
      if f :| f in files && IsMediaName(f.name) && l == LinkFor(folder, f) {
        assert f in media;
        var i :| 0 <= i < |media| && media[i] == f;
        assert r.files[i] == l;
      }
    }
  }

  /** Every image the catalogue lists for a folder can be downloaded from
      that folder: downloads take a superset of the image extensions. */
  lemma CatalogueImagesDownloadable(folder: string, files: seq<FileItem>, meta: Metadata)
    ensures var d := FolderData(Some(files), meta);
            forall c :: c in Images.FolderEntries(folder, d) ==>
              && ListMedia(folder, Ok(files)).Links?
              && exists l :: l in ListMedia(folder, Ok(files)).files && l.name == c.name && l.viewUrl == c.url
  {
    var d := FolderData(Some(files), meta);
    forall c | c in Images.FolderEntries(folder, d)
      ensures && ListMedia(folder, Ok(files)).Links?
              && exists l :: l in ListMedia(folder, Ok(files)).files && l.name == c.name && l.viewUrl == c.url
    {
      var images := FolderImages(d);
      var i :| 0 <= i < |images| && Images.FolderEntries(folder, d)[i] == c;
      var f := images[i];
      assert f in images;
      ImageIsMedia(f.name);
      assert f in Filter(files, IsMediaFile);
      LinksAreMedia(folder, files);
      assert LinkFor(folder, f) in ListMedia(folder, Ok(files)).files;
    }
  }
}
