/** The analytics handler: one pass over every folder that adds up image
    counts and sizes, counts tagged images and normalised tag tokens, and
    collects dated uploads; then the ten most recent uploads and the twenty
    most used tags. */
module Stats {
  import opened Common
  import opened Seqs
  import opened Text
  import opened Files
  import Folders

  datatype FolderStat = FolderStat(count: nat, size: nat)

  /** One element of `recentUploads`. */
  datatype Upload = Upload(name: string, folder: string, url: string, uploadedAt: int)

  /** One element of `topTags`. */
  datatype TagCount = TagCount(tag: string, count: nat)

  datatype Summary = Summary(totalImages: nat, totalSize: nat, totalTagged: nat,
                             percentTagged: nat, folderCount: nat)

  datatype Analytics = Analytics(summary: Summary, folders: map<string, FolderStat>,
                                 recentUploads: seq<Upload>, topTags: seq<TagCount>)

  const RecentLimit: nat := 10
  const TopTagLimit: nat := 20

  // ---------------------------------------------------------------------
  // What the pass computes, stated as functions of the folder names and the
  // store. Each is built by adding the last folder (or file) to the value
  // for the ones before it, in the order the handler visits them.
  // ---------------------------------------------------------------------

  /** `f.size || 0`. */
  function SizeOf(f: FileItem): nat {
    if f.size.Some? then f.size.value else 0
  }

  function SumSizes(files: seq<FileItem>): nat {
    if files == [] then 0 else SumSizes(files[..|files| - 1]) + SizeOf(files[|files| - 1])
  }

  predicate IsTagged(meta: Metadata, name: string) {
    var e := EntryOf(meta, name);
    e.Entry? && Truthy(e.tags)
  }

  /** The tag tokens one file contributes to the tag census. */
  function TokensOf(meta: Metadata, name: string): seq<string> {
    if IsTagged(meta, name) then NormalizeTags(EntryOf(meta, name).tags.value) else []
  }

  /** The upload record one file contributes, if its entry has a timestamp. */
  function UploadOf(folder: string, meta: Metadata, name: string): seq<Upload> {
    var e := EntryOf(meta, name);
    if e.Entry? && e.uploadedAt.Some? then [Upload(name, folder, PublicUrl(folder, name), e.uploadedAt.value)]
    else []
  }

  function TaggedIn(meta: Metadata, files: seq<FileItem>): nat {
    if files == [] then 0
    else TaggedIn(meta, files[..|files| - 1]) + (if IsTagged(meta, files[|files| - 1].name) then 1 else 0)
  }

  function TokensIn(meta: Metadata, files: seq<FileItem>): seq<string> {
    if files == [] then [] else TokensIn(meta, files[..|files| - 1]) + TokensOf(meta, files[|files| - 1].name)
  }

  function UploadsIn(folder: string, meta: Metadata, files: seq<FileItem>): seq<Upload> {
    if files == [] then []
    else UploadsIn(folder, meta, files[..|files| - 1]) + UploadOf(folder, meta, files[|files| - 1].name)
  }

  function TotalImages(names: seq<string>, store: Store): nat {
    if names == [] then 0
    else TotalImages(names[..|names| - 1], store) + |FolderImages(store(names[|names| - 1]))|
  }

  function TotalSize(names: seq<string>, store: Store): nat {
    if names == [] then 0
    else TotalSize(names[..|names| - 1], store) + SumSizes(FolderImages(store(names[|names| - 1])))
  }

  function TotalTagged(names: seq<string>, store: Store): nat {
    if names == [] then 0
    else
      var d := store(names[|names| - 1]);
      TotalTagged(names[..|names| - 1], store) + TaggedIn(d.metadata, FolderImages(d))
  }

  function AllTokens(names: seq<string>, store: Store): seq<string> {
    if names == [] then []
    else
      var d := store(names[|names| - 1]);
      AllTokens(names[..|names| - 1], store) + TokensIn(d.metadata, FolderImages(d))
  }

  function AllUploads(names: seq<string>, store: Store): seq<Upload> {
    if names == [] then []
    else
      var folder := names[|names| - 1];
      var d := store(folder);
      AllUploads(names[..|names| - 1], store) + UploadsIn(folder, d.metadata, FolderImages(d))
  }

  /** The per-folder statistics: every folder whose listing succeeded, the
      last visit winning for a name listed twice. */
  function FolderStats(names: seq<string>, store: Store): map<string, FolderStat> {
    if names == [] then map[]
    else
      var folder := names[|names| - 1];
      var d := store(folder);
      var m := FolderStats(names[..|names| - 1], store);
      if d.listing.None? then m
      else m[folder := FolderStat(|FolderImages(d)|, SumSizes(FolderImages(d)))]
  }

  /** `tagCounts[t] = (tagCounts[t] || 0) + 1`. */
  function Bump(m: map<string, nat>, t: string): map<string, nat> {
    m[t := (if t in m then m[t] else 0) + 1]
  }

  /** The tag census: the counts left by bumping every token in turn. */
  function Counts(toks: seq<string>): map<string, nat> {
    if toks == [] then map[] else Bump(Counts(toks[..|toks| - 1]), toks[|toks| - 1])
  }

  /** One more token bumps its count. */
  lemma CountsSnoc(toks: seq<string>, t: string)
    ensures Counts(toks + [t]) == Bump(Counts(toks), t)
  {
    assert (toks + [t])[..|toks + [t]| - 1] == toks;
  }

  /** `Math.round((tagged / total) * 100)`, or 0 without images: the
      percentage rounded half up. */
  function Percent(tagged: nat, total: nat): (p: nat)
    ensures total == 0 ==> p == 0
    ensures total > 0 ==> 2 * total * p <= 200 * tagged + total < 2 * total * (p + 1)
    ensures tagged <= total ==> p <= 100
  {
    if total == 0 then 0
    else
      var p := (200 * tagged + total) / (2 * total);
      DivBounds(200 * tagged + total, 2 * total);
      if tagged <= total then PercentAtMost(tagged, total); p else p
  }

  lemma DivBounds(x: nat, d: nat)
    requires d > 0
    ensures d * (x / d) <= x < d * (x / d + 1)
  {
    assert x == d * (x / d) + x % d;
  }

  lemma PercentAtMost(tagged: nat, total: nat)
    requires 0 < total && tagged <= total
    ensures (200 * tagged + total) / (2 * total) <= 100
  {
    var x, d := 200 * tagged + total, 2 * total;
    DivBounds(x, d);
    var q := x / d;
    if q > 100 {
      MulMono(d, 101, q);
    }
  }

  lemma MulMono(d: nat, a: nat, b: nat)
    requires a <= b
    ensures d * a <= d * b
  {
  }

  function UploadKey(u: Upload): int {
    u.uploadedAt
  }

  function TagKey(e: TagCount): int {
    e.count
  }

  /** `r` is what `Object.entries(counts).sort(by count desc).slice(0, n)`
      leaves: as many tags as fit, each once and with its count, by count
      non-increasing, and no tag left out more used than one kept. */
  ghost predicate IsTopTags(r: seq<TagCount>, counts: map<string, nat>, n: nat) {
    && |r| == Min(n, |counts|)
    && (forall i :: 0 <= i < |r| ==> r[i].tag in counts && r[i].count == counts[r[i].tag])
    && (forall i, j :: 0 <= i < j < |r| ==> r[i].tag != r[j].tag && r[i].count >= r[j].count)
    && (forall t :: t in counts && (forall i :: 0 <= i < |r| ==> r[i].tag != t) ==>
          forall i :: 0 <= i < |r| ==> counts[t] <= r[i].count)
  }

  // ---------------------------------------------------------------------
  // The pass itself.
  // ---------------------------------------------------------------------

  /** The handler's accumulators after some folders: the running totals,
      the folder statistics, the uploads seen, the tag census and the store
      reads issued. */
  datatype Pass = Pass(totalImages: nat, totalSize: nat, totalTagged: nat,
                       folderStats: map<string, FolderStat>, uploads: seq<Upload>,
                       tagCounts: map<string, nat>, scan: seq<StoreCall>)

  /** The accumulators the handler holds after visiting `names`. */
  function PassAfter(names: seq<string>, store: Store): Pass {
    Pass(TotalImages(names, store), TotalSize(names, store), TotalTagged(names, store),
         FolderStats(names, store), AllUploads(names, store), Counts(AllTokens(names, store)),
         FolderReads(names, store))
  }

  /** `Object.entries` of the tag counts, in an order the model leaves open. */
  method Entries(m: map<string, nat>) returns (es: seq<TagCount>)
    ensures |es| == |m|
    ensures forall i :: 0 <= i < |es| ==> es[i].tag in m && es[i].count == m[es[i].tag]
    ensures forall i, j :: 0 <= i < j < |es| ==> es[i].tag != es[j].tag
    ensures forall t :: t in m ==> TagCount(t, m[t]) in es
  {
    es := [];
    var rest := m.Keys;
    while rest != {}
      invariant rest <= m.Keys
      invariant |es| + |rest| == |m|
      invariant forall i :: 0 <= i < |es| ==> es[i].tag in m && es[i].tag !in rest && es[i].count == m[es[i].tag]
      invariant forall i, j :: 0 <= i < j < |es| ==> es[i].tag != es[j].tag
      invariant forall t :: t in m && t !in rest ==> TagCount(t, m[t]) in es
      decreases |rest|
    {
      var t :| t in rest;
      es := es + [TagCount(t, m[t])];
      rest := rest - {t};
    }
  }

  /** `meta.tags.split(',').forEach(...)`: bumps every non-empty normalised
      piece of one file's tags. */
  method CountTags(counts: map<string, nat>, ghost seen: seq<string>, tags: string)
    returns (counts': map<string, nat>)
    requires counts == Counts(seen)
    ensures counts' == Counts(seen + NormalizeTags(tags))
  {
    var pieces := Split(tags);
    counts' := counts;
    assert seen + NormalizePieces(pieces[..0]) == seen;
    for k := 0 to |pieces|
      invariant counts' == Counts(seen + NormalizePieces(pieces[..k]))
    {
      var t := Lower(Trim(pieces[k]));
      ghost var done := NormalizePieces(pieces[..k]);
      assert pieces[..k + 1] == pieces[..k] + [pieces[k]];
      NormalizePiecesSnoc(pieces[..k], pieces[k]);
      if t != "" {
        AppendAssoc(seen, done, [t]);
        CountsSnoc(seen + done, t);
        counts' := Bump(counts', t);
      } else {
        assert done + [] == done;
      }
    }
    assert pieces[..|pieces|] == pieces;
  }

  /** The body of `images.forEach(...)` for one image. */
  method ScanImage(folder: string, meta: Metadata, img: FileItem,
                   tagged: nat, counts: map<string, nat>, ghost seen: seq<string>, recent: seq<Upload>)
    returns (tagged': nat, counts': map<string, nat>, recent': seq<Upload>)
    requires counts == Counts(seen)
    ensures tagged' == tagged + (if IsTagged(meta, img.name) then 1 else 0)
    ensures counts' == Counts(seen + TokensOf(meta, img.name))
    ensures recent' == recent + UploadOf(folder, meta, img.name)
  {
    tagged', counts', recent' := tagged, counts, recent;
    var entry := if img.name in meta then meta[img.name] else Falsy;
    if entry.Entry? {
      if Truthy(entry.tags) {
        tagged' := tagged' + 1;
        counts' := CountTags(counts', seen, entry.tags.value);
      }
      if entry.uploadedAt.Some? {
        recent' := recent' + [Upload(img.name, folder, PublicUrl(folder, img.name), entry.uploadedAt.value)];
      }
    }
    assert seen + [] == seen && recent + [] == recent;
  }

  /** `images.forEach(...)` over one folder. */
  method ScanImages(folder: string, meta: Metadata, images: seq<FileItem>,
                    tagged: nat, counts: map<string, nat>, ghost seen: seq<string>, recent: seq<Upload>)
    returns (tagged': nat, counts': map<string, nat>, recent': seq<Upload>)
    requires counts == Counts(seen)
    ensures tagged' == tagged + TaggedIn(meta, images)
    ensures counts' == Counts(seen + TokensIn(meta, images))
    ensures recent' == recent + UploadsIn(folder, meta, images)
  {
    tagged', counts', recent' := tagged, counts, recent;
    assert seen + TokensIn(meta, images[..0]) == seen;
    assert recent + UploadsIn(folder, meta, images[..0]) == recent;
    for j := 0 to |images|
      invariant tagged' == tagged + TaggedIn(meta, images[..j])
      invariant counts' == Counts(seen + TokensIn(meta, images[..j]))
      invariant recent' == recent + UploadsIn(folder, meta, images[..j])
    {
      ImageStep(folder, meta, images, j, seen, recent);
      tagged', counts', recent' :=
        ScanImage(folder, meta, images[j], tagged', counts', seen + TokensIn(meta, images[..j]), recent');
    }
    assert images[..|images|] == images;
  }

  /** How each per-folder function grows by one image. */
  lemma ImageStep(folder: string, meta: Metadata, images: seq<FileItem>, j: nat,
                  seen: seq<string>, recent: seq<Upload>)
    requires j < |images|
    ensures TaggedIn(meta, images[..j + 1]) == TaggedIn(meta, images[..j]) + (if IsTagged(meta, images[j].name) then 1 else 0)
    ensures seen + TokensIn(meta, images[..j + 1]) == seen + TokensIn(meta, images[..j]) + TokensOf(meta, images[j].name)
    ensures recent + UploadsIn(folder, meta, images[..j + 1])
            == recent + UploadsIn(folder, meta, images[..j]) + UploadOf(folder, meta, images[j].name)
  {
    assert images[..j + 1][..j] == images[..j];
    assert images[..j + 1][j] == images[j];
  }

  /** How one folder moves the accumulators on, given the tokens seen
      before it: a failed listing only adds its read; otherwise the folder's
      images are added to every accumulator. */
  function Advance(p: Pass, toks: seq<string>, folder: string, d: FolderData): Pass {
    var scan := p.scan + [GetContent("public/" + folder)];
    if d.listing.None? then p.(scan := scan)
    else
      var images := FolderImages(d);
      Pass(p.totalImages + |images|, p.totalSize + SumSizes(images),
           p.totalTagged + TaggedIn(d.metadata, images),
           p.folderStats[folder := FolderStat(|images|, SumSizes(images))],
           p.uploads + UploadsIn(folder, d.metadata, images),
           Counts(toks + TokensIn(d.metadata, images)),
           scan + [GetContent(MetadataPath(folder))])
  }

  /** The accumulators after the last folder of `names` are those
      `Advance` gives from the accumulators before it. */
  lemma PassStep(names: seq<string>, store: Store)
    requires names != []
    ensures var done, folder := names[..|names| - 1], names[|names| - 1];
            && PassAfter(names, store) == Advance(PassAfter(done, store), AllTokens(done, store), folder, store(folder))
            && AllTokens(names, store)
               == AllTokens(done, store) + TokensIn(store(folder).metadata, FolderImages(store(folder)))
  {
    if store(names[|names| - 1]).listing.None? {
      PassStepFailed(names, store);
    }
  }

  /** The case of `PassStep` where the last listing failed. */
  lemma PassStepFailed(names: seq<string>, store: Store)
    requires names != [] && store(names[|names| - 1]).listing.None?
    ensures var done, folder := names[..|names| - 1], names[|names| - 1];
            PassAfter(names, store) == PassAfter(done, store).(scan := FolderReads(done, store) + [GetContent("public/" + folder)])
  {
    var done, folder := names[..|names| - 1], names[|names| - 1];
    var d := store(folder);
    assert FolderImages(d) == [];
    assert AllTokens(done, store) + TokensIn(d.metadata, []) == AllTokens(done, store);
    assert AllUploads(done, store) + UploadsIn(folder, d.metadata, []) == AllUploads(done, store);
  }

  /** `PassStep` for a folder appended to the names visited so far. */
  lemma PassSnoc(done: seq<string>, folder: string, store: Store)
    ensures PassAfter(done + [folder], store) == Advance(PassAfter(done, store), AllTokens(done, store), folder, store(folder))
  {
    PassStep(done + [folder], store);
    assert (done + [folder])[..|done + [folder]| - 1] == done;
  }

  /** One turn of the folder loop: a failed listing is skipped after its
      read; otherwise the folder's images are added to every accumulator. */
  method VisitFolder(p: Pass, ghost done: seq<string>, folder: string, store: Store) returns (p': Pass)
    requires p == PassAfter(done, store)
    ensures p' == PassAfter(done + [folder], store)
  {
    PassSnoc(done, folder, store);
    var data := store(folder);
    if data.listing.None? {
      p' := p.(scan := p.scan + [GetContent("public/" + folder)]);
    } else {
      p' := VisitListed(p, AllTokens(done, store), folder, data);
    }
  }

  /** The turn of the folder loop for a folder whose listing succeeded. */
  method VisitListed(p: Pass, ghost toks: seq<string>, folder: string, data: FolderData) returns (p': Pass)
    requires data.listing.Some? && p.tagCounts == Counts(toks)
    ensures p' == Advance(p, toks, folder, data)
  {
    var scan := p.scan + [GetContent("public/" + folder)] + [GetContent(MetadataPath(folder))];
    var images := Filter(data.listing.value, IsImageFile);
    var stat := FolderStat(|images|, SumSizes(images));
    var tagged, counts, uploads :=
      ScanImages(folder, data.metadata, images, p.totalTagged, p.tagCounts, toks, p.uploads);
    p' := Pass(p.totalImages + stat.count, p.totalSize + stat.size, tagged,
               p.folderStats[folder := stat], uploads, counts, scan);
  }

  /** `recentUploads.sort(newest first).slice(0, 10)`. */
  method RecentOf(uploads: seq<Upload>) returns (r: seq<Upload>)
    ensures IsTopN(r, uploads, RecentLimit, UploadKey)
  {
    var sorted := SortDesc(uploads, UploadKey);
    TopPrefix(sorted, uploads, RecentLimit, UploadKey);
    r := sorted[..Min(RecentLimit, |sorted|)];
  }

  /** `Object.entries(tagCounts).sort(by count desc).slice(0, 20)`. */
  method TopTagsOf(counts: map<string, nat>) returns (r: seq<TagCount>)
    ensures IsTopTags(r, counts, TopTagLimit)
  {
    var entries := Entries(counts);
    var sorted := SortDesc(entries, TagKey);
    TopPrefix(sorted, entries, TopTagLimit, TagKey);
    r := sorted[..Min(TopTagLimit, |sorted|)];
    TopEntries(r, entries, counts, TopTagLimit);
  }

  /** What the GET report over `names` must be: the totals, the percentage
      and the folder count, the per-folder statistics, the ten newest of all
      dated uploads and the twenty most used tags of the census. */
  ghost predicate IsReport(r: Analytics, names: seq<string>, store: Store) {
    && r.summary == Summary(TotalImages(names, store), TotalSize(names, store), TotalTagged(names, store),
                            Percent(TotalTagged(names, store), TotalImages(names, store)), |names|)
    && r.folders == FolderStats(names, store)
    && IsTopN(r.recentUploads, AllUploads(names, store), RecentLimit, UploadKey)
    && IsTopTags(r.topTags, Counts(AllTokens(names, store)), TopTagLimit)
  }

  /** The GET pass over the folder names of the `public` listing. */
  method Aggregate(names: seq<string>, store: Store) returns (r: Analytics, scan: seq<StoreCall>)
    ensures IsReport(r, names, store)
    ensures scan == FolderReads(names, store)
  {
    var p := Pass(0, 0, 0, map[], [], map[], []);
    assert p == PassAfter(names[..0], store);
    for i := 0 to |names|
      invariant p == PassAfter(names[..i], store)
    {
      assert names[..i + 1] == names[..i] + [names[i]];
      p := VisitFolder(p, names[..i], names[i], store);
    }
    assert names[..|names|] == names;
    r := BuildReport(p, names, store);
    scan := p.scan;
  }

  /** The report built from the accumulators after the last folder. */
  method BuildReport(p: Pass, names: seq<string>, store: Store) returns (r: Analytics)
    requires p == PassAfter(names, store)
    ensures IsReport(r, names, store)
  {
    var recent := RecentOf(p.uploads);
    var topTags := TopTagsOf(p.tagCounts);
    r := Analytics(Summary(p.totalImages, p.totalSize, p.totalTagged, Percent(p.totalTagged, p.totalImages), |names|),
                   p.folderStats, recent, topTags);
  }

  /** Every kept entry is one of the census's tags with its count. */
  lemma TopEntriesCounts(top: seq<TagCount>, es: seq<TagCount>, m: map<string, nat>)
    requires forall i :: 0 <= i < |es| ==> es[i].tag in m && es[i].count == m[es[i].tag]
    requires multiset(top) <= multiset(es)
    ensures forall i :: 0 <= i < |top| ==> top[i].tag in m && top[i].count == m[top[i].tag]
  {
    forall i | 0 <= i < |top| ensures top[i].tag in m && top[i].count == m[top[i].tag] {
      assert top[i] in multiset(top);
      assert top[i] in es;
    }
  }

  /** A tag of the census that was not kept is used no more than any kept one. */
  lemma TopEntriesLeftOut(top: seq<TagCount>, es: seq<TagCount>, m: map<string, nat>, t: string)
    requires t in m && TagCount(t, m[t]) in es
    requires forall i :: 0 <= i < |top| ==> top[i].tag != t
    requires forall x, y :: x in multiset(es) - multiset(top) && y in top ==> TagKey(x) <= TagKey(y)
    ensures forall i :: 0 <= i < |top| ==> m[t] <= top[i].count
  {
    var x := TagCount(t, m[t]);
    assert x !in top;
    assert x in multiset(es) - multiset(top);
    forall i | 0 <= i < |top| ensures m[t] <= top[i].count {
      assert top[i] in top;
      assert TagKey(x) <= TagKey(top[i]);
    }
  }

  /** The top of the sorted entries is the top of the census. */
  lemma TopEntries(top: seq<TagCount>, es: seq<TagCount>, m: map<string, nat>, n: nat)
    requires |es| == |m|
    requires forall i :: 0 <= i < |es| ==> es[i].tag in m && es[i].count == m[es[i].tag]
    requires forall i, j :: 0 <= i < j < |es| ==> es[i].tag != es[j].tag
    requires forall t :: t in m ==> TagCount(t, m[t]) in es
    requires IsTopN(top, es, n, TagKey)
    ensures IsTopTags(top, m, n)
  {
    assert Distinct(es);
    DistinctSub(top, es);
    TopEntriesCounts(top, es, m);
    forall t | t in m && (forall i :: 0 <= i < |top| ==> top[i].tag != t)
      ensures forall i :: 0 <= i < |top| ==> m[t] <= top[i].count
    {
      TopEntriesLeftOut(top, es, m, t);
    }
  }

  datatype StatsResponse =
    | PreflightOk
    | Report(analytics: Analytics)
    | Tracked
    | ServerError
    | Error(status: int, error: string)

  /** The handler. GET reads the `public` listing (a failed one is not an
      array, so the handler fails with 500) and aggregates its directories;
      POST only acknowledges; other methods get 405. */
  method Handle(verb: string, root: Reply<seq<Folders.Item>>, store: Store)
    returns (r: StatsResponse, calls: seq<StoreCall>)
    ensures verb == "OPTIONS" ==> r == PreflightOk && calls == []
    ensures verb == "GET" && root.Failed? ==> r == ServerError && calls == [GetContent("public")]
    ensures verb == "GET" && root.Ok? ==>
              && r.Report? && IsReport(r.analytics, Folders.DirNames(root.value), store)
              && calls == [GetContent("public")] + FolderReads(Folders.DirNames(root.value), store)
    ensures verb == "POST" ==> r == Tracked && calls == []
    ensures verb !in {"OPTIONS", "GET", "POST"} ==> r == Error(405, "Method not allowed") && calls == []
    ensures forall c :: c in calls ==> !IsWrite(c)
  {
    match RouteFor(verb, {"GET", "POST"})
    case Preflight =>
      r, calls := PreflightOk, [];
    case NotAllowed =>
      r, calls := Error(405, "Method not allowed"), [];
    case Serve =>
      if verb == "POST" {
        r, calls := Tracked, [];
      } else if root.Failed? {
        r, calls := ServerError, [GetContent("public")];
      } else {
        var names := Folders.DirNames(root.value);
        var analytics, scan := Aggregate(names, store);
        FolderReadsOnly(names, store);
        r, calls := Report(analytics), [GetContent("public")] + scan;
      }
  }

  // ---------------------------------------------------------------------
  // Properties of the report.
  // ---------------------------------------------------------------------

  lemma {:induction false} TaggedInAtMost(meta: Metadata, files: seq<FileItem>)
    ensures TaggedIn(meta, files) <= |files|
  {
    if files != [] {
      TaggedInAtMost(meta, files[..|files| - 1]);
    }
  }

  /** No more images are tagged than there are images, so the percentage
      never exceeds 100. */
  lemma {:induction false} TaggedAtMostImages(names: seq<string>, store: Store)
    ensures TotalTagged(names, store) <= TotalImages(names, store)
    ensures Percent(TotalTagged(names, store), TotalImages(names, store)) <= 100
  {
    if names != [] {
      TaggedAtMostImages(names[..|names| - 1], store);
      var d := store(names[|names| - 1]);
      TaggedInAtMost(d.metadata, FolderImages(d));
    }
  }

  /** A folder has statistics exactly when it was listed and its listing
      succeeded, and they are its image count and image bytes; a folder whose
      listing failed still counts in `folderCount`. */
  lemma {:induction false} FolderStatsAre(names: seq<string>, store: Store)
    ensures forall k :: k in FolderStats(names, store) <==> k in names && store(k).listing.Some?
    ensures forall k :: k in FolderStats(names, store) ==>
              FolderStats(names, store)[k] == FolderStat(|FolderImages(store(k))|, SumSizes(FolderImages(store(k))))
  {
    if names != [] {
      var init := names[..|names| - 1];
      FolderStatsAre(init, store);
      assert names == init + [names[|names| - 1]];
    }
  }

  /** Adds up a statistic over the folders of `keys` that have statistics. */
  function SumOver(keys: seq<string>, m: map<string, FolderStat>, field: FolderStat -> nat): nat {
    if keys == [] then 0
    else
      var k := keys[|keys| - 1];
      SumOver(keys[..|keys| - 1], m, field) + (if k in m then field(m[k]) else 0)
  }

  lemma {:induction false} SumOverUpdate(keys: seq<string>, m: map<string, FolderStat>, k: string, v: FolderStat,
                                         field: FolderStat -> nat)
    requires k !in keys
    ensures SumOver(keys, m[k := v], field) == SumOver(keys, m, field)
  {
    if keys != [] {
      SumOverUpdate(keys[..|keys| - 1], m, k, v, field);
    }
  }

  lemma {:induction false} SumOverKept(keys: seq<string>, m: map<string, FolderStat>, k: string, field: FolderStat -> nat)
    requires k !in m
    ensures SumOver(keys + [k], m, field) == SumOver(keys, m, field)
  {
    assert (keys + [k])[..|keys + [k]| - 1] == keys;
  }

  function CountOf(s: FolderStat): nat { s.count }

  function SizeOfStat(s: FolderStat): nat { s.size }

  /** When no folder is listed twice, the summary totals are the sums of the
      per-folder statistics. */
  lemma {:induction false} TotalsAreSums(names: seq<string>, store: Store)
    requires Distinct(names)
    ensures TotalImages(names, store) == SumOver(names, FolderStats(names, store), CountOf)
    ensures TotalSize(names, store) == SumOver(names, FolderStats(names, store), SizeOfStat)
  {
    if names != [] {
      var init, k := names[..|names| - 1], names[|names| - 1];
      assert Distinct(init);
      assert k !in init;
      assert names == init + [k];
      TotalsAreSums(init, store);
      FolderStatsAre(init, store);
      var m := FolderStats(init, store);
      assert k !in m;
      var d := store(k);
      if d.listing.Some? {
        var v := FolderStat(|FolderImages(d)|, SumSizes(FolderImages(d)));
        SumOverUpdate(init, m, k, v, CountOf);
        SumOverUpdate(init, m, k, v, SizeOfStat);
      } else {
        SumOverKept(init, m, k, CountOf);
        SumOverKept(init, m, k, SizeOfStat);
      }
    }
  }

  /** A file of a folder contributes an upload exactly when it is one of
      the folder's image files (`FolderImages`: the image files of a
      successful listing) and its metadata entry carries a timestamp. */
  predicate UploadFrom(u: Upload, names: seq<string>, store: Store) {
    var d := store(u.folder);
    var e := EntryOf(d.metadata, u.name);
    && u.folder in names
    && (exists f :: f in FolderImages(d) && f.name == u.name)
    && e.Entry? && e.uploadedAt == Some(u.uploadedAt)
    && u.url == PublicUrl(u.folder, u.name)
  }

  lemma {:induction false} UploadsInAre(folder: string, meta: Metadata, files: seq<FileItem>)
    ensures forall u :: u in UploadsIn(folder, meta, files) <==> exists f :: f in files && u in UploadOf(folder, meta, f.name)
  {
    if files != [] {
      var init := files[..|files| - 1];
      UploadsInAre(folder, meta, init);
      assert files == init + [files[|files| - 1]];
    }
  }

  /** The recent-uploads pool holds exactly the dated images of the folders
      whose listing succeeded. */
  lemma {:induction false} UploadsAreDatedImages(names: seq<string>, store: Store)
    ensures forall u :: u in AllUploads(names, store) <==> UploadFrom(u, names, store)
  {
    if names != [] {
      UploadsAreDatedImages(names[..|names| - 1], store);
      forall u ensures u in AllUploads(names, store) <==> UploadFrom(u, names, store) {
        UploadFromLast(u, names, store);
      }
    }
  }

  /** What an upload record of one file holds. */
  lemma UploadOfMember(u: Upload, folder: string, meta: Metadata, name: string)
    requires u in UploadOf(folder, meta, name)
    ensures u.folder == folder && u.name == name && u.url == PublicUrl(folder, name)
    ensures EntryOf(meta, name).Entry? && EntryOf(meta, name).uploadedAt == Some(u.uploadedAt)
  {
  }

  /** A file whose entry carries the record's timestamp yields that record. */
  lemma UploadOfHas(u: Upload, folder: string, meta: Metadata, name: string)
    requires u.folder == folder && u.name == name && u.url == PublicUrl(folder, name)
    requires EntryOf(meta, name).Entry? && EntryOf(meta, name).uploadedAt == Some(u.uploadedAt)
    ensures u in UploadOf(folder, meta, name)
  {
  }

  /** The step of `UploadsAreDatedImages` for one upload and the last
      folder. */
  lemma UploadFromLast(u: Upload, names: seq<string>, store: Store)
    requires names != []
    requires u in AllUploads(names[..|names| - 1], store) <==> UploadFrom(u, names[..|names| - 1], store)
    ensures u in AllUploads(names, store) <==> UploadFrom(u, names, store)
  {
    var init, k := names[..|names| - 1], names[|names| - 1];
    var d := store(k);
    InLast(names);
    assert AllUploads(names, store) == AllUploads(init, store) + UploadsIn(k, d.metadata, FolderImages(d));
    if u in UploadsIn(k, d.metadata, FolderImages(d)) {
      UploadsInAreFrom(u, k, names, store);
    }
    if UploadFrom(u, names, store) && u.folder == k {
      UploadFromIsIn(u, k, store);
    }
  }

  /** A record of the folder's uploads comes from one of its files. */
  lemma UploadsInAreFrom(u: Upload, k: string, names: seq<string>, store: Store)
    requires k in names
    requires u in UploadsIn(k, store(k).metadata, FolderImages(store(k)))
    ensures UploadFrom(u, names, store)
  {
    var meta, images := store(k).metadata, FolderImages(store(k));
    UploadsInAre(k, meta, images);
    var f :| f in images && u in UploadOf(k, meta, f.name);
    UploadOfMember(u, k, meta, f.name);
  }

  /** A dated image of the folder is among the folder's uploads. */
  lemma UploadFromIsIn(u: Upload, k: string, store: Store)
    requires u.folder == k && UploadFrom(u, [k], store)
    ensures u in UploadsIn(k, store(k).metadata, FolderImages(store(k)))
  {
    var meta, images := store(k).metadata, FolderImages(store(k));
    UploadsInAre(k, meta, images);
    var f :| f in images && f.name == u.name;
    UploadOfHas(u, k, meta, f.name);
  }

  /** Every counted token is trimmed, lower-cased and non-empty. */
  lemma {:induction false} TokensAreNormal(names: seq<string>, store: Store)
    ensures forall t :: t in AllTokens(names, store) ==> IsNormalToken(t)
  {
    if names != [] {
      TokensAreNormal(names[..|names| - 1], store);
      var d := store(names[|names| - 1]);
      TokensInAreNormal(d.metadata, FolderImages(d));
    }
  }

  lemma {:induction false} TokensInAreNormal(meta: Metadata, files: seq<FileItem>)
    ensures forall t :: t in TokensIn(meta, files) ==> IsNormalToken(t)
  {
    if files != [] {
      TokensInAreNormal(meta, files[..|files| - 1]);
      var name := files[|files| - 1].name;
      if IsTagged(meta, name) {
        NormalizeTagsAreNormal(EntryOf(meta, name).tags.value);
      }
    }
  }

  /** The census holds exactly the tokens seen, each with the number of
      times it was seen. */
  lemma {:induction false} CountsAreMultiplicities(toks: seq<string>)
    ensures forall t :: t in Counts(toks) <==> t in toks
    ensures forall t :: t in Counts(toks) ==> Counts(toks)[t] == multiset(toks)[t]
  {
    if toks != [] {
      var init := toks[..|toks| - 1];
      CountsAreMultiplicities(init);
      assert toks == init + [toks[|toks| - 1]];
    }
  }

  /** The reported tags are normal tokens, and each count is the number of
      times that token occurs over all tagged images. */
  lemma TopTagsAreTokenCounts(r: Analytics, names: seq<string>, store: Store)
    requires IsReport(r, names, store)
    ensures forall i :: 0 <= i < |r.topTags| ==>
              && IsNormalToken(r.topTags[i].tag)
              && r.topTags[i].count == multiset(AllTokens(names, store))[r.topTags[i].tag]
  {
    CountsAreMultiplicities(AllTokens(names, store));
    TokensAreNormal(names, store);
  }

  /** The report depends only on the image files, their metadata and which
      listings succeeded: other files change nothing. */
  lemma {:induction false} OnlyImagesMatter(names: seq<string>, s1: Store, s2: Store)
    requires forall n :: n in names ==>
               && FolderImages(s1(n)) == FolderImages(s2(n))
               && s1(n).metadata == s2(n).metadata
               && s1(n).listing.Some? == s2(n).listing.Some?
    ensures AllTokens(names, s1) == AllTokens(names, s2)
    ensures PassAfter(names, s1) == PassAfter(names, s2)
  {
    if names != [] {
      var init, k := names[..|names| - 1], names[|names| - 1];
      assert forall n :: n in init ==> n in names;
      OnlyImagesMatter(init, s1, s2);
      assert k in names;
      PassStep(names, s1);
      PassStep(names, s2);
      AdvanceOnlyImages(PassAfter(init, s1), AllTokens(init, s1), k, s1(k), s2(k));
    }
  }

  /** `Advance` looks only at the folder's images, its metadata and
      whether its listing succeeded. */
  lemma AdvanceOnlyImages(p: Pass, toks: seq<string>, folder: string, d1: FolderData, d2: FolderData)
    requires FolderImages(d1) == FolderImages(d2) && d1.metadata == d2.metadata
    requires d1.listing.Some? == d2.listing.Some?
    ensures Advance(p, toks, folder, d1) == Advance(p, toks, folder, d2)
  {
  }
}
