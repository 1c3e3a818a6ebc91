/** The metadata handler: records the tags and description of one file in
    its folder's `metadata.json`, replacing the file's previous entry. */
module MetadataApi {
  import opened Common
  import opened Text
  import Images
  import Stats

  /** The fields of the request body (each absent or a string). */
  datatype MetaRequest = MetaRequest(folder: Option<string>, filename: Option<string>,
                                     tags: Option<string>, description: Option<string>)

  datatype MetaResponse =
    | PreflightOk
    | Saved(filename: string, tags: Option<string>, description: Option<string>)
    | Error(status: int, error: string)

  /** The entry written for a file: its tags and description, `null` when
      empty, the time of the request, and no upload time. */
  function NewEntry(tags: Option<string>, description: Option<string>, now: int): (e: MetaEntry)
    ensures e.Entry? && e.uploadedAt == None && e.updatedAt == Some(now)
    ensures e.tags.Some? <==> Truthy(tags)
    ensures e.tags.Some? ==> e.tags == tags
    ensures e.description.Some? <==> Truthy(description)
    ensures e.description.Some? ==> e.description == description
  {
    Entry(OrNull(tags), OrNull(description), None, Some(now))
  }

  /** The map the handler starts from: the parsed sidecar, or an empty map
      when it could not be read or parsed. */
  function BaseOf(read: MetaRead): Metadata {
    if read.ReadOk? && read.parsed.Some? then read.parsed.value else map[]
  }

  /** The version token the write carries: the one read, when non-empty;
      none otherwise, which creates the sidecar. A token read before a body
      that fails to parse is still sent. */
  function ShaOf(read: MetaRead): (s: Option<string>)
    ensures s.Some? <==> read.ReadOk? && read.sha != ""
    ensures s.Some? ==> s.value == read.sha
  {
    if read.ReadOk? && read.sha != "" then Some(read.sha) else None
  }

  /** The handler. A POST with a folder and a filename reads the sidecar,
      replaces the file's entry and writes the whole map back. */
  method Handle(verb: string, req: MetaRequest, read: MetaRead, put: Reply<()>, now: int)
    returns (r: MetaResponse, calls: seq<StoreCall>)
    ensures verb == "OPTIONS" ==> r == PreflightOk && calls == []
    ensures verb != "OPTIONS" && verb != "POST" ==> r == Error(405, "Method not allowed") && calls == []
    ensures verb == "POST" && !(Truthy(req.folder) && Truthy(req.filename)) ==>
              r == Error(400, "Missing folder or filename") && calls == []
    ensures verb == "POST" && Truthy(req.folder) && Truthy(req.filename) ==>
              var path, fn := MetadataPath(req.folder.value), req.filename.value;
              && |calls| == 2
              && calls[0] == GetContent(path)
              && calls[1] == PutContent(path, "Update metadata for " + fn,
                                        MetadataJson(BaseOf(read)[fn := NewEntry(req.tags, req.description, now)]),
                                        ShaOf(read))
              && (put.Ok? ==> r == Saved(fn, req.tags, req.description))
              && (put.Failed? ==> r == Error(put.status, put.message))
  {
    if verb == "OPTIONS" {
      return PreflightOk, [];
    }
    if verb != "POST" {
      return Error(405, "Method not allowed"), [];
    }
    if !Truthy(req.folder) || !Truthy(req.filename) {
      return Error(400, "Missing folder or filename"), [];
    }
    var folder, filename := req.folder.value, req.filename.value;
    var metadataPath := MetadataPath(folder);
    var metadata: Metadata := map[];
    var sha: string := "";
    calls := [GetContent(metadataPath)];
    if read.ReadOk? {
      sha := read.sha;
      if read.parsed.Some? {
        metadata := read.parsed.value;
      }
    }
    metadata := metadata[filename := Entry(OrNull(req.tags), OrNull(req.description), None, Some(now))];
    var shaField: Option<string> := None;
    if sha != "" {
      shaField := Some(sha);
    }
    calls := calls + [PutContent(metadataPath, "Update metadata for " + filename, MetadataJson(metadata), shaField)];
    if put.Failed? {
      return Error(put.status, put.message), calls;
    }
    r := Saved(filename, req.tags, req.description);
  }

  /** The written map replaces the file's entry and keeps every other entry
      of the base as it was. */
  lemma UpdateKeepsOthers(base: Metadata, fn: string, e: MetaEntry)
    ensures fn in base[fn := e] && base[fn := e][fn] == e
    ensures forall k :: k != fn ==> (k in base[fn := e] <==> k in base)
    ensures forall k :: k != fn && k in base ==> base[fn := e][k] == base[k]
  {
  }

  /** A retried request, made at a later time `later`, whose read returns
      the map the first request wrote (under any version token), writes
      back the same keys: every other file's entry as it was, and the
      file's entry re-stamped with the retry's time and otherwise as the
      first request wrote it. */
  lemma RetryRestampsEntry(read: MetaRead, sha: string, fn: string, tags: Option<string>,
                           description: Option<string>, now: int, later: int)
    ensures var first := BaseOf(read)[fn := NewEntry(tags, description, now)];
            var second := BaseOf(ReadOk(sha, Some(first)))[fn := NewEntry(tags, description, later)];
            && second.Keys == first.Keys
            && (forall k :: k in first && k != fn ==> second[k] == first[k])
            && second[fn] == first[fn].(updatedAt := Some(later))
            && (second == first <==> now == later)
  {
    var first := BaseOf(read)[fn := NewEntry(tags, description, now)];
    var second := BaseOf(ReadOk(sha, Some(first)))[fn := NewEntry(tags, description, later)];
    if second == first {
      assert second[fn] == first[fn];
    }
  }

  /** The catalogue reads back what was written: the file's tags and
      description as sent (or `null` when empty), and no upload time. */
  lemma CatalogueReadsBack(folder: string, read: MetaRead, f: FileItem, tags: Option<string>,
                           description: Option<string>, now: int)
    ensures var c := Images.EntryFor(folder, BaseOf(read)[f.name := NewEntry(tags, description, now)], f);
            && c.tags == OrNull(tags) && c.description == OrNull(description) && c.uploadedAt == None
  {
  }

  /** The analytics read back what was written: the file counts as tagged
      exactly when tags were sent, its tokens are those of the tags, and it
      no longer counts as an upload, whatever upload time it had. */
  lemma StatsReadBack(folder: string, read: MetaRead, fn: string, tags: Option<string>,
                      description: Option<string>, now: int)
    ensures var m := BaseOf(read)[fn := NewEntry(tags, description, now)];
            && (Stats.IsTagged(m, fn) <==> Truthy(tags))
            && (Truthy(tags) ==> Stats.TokensOf(m, fn) == NormalizeTags(tags.value))
            && Stats.UploadOf(folder, m, fn) == []
  {
  }
}
