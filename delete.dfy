/** The delete handler: deletes one stored file, then removes the file's
    entry from its folder's metadata when there is one. */
module Delete {
  import opened Common
  import opened Files
  import MetadataApi

  datatype DeleteResponse =
    | PreflightOk
    | Deleted(filename: string)
    | Error(status: int, error: string)

  /** What `removeFromMetadata` does with what it read: nothing more when
      the sidecar could not be read or parsed or holds no truthy entry for
      the file; otherwise one write of the map without that key, carrying
      the version token read. */
  ghost predicate IsRemoval(calls: seq<StoreCall>, folder: string, filename: string, read: MetaRead) {
    var path := MetadataPath(folder);
    && 1 <= |calls| <= 2
    && calls[0] == GetContent(path)
    && (|calls| == 2 <==> read.ReadOk? && read.parsed.Some? && EntryOf(read.parsed.value, filename).Entry?)
    && (|calls| == 2 ==>
          calls[1] == PutContent(path, "Remove metadata for " + filename,
                                 MetadataJson(read.parsed.value - {filename}), Some(read.sha)))
  }

  /** `removeFromMetadata`: a failed read or a body that does not parse
      ends it quietly; a truthy entry is deleted from the map in place and
      the map written back. */
  method RemoveFromMetadata(folder: string, filename: string, read: MetaRead) returns (calls: seq<StoreCall>)
    ensures IsRemoval(calls, folder, filename, read)
  {
    var metadataPath := MetadataPath(folder);
    calls := [GetContent(metadataPath)];
    if read.ReadFailed? {
      return;
    }
    if read.parsed.None? {
      return;
    }
    var metadata := read.parsed.value;
    if filename in metadata && metadata[filename].Entry? {
      metadata := metadata - {filename};
      calls := calls + [PutContent(metadataPath, "Remove metadata for " + filename, MetadataJson(metadata), Some(read.sha))];
    }
  }

  /** The handler. `file` is the lookup of the file (its version token),
      `del` the outcome of the delete, and `read` the metadata read made
      afterwards. */
  method Handle(verb: string, folder: Option<string>, filename: Option<string>,
                file: Reply<string>, del: Reply<()>, read: MetaRead)
    returns (r: DeleteResponse, calls: seq<StoreCall>)
    ensures verb == "OPTIONS" ==> r == PreflightOk && calls == []
    ensures verb != "OPTIONS" && verb != "POST" ==> r == Error(405, "Method not allowed") && calls == []
    ensures verb == "POST" && !(Truthy(folder) && Truthy(filename)) ==>
              r == Error(400, "Missing folder or filename") && calls == []
    ensures verb == "POST" && Truthy(folder) && Truthy(filename) ==>
              var path := FilePath(folder.value, filename.value);
              && |calls| >= 1 && calls[0] == GetContent(path)
              && (file.Failed? ==> r == Error(404, "File not found") && calls == [GetContent(path)])
              && (file.Ok? ==> |calls| >= 2 && calls[1] == DeleteContent(path, "Delete " + filename.value, file.value))
              && (file.Ok? && del.Failed? ==> r == Error(del.status, del.message) && |calls| == 2)
              && (file.Ok? && del.Ok? ==>
                    && r == Deleted(filename.value)
                    && IsRemoval(calls[2..], folder.value, filename.value, read))
    ensures forall i :: 0 <= i < |calls| && calls[i].DeleteContent? ==>
              i == 1 && file.Ok? && calls[i].fileSha == file.value
              && calls[i].path == FilePath(folder.value, filename.value)
    ensures forall c :: c in calls && c.PutContent? ==> c.path == MetadataPath(folder.value)
  {
    if verb == "OPTIONS" {
      return PreflightOk, [];
    }
    if verb != "POST" {
      return Error(405, "Method not allowed"), [];
    }
    if !Truthy(folder) || !Truthy(filename) {
      return Error(400, "Missing folder or filename"), [];
    }
    var path := FilePath(folder.value, filename.value);
    calls := [GetContent(path)];
    if file.Failed? {
      return Error(404, "File not found"), calls;
    }
    calls := calls + [DeleteContent(path, "Delete " + filename.value, file.value)];
    if del.Failed? {
      return Error(del.status, del.message), calls;
    }
    var removal := RemoveFromMetadata(folder.value, filename.value, read);
    calls := calls + removal;
    assert calls[2..] == removal;
    r := Deleted(filename.value);
  }

  /** Removal takes out exactly the file's key: every other entry stays as
      it was. */
  lemma RemovalKeepsOthers(m: Metadata, filename: string)
    ensures filename !in m - {filename}
    ensures forall k :: k != filename ==> (k in m - {filename} <==> k in m)
    ensures forall k :: k != filename && k in m ==> (m - {filename})[k] == m[k]
  {
  }

  /** Deleting a file whose metadata was just updated writes the sidecar
      back as it was before the update, less the file's entry. */
  lemma RemoveAfterUpdate(filename: string, base: Metadata,
                          tags: Option<string>, description: Option<string>, now: int)
    ensures var updated := base[filename := MetadataApi.NewEntry(tags, description, now)];
            && EntryOf(updated, filename).Entry?
            && updated - {filename} == base - {filename}
  {
    var updated := base[filename := MetadataApi.NewEntry(tags, description, now)];
    assert updated - {filename} == base - {filename};
  }
}
