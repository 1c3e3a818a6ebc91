/** Values shared by every handler: optional values, replies of the content
    store, file descriptors, metadata entries and the calls a handler issues. */
module Common {

  datatype Option<+T> = None | Some(value: T)

  /** The outcome of one call to the content store: a decoded body, or a
      non-ok HTTP status with the store's error message. */
  datatype Reply<+T> = Ok(value: T) | Failed(status: int, message: string)

  /** JavaScript truthiness of an optional string: present and non-empty. */
  predicate Truthy(s: Option<string>) {
    s.Some? && s.value != ""
  }

  /** `x || null` for an optional string. */
  function OrNull(s: Option<string>): (r: Option<string>)
    ensures r.Some? <==> Truthy(s)
    ensures r.Some? ==> r == s
  {
    if Truthy(s) then s else None
  }

  /** One element of a folder listing: its name, its byte size (absent when the
      store omits it) and its raw download link. */
  datatype FileItem = FileItem(name: string, size: Option<nat>, downloadUrl: Option<string>)

  /** The value stored under a filename in a folder's `metadata.json`.
      `Falsy` is a JSON value that JavaScript treats as false (null, false,
      0, ""); `Entry` is an object whose fields may each be absent. */
  datatype MetaEntry =
    | Falsy
    | Entry(tags: Option<string>, description: Option<string>,
            uploadedAt: Option<int>, updatedAt: Option<int>)

  type Metadata = map<string, MetaEntry>

  /** What the store gives for one folder: its listing (`None` when the
      listing call failed) and its metadata map (empty when the sidecar is
      missing or unreadable). */
  datatype FolderData = FolderData(listing: Option<seq<FileItem>>, metadata: Metadata)

  /** The content store as seen by the read-only handlers. */
  type Store = string -> FolderData

  /** What reading `public/<folder>/metadata.json` gave: the GET failed, or it
      succeeded with a version token and a body that may not parse. */
  datatype MetaRead = ReadFailed | ReadOk(sha: string, parsed: Option<Metadata>)

  /** What a store write carries as its (base64-encoded) content. */
  datatype Payload = MetadataJson(entries: Metadata) | Text(text: string)

  /** A call a handler issues to the content store. */
  datatype StoreCall =
    | GetContent(path: string)
    | PutContent(path: string, message: string, content: Payload, sha: Option<string>)
    | DeleteContent(path: string, message: string, fileSha: string)

  predicate IsWrite(c: StoreCall) {
    c.PutContent? || c.DeleteContent?
  }

  const PublicBase: string := "https://images.newbold.cloud/"

  /** The public URL of a stored file. */
  function PublicUrl(folder: string, name: string): (u: string)
    ensures |u| == |PublicBase| + |folder| + 1 + |name|
    ensures u[..|PublicBase|] == PublicBase
    ensures u[|PublicBase|..|PublicBase| + |folder|] == folder
    ensures u[|u| - |name| - 1] == '/' && u[|u| - |name|..] == name
  {
    PublicBase + folder + "/" + name
  }

  /** Store path of a file inside a folder. */
  function FilePath(folder: string, name: string): (p: string)
    ensures |p| == 8 + |folder| + |name|
    ensures p[..7] == "public/" && p[7..7 + |folder|] == folder
    ensures p[7 + |folder|] == '/' && p[|p| - |name|..] == name
  {
    "public/" + folder + "/" + name
  }

  /** Store path of a folder's metadata sidecar. */
  function MetadataPath(folder: string): (p: string)
    ensures p == FilePath(folder, "metadata.json")
  {
    "public/" + folder + "/metadata.json"
  }

  /** How a handler answers an HTTP method: a CORS preflight, its own
      work, or 405. */
  datatype Route = Preflight | Serve | NotAllowed

  function RouteFor(verb: string, served: set<string>): (r: Route)
    ensures r == Preflight <==> verb == "OPTIONS"
    ensures r == Serve <==> verb != "OPTIONS" && verb in served
    ensures r == NotAllowed <==> verb != "OPTIONS" && verb !in served
  {
    if verb == "OPTIONS" then Preflight
    else if verb in served then Serve
    else NotAllowed
  }

  function Min(a: nat, b: nat): nat {
    if a <= b then a else b
  }

  /** Concatenation is associative. */
  lemma AppendAssoc<T>(x: seq<T>, y: seq<T>, z: seq<T>)
    ensures (x + y) + z == x + (y + z)
  {
    assert |(x + y) + z| == |x + (y + z)|;
    forall i | 0 <= i < |x| + |y| + |z|
      ensures ((x + y) + z)[i] == (x + (y + z))[i]
    {
    }
  }
}
