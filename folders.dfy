/** The folder handler: lists the directories under `public`, and creates a
    folder by writing a README under a sanitised name. */
module Folders {
  import opened Common
  import opened Seqs
  import opened Text

  /** One entry of a store directory listing: its name and its `type`
      ("dir", "file", ...). */
  datatype Item = Item(name: string, kind: string)

  predicate IsDir(item: Item) {
    item.kind == "dir"
  }

  /** The names of the directory entries, in listing order. */
  function DirNames(items: seq<Item>): (r: seq<string>)
    ensures |r| <= |items|
    ensures forall n :: n in r <==> exists i :: 0 <= i < |items| && IsDir(items[i]) && items[i].name == n
  {
    if items == [] then []
    else
      var last := items[|items| - 1];
      var r := DirNames(items[..|items| - 1]);
      assert forall i :: 0 <= i < |items| - 1 ==> items[..|items| - 1][i] == items[i];
      r + (if IsDir(last) then [last.name] else [])
  }

  /** The directory filter keeps listing order: it distributes over `+`. */
  lemma {:induction false} DirNamesConcat(a: seq<Item>, b: seq<Item>)
    ensures DirNames(a + b) == DirNames(a) + DirNames(b)
    decreases |b|
  {
    if b == [] {
      assert a + b == a;
    } else {
      var b' := b[..|b| - 1];
      assert (a + b)[..|a + b| - 1] == a + b';
      DirNamesConcat(a, b');
    }
  }

  /** The characters `[^a-z0-9-_]` does not match. */
  predicate AllowedChar(c: char) {
    ('a' <= c <= 'z') || ('0' <= c <= '9') || c == '-' || c == '_'
  }

  /** `replace(/[^a-z0-9-_]/g, '-')`. */
  function ReplaceDisallowed(s: string): (r: string)
    ensures |r| == |s|
    ensures forall i :: 0 <= i < |s| ==> AllowedChar(r[i])
    ensures forall i :: 0 <= i < |s| && AllowedChar(s[i]) ==> r[i] == s[i]
    ensures forall i :: 0 <= i < |s| && !AllowedChar(s[i]) ==> r[i] == '-'
  {
    seq(|s|, i requires 0 <= i < |s| => if AllowedChar(s[i]) then s[i] else '-')
  }

  predicate NoDoubleDash(s: string) {
    forall i :: 0 <= i < |s| - 1 ==> !(s[i] == '-' && s[i + 1] == '-')
  }

  /** `replace(/-+/g, '-')`: every run of dashes becomes one dash. */
  function CollapseDashes(s: string): (r: string)
    ensures |r| <= |s|
    ensures s != [] ==> r != [] && r[0] == s[0]
    ensures NoDoubleDash(r)
    ensures forall i :: 0 <= i < |r| ==> r[i] in s
  {
    if |s| <= 1 then s
    else if s[0] == '-' && s[1] == '-' then CollapseDashes(s[1..])
    else
      var rest := CollapseDashes(s[1..]);
      assert forall x :: x in s[1..] ==> x in s;
      [s[0]] + rest
  }

  /** The folder name a requested name is stored under. */
  function Sanitize(name: string): (r: string)
    ensures forall i :: 0 <= i < |r| ==> AllowedChar(r[i])
    ensures NoDoubleDash(r)
    ensures |r| <= |name|
    ensures name != "" ==> r != ""
  {
    var s := ReplaceDisallowed(Lower(name));
    var r := CollapseDashes(s);
    assert forall i :: 0 <= i < |r| ==> AllowedChar(r[i]) by {
      forall i | 0 <= i < |r| ensures AllowedChar(r[i]) {
        var j :| 0 <= j < |s| && s[j] == r[i];
      }
    }
    r
  }

  /** Two dashes in a row collapse like one: a run of dashes anywhere in the
      string shrinks to a single dash, and nothing else moves. */
  lemma {:induction false} CollapseRun(a: string, b: string)
    ensures CollapseDashes(a + "--" + b) == CollapseDashes(a + "-" + b)
    decreases |a|
  {
    var s, t := a + "--" + b, a + "-" + b;
    if a == [] {
      assert s[1..] == t;
    } else {
      assert s[1..] == a[1..] + "--" + b;
      assert t[1..] == a[1..] + "-" + b;
      assert s[0] == t[0] && s[1] == t[1];
      CollapseRun(a[1..], b);
    }
  }

  /** A character outside `[a-z0-9-_]` after lower-casing is sanitised as
      if it were a dash, wherever it stands. */
  lemma SanitizeDisallowed(a: string, c: char, b: string)
    requires !AllowedChar(LowerChar(c))
    ensures Sanitize(a + [c] + b) == Sanitize(a + "-" + b)
  {
    var x, y := a + [c] + b, a + "-" + b;
    LowerAt(x);
    LowerAt(y);
    var rx, ry := ReplaceDisallowed(Lower(x)), ReplaceDisallowed(Lower(y));
    forall i | 0 <= i < |x| ensures rx[i] == ry[i] {
      if i != |a| {
        assert x[i] == y[i];
      }
    }
    assert rx == ry;
  }

  lemma {:induction false} CollapseFixpoint(s: string)
    requires NoDoubleDash(s)
    ensures CollapseDashes(s) == s
  {
    if |s| > 1 {
      assert !(s[0] == '-' && s[1] == '-');
      CollapseFixpoint(s[1..]);
      assert s == [s[0]] + s[1..];
    }
  }

  /** A name is its own sanitised form exactly when it already uses only
      the allowed characters and has no two dashes in a row. */
  lemma SanitizeFixpoint(name: string)
    ensures Sanitize(name) == name <==>
            (forall i :: 0 <= i < |name| ==> AllowedChar(name[i])) && NoDoubleDash(name)
  {
    if (forall i :: 0 <= i < |name| ==> AllowedChar(name[i])) && NoDoubleDash(name) {
      LowerAt(name);
      assert Lower(name) == name;
      assert ReplaceDisallowed(name) == name;
      CollapseFixpoint(name);
    }
  }

  /** Sanitising twice is sanitising once. */
  lemma SanitizeIdempotent(name: string)
    ensures Sanitize(Sanitize(name)) == Sanitize(name)
  {
    SanitizeFixpoint(Sanitize(name));
  }

  predicate NotDash(c: char) {
    c != '-'
  }

  /** Collapsing dash runs removes dashes only: the other characters stay,
      in order. */
  lemma {:induction false} CollapseKeepsNonDashes(s: string)
    ensures Filter(CollapseDashes(s), NotDash) == Filter(s, NotDash)
  {
    if |s| > 1 {
      CollapseKeepsNonDashes(s[1..]);
      assert s == [s[0]] + s[1..];
      FilterConcat([s[0]], s[1..], NotDash);
      assert Filter([s[0]], NotDash) == if NotDash(s[0]) then [s[0]] else [] by {
        assert [s[0]][..0] == [];
      }
      if !(s[0] == '-' && s[1] == '-') {
        FilterConcat([s[0]], CollapseDashes(s[1..]), NotDash);
      }
    }
  }

  /** The sanitised name keeps, in order, every character of the
      lower-cased name that is allowed and not a dash. */
  lemma SanitizeKeepsContent(name: string)
    ensures Filter(Sanitize(name), NotDash) == Filter(ReplaceDisallowed(Lower(name)), NotDash)
  {
    CollapseKeepsNonDashes(ReplaceDisallowed(Lower(name)));
  }

  /** The store path of the README that creates folder `safe`. */
  function ReadmePath(safe: string): (p: string)
    ensures p == FilePath(safe, "README.md")
    ensures |p| == 17 + |safe|
    ensures p[..7] == "public/" && p[7..7 + |safe|] == safe && p[7 + |safe|..] == "/README.md"
  {
    "public/" + safe + "/README.md"
  }

  function ReadmeText(name: string): string {
    "# " + name + "\n\nCustom folder for images."
  }

  datatype FolderResponse =
    | PreflightOk
    | FolderList(folders: seq<string>)
    | Created(folder: string)
    | Error(status: int, error: string)

  /** A response together with the store calls made to produce it. */
  datatype Outcome = Outcome(calls: seq<StoreCall>, response: FolderResponse)

  /** GET: the directory names of the `public` listing, or the store's
      status when the listing failed. */
  function ListFolders(listing: Reply<seq<Item>>): (r: FolderResponse)
    ensures listing.Failed? ==> r == Error(listing.status, "Failed to list folders")
    ensures listing.Ok? ==> r == FolderList(DirNames(listing.value))
    ensures listing.Ok? ==>
              && r.FolderList?
              && forall n :: n in r.folders <==>
                   exists i :: 0 <= i < |listing.value| && IsDir(listing.value[i]) && listing.value[i].name == n
  {
    match listing
    case Failed(status, _) => Error(status, "Failed to list folders")
    case Ok(items) => FolderList(DirNames(items))
  }

  /** POST: creates `public/<safe>/README.md` for a non-empty name. */
  function CreateFolder(name: Option<string>, put: Reply<()>): (r: Outcome)
    ensures !Truthy(name) ==> r == Outcome([], Error(400, "Folder name required"))
    ensures Truthy(name) ==>
              var safe := Sanitize(name.value);
              && r.calls == [PutContent(ReadmePath(safe), "Create folder: " + safe,
                                        Text(ReadmeText(name.value)), None)]
              && (put.Ok? ==> r.response == Created(safe))
              && (put.Failed? ==> r.response == Error(put.status, put.message))
  {
    if !Truthy(name) then Outcome([], Error(400, "Folder name required"))
    else
      var safe := Sanitize(name.value);
      var call := PutContent(ReadmePath(safe), "Create folder: " + safe, Text(ReadmeText(name.value)), None);
      match put
      case Failed(status, message) => Outcome([call], Error(status, message))
      case Ok(_) => Outcome([call], Created(safe))
  }

  /** The handler: OPTIONS, GET and POST are served, every other method
      gets 405 without touching the store. */
  function Handle(verb: string, listing: Reply<seq<Item>>, name: Option<string>, put: Reply<()>): (r: Outcome)
    ensures verb == "OPTIONS" ==> r == Outcome([], PreflightOk)
    ensures verb == "GET" ==> r == Outcome([GetContent("public")], ListFolders(listing))
    ensures verb == "POST" ==> r == CreateFolder(name, put)
    ensures verb !in {"OPTIONS", "GET", "POST"} ==> r == Outcome([], Error(405, "Method not allowed"))
  {
    match RouteFor(verb, {"GET", "POST"})
    case Preflight => Outcome([], PreflightOk)
    case NotAllowed => Outcome([], Error(405, "Method not allowed"))
    case Serve =>
      if verb == "GET" then Outcome([GetContent("public")], ListFolders(listing))
      else CreateFolder(name, put)
  }

  /** Creating a folder writes at most one file, and only under `public/`
      inside the sanitised folder; a missing name writes nothing. */
  lemma CreateWritesReadmeOnly(name: Option<string>, put: Reply<()>)
    ensures var r := CreateFolder(name, put);
            && |r.calls| <= 1
            && (|r.calls| == 1 <==> Truthy(name))
            && forall c :: c in r.calls ==>
                 (c.PutContent? && c.path == ReadmePath(Sanitize(name.value)) && '/' !in Sanitize(name.value))
  {
  }
}
