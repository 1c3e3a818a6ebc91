/** String operations the handlers rely on: ASCII `toLowerCase`, `trim`,
    `split(',')`, and the file-extension tests written as regular
    expressions in the handlers. */
module Text {
  import opened Common

  predicate IsUpperAscii(c: char) {
    'A' <= c <= 'Z'
  }

  function LowerChar(c: char): (d: char)
    ensures !IsUpperAscii(d)
    ensures IsUpperAscii(c) ==> d as int == c as int + 32
    ensures !IsUpperAscii(c) ==> d == c
  {
    if IsUpperAscii(c) then (c as int + 32) as char else c
  }

  /** `toLowerCase`, restricted to the ASCII letters. */
  function Lower(s: string): (r: string)
    ensures |r| == |s|
  {
    seq(|s|, i requires 0 <= i < |s| => LowerChar(s[i]))
  }

  /** Lower-casing works character by character and leaves no upper-case
      ASCII letter. */
  lemma LowerAt(s: string)
    ensures forall i :: 0 <= i < |s| ==> Lower(s)[i] == LowerChar(s[i]) && !IsUpperAscii(Lower(s)[i])
  {
  }

  lemma LowerSlice(s: string, a: nat, b: nat)
    requires a <= b <= |s|
    ensures Lower(s)[a..b] == Lower(s[a..b])
  {
  }

  lemma LowerIdempotent(s: string)
    ensures Lower(Lower(s)) == Lower(s)
  {
  }

  /** The characters `String.prototype.trim` removes: white space and line
      terminators. */
  predicate IsSpace(c: char) {
    || c == '\t' || c == '\n' || c == '\U{000B}' || c == '\U{000C}' || c == '\r'
    || c == ' ' || c == '\U{00A0}' || c == '\U{1680}'
    || ('\U{2000}' <= c <= '\U{200A}')
    || c == '\U{2028}' || c == '\U{2029}' || c == '\U{202F}' || c == '\U{205F}'
    || c == '\U{3000}' || c == '\U{FEFF}'
  }

  /** How many white-space characters `s` starts with. */
  function LeadingSpaces(s: string): (n: nat)
    ensures n <= |s|
    ensures forall i :: 0 <= i < n ==> IsSpace(s[i])
    ensures n < |s| ==> !IsSpace(s[n])
  {
    if s != [] && IsSpace(s[0]) then 1 + LeadingSpaces(s[1..]) else 0
  }

  /** Drops the white space at the back of `s`. */
  function TrimEnd(s: string): (r: string)
    ensures |r| <= |s| && r == s[..|r|]
    ensures forall i :: |r| <= i < |s| ==> IsSpace(s[i])
    ensures r != [] ==> !IsSpace(r[|r| - 1])
  {
    if s != [] && IsSpace(s[|s| - 1]) then TrimEnd(s[..|s| - 1]) else s
  }

  /** `trim`: the slice of `s` left once the white space on both sides is
      gone; the result neither starts nor ends with white space. */
  function Trim(s: string): (r: string)
    ensures LeadingSpaces(s) + |r| <= |s|
    ensures r == s[LeadingSpaces(s)..LeadingSpaces(s) + |r|]
    ensures forall i :: LeadingSpaces(s) + |r| <= i < |s| ==> IsSpace(s[i])
    ensures r != [] ==> !IsSpace(r[0]) && !IsSpace(r[|r| - 1])
  {
    var a := LeadingSpaces(s);
    var r := TrimEnd(s[a..]);
    assert forall i :: a + |r| <= i < |s| ==> s[i] == s[a..][i - a];
    r
  }

  /** `split(',')`: the pieces between the commas, empty pieces included. */
  function Split(s: string): (r: seq<string>)
    ensures |r| >= 1
    ensures forall i :: 0 <= i < |r| ==> ',' !in r[i]
  {
    if s == [] then [""]
    else
      var r := Split(s[..|s| - 1]);
      var c := s[|s| - 1];
      if c == ',' then r + [""]
      else
        var last := r[|r| - 1] + [c];
        assert ',' !in r[|r| - 1];
        r[..|r| - 1] + [last]
  }

  /** `join(',')`, the inverse of `Split`. */
  function Join(parts: seq<string>): string {
    if parts == [] then ""
    else if |parts| == 1 then parts[0]
    else Join(parts[..|parts| - 1]) + "," + parts[|parts| - 1]
  }

  lemma {:induction false} JoinSplit(s: string)
    ensures Join(Split(s)) == s
  {
    if s != [] {
      var s', c := s[..|s| - 1], s[|s| - 1];
      var r := Split(s');
      JoinSplit(s');
      assert s == s' + [c];
      if c == ',' {
        JoinLast(r + [""]);
        assert (r + [""])[..|r|] == r;
      } else {
        JoinExtendLast(r, c);
      }
    }
  }

  /** Joining, split off at the last piece. */
  lemma JoinLast(r: seq<string>)
    requires |r| > 1
    ensures Join(r) == Join(r[..|r| - 1]) + "," + r[|r| - 1]
  {
  }

  /** Extending the last piece by one character extends the join by it. */
  lemma JoinExtendLast(r: seq<string>, c: char)
    requires |r| >= 1
    ensures Join(r[..|r| - 1] + [r[|r| - 1] + [c]]) == Join(r) + [c]
  {
    var init, last := r[..|r| - 1], r[|r| - 1];
    var q := init + [last + [c]];
    assert q[..|q| - 1] == init && q[|q| - 1] == last + [c];
    if |r| > 1 {
      JoinLast(r);
      JoinLast(q);
      AppendAssoc(Join(init) + ",", last, [c]);
    }
  }

  /** Appending one character to the input extends the last piece, or
      starts a new one at a comma. */
  lemma SplitSnoc(s: string, c: char)
    ensures var r := Split(s);
            Split(s + [c]) == if c == ',' then r + [""] else r[..|r| - 1] + [r[|r| - 1] + [c]]
  {
    assert (s + [c])[..|s|] == s;
  }

  /** Appending comma-free text extends the last piece. */
  lemma {:induction false} SplitAppendPiece(s: string, w: string)
    requires ',' !in w
    ensures var r := Split(s);
            Split(s + w) == r[..|r| - 1] + [r[|r| - 1] + w]
    decreases |w|
  {
    if w == [] {
      SplitAppendNothing(s);
    } else {
      var w', c := w[..|w| - 1], w[|w| - 1];
      CommaFreeFront(w);
      SplitAppendPiece(s, w');
      SplitAppendStep(s, w', c);
    }
  }

  lemma SplitAppendNothing(s: string)
    ensures var r := Split(s);
            Split(s + "") == r[..|r| - 1] + [r[|r| - 1] + ""]
  {
    var r := Split(s);
    assert s + "" == s;
    assert r[|r| - 1] + "" == r[|r| - 1];
    assert r == r[..|r| - 1] + [r[|r| - 1]];
  }

  /** A non-empty comma-free string is a comma-free front and a last
      character that is no comma. */
  lemma CommaFreeFront(w: string)
    requires ',' !in w && w != []
    ensures w == w[..|w| - 1] + [w[|w| - 1]]
    ensures ',' !in w[..|w| - 1] && w[|w| - 1] != ','
  {
    assert w[|w| - 1] in w;
    assert forall x :: x in w[..|w| - 1] ==> x in w;
  }

  /** One more non-comma character after the text that extends the last
      piece extends it again. */
  lemma SplitAppendStep(s: string, w: string, c: char)
    requires c != ','
    requires var r := Split(s);
             Split(s + w) == r[..|r| - 1] + [r[|r| - 1] + w]
    ensures var r := Split(s);
            Split(s + (w + [c])) == r[..|r| - 1] + [r[|r| - 1] + (w + [c])]
  {
    var r := Split(s);
    var q := Split(s + w);
    assert q[..|q| - 1] == r[..|r| - 1];
    assert q[|q| - 1] == r[|r| - 1] + w;
    SplitSnoc(s + w, c);
    AppendAssoc(s, w, [c]);
    AppendAssoc(r[|r| - 1], w, [c]);
  }

  /** A comma-free string is a single piece. */
  lemma SplitOne(w: string)
    requires ',' !in w
    ensures Split(w) == [w]
  {
    SplitAppendPiece("", w);
    assert "" + w == w;
    assert Split("") == [""];
  }

  lemma {:induction false} SplitJoin(parts: seq<string>)
    requires |parts| >= 1
    requires forall i :: 0 <= i < |parts| ==> ',' !in parts[i]
    ensures Split(Join(parts)) == parts
  {
    var w := parts[|parts| - 1];
    if |parts| == 1 {
      SplitOne(w);
      assert parts == [w];
    } else {
      var init := parts[..|parts| - 1];
      assert forall i :: 0 <= i < |init| ==> init[i] == parts[i];
      SplitJoin(init);
      SplitAfterComma(init, w);
      JoinLast(parts);
      assert parts == init + [w];
    }
  }

  /** One more comma and piece after a string that splits into `init`. */
  lemma SplitAfterComma(init: seq<string>, w: string)
    requires ',' !in w && Split(Join(init)) == init
    ensures Split(Join(init) + "," + w) == init + [w]
  {
    SplitSnoc(Join(init), ',');
    var r := Split(Join(init) + ",");
    assert r[..|r| - 1] == init && r[|r| - 1] == "";
    SplitAppendPiece(Join(init) + ",", w);
    assert "" + w == w;
  }

  /** `tag.trim().toLowerCase()`. */
  function NormalizeTag(piece: string): string {
    Lower(Trim(piece))
  }

  /** The normalised, non-empty tokens of a list of pieces, in order. */
  function NormalizePieces(pieces: seq<string>): seq<string> {
    if pieces == [] then []
    else
      var t := NormalizeTag(pieces[|pieces| - 1]);
      NormalizePieces(pieces[..|pieces| - 1]) + (if t != "" then [t] else [])
  }

  /** One more piece contributes its token when that token is non-empty. */
  lemma NormalizePiecesSnoc(pieces: seq<string>, p: string)
    ensures NormalizePieces(pieces + [p])
            == NormalizePieces(pieces) + (if NormalizeTag(p) != "" then [NormalizeTag(p)] else [])
  {
    assert (pieces + [p])[..|pieces + [p]| - 1] == pieces;
  }

  /** The tags a comma-separated `tags` string contributes to the counts. */
  function NormalizeTags(tags: string): seq<string> {
    NormalizePieces(Split(tags))
  }

  /** A token neither empty, nor holding a comma or an upper-case ASCII
      letter, nor starting or ending with white space. */
  predicate IsNormalToken(t: string) {
    && t != ""
    && ',' !in t
    && (forall i :: 0 <= i < |t| ==> !IsUpperAscii(t[i]))
    && !IsSpace(t[0]) && !IsSpace(t[|t| - 1])
  }

  lemma NormalizeTagIsNormal(piece: string)
    requires ',' !in piece && NormalizeTag(piece) != ""
    ensures IsNormalToken(NormalizeTag(piece))
  {
    var t := Trim(piece);
    assert ',' !in t by {
      var a := LeadingSpaces(piece);
      assert forall x :: x in piece[a..a + |t|] ==> x in piece;
    }
    LowerKeeps(t, ',');
    LowerAt(t);
  }

  lemma {:induction false} NormalizePiecesAreNormal(pieces: seq<string>)
    requires forall i :: 0 <= i < |pieces| ==> ',' !in pieces[i]
    ensures forall i :: 0 <= i < |NormalizePieces(pieces)| ==> IsNormalToken(NormalizePieces(pieces)[i])
  {
    if pieces != [] {
      NormalizePiecesAreNormal(pieces[..|pieces| - 1]);
      var t := NormalizeTag(pieces[|pieces| - 1]);
      if t != "" {
        NormalizeTagIsNormal(pieces[|pieces| - 1]);
      }
    }
  }

  /** Every token counted for a `tags` string is trimmed, lower-case, non-empty
      and comma-free. */
  lemma NormalizeTagsAreNormal(tags: string)
    ensures forall i :: 0 <= i < |NormalizeTags(tags)| ==> IsNormalToken(NormalizeTags(tags)[i])
  {
    NormalizePiecesAreNormal(Split(tags));
  }

  lemma LowerKeepsSpace(c: char)
    ensures IsSpace(LowerChar(c)) == IsSpace(c)
  {
  }

  lemma {:induction false} LeadingSpacesLower(s: string)
    ensures LeadingSpaces(Lower(s)) == LeadingSpaces(s)
  {
    if s != [] {
      var low := Lower(s);
      LowerAt(s);
      LowerKeepsSpace(s[0]);
      LowerSlice(s, 1, |s|);
      assert low[1..] == Lower(s[1..]);
      LeadingSpacesLower(s[1..]);
      if IsSpace(s[0]) {
        assert LeadingSpaces(low) == 1 + LeadingSpaces(low[1..]);
      } else {
        assert LeadingSpaces(low) == 0;
      }
    }
  }

  lemma {:induction false} TrimEndLower(s: string)
    ensures TrimEnd(Lower(s)) == Lower(TrimEnd(s))
  {
    if s != [] {
      var init, c := s[..|s| - 1], s[|s| - 1];
      var low := Lower(s);
      LowerAt(s);
      LowerSlice(s, 0, |s| - 1);
      assert low[..|low| - 1] == Lower(init);
      assert low[|low| - 1] == LowerChar(c);
      LowerKeepsSpace(c);
      if IsSpace(c) {
        TrimEndLower(init);
        assert TrimEnd(low) == TrimEnd(Lower(init));
        assert TrimEnd(s) == TrimEnd(init);
      } else {
        assert TrimEnd(low) == low;
        assert TrimEnd(s) == s;
      }
    }
  }

  /** Tag normalisation ignores ASCII case. */
  lemma NormalizeTagIgnoresCase(piece: string)
    ensures NormalizeTag(Lower(piece)) == NormalizeTag(piece)
  {
    var a := LeadingSpaces(piece);
    var t := TrimEnd(piece[a..]);
    var low := Lower(piece);
    assert LeadingSpaces(low) == a by {
      LeadingSpacesLower(piece);
    }
    assert low[a..] == Lower(piece[a..]) by {
      LowerSlice(piece, a, |piece|);
    }
    assert Trim(low) == TrimEnd(low[a..]);
    TrimEndLower(piece[a..]);
    assert Trim(piece) == t;
    LowerIdempotent(t);
  }

  lemma {:induction false} LeadingSpacesAppend(s: string, c: char)
    requires IsSpace(c)
    ensures LeadingSpaces(s) < |s| ==> LeadingSpaces(s + [c]) == LeadingSpaces(s)
    ensures LeadingSpaces(s) == |s| ==> LeadingSpaces(s + [c]) == |s| + 1
  {
    if s != [] {
      assert (s + [c])[1..] == s[1..] + [c];
      LeadingSpacesAppend(s[1..], c);
    } else {
      assert ([c])[1..] == [];
    }
  }

  /** Tag normalisation ignores one white-space character on either side,
      and so any white-space padding. */
  lemma NormalizeTagIgnoresPadding(piece: string, c: char)
    requires IsSpace(c)
    ensures NormalizeTag([c] + piece) == NormalizeTag(piece)
    ensures NormalizeTag(piece + [c]) == NormalizeTag(piece)
  {
    TrimPadFront(piece, c);
    TrimPadBack(piece, c);
  }

  lemma TrimPadFront(piece: string, c: char)
    requires IsSpace(c)
    ensures Trim([c] + piece) == Trim(piece)
  {
    var a := LeadingSpaces(piece);
    assert ([c] + piece)[1..] == piece;
    assert LeadingSpaces([c] + piece) == 1 + a;
    assert ([c] + piece)[1 + a..] == piece[a..];
  }

  lemma TrimPadBack(piece: string, c: char)
    requires IsSpace(c)
    ensures Trim(piece + [c]) == Trim(piece)
  {
    var a := LeadingSpaces(piece);
    LeadingSpacesAppend(piece, c);
    if a < |piece| {
      assert (piece + [c])[a..] == piece[a..] + [c];
      assert (piece[a..] + [c])[..|piece[a..]|] == piece[a..];
    } else {
      assert (piece + [c])[a + 1..] == [];
      assert piece[a..] == [];
    }
  }

  lemma NormalizeTwoPieces(p: string, q: string, x: string, y: string)
    requires ',' !in p && ',' !in q
    requires NormalizeTag(p) == x != "" && NormalizeTag(q) == y != ""
    ensures NormalizeTags(p + "," + q) == [x, y]
  {
    assert Join([p, q]) == p + "," + q;
    SplitJoin([p, q]);
    assert [p, q][..1] == [p];
    assert NormalizePieces([p]) == [x] by {
      assert [p][..0] == [];
    }
  }

  /** Lower-casing a string lower-cases each of its comma-separated pieces:
      it neither adds nor removes commas. */
  lemma {:induction false} SplitLower(s: string)
    ensures |Split(Lower(s))| == |Split(s)|
    ensures forall i :: 0 <= i < |Split(s)| ==> Split(Lower(s))[i] == Lower(Split(s)[i])
  {
    if s != [] {
      var s', c := s[..|s| - 1], s[|s| - 1];
      SplitLower(s');
      var low := Lower(s);
      assert low[..|low| - 1] == Lower(s') by {
        LowerSlice(s, 0, |s| - 1);
      }
      assert low[|low| - 1] == LowerChar(c);
      assert LowerChar(c) == ',' <==> c == ',';
      var r, q := Split(s'), Split(Lower(s'));
      if c != ',' {
        LowerConcat(r[|r| - 1], [c]);
        assert Lower([c]) == [LowerChar(c)];
      }
    }
  }

  lemma {:induction false} NormalizePiecesLower(ps: seq<string>, qs: seq<string>)
    requires |ps| == |qs|
    requires forall i :: 0 <= i < |ps| ==> qs[i] == Lower(ps[i])
    ensures NormalizePieces(qs) == NormalizePieces(ps)
  {
    if ps != [] {
      NormalizePiecesLower(ps[..|ps| - 1], qs[..|qs| - 1]);
      NormalizeTagIgnoresCase(ps[|ps| - 1]);
    }
  }

  /** The tokens of a tags string do not depend on its ASCII case. */
  lemma NormalizeTagsIgnoreCase(tags: string)
    ensures NormalizeTags(Lower(tags)) == NormalizeTags(tags)
  {
    SplitLower(tags);
    NormalizePiecesLower(Split(tags), Split(Lower(tags)));
  }

  predicate AllSpace(s: string) {
    forall i :: 0 <= i < |s| ==> IsSpace(s[i])
  }

  lemma {:induction false} PadFrontRun(pre: string, rest: string)
    requires AllSpace(pre)
    ensures NormalizeTag(pre + rest) == NormalizeTag(rest)
    decreases |pre|
  {
    if pre != [] {
      var tail := pre[1..] + rest;
      PadFrontRun(pre[1..], rest);
      assert pre + rest == [pre[0]] + tail;
      NormalizeTagIgnoresPadding(tail, pre[0]);
    } else {
      assert pre + rest == rest;
    }
  }

  lemma {:induction false} PadBackRun(rest: string, post: string)
    requires AllSpace(post)
    ensures NormalizeTag(rest + post) == NormalizeTag(rest)
    decreases |post|
  {
    if post != [] {
      var k := |post| - 1;
      var head := rest + post[..k];
      PadBackRun(rest, post[..k]);
      assert rest + post == head + [post[k]];
      NormalizeTagIgnoresPadding(head, post[k]);
    } else {
      assert rest + post == rest;
    }
  }

  /** Tag normalisation ignores white-space padding of any length. */
  lemma NormalizeTagIgnoresPaddingRun(pre: string, piece: string, post: string)
    requires AllSpace(pre) && AllSpace(post)
    ensures NormalizeTag(pre + piece + post) == NormalizeTag(piece)
  {
    var rest := piece + post;
    AppendAssoc(pre, piece, post);
    PadFrontRun(pre, rest);
    PadBackRun(piece, post);
  }

  /** Lists of pieces that normalise pairwise alike give the same tokens. */
  lemma {:induction false} NormalizePiecesAlike(ps: seq<string>, qs: seq<string>)
    requires |ps| == |qs|
    requires forall i :: 0 <= i < |ps| ==> NormalizeTag(ps[i]) == NormalizeTag(qs[i])
    ensures NormalizePieces(ps) == NormalizePieces(qs)
  {
    if ps != [] {
      NormalizePiecesAlike(ps[..|ps| - 1], qs[..|qs| - 1]);
    }
  }

  /** Two tags strings with as many comma-separated pieces, which normalise
      pairwise alike (they differ in ASCII case or padding only), count
      towards the same tags. */
  lemma NormalizeTagsAlike(s: string, t: string)
    requires |Split(s)| == |Split(t)|
    requires forall i :: 0 <= i < |Split(s)| ==> NormalizeTag(Split(s)[i]) == NormalizeTag(Split(t)[i])
    ensures NormalizeTags(s) == NormalizeTags(t)
  {
    NormalizePiecesAlike(Split(s), Split(t));
  }

  /** A normal token is its own normal form. */
  lemma NormalTokenFixed(t: string)
    requires IsNormalToken(t)
    ensures NormalizeTag(t) == t
  {
    assert LeadingSpaces(t) == 0;
    assert t[0..] == t;
    assert TrimEnd(t) == t;
    LowerAt(t);
    assert Lower(t) == t;
  }

  lemma RedPieces()
    ensures NormalizeTag("Red") == "red" && NormalizeTag("red") == "red"
  {
    NormalTokenFixed("red");
    LowerAt("Red");
    assert Lower("Red") == "red";
    NormalizeTagIgnoresCase("Red");
  }

  lemma BlueCase()
    ensures NormalizeTag("BLUE") == "blue" && NormalizeTag("blue") == "blue"
  {
    NormalTokenFixed("blue");
    LowerAt("BLUE");
    assert Lower("BLUE") == "blue";
    NormalizeTagIgnoresCase("BLUE");
  }

  lemma BluePieces()
    ensures NormalizeTag(" BLUE") == "blue" && NormalizeTag("blue") == "blue"
  {
    BlueCase();
    assert [' '] + "BLUE" == " BLUE";
    NormalizeTagIgnoresPadding("BLUE", ' ');
  }

  /** "Red, BLUE" and "red,blue" count towards the same two tags. */
  lemma NormalizeTagsExample()
    ensures NormalizeTags("Red, BLUE") == NormalizeTags("red,blue") == ["red", "blue"]
  {
    MixedExample();
    LowerExample();
  }

  lemma MixedExample()
    ensures NormalizeTags("Red, BLUE") == ["red", "blue"]
  {
    RedPieces();
    BluePieces();
    assert "Red" + "," + " BLUE" == "Red, BLUE";
    NormalizeTwoPieces("Red", " BLUE", "red", "blue");
  }

  lemma LowerExample()
    ensures NormalizeTags("red,blue") == ["red", "blue"]
  {
    RedPieces();
    BluePieces();
    assert "red" + "," + "blue" == "red,blue";
    NormalizeTwoPieces("red", "blue", "red", "blue");
  }

  predicate EndsWith(s: string, suffix: string) {
    |suffix| <= |s| && s[|s| - |suffix|..] == suffix
  }

  const ImageExtensions: seq<string> := ["jpg", "jpeg", "png", "gif", "webp", "svg"]
  const MediaExtensions: seq<string> := ImageExtensions + ["pdf", "mp4", "mov", "webm", "mp3", "wav"]

  /** The case-insensitive regular expression `\.(e1|e2|...)$`. */
  predicate HasExtension(name: string, exts: seq<string>) {
    exists e :: e in exts && EndsWith(Lower(name), "." + e)
  }

  predicate IsImageName(name: string) {
    HasExtension(name, ImageExtensions)
  }

  predicate IsMediaName(name: string) {
    HasExtension(name, MediaExtensions)
  }

  /** The text after the last `.` of a name, or `None` when it has none. */
  function LastExtension(s: string): (r: Option<string>)
    ensures r.None? ==> '.' !in s
    ensures r.Some? ==> |r.value| < |s| && s[|s| - |r.value| - 1] == '.'
                        && s[|s| - |r.value|..] == r.value && '.' !in r.value
  {
    if s == [] then None
    else if s[|s| - 1] == '.' then Some("")
    else
      var c := s[|s| - 1];
      var init := s[..|s| - 1];
      assert s == init + [c];
      match LastExtension(init)
      case None => None
      case Some(e) =>
        assert '.' !in e + [c];
        Some(e + [c])
  }

  /** Two dots each followed only by dot-free text are the same dot. */
  lemma LastDotUnique(s: string, j: nat, k: nat)
    requires j < |s| && k < |s| && s[j] == '.' && s[k] == '.'
    requires '.' !in s[j + 1..] && '.' !in s[k + 1..]
    ensures j == k
  {

  }

  /** Lower-casing moves no character that is not an ASCII letter. */
  lemma LowerKeeps(s: string, c: char)
    requires !('A' <= c <= 'Z') && !('a' <= c <= 'z')
    ensures forall i :: 0 <= i < |s| ==> (Lower(s)[i] == c <==> s[i] == c)
    ensures c in Lower(s) <==> c in s
  {
    if c in Lower(s) {
      var i :| 0 <= i < |s| && Lower(s)[i] == c;
      assert s[i] in s;
    }
    if c in s {
      var i :| 0 <= i < |s| && s[i] == c;
      assert Lower(s)[i] in Lower(s);
    }
  }

  /** A name matching an extension of the list has that extension after
      its last dot. */
  lemma ExtensionIsLastDot(name: string, e: string)
    requires '.' !in e && EndsWith(Lower(name), "." + e)
    ensures LastExtension(name).Some? && Lower(LastExtension(name).value) == e
  {
    var low := Lower(name);
    var k := |name| - |e| - 1;
    assert low[k] == ("." + e)[0];
    assert low[k + 1..] == e;
    LowerKeeps(name, '.');
    assert name[k] == '.';
    LowerSlice(name, k + 1, |name|);
    LowerKeeps(name[k + 1..], '.');
    var x := LastExtension(name);
    var j := |name| - |x.value| - 1;
    LastDotUnique(name, j, k);
  }

  /** A name whose text after the last dot lower-cases to `e` matches `e`. */
  lemma LastDotIsExtension(name: string, e: string)
    requires LastExtension(name).Some? && Lower(LastExtension(name).value) == e
    ensures EndsWith(Lower(name), "." + e)
  {
    var x := LastExtension(name).value;
    var k := |name| - |x| - 1;
    assert Lower(name)[k..] == "." + e by {
      assert name[k..] == "." + x by {
        assert name[k..] == [name[k]] + name[k + 1..];
      }
      LowerSlice(name, k, |name|);
      LowerConcat(".", x);
      assert Lower(".") == ".";
    }
  }

  lemma LowerConcat(a: string, b: string)
    ensures Lower(a + b) == Lower(a) + Lower(b)
  {
  }

  /** The extension test agrees with the reading "the text after the last
      dot, lower-cased, is one of the extensions". */
  lemma HasExtensionByLastDot(name: string, exts: seq<string>)
    requires forall e :: e in exts ==> '.' !in e
    ensures HasExtension(name, exts) <==>
            LastExtension(name).Some? && Lower(LastExtension(name).value) in exts
  {
    if HasExtension(name, exts) {
      var e :| e in exts && EndsWith(Lower(name), "." + e);
      ExtensionIsLastDot(name, e);
    }
    if LastExtension(name).Some? && Lower(LastExtension(name).value) in exts {
      LastDotIsExtension(name, Lower(LastExtension(name).value));
    }
  }

  /** A file is an image exactly when the text after its last dot,
      lower-cased, is one of the image extensions; likewise for media. */
  lemma MediaNameByLastDot(name: string)
    ensures IsImageName(name) <==>
            LastExtension(name).Some? && Lower(LastExtension(name).value) in ImageExtensions
    ensures IsMediaName(name) <==>
            LastExtension(name).Some? && Lower(LastExtension(name).value) in MediaExtensions
  {
    assert forall e :: e in MediaExtensions ==> '.' !in e;
    HasExtensionByLastDot(name, ImageExtensions);
    HasExtensionByLastDot(name, MediaExtensions);
  }

  /** Every image name is also a media name. */
  lemma ImageIsMedia(name: string)
    ensures IsImageName(name) ==> IsMediaName(name)
  {
    if IsImageName(name) {
      var e :| e in ImageExtensions && EndsWith(Lower(name), "." + e);
      assert e in MediaExtensions;
    }
  }
}
