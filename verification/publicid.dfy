/** The delete route's public-id extraction, `url.match(/\/(genres|artists|songs)\/(.+)\.\w+$/)?.[2]`
    (src/app/api/delete-file/route.ts:22), written as a string function and proved equal to the
    regular expression's leftmost-match semantics, stated declaratively by `LeftmostMatch`. */
module PublicIdPattern {
  import opened Base
  import opened JsText

  /** The alternatives of the pattern's first group. */
  predicate IsFolder(f: string) {
    f == "genres" || f == "artists" || f == "songs"
  }

  /** `/f/` occurs in `s` at index `i` for one of the recognised folders `f`. */
  ghost predicate SegmentAt(s: string, i: int, f: string) {
    IsFolder(f) && 0 <= i && i + |f| + 2 <= |s| && s[i..i + |f| + 2] == "/" + f + "/"
  }

  /** `\.\w+$` matches from index `p`: a dot, then one or more word characters up to the end. */
  ghost predicate ExtensionAt(s: string, p: int) {
    0 <= p && p + 1 < |s| && s[p] == '.' && forall j :: p < j < |s| ==> IsWordChar(s[j])
  }

  /** The whole pattern matches starting at `i` with folder `f`; group 2 is `s[i + |f| + 2..p]`,
      which `.+` requires to be non-empty and free of line terminators. */
  ghost predicate MatchAt(s: string, i: int, f: string, p: int) {
    && SegmentAt(s, i, f)
    && ExtensionAt(s, p)
    && i + |f| + 2 < p
    && forall j :: i + |f| + 2 <= j < p ==> !IsLineTerminator(s[j])
  }

  /** The match a JavaScript regular expression reports: the one starting furthest left. */
  ghost predicate LeftmostMatch(s: string, i: int, f: string, p: int) {
    MatchAt(s, i, f, p) && forall i', f', p' :: 0 <= i' < i ==> !MatchAt(s, i', f', p')
  }

  /** No recognised folder segment occurs anywhere in `s`. */
  ghost predicate FreeOfSegments(s: string) {
    forall i, f :: !SegmentAt(s, i, f)
  }

  predicate NoLineTerminator(t: string) {
    forall j :: 0 <= j < |t| ==> !IsLineTerminator(t[j])
  }

  predicate AllWordChars(t: string) {
    forall j :: 0 <= j < |t| ==> IsWordChar(t[j])
  }

  /** The recognised folder whose segment starts at index `i`, if any. */
  function FolderAt(s: string, i: nat): (f: Option<string>)
    requires i <= |s|
    ensures f.Some? ==> SegmentAt(s, i, f.value)
    ensures f.None? ==> forall g :: !SegmentAt(s, i, g)
  {
    SegmentIsPrefix(s, i, "genres");
    SegmentIsPrefix(s, i, "artists");
    SegmentIsPrefix(s, i, "songs");
    if StartsWith(s[i..], "/genres/") then Some("genres")
    else if StartsWith(s[i..], "/artists/") then Some("artists")
    else if StartsWith(s[i..], "/songs/") then Some("songs")
    else None
  }

  lemma SegmentIsPrefix(s: string, i: nat, f: string)
    requires i <= |s| && IsFolder(f)
    ensures SegmentAt(s, i, f) <==> StartsWith(s[i..], "/" + f + "/")
    ensures "/" + f + "/" == (if f == "genres" then "/genres/" else if f == "artists" then "/artists/" else "/songs/")
  {
    var w := "/" + f + "/";
    if i + |w| <= |s| {
      assert s[i..][..|w|] == s[i..i + |w|];
    }
  }

  /** The index where the maximal run of word characters ending `s` begins. */
  function WordRunStart(s: string): (k: nat)
    ensures k <= |s|
    ensures forall j :: k <= j < |s| ==> IsWordChar(s[j])
    ensures k > 0 ==> !IsWordChar(s[k - 1])
  {
    if |s| == 0 || !IsWordChar(s[|s| - 1]) then |s| else WordRunStart(s[..|s| - 1])
  }

  /** The index of the dot `\.\w+$` matches, if it matches at all; there is at most one. */
  function ExtensionDot(s: string): (p: Option<nat>)
    ensures p.Some? ==> ExtensionAt(s, p.value)
    ensures forall q :: ExtensionAt(s, q) ==> p == Some(q)
  {
    var k := WordRunStart(s);
    if 0 < k < |s| && s[k - 1] == '.' then Some(k - 1) else None
  }

  /** The leftmost start at or after `i` where the pattern matches with extension dot `p`. */
  function ScanFrom(s: string, i: nat, p: nat): (r: Option<(nat, string)>)
    requires i <= |s|
    requires ExtensionAt(s, p)
    ensures r.Some? ==> i <= r.value.0 && MatchAt(s, r.value.0, r.value.1, p)
    ensures r.Some? ==> forall i', f' :: i <= i' < r.value.0 ==> !MatchAt(s, i', f', p)
    ensures r.None? ==> forall i', f' :: i <= i' ==> !MatchAt(s, i', f', p)
    decreases |s| - i
  {
    if i == |s| then None
    else
      match FolderAt(s, i)
      case Some(f) =>
        var k := i + |f| + 2;
        if k < p && NoLineTerminator(s[k..p]) then Some((i, f))
        else
          SegmentUnique(s, i, f);
          ScanFrom(s, i + 1, p)
      case None => ScanFrom(s, i + 1, p)
  }

  /** Group 2 of the delete route's pattern, or `None` when the URL does not match. */
  function ExtractPublicId(url: string): (id: Option<string>)
    ensures id.None? <==> forall i, f, p :: !MatchAt(url, i, f, p)
    ensures id.Some? ==>
      exists i, f, p :: LeftmostMatch(url, i, f, p) && id.value == url[i + |f| + 2..p]
  {
    match ExtensionDot(url)
    case None => None
    case Some(p) =>
      match ScanFrom(url, 0, p)
      case None => None
      case Some((i, f)) =>
        assert LeftmostMatch(url, i, f, p);
        Some(url[i + |f| + 2..p])
  }

  // ---------------------------------------------------------------------------------------------
  // Uniqueness: the pattern's answer is a function of the URL.

  /** The three folder names begin with different letters, so at most one segment starts at `i`. */
  lemma SegmentUnique(s: string, i: int, f: string)
    requires SegmentAt(s, i, f)
    ensures forall g :: SegmentAt(s, i, g) ==> g == f
  {
    forall g | SegmentAt(s, i, g)
      ensures g == f
    {
      assert s[i + 1] == ("/" + f + "/")[1] == f[0];
      assert s[i + 1] == ("/" + g + "/")[1] == g[0];
    }
  }

  /** Every leftmost match yields the same group 2, and `ExtractPublicId` returns it: together
      with the contract of `ExtractPublicId` this characterises the function completely. */
  lemma ExtractsLeftmostGroup(url: string, i: int, f: string, p: int)
    requires LeftmostMatch(url, i, f, p)
    ensures ExtractPublicId(url) == Some(url[i + |f| + 2..p])
  {
    var q := ExtensionDot(url);
    assert q == Some(p);
    var r := ScanFrom(url, 0, p);
    assert r.Some?;
    var (i0, f0) := r.value;
    assert i0 == i;
    SegmentUnique(url, i, f);
    assert f0 == f;
  }

  // ---------------------------------------------------------------------------------------------
  // URLs of the shape the upload route produces: `base/folder/name.ext`.

  lemma FolderLetters(f: string)
    requires IsFolder(f)
    ensures |f| > 0 && AllWordChars(f)
    ensures forall j :: 0 <= j < |f| ==> f[j] != '/' && f[j] != '.'
  {
  }

  /** The only segment an upload-shaped URL can contain is the one its own folder forms, right
      after the base. */
  lemma {:induction false} SegmentsOfUploadUrl(base: string, folder: string, name: string, ext: string, i: int, g: string)
    requires FreeOfSegments(base + "/")
    requires AllWordChars(folder) && AllWordChars(name) && AllWordChars(ext)
    requires SegmentAt(base + "/" + folder + "/" + name + "." + ext, i, g)
    ensures i == |base| && g == folder
  {
    var url := base + "/" + folder + "/" + name + "." + ext;
    var b := |base|;
    var second := b + |folder| + 1;
    FolderLetters(g);
    var w := "/" + g + "/";
    assert url[i..i + |g| + 2] == w;
    assert url[i] == '/' by { assert w[0] == '/'; }
    assert url[i + |g| + 1] == '/' by { assert w[|g| + 1] == '/'; }
    forall j | 0 <= j < |g|
      ensures url[i + 1 + j] == g[j]
    {
      assert url[i + 1 + j] == w[j + 1];
    }
    // The slashes of `url` from the base onwards sit at `b` and `second` only.
    assert url[b] == '/';
    assert url[second] == '/';
    forall j | b < j < |url| && j != second
      ensures url[j] != '/'
    {
      if j < second {
        assert url[j] == folder[j - b - 1];
      } else if j < second + 1 + |name| {
        assert url[j] == name[j - second - 1];
      } else if j == second + 1 + |name| {
        assert url[j] == '.';
      } else {
        assert url[j] == ext[j - second - 2 - |name|];
      }
    }
    if i < b {
      if i + |g| + 1 <= b {
        PrefixSegment(base + "/", folder + "/" + name + "." + ext, i, g);
        assert false;
      } else {
        assert false;
      }
    }
    if i > b {
      assert false;
    }
    if |g| < |folder| {
      assert false;
    }
    if |g| > |folder| {
      assert false;
    }
    forall j | 0 <= j < |g|
      ensures g[j] == folder[j]
    {
      assert url[b + 1 + j] == folder[j];
    }
  }

  /** A segment that lies within `s` is a segment of every extension of `s`. */
  lemma PrefixSegment(s: string, rest: string, i: int, g: string)
    requires 0 <= i && i + |g| + 2 <= |s|
    ensures SegmentAt(s + rest, i, g) ==> SegmentAt(s, i, g)
  {
    assert (s + rest)[i..i + |g| + 2] == s[i..i + |g| + 2];
  }

  /** Round trip with the upload route's naming: a URL `base/f/name.ext` for a recognised folder
      `f` yields exactly `name`, provided the base holds no segment of its own. */
  lemma UploadUrlYieldsName(base: string, folder: string, name: string, ext: string)
    requires IsFolder(folder)
    requires FreeOfSegments(base + "/")
    requires |name| > 0 && AllWordChars(name)
    requires |ext| > 0 && AllWordChars(ext)
    ensures ExtractPublicId(base + "/" + folder + "/" + name + "." + ext) == Some(name)
  {
    var url := base + "/" + folder + "/" + name + "." + ext;
    var b := |base|;
    var k := b + |folder| + 2;
    var p := k + |name|;
    FolderLetters(folder);
    assert url[b..k] == "/" + folder + "/";
    assert SegmentAt(url, b, folder);
    assert url[p] == '.';
    forall j | p < j < |url|
      ensures IsWordChar(url[j])
    {
      assert url[j] == ext[j - p - 1];
    }
    assert ExtensionAt(url, p);
    forall j | k <= j < p
      ensures !IsLineTerminator(url[j])
    {
      assert url[j] == name[j - k];
    }
    assert MatchAt(url, b, folder, p);
    forall i', f', p' | 0 <= i' < b
      ensures !MatchAt(url, i', f', p')
    {
      if SegmentAt(url, i', f') {
        SegmentsOfUploadUrl(base, folder, name, ext, i', f');
      }
    }
    assert LeftmostMatch(url, b, folder, p);
    ExtractsLeftmostGroup(url, b, folder, p);
    assert url[k..p] == name;
  }

  /** A URL `base/folder/name.ext` whose folder is not one of the three recognised ones yields
      no public id at all. */
  lemma ForeignFolderYieldsNothing(base: string, folder: string, name: string, ext: string)
    requires !IsFolder(folder)
    requires FreeOfSegments(base + "/")
    requires AllWordChars(folder) && AllWordChars(name) && AllWordChars(ext)
    ensures ExtractPublicId(base + "/" + folder + "/" + name + "." + ext) == None
  {
    var url := base + "/" + folder + "/" + name + "." + ext;
    forall i, f, p
      ensures !MatchAt(url, i, f, p)
    {
      if SegmentAt(url, i, f) {
        SegmentsOfUploadUrl(base, folder, name, ext, i, f);
      }
    }
  }
}
