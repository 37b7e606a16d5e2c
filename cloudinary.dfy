/** CloudinaryPublicIDFromURL (pkg/config/cloudinary.go): the public ID of
    an uploaded image is the path after the `upload` segment and the version
    segment that follows it, without its file extension. */
module Cloudinary {
  import opened Text

  const UploadSegment: string := "upload"

  /** The index of the first segment equal to "upload", or -1. */
  function UploadIndex(parts: seq<string>): (idx: int)
    ensures -1 <= idx < |parts|
    ensures idx >= 0 ==> parts[idx] == UploadSegment
    ensures forall k :: 0 <= k < |parts| && (idx == -1 || k < idx) ==> parts[k] != UploadSegment
    decreases |parts|
  {
    if |parts| == 0 then -1
    else if parts[0] == UploadSegment then 0
    else
      var rest := UploadIndex(parts[1..]);
      if rest == -1 then -1 else rest + 1
  }

  /** The public ID read from the "/"-separated segments of a URL: the
      segments after the first "upload" and the one following it, joined,
      without the extension; "" when there are not two segments after it. */
  function PathAfterUpload(parts: seq<string>): string {
    var idx := UploadIndex(parts);
    if idx == -1 || idx + 2 >= |parts| then ""
    else
      var path := Join(parts[idx + 2..], '/');
      TrimSuffix(path, Ext(path))
  }

  /** The public ID of a delivery URL, "" when it has none. */
  function PublicID(imageURL: string): string {
    if imageURL == "" then "" else PathAfterUpload(Split(imageURL, '/'))
  }

  /** The empty-URL check changes nothing: the empty URL splits into one
      empty segment, which holds no "upload". */
  lemma EmptyURLCheckRedundant(imageURL: string)
    ensures PublicID(imageURL) == PathAfterUpload(Split(imageURL, '/'))
  {
    if imageURL == "" {
      assert Split(imageURL, '/') == [""];
    }
  }

  /** The search for the first "upload" segment, a loop that stops at the
      first match as the source's does. */
  method CloudinaryPublicIDFromURL(imageURL: string) returns (id: string)
    ensures id == PublicID(imageURL)
  {
    if imageURL == "" {
      return "";
    }
    var parts := Split(imageURL, '/');
    var idx := -1;
    var i := 0;
    while i < |parts|
      invariant 0 <= i <= |parts|
      invariant idx == -1 ==> forall k :: 0 <= k < i ==> parts[k] != UploadSegment
      invariant idx != -1 ==> idx == UploadIndex(parts)
      decreases if idx == -1 then |parts| - i else 0
    {
      if parts[i] == UploadSegment {
        idx := i;
        break;
      }
      i := i + 1;
    }
    assert idx == UploadIndex(parts);
    if idx == -1 || idx + 2 >= |parts| {
      assert PathAfterUpload(parts) == "";
      return "";
    }
    var path := Join(parts[idx + 2..], '/');
    id := TrimSuffix(path, Ext(path));
    assert id == PathAfterUpload(parts);
  }

  /** A URL with no "upload" segment has no public ID. */
  lemma NoUploadNoID(imageURL: string)
    requires forall k :: 0 <= k < |Split(imageURL, '/')| ==> Split(imageURL, '/')[k] != UploadSegment
    ensures PublicID(imageURL) == ""
  {
  }

  /** Fewer than two segments after the first "upload": no public ID. */
  lemma ShortTailNoID(prefix: seq<string>, tail: seq<string>)
    requires forall k :: 0 <= k < |prefix| ==> prefix[k] != UploadSegment && '/' !in prefix[k]
    requires forall k :: 0 <= k < |tail| ==> '/' !in tail[k]
    requires |tail| < 2
    ensures PublicID(Join(prefix + [UploadSegment] + tail, '/')) == ""
  {
    var parts := prefix + [UploadSegment] + tail;
    assert parts == prefix + ([UploadSegment] + tail);
    UploadAt(prefix, [UploadSegment] + tail);
    assert PathAfterUpload(parts) == "";
    NoSlashInConcat(prefix, [UploadSegment]);
    NoSlashInConcat(prefix + [UploadSegment], tail);
    SplitJoin(parts, '/');
  }

  /** Segments without a '/' stay so when concatenated. */
  lemma NoSlashInConcat(a: seq<string>, b: seq<string>)
    requires forall k :: 0 <= k < |a| ==> '/' !in a[k]
    requires forall k :: 0 <= k < |b| ==> '/' !in b[k]
    ensures forall k :: 0 <= k < |a + b| ==> '/' !in (a + b)[k]
  {
    forall k | 0 <= k < |a + b|
      ensures '/' !in (a + b)[k]
    {
      if k >= |a| {
        assert (a + b)[k] == b[k - |a|];
      }
    }
  }

  /** For the segments of a URL, the path after "upload" and the version:
      the first "upload" counts, and later ones are part of the path. */
  lemma PublicIDOfSegments(prefix: seq<string>, version: string, rest: seq<string>)
    requires forall k :: 0 <= k < |prefix| ==> prefix[k] != UploadSegment && '/' !in prefix[k]
    requires '/' !in version && |rest| >= 1
    requires forall k :: 0 <= k < |rest| ==> '/' !in rest[k]
    ensures PublicID(Join(prefix + [UploadSegment, version] + rest, '/'))
            == TrimSuffix(Join(rest, '/'), Ext(Join(rest, '/')))
  {
    var parts := prefix + [UploadSegment, version] + rest;
    assert parts == prefix + ([UploadSegment, version] + rest);
    UploadAt(prefix, [UploadSegment, version] + rest);
    assert parts[|prefix| + 2..] == rest;
    assert PathAfterUpload(parts) == TrimSuffix(Join(rest, '/'), Ext(Join(rest, '/')));
    NoSlashInConcat(prefix, [UploadSegment, version]);
    NoSlashInConcat(prefix + [UploadSegment, version], rest);
    SplitJoin(parts, '/');
    EmptyURLCheckRedundant(Join(parts, '/'));
  }

  /** The extension at the last dot of the last path element is removed,
      and nothing else. */
  lemma PublicIDStripsExtension(prefix: seq<string>, version: string, dirs: seq<string>,
                                name: string, ext: string)
    requires forall k :: 0 <= k < |prefix| ==> prefix[k] != UploadSegment && '/' !in prefix[k]
    requires '/' !in version && '/' !in name
    requires forall k :: 0 <= k < |dirs| ==> '/' !in dirs[k]
    requires |ext| >= 1 && ext[0] == '.' && '.' !in ext[1..] && '/' !in ext
    ensures PublicID(Join(prefix + [UploadSegment, version] + dirs + [name + ext], '/'))
            == Join(dirs + [name], '/')
  {
    var rest := dirs + [name + ext];
    assert prefix + [UploadSegment, version] + dirs + [name + ext] == prefix + [UploadSegment, version] + rest;
    assert forall k :: 0 <= k < |rest| ==> '/' !in rest[k];
    PublicIDOfSegments(prefix, version, rest);
    var plain := dirs + [name];
    assert plain[..|plain| - 1] == dirs && plain[|plain| - 1] == name;
    JoinExtendLast(plain, ext, '/');
    ExtOfDotted(Join(plain, '/'), ext);
  }

  /** A last path element without a dot is kept whole. */
  lemma PublicIDWithoutExtension(prefix: seq<string>, version: string, rest: seq<string>)
    requires forall k :: 0 <= k < |prefix| ==> prefix[k] != UploadSegment && '/' !in prefix[k]
    requires '/' !in version && |rest| >= 1
    requires forall k :: 0 <= k < |rest| ==> '/' !in rest[k]
    requires '.' !in rest[|rest| - 1]
    ensures PublicID(Join(prefix + [UploadSegment, version] + rest, '/')) == Join(rest, '/')
  {
    PublicIDOfSegments(prefix, version, rest);
    JoinLast(rest, '/');
    var dir := if |rest| == 1 then [] else Join(rest[..|rest| - 1], '/') + ['/'];
    ExtOfPlain(dir, rest[|rest| - 1]);
  }

  /** The first "upload" is found after a prefix without one. */
  lemma UploadAt(prefix: seq<string>, rest: seq<string>)
    requires forall k :: 0 <= k < |prefix| ==> prefix[k] != UploadSegment
    requires |rest| >= 1 && rest[0] == UploadSegment
    ensures UploadIndex(prefix + rest) == |prefix|
  {
    var parts := prefix + rest;
    assert parts[|prefix|] == UploadSegment;
    assert forall k :: 0 <= k < |prefix| ==> parts[k] == prefix[k];
  }
}
