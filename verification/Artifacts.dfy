/** Artifact files: what a reference records about its file, and the check that the file has not drifted since. */
module Artifacts {
  import opened Results
  import opened Json
  import opened DagIo
  import opened Infixes

  type FileSize = n: nat | n < 0x1_0000_0000_0000_0000

  /** What the runtime reads off a file: the SHA-256 of its content and its size. */
  datatype FileFacts = FileFacts(sha256: string, size: FileSize)

  /** The readable files at some moment, by path. */
  type Files = map<string, FileFacts>

  /** The path of a reference to a local file; other schemes have none. */
  function LocalPath(uri: string): Option<string> {
    if "file://" <= uri then Some(uri[7..])
    else if FindInfix(uri, "://", 0).Some? then None
    else Some(uri)
  }

  function ExpectedSha256(a: ArtifactRef): Option<string> {
    if "sha256" in a.metadata && a.metadata["sha256"].Str? then Some(a.metadata["sha256"].s) else None
  }

  /** A size is recorded only as an unsigned 64-bit number. */
  function ExpectedSize(a: ArtifactRef): Option<nat> {
    if "size_bytes" in a.metadata && a.metadata["size_bytes"].Num? && 0 <= a.metadata["size_bytes"].n < 0x1_0000_0000_0000_0000 then
      Some(a.metadata["size_bytes"].n)
    else None
  }

  /** The integrity check of one reference against the files. */
  predicate Intact(files: Files, a: ArtifactRef) {
    var sha256, size := ExpectedSha256(a), ExpectedSize(a);
    if sha256.None? && size.None? then true
    else
      match LocalPath(a.uri)
      case None => true
      case Some(path) =>
        && path in files
        && (size.Some? ==> files[path].size == size.value)
        && (sha256.Some? ==> files[path].sha256 == sha256.value)
  }

  /** Which uris name a local file, and which file. */
  lemma LocalPathMeans(uri: string)
    ensures forall path :: uri == "file://" + path ==> LocalPath(uri) == Some(path)
    ensures !("file://" <= uri) ==>
      LocalPath(uri) == if exists i :: OccursAt(uri, "://", i) then None else Some(uri)
  {
    if !("file://" <= uri) {
      FindsFirst(uri, "://", 0);
    }
  }

  /** The check in the terms of the metadata: a reference that records neither a hash nor a size passes, so does one
      to no local file, and any other needs its file to have every recorded hash and size. */
  lemma IntactMeans(files: Files, a: ArtifactRef)
    ensures var hash := "sha256" in a.metadata && a.metadata["sha256"].Str?;
      var size := "size_bytes" in a.metadata && a.metadata["size_bytes"].Num? && 0 <= a.metadata["size_bytes"].n <= 0xFFFF_FFFF_FFFF_FFFF;
      Intact(files, a) <==>
        || (!hash && !size)
        || LocalPath(a.uri).None?
        || (LocalPath(a.uri).value in files
            && (hash ==> files[LocalPath(a.uri).value].sha256 == a.metadata["sha256"].s)
            && (size ==> files[LocalPath(a.uri).value].size == a.metadata["size_bytes"].n))
  {
    hide LocalPath;
  }

  /** The reference the runtime makes to a file it has just written; an unreadable file leaves no record. */
  function RefTo(files: Files, path: string): ArtifactRef {
    ArtifactRef(path, if path in files then map["sha256" := Str(files[path].sha256), "size_bytes" := Num(files[path].size)] else map[])
  }

  /** A reference to a local file passes the check later exactly when the file then reads as it did when it was
      referenced, or could not be read then. */
  lemma IntactUntilDrift(before: Files, after: Files, path: string)
    requires LocalPath(path) == Some(path)
    ensures Intact(after, RefTo(before, path)) <==> path !in before || (path in after && after[path] == before[path])
  {
    var a := RefTo(before, path);
    if path in before {
      assert a.metadata["sha256"] == Str(before[path].sha256) && a.metadata["size_bytes"] == Num(before[path].size);
    }
  }
}
