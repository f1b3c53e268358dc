/** Named values and artifact references that flow between nodes. */
module DagIo {
  import opened Json

  datatype ArtifactRef = ArtifactRef(uri: string, metadata: map<string, Json>)

  datatype Io = Io(values: map<string, Json>, artifacts: map<string, ArtifactRef>)

  const EMPTY := Io(map[], map[])

  function Merge(base: Io, other: Io): Io {
    Io(base.values + other.values, base.artifacts + other.artifacts)
  }

  function WithValue(io: Io, key: string, value: Json): Io {
    io.(values := io.values[key := value])
  }

  predicate IsTrue(io: Io, key: string) {
    key in io.values && io.values[key] == Bool(true)
  }

  function Uris(artifacts: map<string, ArtifactRef>): map<string, string> {
    map k | k in artifacts :: artifacts[k].uri
  }
}
