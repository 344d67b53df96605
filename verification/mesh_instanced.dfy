/** The instanced mesh's list of per-instance model matrices and the way it
    is cut into chunks of 200 for upload. A matrix is an opaque value `M`;
    `mat4.clone` makes the stored copy independent of the caller's, which
    value semantics give for free. */
module MeshInstanced {

  const ChunkSize: nat := 200

  datatype Mesh<M> = Mesh(name: string, models: seq<M>)

  function Min(a: int, b: int): int { if a <= b then a else b }
  function Max(a: int, b: int): int { if a >= b then a else b }

  /** `new MeshInstanced(name)`. */
  function NewMesh<M>(name: string): (m: Mesh<M>)
    ensures m.models == [] && m.name == name
  {
    Mesh(name, [])
  }

  /** `addInstanceUsingTransform`: one more model, the earlier ones untouched. */
  function AddInstanceUsingTransform<M>(m: Mesh<M>, transform: M): (r: Mesh<M>)
    ensures |r.models| == |m.models| + 1
    ensures r.models[..|m.models|] == m.models && r.models[|m.models|] == transform
    ensures r.name == m.name
  {
    m.(models := m.models + [transform])
  }

  /** `getNumChunks`: `Math.ceil(models.length / 200)`. */
  function NumChunks<M>(m: Mesh<M>): (n: nat)
    ensures n * ChunkSize >= |m.models|
    ensures n > 0 ==> (n - 1) * ChunkSize < |m.models|
    ensures n == 0 <==> |m.models| == 0
  {
    (|m.models| + ChunkSize - 1) / ChunkSize
  }

  /** Where `Array.prototype.slice` resolves an index: negative indices count
      from the end, and every index is clamped to [0, n]. */
  function SliceIndex(i: int, n: nat): (r: nat)
    ensures r <= n
    ensures 0 <= i ==> r == Min(i, n)
    ensures i < 0 ==> r == Max(n + i, 0)
  {
    if i < 0 then (if n + i > 0 then n + i else 0) else if i < n then i else n
  }

  /** `s.slice(start, end)`. */
  function Slice<M>(s: seq<M>, start: int, end: int): (r: seq<M>)
    ensures var a, b := SliceIndex(start, |s|), SliceIndex(end, |s|);
      (a < b ==> r == s[a..b]) && (b <= a ==> r == [])
  {
    var a, b := SliceIndex(start, |s|), SliceIndex(end, |s|);
    if a < b then s[a..b] else []
  }

  /** `getChunkedInstanceModelMatrices(chunk)`: a chunk with a non-negative
      index is the window of at most 200 models starting at `200 * chunk`. */
  function Chunk<M>(m: Mesh<M>, chunk: int): (r: seq<M>)
    ensures 0 <= chunk && chunk * ChunkSize <= |m.models| ==>
      r == m.models[chunk * ChunkSize .. Min((chunk + 1) * ChunkSize, |m.models|)]
    ensures 0 <= chunk && chunk * ChunkSize > |m.models| ==> r == []
    ensures |r| <= ChunkSize
  {
    Slice(m.models, chunk * ChunkSize, Min((chunk + 1) * ChunkSize, |m.models|))
  }

  /** The chunks `0 .. getNumChunks() - 1` are the non-empty ones. */
  lemma ChunkEmptyExactly<M>(m: Mesh<M>, chunk: nat)
    ensures |Chunk(m, chunk)| > 0 <==> chunk < NumChunks(m)
  {
    var n := NumChunks(m);
    if chunk < n {
      assert chunk * ChunkSize <= (n - 1) * ChunkSize;
    } else {
      assert chunk * ChunkSize >= n * ChunkSize;
    }
  }

  /** The first `k` chunks, concatenated in order. */
  function Chunks<M>(m: Mesh<M>, k: nat): seq<M> {
    if k == 0 then [] else Chunks(m, k - 1) + Chunk(m, k - 1)
  }

  lemma {:induction false} ChunksPrefix<M>(m: Mesh<M>, k: nat)
    ensures Chunks(m, k) == m.models[..Min(k * ChunkSize, |m.models|)]
  {
    if k > 0 {
      ChunksPrefix(m, k - 1);
      var lo := Min((k - 1) * ChunkSize, |m.models|);
      var hi := Min(k * ChunkSize, |m.models|);
      assert m.models[..hi] == m.models[..lo] + m.models[lo..hi];
    }
  }

  /** Concatenating chunks `0 .. getNumChunks() - 1` gives back the models
      in order. */
  lemma ChunksReassemble<M>(m: Mesh<M>)
    ensures Chunks(m, NumChunks(m)) == m.models
  {
    ChunksPrefix(m, NumChunks(m));
    assert m.models[..|m.models|] == m.models;
  }

  /** Chunk -1 is empty, but a chunk index of -2 or less counts back from the
      end of the list, as `slice` does with a negative start. */
  lemma NegativeChunk<M>(m: Mesh<M>, chunk: int)
    requires chunk < 0
    ensures chunk == -1 ==> Chunk(m, chunk) == []
    ensures chunk <= -2 ==>
      Chunk(m, chunk) == m.models[Max(|m.models| + chunk * ChunkSize, 0) .. Max(|m.models| + (chunk + 1) * ChunkSize, 0)]
  {
  }
}
