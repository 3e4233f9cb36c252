/** Checking a chunk directory against its manifest. */
module Checking {
  import opened Results
  import opened Bytes
  import opened Gguf
  import opened Bundles
  import opened Manifests
  import opened Routing
  import opened Regions
  import opened Chunker

  datatype VerifyError = Missing | SizeMismatch | HashMismatch | Overrun

  predicate ChunkOk(chunks: Chunks, hash: seq<byte> -> Cid, cid: Cid, size: nat) {
    cid in chunks && |chunks[cid]| == size && hash(chunks[cid]) == cid
  }

  predicate MemberOk(bytes: seq<byte>, hash: seq<byte> -> Cid, m: Member) {
    m.start + m.size <= |bytes| && hash(bytes[m.start..m.start + m.size]) == m.cid
  }

  predicate BundleOk(chunks: Chunks, hash: seq<byte> -> Cid, b: Bundle) {
    ChunkOk(chunks, hash, b.cid, b.size) && forall w | 0 <= w < |b.members| :: MemberOk(chunks[b.cid], hash, b.members[w])
  }

  /** Every chunk is there, has the stated size and hash, and every tensor cut from it has its own hash. */
  predicate Verified(m: Manifest, chunks: Chunks, hash: seq<byte> -> Cid)
  {
    && ChunkOk(chunks, hash, m.headerCid, m.headerSize)
    && forall b | 0 <= b < |m.bundles| :: BundleOk(chunks, hash, m.bundles[b])
  }

  method CheckChunk(chunks: Chunks, hash: seq<byte> -> Cid, cid: Cid, size: nat) returns (r: Result<seq<byte>, VerifyError>)
    ensures r.Ok? <==> ChunkOk(chunks, hash, cid, size)
    ensures r.Ok? ==> r.value == chunks[cid]
  {
    if cid !in chunks {
      return Err(Missing);
    }
    var bytes := chunks[cid];
    if |bytes| != size {
      return Err(SizeMismatch);
    }
    if hash(bytes) != cid {
      return Err(HashMismatch);
    }
    return Ok(bytes);
  }

  method VerifyChunks(m: Manifest, chunks: Chunks, hash: seq<byte> -> Cid) returns (r: Result<(), VerifyError>)
    ensures r.Ok? <==> Verified(m, chunks, hash)
    ensures r.Ok? <==>
      && m.headerCid in chunks && |chunks[m.headerCid]| == m.headerSize && hash(chunks[m.headerCid]) == m.headerCid
      && forall b | b in m.bundles ::
           && b.cid in chunks && |chunks[b.cid]| == b.size && hash(chunks[b.cid]) == b.cid
           && forall t | t in b.members ::
                t.start + t.size <= b.size && hash(chunks[b.cid][t.start..t.start + t.size]) == t.cid
  {
    var _ :- CheckChunk(chunks, hash, m.headerCid, m.headerSize);
    for b := 0 to |m.bundles|
      invariant forall c | 0 <= c < b :: BundleOk(chunks, hash, m.bundles[c])
    {
      var bundle := m.bundles[b];
      var bytes :- CheckChunk(chunks, hash, bundle.cid, bundle.size);
      for w := 0 to |bundle.members|
        invariant forall v | 0 <= v < w :: MemberOk(bytes, hash, bundle.members[v])
      {
        var member := bundle.members[w];
        if member.start + member.size > |bytes| {
          assert !MemberOk(bytes, hash, member);
          return Err(Overrun);
        }
        if hash(bytes[member.start..member.start + member.size]) != member.cid {
          assert !MemberOk(bytes, hash, member);
          return Err(HashMismatch);
        }
      }
    }
    return Ok(());
  }

  ghost predicate CollisionFree(hash: seq<byte> -> Cid, produced: set<seq<byte>>) {
    forall x, y | x in produced && y in produced && hash(x) == hash(y) :: x == y
  }

  lemma BundleIsProduced(ts: seq<Tensor>, datas: seq<seq<byte>>, order: seq<Kind>, b: nat)
    requires |datas| == |ts| && b < |order|
    ensures BundleData(ts, datas, order[b]) in BundleSet(ts, datas, order)
  {
    assert order[b] in order;
  }

  /** What the chunker stored for a bundle is what the manifest says it is. */
  lemma FindsBundle(m: Manifest, chunks: Chunks, hash: seq<byte> -> Cid, bytes: seq<byte>, h: Header, datas: seq<seq<byte>>, b: nat)
    requires Describes(m, bytes, h, datas, hash) && b < |m.bundles|
    requires Named(chunks, hash, Produced(bytes, h, datas)) && CollisionFree(hash, Produced(bytes, h, datas))
    ensures var order := KindOrder(KindsOf(h.tensors), |h.tensors|);
      && |order| == |m.bundles|
      && m.bundles[b] == BundleOf(hash, h.tensors, datas, order[b], Matching(KindsOf(h.tensors), order[b], |h.tensors|))
      && m.bundles[b].cid in chunks && chunks[m.bundles[b].cid] == BundleData(h.tensors, datas, order[b])
  {
    hide Named, Derived, KindOrder, Matching, MembersOf, LayerCount;
    var order := KindOrder(KindsOf(h.tensors), |h.tensors|);
    BundleIsProduced(h.tensors, datas, order, b);
    NamedFinds(chunks, hash, Produced(bytes, h, datas), BundleData(h.tensors, datas, order[b]));
  }

  /** Verification accepts what the chunker wrote. */
  lemma VerifiesOwnOutput(m: Manifest, chunks: Chunks, hash: seq<byte> -> Cid, bytes: seq<byte>, h: Header, datas: seq<seq<byte>>)
    requires Describes(m, bytes, h, datas, hash)
    requires Named(chunks, hash, Produced(bytes, h, datas)) && CollisionFree(hash, Produced(bytes, h, datas))
    ensures Verified(m, chunks, hash)
  {
    hide Named, CollisionFree, KindOrder, MembersOf, LayerCount, BundleBytes, BundleSet;
    FindsHeader(m, chunks, hash, bytes, h, datas);
    forall b | 0 <= b < |m.bundles|
      ensures BundleOk(chunks, hash, m.bundles[b])
    {
      FindsBundle(m, chunks, hash, bytes, h, datas, b);
      var kind := KindOrder(KindsOf(h.tensors), |h.tensors|)[b];
      var idx := Matching(KindsOf(h.tensors), kind, |h.tensors|);
      forall w | 0 <= w < |m.bundles[b].members|
        ensures MemberOk(chunks[m.bundles[b].cid], hash, m.bundles[b].members[w])
      {
        MemberCut(hash, h.tensors, datas, idx, w);
      }
    }
  }

  lemma FindsHeader(m: Manifest, chunks: Chunks, hash: seq<byte> -> Cid, bytes: seq<byte>, h: Header, datas: seq<seq<byte>>)
    requires Describes(m, bytes, h, datas, hash)
    requires Named(chunks, hash, Produced(bytes, h, datas)) && CollisionFree(hash, Produced(bytes, h, datas))
    ensures m.headerCid in chunks && chunks[m.headerCid] == bytes[..DataStart(h)] && ChunkOk(chunks, hash, m.headerCid, m.headerSize)
  {
    NamedFinds(chunks, hash, Produced(bytes, h, datas), bytes[..DataStart(h)]);
  }
}
