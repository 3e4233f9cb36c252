/** What a model is published as: a manifest naming content-addressed chunks. */
module Manifests {
  import opened Results
  import opened Bytes

  type Cid = string

  /** One tensor's place in its bundle. */
  datatype Member = Member(name: seq<byte>, shape: seq<nat>, dtype: nat, offset: nat, cid: Cid, size: nat, start: nat)

  /** One fetchable unit: the tensors of a block, the embedding or the head, end to end. */
  datatype Bundle = Bundle(name: seq<byte>, cid: Cid, size: nat, members: seq<Member>)

  datatype Manifest = Manifest(
    architecture: Option<seq<byte>>, nLayers: nat,
    version: nat, alignment: nat, dataOffset: nat, nKv: nat, nTensors: nat,
    headerCid: Cid, headerSize: nat, bundles: seq<Bundle>)

  type Chunks = map<Cid, seq<byte>>
}
