/** From files to models: a stitched file holds, as its layers 0, 1, ..., exactly the source's layers
    of the range. This is what lets a peer that serves a stitched file stand in for the full one. */
module Loading {
  import opened Results
  import opened Bytes
  import opened Gguf
  import opened Bundles
  import opened Manifests
  import opened Stitching
  import opened Slices
  import opened Placement
  import opened Transformer

  /** One tensor of a block, by the part of its name behind the block number. */
  datatype Weight = Weight(rest: seq<byte>, shape: seq<nat>, dtype: nat, data: seq<byte>)

  /** The bytes of a tensor that its shape and type call for. */
  type Trim = (seq<nat>, nat, seq<byte>) -> seq<byte>

  function Trimmed(trim: Trim, shape: seq<nat>, dtype: nat, data: seq<byte>): seq<byte> {
    trim(shape, dtype, data)
  }

  /** Padding behind a tensor does not matter. */
  ghost predicate IgnoresPadding(trim: Trim) {
    forall shape, dtype, data, n: nat :: Trimmed(trim, shape, dtype, data + Zeros(n)) == Trimmed(trim, shape, dtype, data)
  }

  function RestOf(name: seq<byte>): seq<byte> {
    if BLK <= name then FromDot(name) else []
  }

  predicate OfLayer(t: Tensor, layer: nat) {
    BlockOf(t.name) == Some(layer)
  }

  function WeightOf(t: Tensor, data: seq<byte>, trim: Trim): Weight {
    Weight(RestOf(t.name), t.shape, t.dtype, Trimmed(trim, t.shape, t.dtype, data))
  }

  /** Everything a file holds of a layer. */
  function LayerWeights(ts: seq<Tensor>, datas: seq<seq<byte>>, trim: Trim, layer: nat): set<Weight>
    requires |datas| == |ts|
  {
    set w | 0 <= w < |ts| && OfLayer(ts[w], layer) :: WeightOf(ts[w], datas[w], trim)
  }

  /** A tensor of the slice is the source's tensor, `start` layers further on. */
  lemma SameWeight(src: Tensor, t: Tensor, data: seq<byte>, n: nat, trim: Trim, start: nat, layer: nat)
    requires t.name == Rename(src.name, start) && t.shape == src.shape && t.dtype == src.dtype
    requires CanonicalName(src.name) && IgnoresPadding(trim)
    requires BlockOf(src.name).Some? ==> start <= BlockOf(src.name).value
    ensures OfLayer(t, layer) <==> OfLayer(src, start + layer)
    ensures OfLayer(t, layer) ==> WeightOf(t, data + Zeros(n), trim) == WeightOf(src, data, trim)
  {
    hide Rename, BlockOf, FromDot, Zeros, Canonical;
    if BlockOf(src.name).Some? {
      RenameBlock(src.name, start);
      BlockHasPrefix(src.name);
      BlockHasPrefix(t.name);
    } else {
      KeepsOthers(src.name, start);
    }
    assert Trimmed(trim, t.shape, t.dtype, data + Zeros(n)) == Trimmed(trim, t.shape, t.dtype, data);
  }

  lemma BlockHasPrefix(name: seq<byte>)
    requires BlockOf(name).Some?
    ensures BLK <= name
  {
  }

  /** Every source tensor of a layer in the range is in the slice. */
  lemma LayerIsTaken(ts: seq<Tensor>, r: Range, j: nat) returns (w: nat)
    requires j < |ts| && BlockOf(ts[j].name).Some? && r.start <= BlockOf(ts[j].name).value < r.end
    ensures w < |SliceIdx(ts, r)| && SliceIdx(ts, r)[w] == j
  {
    hide SliceIdx, BlockOf, Classify;
    ClassifyBlock(ts[j].name);
    SliceIdxCounts(ts, r, j);
    assert j in multiset(SliceIdx(ts, r));
    w :| 0 <= w < |SliceIdx(ts, r)| && SliceIdx(ts, r)[w] == j;
  }

  /** `s` lists the slice's tensors, renumbered. */
  ghost predicate Renumbers(s: seq<Tensor>, ts: seq<Tensor>, r: Range) {
    && |s| == |SliceIdx(ts, r)|
    && forall w | 0 <= w < |s| ::
         var src := ts[SliceIdx(ts, r)[w]];
         s[w].name == Rename(src.name, r.start) && s[w].shape == src.shape && s[w].dtype == src.dtype
  }

  /** Layer `layer` of the slice is layer `start + layer` of the source. */
  lemma SliceLayer(s: seq<Tensor>, ts: seq<Tensor>, datas: seq<seq<byte>>, r: Range, a: nat, trim: Trim, layer: nat)
    requires |datas| == |ts| && Renumbers(s, ts, r) && IgnoresPadding(trim) && r.start + layer < r.end
    requires forall j | 0 <= j < |ts| :: CanonicalName(ts[j].name)
    ensures LayerWeights(s, PaddedDatas(datas, SliceIdx(ts, r), a), trim, layer) == LayerWeights(ts, datas, trim, r.start + layer)
  {
    hide SliceIdx, CanonicalName, Rename, IgnoresPadding, OfLayer, WeightOf;
    var idx := SliceIdx(ts, r);
    var padded := PaddedDatas(datas, idx, a);
    var here, there := LayerWeights(s, padded, trim, layer), LayerWeights(ts, datas, trim, r.start + layer);
    forall w | 0 <= w < |s|
      ensures OfLayer(s[w], layer) <==> OfLayer(ts[idx[w]], r.start + layer)
      ensures OfLayer(s[w], layer) ==> WeightOf(s[w], padded[w], trim) == WeightOf(ts[idx[w]], datas[idx[w]], trim)
    {
      TakenStartsLower(ts, r, w);
      SameWeight(ts[idx[w]], s[w], datas[idx[w]], AlignUp(|datas[idx[w]]|, a) - |datas[idx[w]]|, trim, r.start, layer);
    }
    forall x | x in there
      ensures x in here
    {
      var j :| 0 <= j < |ts| && OfLayer(ts[j], r.start + layer) && x == WeightOf(ts[j], datas[j], trim);
      OfThatLayer(ts[j], r.start + layer);
      var w := LayerIsTaken(ts, r, j);
      assert OfLayer(s[w], layer);
    }
  }

  lemma OfThatLayer(t: Tensor, layer: nat)
    requires OfLayer(t, layer)
    ensures BlockOf(t.name).Some? && BlockOf(t.name).value == layer
  {
  }

  // ---------- as models ----------

  /** How a backend turns the weights of a layer into what the layer computes. */
  type Interpret = (set<Weight>, seq<Cell>, nat, Row) -> Row

  /** The weights of a file's `n` layers. */
  function Layers(ts: seq<Tensor>, datas: seq<seq<byte>>, trim: Trim, n: nat): (layers: seq<set<Weight>>)
    requires |datas| == |ts|
    ensures |layers| == n
  {
    seq(n, i requires 0 <= i < n && |datas| == |ts| => LayerWeights(ts, datas, trim, i))
  }

  /** The model a backend makes of them. */
  function Loaded(layers: seq<set<Weight>>, interpret: Interpret, embed: Token -> Row, head: Row -> Logits): Model
  {
    Model(|layers|, embed,
          (i: nat, cells: seq<Cell>, p: nat, x: Row) => interpret(if i < |layers| then layers[i] else {}, cells, p, x),
          head)
  }

  /** A tensor is among the weights of the layer its name gives, under the part of the name behind the number. */
  lemma WeightIn(ts: seq<Tensor>, datas: seq<seq<byte>>, trim: Trim, w: nat, d: seq<byte>, rest: seq<byte>)
    requires |datas| == |ts| && w < |ts| && BlockShape(ts[w].name, d, rest) && Number(d)
    ensures Weight(rest, ts[w].shape, ts[w].dtype, trim(ts[w].shape, ts[w].dtype, datas[w]))
            in LayerWeights(ts, datas, trim, Places(NoSign(d)))
  {
    hide Number, Places, ParseU32, UpToDot;
    BlockParts(ts[w].name, d, rest);
  }

  lemma BlockParts(name: seq<byte>, d: seq<byte>, rest: seq<byte>)
    requires BlockShape(name, d, rest)
    ensures BLK <= name && FromDot(name) == rest
    ensures BlockOf(name).Some? <==> Number(d)
    ensures Number(d) ==> BlockOf(name) == Some(Places(NoSign(d)))
  {
    hide Number, Places, ParseU32, UpToDot;
    ShapeParts(name, d, rest);
    ParsesNumbers(d);
    NameParts(name);
    Names();
    SameParts(d, d, rest, FromDot(name));
  }

  /** And nothing else is. */
  lemma WeightFrom(ts: seq<Tensor>, datas: seq<seq<byte>>, trim: Trim, layer: nat, x: Weight)
    returns (w: nat, d: seq<byte>, rest: seq<byte>)
    requires |datas| == |ts| && x in LayerWeights(ts, datas, trim, layer)
    ensures w < |ts| && BlockShape(ts[w].name, d, rest) && Number(d) && Places(NoSign(d)) == layer
    ensures x == Weight(rest, ts[w].shape, ts[w].dtype, trim(ts[w].shape, ts[w].dtype, datas[w]))
  {
    hide Number, Places, ParseU32, UpToDot, BlockShape;
    w :| 0 <= w < |ts| && OfLayer(ts[w], layer) && x == WeightOf(ts[w], datas[w], trim);
    d, rest := NamedBlock(ts[w].name);
    BlockParts(ts[w].name, d, rest);
  }

  lemma NamedBlock(name: seq<byte>) returns (d: seq<byte>, rest: seq<byte>)
    requires BLK <= name
    ensures BlockShape(name, d, rest)
  {
    Names();
    NameParts(name);
    d, rest := UpToDot(name[4..]), FromDot(name);
  }

  /** A loaded file computes a layer from that layer's weights. */
  lemma LoadedIs(ts: seq<Tensor>, datas: seq<seq<byte>>, trim: Trim, n: nat, interpret: Interpret, embed: Token -> Row,
                 head: Row -> Logits, i: nat, cells: seq<Cell>, p: nat, x: Row)
    requires |datas| == |ts| && i < n
    ensures var m := Loaded(Layers(ts, datas, trim, n), interpret, embed, head);
            && m.nLayers == n && m.embed == embed && m.head == head
            && m.layer(i, cells, p, x) == interpret(LayerWeights(ts, datas, trim, i), cells, p, x)
  {
    hide LayerWeights;
  }

  /** A stitched file serves its range as the source file would: its layers 0, 1, ... compute what the
      source's layers from the start of the range on compute, whatever a backend makes of weights. */
  lemma StitchedServes(file: seq<byte>, m: Manifest, h: Header, datas: seq<seq<byte>>, r: Range, trim: Trim,
                       interpret: Interpret, embed: Token -> Row, head: Row -> Logits)
    requires m.architecture.Some? && ValidRange(m.nLayers, r) && |datas| == |h.tensors|
    requires IsSliceOf(file, m, h, datas, r) && IgnoresPadding(trim)
    requires forall j | 0 <= j < |h.tensors| :: CanonicalName(h.tensors[j].name)
    ensures var s := ParseHeader(file).value;
      var padded := PaddedDatas(datas, SliceIdx(h.tensors, r), Alignment(m));
      && |padded| == |s.tensors|
      && SameLayers(Loaded(Layers(s.tensors, padded, trim, r.end - r.start), interpret, embed, head), 0,
                    Loaded(Layers(h.tensors, datas, trim, m.nLayers), interpret, embed, head), r.start, r.end - r.start)
  {
    hide ParseHeader, SliceIdx, CanonicalName, Rename, IgnoresPadding, LayerWeights, PaddedDatas, NewKvs;
    var s := ParseHeader(file).value;
    var idx := SliceIdx(h.tensors, r);
    assert Renumbers(s.tensors, h.tensors, r);
    PaddedCount(datas, idx, Alignment(m));
    forall i | 0 <= i < r.end - r.start
      ensures LayerWeights(s.tensors, PaddedDatas(datas, idx, Alignment(m)), trim, i)
              == LayerWeights(h.tensors, datas, trim, r.start + i)
    {
      SliceLayer(s.tensors, h.tensors, datas, r, Alignment(m), trim, i);
    }
  }

  lemma PaddedCount(datas: seq<seq<byte>>, idx: seq<nat>, a: nat)
    requires forall w | 0 <= w < |idx| :: idx[w] < |datas|
    ensures |PaddedDatas(datas, idx, a)| == |idx|
  {
  }
}
