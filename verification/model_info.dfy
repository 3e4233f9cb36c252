/** What the metadata of a file says about the model in it. */
module ModelInfo {
  import opened Results
  import opened Bytes
  import opened Gguf
  import opened Printing
  import opened Reader

  const ARCHITECTURE: seq<byte> := Text("general.architecture")
  const BLOCK_COUNT: seq<byte> := Text(".block_count")

  predicate EndsWith(b: seq<byte>, suffix: seq<byte>) {
    |suffix| <= |b| && b[|b| - |suffix|..] == suffix
  }

  /** The text of a string value, if it is one. */
  function ReadText(value: seq<byte>): Option<seq<byte>>
  {
    if |value| < 8 || 8 + Val(value[..8]) > |value| then None
    else if Utf8(value[8..8 + Val(value[..8])]) then Some(value[8..8 + Val(value[..8])])
    else None
  }

  /** The last architecture entry wins, even when it is not valid text. */
  function ArchOf(kvs: seq<Kv>): Option<seq<byte>>
  {
    if kvs == [] then None
    else
      var last := kvs[|kvs| - 1];
      if last.ty == TY_STRING && last.key == ARCHITECTURE then ReadText(last.value) else ArchOf(kvs[..|kvs| - 1])
  }

  /** The last 32-bit entry whose key ends in the block-count suffix wins. */
  function BlockCountOf(kvs: seq<Kv>): Option<nat>
  {
    if kvs == [] then None
    else
      var last := kvs[|kvs| - 1];
      if last.ty == TY_U32 && EndsWith(last.key, BLOCK_COUNT) then Some(Val(last.value)) else BlockCountOf(kvs[..|kvs| - 1])
  }

  lemma OneMoreEntry(kvs: seq<Kv>, kv: Kv)
    ensures ArchOf(kvs + [kv]) == if kv.ty == TY_STRING && kv.key == ARCHITECTURE then ReadText(kv.value) else ArchOf(kvs)
    ensures BlockCountOf(kvs + [kv])
            == if kv.ty == TY_U32 && EndsWith(kv.key, BLOCK_COUNT) then Some(Val(kv.value)) else BlockCountOf(kvs)
  {
    assert (kvs + [kv])[..|kvs|] == kvs;
  }

  method ReadModelInfo(f: File, ghost h: Header) returns (arch: Option<seq<byte>>, blockCount: Option<nat>)
    requires IsOpen(f, h)
    ensures arch == ArchOf(h.kvs) && blockCount == BlockCountOf(h.kvs)
  {
    hide IsOpen, GoodKv, EncodeKv, ReadText, Val, EndsWith, ArchOf, BlockCountOf, ParseHeader;
    var listed := KvEntries(f, h);
    var entries := listed.value;
    arch, blockCount := None, None;
    NoEntries();
    for i := 0 to |entries|
      invariant arch == ArchOf(h.kvs[..i]) && blockCount == BlockCountOf(h.kvs[..i])
    {
      var e := entries[i];
      assert Locates(e, f.bytes, h.kvs[i]);
      var value := f.bytes[e.valueStart..e.end];
      assert h.kvs[..i + 1] == h.kvs[..i] + [h.kvs[i]];
      OneMoreEntry(h.kvs[..i], h.kvs[i]);
      if e.ty == TY_STRING && e.key == ARCHITECTURE {
        arch := ReadText(value);
      } else if e.ty == TY_U32 && EndsWith(e.key, BLOCK_COUNT) {
        FourBytes(h.kvs[i]);
        assert value[..4] == value;
        blockCount := Some(Val(value[..4]));
      }
    }
    assert h.kvs[..|h.kvs|] == h.kvs;
  }

  lemma NoEntries()
    ensures ArchOf([]) == None && BlockCountOf([]) == None
  {
  }
}
