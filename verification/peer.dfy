/** The forward listener's session loop. */
module Peers {
  import opened Results
  import opened Transformer
  import opened Backends
  import opened Pipeline

  /** What a host has on disk: the full file, or pieces from which it stitches a file for a range of
      layers, numbered from 0, if it can. */
  datatype OnDisk = Full(model: Model) | Pieces(stitch: (nat, nat) -> Option<Model>)

  /** What a host has, whether the slice asked of it is announcing, and the context length it loads with. */
  datatype Listener = Listener(disk: OnDisk, announcing: bool, nCtx: CtxLen)

  /** The model a host loads for a range, if it loads one. */
  function LoadedFor(host: Listener, lo: nat, hi: nat): Option<Model> {
    match host.disk
    case Full(m) => Some(m)
    case Pieces(stitch) => stitch(lo, hi)
  }

  /** Subtracted from real layer numbers: nothing for a full file. */
  function OffsetOf(host: Listener, lo: nat): nat {
    if host.disk.Full? then 0 else lo
  }

  /** One connection of the forward listener, from an accepted `SessionInit` on. */
  class Peer {
    const host: Listener
    const sessionId: nat
    const lo: nat
    const hi: nat
    const loaded: Backend
    const localOffset: nat
    var indexPos: nat
    var lastSeq: nat

    ghost predicate Valid()
      reads loaded
    {
      loaded.Valid() && localOffset <= lo <= hi
    }

    /** The session's range lies inside the loaded file. A file is opened without a look at the range; a
        session past its end opens and then fails every forward. */
    ghost predicate InFile() {
      hi - localOffset <= loaded.model.nLayers
    }

    ghost function SliceKv(): Kv
      requires Valid()
      reads loaded
    {
      if InFile() then loaded.kv[lo - localOffset..hi - localOffset] else EmptyKv(hi - lo)
    }

    ghost function View(): Stage
      requires Valid()
      reads this, loaded
    {
      Stage(loaded.model, lo - localOffset, SliceKv(), indexPos)
    }

    /** Load the slice's file, full or stitched and renumbered, with an empty cache. */
    constructor SessionInit(host: Listener, sid: nat, lo: nat, hi: nat)
      requires lo <= hi && LoadedFor(host, lo, hi).Some?
      ensures Valid() && fresh(loaded) && this.host == host && sessionId == sid && lastSeq == 0
      ensures View() == FreshStage(host, lo, hi) && loaded.nCtx == host.nCtx
      ensures InFile() <==> hi - OffsetOf(host, lo) <= LoadedFor(host, lo, hi).value.nLayers
    {
      var backend := new Backend(LoadedFor(host, lo, hi).value, host.nCtx);
      this.host, sessionId, this.lo, this.hi := host, sid, lo, hi;
      loaded := backend;
      localOffset := OffsetOf(host, lo);
      indexPos, lastSeq := 0, 0;
    }

    /** One `ForwardHidden`: the session checks, then rollback and forward. */
    method ForwardHidden(sid: nat, seqNo: nat, rows: seq<Row>, keep: Keep) returns (r: Result<seq<Row>, Fault>)
      requires Valid()
      modifies this, loaded
      ensures Valid()
      ensures lastSeq == old(lastSeq) || lastSeq == seqNo
      ensures sid == sessionId && (old(lastSeq) < seqNo || old(lastSeq) == 0) ==>
                (r.Ok? <==> CanServe(old(View()), loaded.nCtx, keep, |rows|))
      ensures sid != sessionId ==> r == Err(SessionMismatch) && View() == old(View())
      ensures sid == sessionId && seqNo <= old(lastSeq) && old(lastSeq) > 0 ==> r == Err(OutOfOrder) && View() == old(View())
      ensures r.Ok? ==> (View(), r.value) == Serve(RollTo(old(View()), keep), rows)
    {
      if sessionId != sid {
        return Err(SessionMismatch);
      }
      if seqNo <= lastSeq && lastSeq > 0 {
        return Err(OutOfOrder);
      }
      lastSeq := seqNo;
      assert View() == old(View());
      r := RollAndForward(rows, keep);
    }

    /** Roll the cache back when asked to, then run the slice's layers at the session's own
        position counter, shifting real layer numbers to the file's. */
    method RollAndForward(rows: seq<Row>, keep: Keep) returns (r: Result<seq<Row>, Fault>)
      requires Valid()
      modifies this`indexPos, loaded
      ensures Valid()
      ensures r.Ok? <==> CanServe(old(View()), loaded.nCtx, keep, |rows|)
      ensures r.Ok? ==> (View(), r.value) == Serve(RollTo(old(View()), keep), rows)
    {
      hide Decode, Room, BatchOk, Rollback, EmptyKv;
      ghost var rolled := RollTo(View(), keep);
      var localStart, localEnd := lo - localOffset, hi - localOffset;
      if keep.First? {
        if InFile() {
          RollbackSlice(loaded.kv, localStart, localEnd, keep.n);
        } else {
          RollbackEmpty(hi - lo, keep.n);
        }
        loaded.TruncateKvTo(keep.n);
        indexPos := keep.n;
      }
      assert rolled.kv == SliceKv();
      var out :- loaded.ForwardRange(rows, indexPos, localStart, localEnd);
      indexPos := indexPos + |rows|;
      return Ok(out);
    }
  }

  lemma RollbackEmpty(n: nat, keep: nat)
    ensures Rollback(EmptyKv(n), keep) == EmptyKv(n)
  {
  }

  /** A freshly opened session on layers `[lo, hi)`. */
  ghost function FreshStage(host: Listener, lo: nat, hi: nat): Stage
    requires LoadedFor(host, lo, hi).Some?
  {
    Stage(LoadedFor(host, lo, hi).value, lo - OffsetOf(host, lo), EmptyKv(if lo <= hi then hi - lo else 0), 0)
  }

  /** A session can take a batch of `n` rows after the rollback. */
  ghost predicate CanServe(st: Stage, nCtx: nat, keep: Keep, n: nat)
  {
    BatchOk(n, nCtx) && st.lo + |st.kv| <= st.model.nLayers && Room(RollTo(st, keep).kv, n, nCtx)
  }
}
