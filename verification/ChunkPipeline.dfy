/** Chunked host/device copies through a ring of reusable pinned slots. The
    device moves the bytes of a submitted copy one by one, at any time between
    its submission and its synchronisation, in any order. */
module ChunkPipeline {
  import opened Values

  /** A submitted copy of `len` bytes at device offset `offset`; `done` are the
      byte positions the device has already moved. */
  datatype Flight = Flight(offset: nat, len: nat, done: set<nat>)

  /** Which byte of which slot's copy the device moves next. */
  type Move = (nat, nat)

  /** Device memory, pinned slots, and the copy in flight on each slot. */
  datatype Dma = Dma(hbm: seq<byte>, slots: seq<seq<byte>>, flights: seq<Option<Flight>>)

  predicate WellFormed(d: Dma) {
    && |d.flights| == |d.slots|
    && forall s :: 0 <= s < |d.flights| && d.flights[s].Some? ==>
         d.flights[s].value.offset + d.flights[s].value.len <= |d.hbm| && d.flights[s].value.len <= |d.slots[s]|
  }

  predicate Movable(d: Dma, m: Move) {
    && m.0 < |d.flights| && d.flights[m.0].Some?
    && m.1 < d.flights[m.0].value.len && m.1 !in d.flights[m.0].value.done
  }

  /** The device moves one byte; `up` is host to device. */
  function MoveByte(up: bool, d: Dma, m: Move): (r: Dma)
    requires WellFormed(d)
    ensures WellFormed(r) && |r.hbm| == |d.hbm| && |r.slots| == |d.slots|
  {
    if !Movable(d, m) then d
    else
      var s, i := m.0, m.1;
      var f := d.flights[s].value;
      var moved := d.(flights := d.flights[s := Some(f.(done := f.done + {i}))]);
      if up then moved.(hbm := d.hbm[f.offset + i := d.slots[s][i]])
      else moved.(slots := d.slots[s := d.slots[s][i := d.hbm[f.offset + i]]])
  }

  function Moves(up: bool, d: Dma, now: seq<Move>): (r: Dma)
    requires WellFormed(d)
    ensures WellFormed(r) && |r.hbm| == |d.hbm| && |r.slots| == |d.slots|
  {
    if now == [] then d else MoveByte(up, Moves(up, d, now[..|now| - 1]), now[|now| - 1])
  }

  /** Waiting for a slot moves every byte its copy still owes. */
  function Finish(up: bool, d: Dma, s: nat, k: nat): (r: Dma)
    requires WellFormed(d)
    ensures WellFormed(r) && |r.hbm| == |d.hbm| && |r.slots| == |d.slots|
  {
    if k == 0 then d else MoveByte(up, Finish(up, d, s, k - 1), (s, k - 1))
  }

  // ---------------------------------------------------------------- host to device

  /** Position `p` is still owed by the copy on slot `s`. */
  predicate Owes(d: Dma, s: int, p: int) {
    && 0 <= s < |d.flights| && d.flights[s].Some?
    && d.flights[s].value.offset <= p < d.flights[s].value.offset + d.flights[s].value.len
    && p - d.flights[s].value.offset !in d.flights[s].value.done
  }

  ghost predicate Owed(d: Dma, p: int) { exists s :: Owes(d, s, p) }

  /** Every slot in flight holds the source bytes of its own range. */
  ghost predicate Loaded(d: Dma, src: seq<byte>) {
    && WellFormed(d)
    && forall s :: 0 <= s < |d.flights| && d.flights[s].Some? ==>
         var f := d.flights[s].value;
         f.offset + f.len <= |src| && forall i :: 0 <= i < f.len ==> d.slots[s][i] == src[f.offset + i]
  }

  /** Below `pos` the device has the source bytes or a copy in flight owes them;
      from `keep` on it is untouched. */
  ghost predicate Uploaded(d: Dma, src: seq<byte>, pos: nat, before: seq<byte>) {
    && Loaded(d, src) && pos <= |src| <= |d.hbm| == |before|
    && (forall p :: 0 <= p < pos ==> d.hbm[p] == src[p] || Owed(d, p))
    && (forall p :: |src| <= p < |d.hbm| ==> d.hbm[p] == before[p])
  }

  lemma MoveKeepsUploaded(d: Dma, m: Move, src: seq<byte>, pos: nat, before: seq<byte>)
    requires Uploaded(d, src, pos, before)
    ensures Uploaded(MoveByte(true, d, m), src, pos, before)
  {
    var r := MoveByte(true, d, m);
    if Movable(d, m) {
      var q := d.flights[m.0].value.offset + m.1;
      forall p | 0 <= p < pos ensures r.hbm[p] == src[p] || Owed(r, p) {
        if p != q && d.hbm[p] != src[p] {
          var s :| Owes(d, s, p);
          assert Owes(r, s, p);
        }
      }
    }
  }

  lemma {:induction false} MovesKeepUploaded(d: Dma, now: seq<Move>, src: seq<byte>, pos: nat, before: seq<byte>)
    requires Uploaded(d, src, pos, before)
    ensures Uploaded(Moves(true, d, now), src, pos, before)
  {
    hide Uploaded, Loaded;
    assert WellFormed(d) by { UploadedWellFormed(d, src, pos, before); }
    if now != [] {
      MovesKeepUploaded(d, now[..|now| - 1], src, pos, before);
      MoveKeepsUploaded(Moves(true, d, now[..|now| - 1]), now[|now| - 1], src, pos, before);
    }
  }

  lemma UploadedWellFormed(d: Dma, src: seq<byte>, pos: nat, before: seq<byte>)
    requires Uploaded(d, src, pos, before)
    ensures WellFormed(d)
  {
  }

  /** Waiting for slot `s`: the device may move other bytes first, then the
      copy on `s` is completed and the slot is free again. */
  function Synced(up: bool, d: Dma, s: nat, now: seq<Move>): (r: Dma)
    requires WellFormed(d) && s < |d.flights|
    ensures WellFormed(r) && |r.hbm| == |d.hbm| && |r.slots| == |d.slots|
  {
    var e := Moves(up, d, now);
    var g := if e.flights[s].Some? then Finish(up, e, s, e.flights[s].value.len) else e;
    g.(flights := g.flights[s := None])
  }

  lemma {:induction false} FinishMovesAll(up: bool, d: Dma, s: nat, k: nat)
    requires WellFormed(d) && s < |d.flights| && d.flights[s].Some? && k <= d.flights[s].value.len
    ensures var f := Finish(up, d, s, k).flights[s];
            && f.Some? && f.value.offset == d.flights[s].value.offset && f.value.len == d.flights[s].value.len
            && forall i :: 0 <= i < k ==> i in f.value.done
  {
    if k > 0 { FinishMovesAll(up, d, s, k - 1); }
  }

  lemma {:induction false} FinishKeepsUploaded(d: Dma, s: nat, k: nat, src: seq<byte>, pos: nat, before: seq<byte>)
    requires Uploaded(d, src, pos, before)
    ensures Uploaded(Finish(true, d, s, k), src, pos, before)
  {
    hide Uploaded;
    UploadedWellFormed(d, src, pos, before);
    if k > 0 {
      FinishKeepsUploaded(d, s, k - 1, src, pos, before);
      MoveKeepsUploaded(Finish(true, d, s, k - 1), (s, k - 1), src, pos, before);
    }
  }

  lemma RetireKeepsUploaded(d: Dma, s: nat, src: seq<byte>, pos: nat, before: seq<byte>)
    requires Uploaded(d, src, pos, before) && s < |d.flights|
    requires d.flights[s].Some? ==> forall i :: 0 <= i < d.flights[s].value.len ==> i in d.flights[s].value.done
    ensures Uploaded(d.(flights := d.flights[s := None]), src, pos, before)
  {
    var r := d.(flights := d.flights[s := None]);
    forall p | 0 <= p < pos ensures r.hbm[p] == src[p] || Owed(r, p) {
      if d.hbm[p] != src[p] {
        var t :| Owes(d, t, p);
        assert t != s && Owes(r, t, p);
      }
    }
  }

  lemma SyncKeepsUploaded(d: Dma, s: nat, now: seq<Move>, src: seq<byte>, pos: nat, before: seq<byte>)
    requires Uploaded(d, src, pos, before) && s < |d.flights|
    ensures Uploaded(Synced(true, d, s, now), src, pos, before)
  {
    hide Uploaded, Moves, Finish;
    UploadedWellFormed(d, src, pos, before);
    var e := Moves(true, d, now);
    MovesKeepUploaded(d, now, src, pos, before);
    if e.flights[s].Some? {
      var k := e.flights[s].value.len;
      FinishMovesAll(true, e, s, k);
      FinishKeepsUploaded(e, s, k, src, pos, before);
      RetireKeepsUploaded(Finish(true, e, s, k), s, src, pos, before);
    } else {
      RetireKeepsUploaded(e, s, src, pos, before);
    }
  }

  function Fill(slot: seq<byte>, data: seq<byte>): (r: seq<byte>)
    requires |data| <= |slot|
    ensures |r| == |slot|
  {
    data + slot[|data|..]
  }

  /** Loading a free slot leaves everything else as it was. */
  lemma LoadKeepsUploaded(d: Dma, s: nat, data: seq<byte>, src: seq<byte>, pos: nat, before: seq<byte>)
    requires Uploaded(d, src, pos, before) && s < |d.flights| && d.flights[s] == None && |data| <= |d.slots[s]|
    ensures Uploaded(d.(slots := d.slots[s := Fill(d.slots[s], data)]), src, pos, before)
  {
    var r := d.(slots := d.slots[s := Fill(d.slots[s], data)]);
    forall p | 0 <= p < pos ensures r.hbm[p] == src[p] || Owed(r, p) {
      if d.hbm[p] != src[p] {
        var t :| Owes(d, t, p);
        assert Owes(r, t, p);
      }
    }
  }

  /** Submitting a loaded slot accounts for its range. */
  lemma SubmitKeepsUploaded(d: Dma, s: nat, n: nat, src: seq<byte>, pos: nat, before: seq<byte>)
    requires Uploaded(d, src, pos, before) && s < |d.flights| && d.flights[s] == None
    requires pos + n <= |src| && n <= |d.slots[s]| && d.slots[s][..n] == src[pos..pos + n]
    ensures Uploaded(d.(flights := d.flights[s := Some(Flight(pos, n, {}))]), src, pos + n, before)
  {
    var r := d.(flights := d.flights[s := Some(Flight(pos, n, {}))]);
    assert forall i :: 0 <= i < n ==> d.slots[s][i] == d.slots[s][..n][i] == src[pos..pos + n][i] == src[pos + i];
    forall p | 0 <= p < pos + n ensures r.hbm[p] == src[p] || Owed(r, p) {
      if p >= pos {
        assert Owes(r, s, p);
      } else if d.hbm[p] != src[p] {
        var t :| Owes(d, t, p);
        assert t != s && Owes(r, t, p);
      }
    }
  }

  // ---------------------------------------------------------------- the channel

  class Channel {
    const up: bool
    const hbm: array<byte>
    var slots: seq<seq<byte>>
    var flights: seq<Option<Flight>>

    constructor (up: bool, hbm: array<byte>, slots: seq<seq<byte>>)
      ensures this.up == up && this.hbm == hbm && this.slots == slots
      ensures Valid() && Idle()
    {
      this.up, this.hbm, this.slots := up, hbm, slots;
      flights := seq(|slots|, _ => None);
    }

    function State(): Dma
      reads this, hbm
    {
      Dma(hbm[..], slots, flights)
    }

    ghost predicate Valid()
      reads this, hbm
    {
      WellFormed(State())
    }

    predicate Idle()
      reads this
    {
      forall s :: 0 <= s < |flights| ==> flights[s] == None
    }

    method DeviceMoves(m: Move)
      requires Valid()
      modifies this, hbm
      ensures Valid() && State() == MoveByte(up, old(State()), m)
    {
      if m.0 < |flights| && flights[m.0].Some? {
        var s, i, f := m.0, m.1, flights[m.0].value;
        if i < f.len && i !in f.done {
          flights := flights[s := Some(f.(done := f.done + {i}))];
          if up {
            hbm[f.offset + i] := slots[s][i];
          } else {
            slots := slots[s := slots[s][i := hbm[f.offset + i]]];
          }
        }
      }
    }

    method DeviceRuns(now: seq<Move>)
      requires Valid()
      modifies this, hbm
      ensures Valid() && State() == Moves(up, old(State()), now)
    {
      for k := 0 to |now|
        invariant Valid() && State() == Moves(up, old(State()), now[..k])
      {
        assert now[..k + 1][..k] == now[..k];
        DeviceMoves(now[k]);
      }
      assert now[..|now|] == now;
    }

    /** Submit an asynchronous copy on a free slot. */
    method Submit(s: nat, offset: nat, len: nat)
      requires Valid() && s < |slots| && flights[s] == None && offset + len <= hbm.Length && len <= |slots[s]|
      modifies this
      ensures Valid()
      ensures State() == old(State()).(flights := old(flights)[s := Some(Flight(offset, len, {}))])
    {
      flights := flights[s := Some(Flight(offset, len, {}))];
    }

    /** Wait for the event and the stream of a slot. */
    method Synchronize(s: nat, now: seq<Move>)
      requires Valid() && s < |slots|
      modifies this, hbm
      ensures Valid() && State() == Synced(up, old(State()), s, now)
    {
      hide MoveByte;
      DeviceRuns(now);
      ghost var e := State();
      if flights[s].Some? {
        var len := flights[s].value.len;
        for k := 0 to len
          invariant Valid() && State() == Finish(up, e, s, k)
        {
          DeviceMoves((s, k));
        }
      }
      flights := flights[s := None];
    }

    /** Copy host bytes into a slot; only a free slot may be overwritten. */
    method Load(s: nat, data: seq<byte>)
      requires Valid() && s < |slots| && flights[s] == None && |data| <= |slots[s]|
      modifies this
      ensures Valid() && State() == old(State()).(slots := old(slots)[s := Fill(old(slots)[s], data)])
    {
      slots := slots[s := Fill(slots[s], data)];
    }
  }

  function Min(a: nat, b: nat): nat { if a < b then a else b }

  /** One copy through slot 0. */
  method H2dFullSize(ch: Channel, src: seq<byte>, n: nat, order: nat -> seq<Move>)
    requires ch.up && ch.Valid() && ch.Idle() && |ch.slots| >= 1 && n <= |ch.slots[0]| && n <= |src| && n <= ch.hbm.Length
    modifies ch, ch.hbm
    ensures ch.Valid() && ch.Idle()
    ensures ch.hbm[..] == src[..n] + old(ch.hbm[n..])
  {
    hide Uploaded, Synced, Moves;
    ghost var before, data := ch.hbm[..], src[..n];
    UploadStart(ch.State(), data);
    LoadKeepsUploaded(ch.State(), 0, data, data, 0, before);
    ch.Load(0, src[..n]);
    SubmitKeepsUploaded(ch.State(), 0, n, data, 0, before);
    ch.Submit(0, 0, n);
    SyncKeepsUploaded(ch.State(), 0, order(0), data, n, before);
    SyncFrees(true, ch.State(), 0, order(0));
    ch.Synchronize(0, order(0));
    UploadEnd(ch.State(), data, before);
  }

  /** Copy one chunk into a free slot and submit it; the device may be busy in
      between. */
  method Stage(ch: Channel, slot: nat, chunk: seq<byte>, pos: nat, now: seq<Move>, ghost data: seq<byte>, ghost before: seq<byte>)
    requires ch.up && ch.Valid() && slot < |ch.slots| == |ch.flights| && ch.flights[slot] == None && |chunk| <= |ch.slots[slot]|
    requires Uploaded(ch.State(), data, pos, before) && pos + |chunk| <= |data| && data[pos..pos + |chunk|] == chunk
    modifies ch, ch.hbm
    ensures ch.Valid() && |ch.slots| == |ch.flights| == |old(ch.slots)|
    ensures Uploaded(ch.State(), data, pos + |chunk|, before)
    ensures forall s :: 0 <= s < |ch.slots| ==> |ch.slots[s]| == |old(ch.slots)[s]|
    ensures forall s :: 0 <= s < |ch.slots| ==> (ch.flights[s].Some? <==> s == slot || old(ch.flights)[s].Some?)
  {
    hide Uploaded, Moves;
    var n := |chunk|;
    LoadKeepsUploaded(ch.State(), slot, chunk, data, pos, before);
    ch.Load(slot, chunk);
    MovesKeepUploaded(ch.State(), now, data, pos, before);
    MovesKeepFlights(true, ch.State(), now);
    ch.DeviceRuns(now);
    assert ch.slots[slot][..n] == chunk;
    UploadedSizes(ch.State(), data, pos, before);
    SubmitKeepsUploaded(ch.State(), slot, n, data, pos, before);
    ch.Submit(slot, pos, n);
  }

  lemma UploadedSizes(d: Dma, src: seq<byte>, pos: nat, before: seq<byte>)
    requires Uploaded(d, src, pos, before)
    ensures |src| <= |d.hbm|
  {
  }

  /** The pipelined form. `order(t)` are the bytes the device moves during the
      t-th pause of the host: every completion order is some `order`. */
  method H2dChunked(ch: Channel, src: seq<byte>, objectBytes: nat, chunkBytes: nat, order: nat -> seq<Move>)
    requires ch.up && ch.Valid() && ch.Idle() && |ch.slots| >= 1 && chunkBytes > 0
    requires objectBytes <= |src| && objectBytes <= ch.hbm.Length
    requires forall s :: 0 <= s < |ch.slots| ==> Min(chunkBytes, objectBytes) <= |ch.slots[s]|
    modifies ch, ch.hbm
    ensures ch.Valid() && ch.Idle()
    ensures ch.hbm[..] == src[..objectBytes] + old(ch.hbm[objectBytes..])
  {
    hide Uploaded, Synced, Moves, WellFormed, MoveByte;
    var pending := seq(|ch.slots|, _ => false);
    var chunkIdx: nat, pos: nat, t: nat := 0, 0, 0;
    ghost var before, data, n := ch.hbm[..], src[..objectBytes], |ch.slots|;
    UploadStart(ch.State(), data);
    SameSizes(ch.State());
    while pos < objectBytes
      invariant ch.Valid() && |ch.slots| == |ch.flights| == |pending| == n && pos <= objectBytes
      invariant Uploaded(ch.State(), data, pos, before)
      invariant forall s :: 0 <= s < n ==> (pending[s] <==> ch.flights[s].Some?)
      invariant forall s :: 0 <= s < n ==> Min(chunkBytes, objectBytes) <= |ch.slots[s]|
    {
      var nbytes := Min(chunkBytes, objectBytes - pos);
      var slot := chunkIdx % |ch.slots|;
      if pending[slot] {
        SyncKeepsUploaded(ch.State(), slot, order(t), data, pos, before);
        SyncFrees(true, ch.State(), slot, order(t));
        ch.Synchronize(slot, order(t));
        pending, t := pending[slot := false], t + 1;
      }
      Stage(ch, slot, src[pos..pos + nbytes], pos, order(t), data, before);
      pending := pending[slot := true];
      pos, chunkIdx, t := pos + nbytes, chunkIdx + 1, t + 1;
    }
    AwaitAll(ch, pending, order, t, data, before);
    UploadEnd(ch.State(), data, before);
  }

  /** Wait for every copy still in flight, in slot order. */
  method AwaitAll(ch: Channel, pending: seq<bool>, order: nat -> seq<Move>, t0: nat, ghost data: seq<byte>, ghost before: seq<byte>)
    requires ch.up && ch.Valid() && |ch.slots| == |ch.flights| == |pending|
    requires Uploaded(ch.State(), data, |data|, before)
    requires forall s :: 0 <= s < |pending| ==> (pending[s] <==> ch.flights[s].Some?)
    modifies ch, ch.hbm
    ensures ch.Valid() && ch.Idle() && Uploaded(ch.State(), data, |data|, before)
  {
    hide Uploaded, Synced, Moves, WellFormed, MoveByte;
    var t := t0;
    for slot := 0 to |pending|
      invariant ch.Valid() && |ch.slots| == |ch.flights| == |pending|
      invariant Uploaded(ch.State(), data, |data|, before)
      invariant forall s :: 0 <= s < slot ==> ch.flights[s] == None
      invariant forall s :: slot <= s < |pending| ==> (pending[s] <==> ch.flights[s].Some?)
    {
      if pending[slot] {
        SyncKeepsUploaded(ch.State(), slot, order(t), data, |data|, before);
        SyncFrees(true, ch.State(), slot, order(t));
        ch.Synchronize(slot, order(t));
        t := t + 1;
      }
    }
  }

  lemma SameSizes(d: Dma)
    requires WellFormed(d)
    ensures |d.flights| == |d.slots|
  {
  }

  lemma UploadStart(d: Dma, data: seq<byte>)
    requires WellFormed(d) && |data| <= |d.hbm| && forall s :: 0 <= s < |d.flights| ==> d.flights[s] == None
    ensures Uploaded(d, data, 0, d.hbm)
  {
  }

  lemma UploadEnd(d: Dma, data: seq<byte>, before: seq<byte>)
    requires Uploaded(d, data, |data|, before) && forall s :: 0 <= s < |d.flights| ==> d.flights[s] == None
    ensures d.hbm == data + before[|data|..]
  {
    assert forall p :: !Owed(d, p);
  }

  /** Device progress never changes which slots are in flight, nor the contents
      of a slot that is free, nor the length of any slot. */
  lemma {:induction false} MovesKeepFlights(up: bool, d: Dma, now: seq<Move>)
    requires WellFormed(d)
    ensures var r := Moves(up, d, now);
            && |r.flights| == |d.flights| == |d.slots| == |r.slots|
            && forall s :: 0 <= s < |d.flights| ==>
                 && (r.flights[s].Some? <==> d.flights[s].Some?) && |r.slots[s]| == |d.slots[s]|
                 && (up || d.flights[s] == None ==> r.slots[s] == d.slots[s])
  {
    if now != [] { MovesKeepFlights(up, d, now[..|now| - 1]); }
  }

  lemma {:induction false} FinishKeepsFlights(up: bool, d: Dma, s: nat, k: nat)
    requires WellFormed(d)
    ensures var r := Finish(up, d, s, k);
            && |r.flights| == |d.flights| == |d.slots| == |r.slots|
            && forall t :: 0 <= t < |d.flights| ==>
                 && (r.flights[t].Some? <==> d.flights[t].Some?) && |r.slots[t]| == |d.slots[t]|
                 && (up || t != s ==> r.slots[t] == d.slots[t])
  {
    if k > 0 { FinishKeepsFlights(up, d, s, k - 1); }
  }

  /** Synchronising frees its slot and no other. */
  lemma SyncFrees(up: bool, d: Dma, s: nat, now: seq<Move>)
    requires WellFormed(d) && s < |d.flights|
    ensures var r := Synced(up, d, s, now);
            && |r.flights| == |d.flights| == |d.slots| == |r.slots| && r.flights[s] == None
            && forall t :: 0 <= t < |d.flights| ==>
                 && (t != s ==> (r.flights[t].Some? <==> d.flights[t].Some?)) && |r.slots[t]| == |d.slots[t]|
  {
    hide Moves, Finish;
    MovesKeepFlights(up, d, now);
    var e := Moves(up, d, now);
    if e.flights[s].Some? { FinishKeepsFlights(up, e, s, e.flights[s].value.len); }
  }

  // ---------------------------------------------------------------- device to host

  /** Device memory is `hbm` and every byte already moved is in its slot. */
  ghost predicate Fetching(d: Dma, hbm: seq<byte>) {
    && WellFormed(d) && d.hbm == hbm
    && forall s :: 0 <= s < |d.flights| && d.flights[s].Some? ==> Arrived(d.slots[s], hbm, d.flights[s].value)
  }

  ghost predicate Arrived(slot: seq<byte>, hbm: seq<byte>, f: Flight) {
    forall i :: 0 <= i < f.len && i in f.done && i < |slot| && f.offset + i < |hbm| ==> slot[i] == hbm[f.offset + i]
  }

  lemma MoveKeepsFetching(d: Dma, m: Move, hbm: seq<byte>)
    requires Fetching(d, hbm)
    ensures Fetching(MoveByte(false, d, m), hbm)
  {
  }

  lemma {:induction false} MovesKeepFetching(d: Dma, now: seq<Move>, hbm: seq<byte>)
    requires Fetching(d, hbm)
    ensures Fetching(Moves(false, d, now), hbm)
  {
    if now != [] {
      MovesKeepFetching(d, now[..|now| - 1], hbm);
      MoveKeepsFetching(Moves(false, d, now[..|now| - 1]), now[|now| - 1], hbm);
    }
  }

  lemma {:induction false} FinishKeepsFetching(d: Dma, s: nat, k: nat, hbm: seq<byte>)
    requires Fetching(d, hbm)
    ensures Fetching(Finish(false, d, s, k), hbm)
  {
    if k > 0 {
      FinishKeepsFetching(d, s, k - 1, hbm);
      MoveKeepsFetching(Finish(false, d, s, k - 1), (s, k - 1), hbm);
    }
  }

  /** After its own synchronisation a slot holds exactly its device range. */
  lemma SyncFetches(d: Dma, s: nat, now: seq<Move>, hbm: seq<byte>)
    requires Fetching(d, hbm) && s < |d.flights| && d.flights[s].Some?
    ensures var f, r := d.flights[s].value, Synced(false, d, s, now);
            && Fetching(r, hbm) && f.len <= |r.slots[s]| && r.slots[s][..f.len] == hbm[f.offset..f.offset + f.len]
            && forall t :: 0 <= t < |d.flights| && t != s ==> SameFlight(d.flights[t], r.flights[t])
  {
    hide MoveByte;
    var e := Moves(false, d, now);
    MovesKeepFetching(d, now, hbm);
    MovesKeepRanges(false, d, now);
    var k := e.flights[s].value.len;
    var g := Finish(false, e, s, k);
    FinishMovesAll(false, e, s, k);
    FinishKeepsFetching(e, s, k, hbm);
    FinishKeepsRanges(false, e, s, k);
    assert Arrived(g.slots[s], hbm, g.flights[s].value);
  }

  /** Same range in flight, whatever has been moved. */
  predicate SameFlight(f: Option<Flight>, g: Option<Flight>) {
    && (f.Some? <==> g.Some?)
    && (f.Some? ==> f.value.offset == g.value.offset && f.value.len == g.value.len)
  }

  lemma {:induction false} MovesKeepRanges(up: bool, d: Dma, now: seq<Move>)
    requires WellFormed(d)
    ensures var r := Moves(up, d, now);
            |r.flights| == |d.flights| && forall s :: 0 <= s < |d.flights| ==> SameFlight(d.flights[s], r.flights[s])
  {
    if now != [] { MovesKeepRanges(up, d, now[..|now| - 1]); }
  }

  lemma {:induction false} FinishKeepsRanges(up: bool, d: Dma, s: nat, k: nat)
    requires WellFormed(d)
    ensures var r := Finish(up, d, s, k);
            |r.flights| == |d.flights| && forall t :: 0 <= t < |d.flights| ==> SameFlight(d.flights[t], r.flights[t])
  {
    if k > 0 { FinishKeepsRanges(up, d, s, k - 1); }
  }

  /** A range of the object: where it starts and how long it is. */
  type Range = (nat, nat)

  /** The chunk ranges from position `p` to the end of the object. */
  function Chunks(p: nat, objectBytes: nat, chunkBytes: nat): seq<Range>
    requires chunkBytes > 0
    decreases objectBytes - p
  {
    if p >= objectBytes then []
    else var n := Min(chunkBytes, objectBytes - p); [(p, n)] + Chunks(p + n, objectBytes, chunkBytes)
  }

  /** Non-empty pieces that follow each other from `p` to `end`, without gap
      or overlap. */
  predicate Pieces(cs: seq<Range>, p: nat, end: nat) {
    if cs == [] then p == end
    else cs[0].0 == p && cs[0].1 > 0 && p + cs[0].1 <= end && Pieces(cs[1..], p + cs[0].1, end)
  }

  /** The chunk ranges cut the object into such pieces, none above the chunk size. */
  lemma {:induction false} ChunksPartition(p: nat, objectBytes: nat, chunkBytes: nat)
    requires chunkBytes > 0 && p <= objectBytes
    ensures Pieces(Chunks(p, objectBytes, chunkBytes), p, objectBytes)
    ensures forall r :: r in Chunks(p, objectBytes, chunkBytes) ==> r.1 <= chunkBytes
  {
    ChunksFollow(p, objectBytes, chunkBytes);
    ChunksSmall(p, objectBytes, chunkBytes);
  }

  lemma {:induction false} ChunksFollow(p: nat, objectBytes: nat, chunkBytes: nat)
    requires chunkBytes > 0 && p <= objectBytes
    ensures Pieces(Chunks(p, objectBytes, chunkBytes), p, objectBytes)
    decreases objectBytes - p
  {
    if p < objectBytes {
      var n := Min(chunkBytes, objectBytes - p);
      var rest := Chunks(p + n, objectBytes, chunkBytes);
      assert Chunks(p, objectBytes, chunkBytes) == [(p, n)] + rest;
      ChunksFollow(p + n, objectBytes, chunkBytes);
      hide Chunks;
      assert ([(p, n)] + rest)[1..] == rest;
    }
  }

  lemma {:induction false} ChunksSmall(p: nat, objectBytes: nat, chunkBytes: nat)
    requires chunkBytes > 0 && p <= objectBytes
    ensures forall r :: r in Chunks(p, objectBytes, chunkBytes) ==> r.1 <= chunkBytes
    decreases objectBytes - p
  {
    if p < objectBytes { ChunksSmall(p + Min(chunkBytes, objectBytes - p), objectBytes, chunkBytes); }
  }

  /** Hence every position of the object lies in exactly one chunk range. */
  lemma {:induction false} PiecesCoverOnce(cs: seq<Range>, p: nat, end: nat, x: nat) returns (k: nat)
    requires Pieces(cs, p, end) && p <= x < end
    ensures k < |cs| && cs[k].0 <= x < cs[k].0 + cs[k].1
    ensures forall j :: 0 <= j < |cs| && cs[j].0 <= x < cs[j].0 + cs[j].1 ==> j == k
  {
    var q := p + cs[0].1;
    PiecesWithin(cs[1..], q, end);
    assert forall j :: 1 <= j < |cs| ==> cs[j] == cs[1..][j - 1];
    if x < q {
      k := 0;
    } else {
      var j := PiecesCoverOnce(cs[1..], q, end, x);
      k := j + 1;
      assert forall i :: 1 <= i < |cs| && cs[i].0 <= x < cs[i].0 + cs[i].1 ==> i - 1 == j;
    }
  }

  lemma {:induction false} PiecesWithin(cs: seq<Range>, p: nat, end: nat)
    requires Pieces(cs, p, end)
    ensures forall j :: 0 <= j < |cs| ==> p <= cs[j].0 && cs[j].0 + cs[j].1 <= end
  {
    if cs != [] {
      PiecesWithin(cs[1..], p + cs[0].1, end);
      assert forall j :: 1 <= j < |cs| ==> cs[j] == cs[1..][j - 1];
    }
  }

  /** The host's own table: is a copy pending on the slot, and for which range. */
  datatype Pending = Pending(active: bool, pos: nat, nbytes: nat)

  function Outstanding(pending: seq<Pending>): multiset<Range> {
    if pending == [] then multiset{}
    else var q := pending[|pending| - 1];
         Outstanding(pending[..|pending| - 1]) + Entry(q)
  }

  function Entry(q: Pending): multiset<Range> {
    if q.active then multiset{(q.pos, q.nbytes)} else multiset{}
  }

  lemma {:induction false} OutstandingUpdate(pending: seq<Pending>, s: nat, q: Pending)
    requires s < |pending|
    ensures Outstanding(pending[s := q]) + Entry(pending[s]) == Outstanding(pending) + Entry(q)
  {
    hide Entry;
    var n := |pending| - 1;
    var front := pending[..n];
    if s < n {
      OutstandingUpdate(front, s, q);
      assert pending[s := q][..n] == front[s := q] && pending[s := q][n] == pending[n] && front[s] == pending[s];
      Beside(Outstanding(front[s := q]), Entry(pending[s]), Outstanding(front), Entry(q), Entry(pending[n]));
    } else {
      assert pending[s := q][..n] == front && pending[s := q][n] == q;
      Swap(Outstanding(front), Entry(q), Entry(pending[n]));
    }
  }

  lemma Swap(a: multiset<Range>, x: multiset<Range>, y: multiset<Range>)
    ensures a + x + y == a + y + x
  {
  }

  lemma Beside(a: multiset<Range>, x: multiset<Range>, b: multiset<Range>, y: multiset<Range>, last: multiset<Range>)
    requires a + x == b + y
    ensures a + last + x == b + last + y
  {
    Swap(a, last, x);
    Swap(b, last, y);
  }

  /** Draining moves a range from the table to the drained ranges. */
  lemma CountDrain(drains: seq<Range>, pending: seq<Pending>, s: nat, submitted: seq<Range>)
    requires s < |pending| && pending[s].active && multiset(drains) + Outstanding(pending) == multiset(submitted)
    ensures multiset(drains + [(pending[s].pos, pending[s].nbytes)]) + Outstanding(pending[s := Pending(false, 0, 0)]) == multiset(submitted)
  {
    hide Outstanding;
    OutstandingUpdate(pending, s, Pending(false, 0, 0));
    var r, rest := (pending[s].pos, pending[s].nbytes), Outstanding(pending[s := Pending(false, 0, 0)]);
    assert multiset(drains + [r]) == multiset(drains) + multiset{r};
    assert rest + multiset{r} == Outstanding(pending);
    assert multiset(drains) + multiset{r} + rest == multiset(drains) + (rest + multiset{r});
  }

  /** Submitting adds a range to the table. */
  lemma CountSubmit(drains: seq<Range>, pending: seq<Pending>, s: nat, pos: nat, n: nat, submitted: seq<Range>)
    requires s < |pending| && !pending[s].active && multiset(drains) + Outstanding(pending) == multiset(submitted)
    ensures multiset(drains) + Outstanding(pending[s := Pending(true, pos, n)]) == multiset(submitted + [(pos, n)])
  {
    hide Outstanding;
    OutstandingUpdate(pending, s, Pending(true, pos, n));
    assert Outstanding(pending[s := Pending(true, pos, n)]) == Outstanding(pending) + multiset{(pos, n)};
    assert multiset(submitted + [(pos, n)]) == multiset(submitted) + multiset{(pos, n)};
  }

  lemma {:induction false} NothingOutstanding(pending: seq<Pending>)
    requires forall s :: 0 <= s < |pending| ==> !pending[s].active
    ensures Outstanding(pending) == multiset{}
  {
    if pending != [] { NothingOutstanding(pending[..|pending| - 1]); }
  }

  predicate InRange(q: Pending, p: int) { q.active && q.pos <= p < q.pos + q.nbytes }

  /** Position `p` will still be drained. */
  ghost predicate ToDrain(pending: seq<Pending>, p: int) { exists s :: 0 <= s < |pending| && InRange(pending[s], p) }

  /** The table agrees with what is in flight. */
  ghost predicate Tracks(pending: seq<Pending>, flights: seq<Option<Flight>>) {
    && |pending| == |flights|
    && forall s :: 0 <= s < |pending| ==>
         && (pending[s].active <==> flights[s].Some?)
         && (pending[s].active ==> flights[s].value.offset == pending[s].pos && flights[s].value.len == pending[s].nbytes)
  }

  /** Below `pos` the destination has the device bytes or they are still to be
      drained; from `objectBytes` on it is untouched. */
  ghost predicate Drained(dst: seq<byte>, hbm: seq<byte>, pending: seq<Pending>, pos: nat, objectBytes: nat, before: seq<byte>) {
    && pos <= objectBytes <= |dst| == |before| && objectBytes <= |hbm|
    && (forall p :: 0 <= p < pos ==> dst[p] == hbm[p] || ToDrain(pending, p))
    && (forall p :: objectBytes <= p < |dst| ==> dst[p] == before[p])
    && (forall s :: 0 <= s < |pending| && pending[s].active ==> pending[s].pos + pending[s].nbytes <= objectBytes)
  }

  lemma DrainSlot(dst: seq<byte>, dst': seq<byte>, hbm: seq<byte>, pending: seq<Pending>, s: nat, pos: nat, objectBytes: nat, before: seq<byte>)
    requires Drained(dst, hbm, pending, pos, objectBytes, before) && s < |pending| && pending[s].active
    requires var q := pending[s];
             |dst'| == |dst| && (forall p :: 0 <= p < |dst| ==> dst'[p] == if InRange(q, p) then hbm[p] else dst[p])
    ensures Drained(dst', hbm, pending[s := Pending(false, 0, 0)], pos, objectBytes, before)
  {
    var rest := pending[s := Pending(false, 0, 0)];
    forall p | 0 <= p < pos ensures dst'[p] == hbm[p] || ToDrain(rest, p) {
      if dst'[p] != hbm[p] {
        var t :| 0 <= t < |pending| && InRange(pending[t], p);
        assert InRange(rest[t], p);
      }
    }
  }

  lemma TrackRange(dst: seq<byte>, hbm: seq<byte>, pending: seq<Pending>, s: nat, n: nat, pos: nat, objectBytes: nat, before: seq<byte>)
    requires Drained(dst, hbm, pending, pos, objectBytes, before) && s < |pending| && !pending[s].active && pos + n <= objectBytes
    ensures Drained(dst, hbm, pending[s := Pending(true, pos, n)], pos + n, objectBytes, before)
  {
    var more := pending[s := Pending(true, pos, n)];
    forall p | 0 <= p < pos + n ensures dst[p] == hbm[p] || ToDrain(more, p) {
      if p >= pos {
        assert InRange(more[s], p);
      } else if dst[p] != hbm[p] {
        var t :| 0 <= t < |pending| && InRange(pending[t], p);
        assert InRange(more[t], p);
      }
    }
  }

  /** One copy through slot 0. */
  method D2hFullSize(ch: Channel, dst: array<byte>, n: nat, order: nat -> seq<Move>)
    requires !ch.up && ch.Valid() && ch.Idle() && |ch.slots| >= 1 && n <= |ch.slots[0]| && n <= ch.hbm.Length && n <= dst.Length
    requires dst != ch.hbm
    modifies ch, ch.hbm, dst
    ensures ch.Valid() && ch.Idle() && ch.hbm[..] == old(ch.hbm[..])
    ensures dst[..] == old(ch.hbm[..n]) + old(dst[n..])
  {
    hide Synced;
    ghost var hbm := ch.hbm[..];
    ch.Submit(0, 0, n);
    SyncFetches(ch.State(), 0, order(0), hbm);
    SyncFrees(false, ch.State(), 0, order(0));
    ch.Synchronize(0, order(0));
    ghost var got := ch.slots[0][..n];
    Drain(dst, 0, ch.slots[0], n);
    assert got == hbm[0..n];
  }

  /** Copy the first `n` bytes of a slot to the destination. */
  method Drain(dst: array<byte>, pos: nat, slot: seq<byte>, n: nat)
    requires pos + n <= dst.Length && n <= |slot|
    modifies dst
    ensures forall p :: 0 <= p < dst.Length ==> dst[p] == if pos <= p < pos + n then slot[p - pos] else old(dst[p])
  {
    forall i | pos <= i < pos + n { dst[i] := slot[i - pos]; }
  }

  /** The pipelined form: a slot is drained when it comes round again, and the
      slots still pending at the end are drained in slot order. `drains` are
      the ranges drained, in the order they were. */
  method D2hChunked(ch: Channel, dst: array<byte>, objectBytes: nat, chunkBytes: nat, order: nat -> seq<Move>)
    returns (drains: seq<Range>)
    requires !ch.up && ch.Valid() && ch.Idle() && |ch.slots| >= 1 && chunkBytes > 0 && dst != ch.hbm
    requires objectBytes <= ch.hbm.Length && objectBytes <= dst.Length
    requires forall s :: 0 <= s < |ch.slots| ==> Min(chunkBytes, objectBytes) <= |ch.slots[s]|
    modifies ch, ch.hbm, dst
    ensures ch.Valid() && ch.Idle() && ch.hbm[..] == old(ch.hbm[..])
    ensures dst[..] == old(ch.hbm[..objectBytes]) + old(dst[objectBytes..])
    // Every chunk range is drained exactly once.
    ensures multiset(drains) == multiset(Chunks(0, objectBytes, chunkBytes))
  {
    hide Downloading, Synced, Moves, Chunks, WellFormed;
    var pending := seq(|ch.slots|, _ => Pending(false, 0, 0));
    var chunkIdx: nat, pos: nat, t: nat := 0, 0, 0;
    drains := [];
    ghost var job, n := Job(ch.hbm[..], dst[..], objectBytes, chunkBytes, []), |ch.slots|;
    DownloadStart(ch.State(), pending, dst[..], job);
    while pos < objectBytes
      invariant ch.Valid() && |pending| == |ch.slots| == n && pos <= objectBytes
      invariant job == Job(old(ch.hbm[..]), old(dst[..]), objectBytes, chunkBytes, job.submitted)
      invariant Downloading(ch.State(), dst[..], pending, drains, pos, job)
    {
      var nbytes := Min(chunkBytes, objectBytes - pos);
      var slot := chunkIdx % |ch.slots|;
      if pending[slot].active {
        drains := DrainPending(ch, dst, pending, slot, order(t), drains, pos, job);
        pending, t := pending[slot := Pending(false, 0, 0)], t + 1;
      }
      SubmitNext(ch.State(), dst[..], pending, drains, slot, pos, job);
      ch.Submit(slot, pos, nbytes);
      pending := pending[slot := Pending(true, pos, nbytes)];
      job := job.(submitted := job.submitted + [(pos, nbytes)]);
      pos, chunkIdx := pos + nbytes, chunkIdx + 1;
    }
    for slot := 0 to |pending|
      invariant ch.Valid() && |pending| == |ch.slots| == n
      invariant job == Job(old(ch.hbm[..]), old(dst[..]), objectBytes, chunkBytes, job.submitted)
      invariant Downloading(ch.State(), dst[..], pending, drains, pos, job)
      invariant forall s :: 0 <= s < slot ==> !pending[s].active
    {
      if pending[slot].active {
        drains := DrainPending(ch, dst, pending, slot, order(t), drains, pos, job);
        pending, t := pending[slot := Pending(false, 0, 0)], t + 1;
      }
    }
    DownloadEnd(ch.State(), dst[..], pending, drains, pos, job);
  }

  /** Fixed facts of one download, and the ranges submitted so far. */
  datatype Job = Job(hbm: seq<byte>, before: seq<byte>, objectBytes: nat, chunkBytes: nat, submitted: seq<Range>)

  /** Everything that holds while a download is at position `pos`. */
  ghost predicate Downloading(d: Dma, dst: seq<byte>, pending: seq<Pending>, drains: seq<Range>, pos: nat, job: Job) {
    && job.chunkBytes > 0 && Fetching(d, job.hbm) && Tracks(pending, d.flights)
    && Drained(dst, job.hbm, pending, pos, job.objectBytes, job.before)
    && job.submitted + Chunks(pos, job.objectBytes, job.chunkBytes) == Chunks(0, job.objectBytes, job.chunkBytes)
    && multiset(drains) + Outstanding(pending) == multiset(job.submitted)
    && forall s :: 0 <= s < |d.slots| ==> Min(job.chunkBytes, job.objectBytes) <= |d.slots[s]|
  }

  /** Wait for a pending slot, then drain it. */
  method DrainPending(ch: Channel, dst: array<byte>, pending: seq<Pending>, slot: nat, now: seq<Move>, drains: seq<Range>,
                      ghost pos: nat, ghost job: Job) returns (drains': seq<Range>)
    requires !ch.up && ch.Valid() && slot < |ch.slots| == |pending| && dst != ch.hbm && pending[slot].active
    requires Downloading(ch.State(), dst[..], pending, drains, pos, job)
    modifies ch, ch.hbm, dst
    ensures ch.Valid() && |ch.slots| == |old(ch.slots)|
    ensures Downloading(ch.State(), dst[..], pending[slot := Pending(false, 0, 0)], drains', pos, job)
    ensures drains' == drains + [(pending[slot].pos, pending[slot].nbytes)]
  {
    hide Downloading, Synced, WellFormed;
    var q := pending[slot];
    ghost var d, was := ch.State(), dst[..];
    DrainReady(d, was, pending, drains, slot, pos, job);
    SyncFetches(d, slot, now, job.hbm);
    SyncFrees(false, d, slot, now);
    ch.Synchronize(slot, now);
    Drain(dst, q.pos, ch.slots[slot], q.nbytes);
    DrainNext(d, ch.State(), was, dst[..], pending, drains, slot, pos, job);
    drains' := drains + [(q.pos, q.nbytes)];
  }

  lemma DrainReady(d: Dma, dst: seq<byte>, pending: seq<Pending>, drains: seq<Range>, slot: nat, pos: nat, job: Job)
    requires Downloading(d, dst, pending, drains, pos, job) && slot < |pending| && pending[slot].active
    ensures Fetching(d, job.hbm) && WellFormed(d) && slot < |d.flights| && d.flights[slot].Some?
    ensures d.flights[slot].value.offset == pending[slot].pos && d.flights[slot].value.len == pending[slot].nbytes
    ensures pending[slot].pos + pending[slot].nbytes <= |dst|
  {
  }

  lemma DrainNext(d: Dma, d': Dma, dst: seq<byte>, dst': seq<byte>, pending: seq<Pending>, drains: seq<Range>, slot: nat, pos: nat, job: Job)
    requires Downloading(d, dst, pending, drains, pos, job) && slot < |pending| && pending[slot].active
    requires Fetching(d', job.hbm) && |d'.flights| == |d.flights| == |d.slots| == |d'.slots| && d'.flights[slot] == None
    requires forall t :: 0 <= t < |d.flights| ==> |d'.slots[t]| == |d.slots[t]| && (t != slot ==> SameFlight(d.flights[t], d'.flights[t]))
    requires var q := pending[slot];
             && q.nbytes <= |d'.slots[slot]| && q.pos + q.nbytes <= |job.hbm|
             && d'.slots[slot][..q.nbytes] == job.hbm[q.pos..q.pos + q.nbytes]
             && |dst'| == |dst|
             && forall p :: 0 <= p < |dst| ==> dst'[p] == if q.pos <= p < q.pos + q.nbytes then d'.slots[slot][p - q.pos] else dst[p]
    ensures Downloading(d', dst', pending[slot := Pending(false, 0, 0)], drains + [(pending[slot].pos, pending[slot].nbytes)], pos, job)
  {
    hide Outstanding, Fetching, Chunks, Drained;
    var q := pending[slot];
    ghost var got := d'.slots[slot][..q.nbytes];
    assert forall i :: 0 <= i < q.nbytes ==> d'.slots[slot][i] == got[i] == job.hbm[q.pos..q.pos + q.nbytes][i] == job.hbm[q.pos + i];
    DrainSlot(dst, dst', job.hbm, pending, slot, pos, job.objectBytes, job.before);
    CountDrain(drains, pending, slot, job.submitted);
  }

  /** Submitting the next chunk on a free slot. */
  lemma SubmitNext(d: Dma, dst: seq<byte>, pending: seq<Pending>, drains: seq<Range>, slot: nat, pos: nat, job: Job)
    requires Downloading(d, dst, pending, drains, pos, job) && slot < |pending| && !pending[slot].active && pos < job.objectBytes
    ensures var n := Min(job.chunkBytes, job.objectBytes - pos);
            && WellFormed(d) && slot < |d.slots| == |d.flights| && d.flights[slot] == None && pos + n <= |d.hbm| && n <= |d.slots[slot]|
            && Downloading(d.(flights := d.flights[slot := Some(Flight(pos, n, {}))]), dst, pending[slot := Pending(true, pos, n)],
                           drains, pos + n, job.(submitted := job.submitted + [(pos, n)]))
  {
    hide Outstanding, Drained;
    var n := Min(job.chunkBytes, job.objectBytes - pos);
    assert pos + n <= |d.hbm| by { DrainedSizes(dst, job.hbm, pending, pos, job.objectBytes, job.before); }
    SubmitFetch(d, pending, slot, pos, n, job.hbm);
    TrackRange(dst, job.hbm, pending, slot, n, pos, job.objectBytes, job.before);
    CountSubmit(drains, pending, slot, pos, n, job.submitted);
    var rest := Chunks(pos + n, job.objectBytes, job.chunkBytes);
    assert job.submitted + ([(pos, n)] + rest) == (job.submitted + [(pos, n)]) + rest;
  }

  lemma DrainedSizes(dst: seq<byte>, hbm: seq<byte>, pending: seq<Pending>, pos: nat, objectBytes: nat, before: seq<byte>)
    requires Drained(dst, hbm, pending, pos, objectBytes, before)
    ensures objectBytes <= |hbm|
  {
  }

  lemma DownloadStart(d: Dma, pending: seq<Pending>, dst: seq<byte>, job: Job)
    requires WellFormed(d) && |pending| == |d.slots| && job.objectBytes <= |dst| && job.objectBytes <= |d.hbm| && job.chunkBytes > 0
    requires job.hbm == d.hbm && job.before == dst && job.submitted == []
    requires forall s :: 0 <= s < |d.flights| ==> d.flights[s] == None
    requires forall s :: 0 <= s < |pending| ==> !pending[s].active
    requires forall s :: 0 <= s < |d.slots| ==> Min(job.chunkBytes, job.objectBytes) <= |d.slots[s]|
    ensures Downloading(d, dst, pending, [], 0, job)
  {
    hide Chunks;
    NothingOutstanding(pending);
  }

  lemma DownloadEnd(d: Dma, dst: seq<byte>, pending: seq<Pending>, drains: seq<Range>, pos: nat, job: Job)
    requires Downloading(d, dst, pending, drains, pos, job) && pos >= job.objectBytes
    requires forall s :: 0 <= s < |pending| ==> !pending[s].active
    ensures dst == job.hbm[..job.objectBytes] + job.before[job.objectBytes..] && d.hbm == job.hbm
    ensures forall s :: 0 <= s < |d.flights| ==> d.flights[s] == None
    ensures multiset(drains) == multiset(Chunks(0, job.objectBytes, job.chunkBytes))
  {
    NothingOutstanding(pending);
    assert forall p :: !ToDrain(pending, p);
    assert Chunks(pos, job.objectBytes, job.chunkBytes) == [];
    hide Chunks, Outstanding, Fetching;
    assert job.submitted + [] == job.submitted;
    assert multiset(drains) + multiset{} == multiset(drains);
  }

  lemma SubmitFetch(d: Dma, pending: seq<Pending>, s: nat, pos: nat, n: nat, hbm: seq<byte>)
    requires Fetching(d, hbm) && Tracks(pending, d.flights) && s < |pending| && !pending[s].active
    requires |d.slots| == |d.flights| && pos + n <= |hbm| && n <= |d.slots[s]|
    ensures WellFormed(d) && d.flights[s] == None && |d.hbm| == |hbm|
    ensures var flights := d.flights[s := Some(Flight(pos, n, {}))];
            Fetching(d.(flights := flights), hbm) && Tracks(pending[s := Pending(true, pos, n)], flights)
  {
  }
}
