/** Pure model of the tracker's cursor bookkeeping: the last sampled position,
    the current position and the delta between the two.  Positions are
    integer pairs; the vector arithmetic is on unbounded integers. */
module Cursor {

  datatype Vec2 = Vec2(x: int, y: int)

  const Zero := Vec2(0, 0)

  /** The "no sample yet" value the last position starts with. */
  const Sentinel := Vec2(-1, -1)

  function Add(a: Vec2, b: Vec2): Vec2 { Vec2(a.x + b.x, a.y + b.y) }

  function Sub(a: Vec2, b: Vec2): Vec2 { Vec2(a.x - b.x, a.y - b.y) }

  datatype Pointer = Pointer(last: Vec2, position: Vec2, delta: Vec2)

  /** The cursor fields as static initialisation leaves them. */
  const Start := Pointer(Sentinel, Zero, Zero)

  /** updateMouseMove(p): while the last position is the sentinel the sample
      only seeds it and the delta is zero; otherwise the delta is what takes
      the previous position to p.  Afterwards both positions are p. */
  function Move(ptr: Pointer, p: Vec2): (r: Pointer)
    ensures r.last == p && r.position == p
    ensures ptr.last == Sentinel ==> r.delta == Zero
    ensures ptr.last != Sentinel ==> Add(ptr.last, r.delta) == p
  {
    var last := if ptr.last == Sentinel then p else ptr.last;
    Pointer(p, p, Sub(p, last))
  }

  /** The deltas reported after each of a run of samples. */
  function Deltas(ptr: Pointer, samples: seq<Vec2>): seq<Vec2>
    decreases |samples|
  {
    if samples == [] then []
    else [Move(ptr, samples[0]).delta] + Deltas(Move(ptr, samples[0]), samples[1..])
  }

  function Sum(ds: seq<Vec2>): Vec2
    decreases |ds|
  {
    if ds == [] then Zero else Add(ds[0], Sum(ds[1..]))
  }

  /** Once seeded, the reported deltas add up to the whole displacement,
      provided no sample but the last lands on the sentinel. */
  lemma {:induction false} SeededDeltasTelescope(ptr: Pointer, samples: seq<Vec2>)
    requires ptr.last != Sentinel && |samples| > 0
    requires forall j :: 0 <= j < |samples| - 1 ==> samples[j] != Sentinel
    ensures Sum(Deltas(ptr, samples)) == Sub(samples[|samples| - 1], ptr.last)
    decreases |samples|
  {
    var next := Move(ptr, samples[0]);
    if |samples| > 1 {
      SeededDeltasTelescope(next, samples[1..]);
    }
  }

  /** From the initial state the first delta is zero and the deltas of a
      run of samples add up to the distance from the first sample to the
      last, provided no sample but the last lands on the sentinel. */
  lemma DeltasTelescope(samples: seq<Vec2>)
    requires |samples| > 0
    requires forall j :: 0 <= j < |samples| - 1 ==> samples[j] != Sentinel
    ensures Deltas(Start, samples)[0] == Zero
    ensures Sum(Deltas(Start, samples)) == Sub(samples[|samples| - 1], samples[0])
  {
    var next := Move(Start, samples[0]);
    if |samples| > 1 {
      SeededDeltasTelescope(next, samples[1..]);
    }
  }

  /** A real sample at (-1, -1) re-arms the sentinel: the move after it is
      reported as a zero delta although the cursor went from (-1, -1) to
      (3, 3), so the deltas no longer add up to the displacement (which is
      why DeltasTelescope excludes such samples). */
  lemma SentinelSampleHidesNextDelta()
    ensures Deltas(Start, [Vec2(5, 5), Sentinel, Vec2(3, 3)]) == [Zero, Vec2(-6, -6), Zero]
  {
    var samples := [Vec2(5, 5), Sentinel, Vec2(3, 3)];
    var p1 := Move(Start, Vec2(5, 5));
    var p2 := Move(p1, Sentinel);
    assert samples[1..] == [Sentinel, Vec2(3, 3)] && samples[1..][1..] == [Vec2(3, 3)];
    assert Deltas(p2, [Vec2(3, 3)]) == [Zero];
    assert Deltas(p1, [Sentinel, Vec2(3, 3)]) == [Vec2(-6, -6), Zero];
  }
}
