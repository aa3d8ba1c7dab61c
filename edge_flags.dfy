/** Pure model of one bank of edge-triggered input flags.

    A bank is what the input tracker keeps for one kind of id (keyboard keys
    or mouse buttons): a Down, Hold and Up flag per id, and two "clear groups"
    holding the ids whose Down and Up edges were seen by the last tick and
    must be lowered by the next one.  The raw event callbacks, the per-frame
    tick and the queries of the tracker are stated here as functions on a
    bank; the imperative tracker in module Input (and the keyboard-only
    revision in module KeyboardInput) is proved to compute exactly these. */
module EdgeFlags {

  datatype Bank = Bank(down: seq<bool>, hold: seq<bool>, up: seq<bool>,
                       clearDown: seq<int>, clearUp: seq<int>)

  /** A raw event delivered by the windowing layer between two ticks. */
  datatype RawEvent = Pressed(id: int) | Released(id: int)

  function Size(b: Bank): nat { |b.down| }

  predicate InRange(group: seq<int>, n: nat) {
    forall j :: 0 <= j < |group| ==> 0 <= group[j] < n
  }

  /** The three flag arrays have one entry per id and the clear groups only
      name ids of the bank. */
  predicate WellFormed(b: Bank) {
    |b.hold| == |b.down| && |b.up| == |b.down| &&
    InRange(b.clearDown, |b.down|) && InRange(b.clearUp, |b.down|)
  }

  /** No id has its Down and its Up edge raised at the same time. */
  predicate Exclusive(b: Bank)
    requires WellFormed(b)
  {
    forall i :: 0 <= i < Size(b) ==> !(b.down[i] && b.up[i])
  }

  /** Id k is at rest: no flag raised and nothing scheduled for it. */
  predicate Idle(b: Bank, k: int)
    requires WellFormed(b) && 0 <= k < Size(b)
  {
    !b.down[k] && !b.hold[k] && !b.up[k] && k !in b.clearDown && k !in b.clearUp
  }

  predicate Ascending(s: seq<int>) {
    forall i, j :: 0 <= i < j < |s| ==> s[i] < s[j]
  }

  function AllFalse(n: nat): (r: seq<bool>)
    ensures |r| == n && forall i :: 0 <= i < n ==> !r[i]
  {
    seq(n, _ => false)
  }

  /** The bank as static initialisation leaves it: every flag lowered and both
      clear groups empty. */
  function Blank(n: nat): (r: Bank)
    ensures WellFormed(r) && Size(r) == n && Exclusive(r)
    ensures forall k :: 0 <= k < n ==> Idle(r, k)
  {
    Bank(AllFalse(n), AllFalse(n), AllFalse(n), [], [])
  }

  /** init(): lowers every flag of every id; the clear groups are left as
      they are. */
  function Init(b: Bank): (r: Bank)
    requires WellFormed(b)
    ensures WellFormed(r) && Size(r) == Size(b) && Exclusive(r)
    ensures forall i :: 0 <= i < Size(b) ==> !r.down[i] && !r.hold[i] && !r.up[i]
    ensures r.clearDown == b.clearDown && r.clearUp == b.clearUp
  {
    b.(down := AllFalse(Size(b)), hold := AllFalse(Size(b)), up := AllFalse(Size(b)))
  }

  /** updateDown(k): ignored while k is held (this is what swallows the
      operating system's key-repeat events); otherwise raises Down and lowers
      Up for k alone. */
  function UpdateDown(b: Bank, k: int): (r: Bank)
    requires WellFormed(b) && 0 <= k < Size(b)
    ensures WellFormed(r) && Size(r) == Size(b)
    ensures r.hold == b.hold && r.clearDown == b.clearDown && r.clearUp == b.clearUp
    ensures b.hold[k] ==> r == b
    ensures !b.hold[k] ==> r.down[k] && !r.up[k]
    ensures forall i :: 0 <= i < Size(b) && i != k ==> r.down[i] == b.down[i] && r.up[i] == b.up[i]
    ensures Exclusive(b) ==> Exclusive(r)
  {
    if b.hold[k] then b
    else b.(down := b.down[k := true], up := b.up[k := false])
  }

  /** updateUp(k): unconditionally lowers Down and raises Up for k alone;
      Hold is left to the next tick. */
  function UpdateUp(b: Bank, k: int): (r: Bank)
    requires WellFormed(b) && 0 <= k < Size(b)
    ensures WellFormed(r) && Size(r) == Size(b)
    ensures r.hold == b.hold && r.clearDown == b.clearDown && r.clearUp == b.clearUp
    ensures !r.down[k] && r.up[k]
    ensures forall i :: 0 <= i < Size(b) && i != k ==> r.down[i] == b.down[i] && r.up[i] == b.up[i]
    ensures Exclusive(b) ==> Exclusive(r)
  {
    b.(down := b.down[k := false], up := b.up[k := true])
  }

  /** One raw event applied to the bank. */
  function Apply(b: Bank, e: RawEvent): (r: Bank)
    requires WellFormed(b) && 0 <= e.id < Size(b)
  {
    match e
    case Pressed(k) => UpdateDown(b, k)
    case Released(k) => UpdateUp(b, k)
  }

  predicate EventsInRange(evs: seq<RawEvent>, n: nat) {
    forall j :: 0 <= j < |evs| ==> 0 <= evs[j].id < n
  }

  /** The raw events of one frame, delivered in order.  Events never touch
      Hold or the clear groups: those change only at a tick. */
  function Deliver(b: Bank, evs: seq<RawEvent>): (r: Bank)
    requires WellFormed(b) && EventsInRange(evs, Size(b))
    ensures WellFormed(r) && Size(r) == Size(b)
    ensures r.hold == b.hold && r.clearDown == b.clearDown && r.clearUp == b.clearUp
    ensures Exclusive(b) ==> Exclusive(r)
    decreases |evs|
  {
    if evs == [] then b else Deliver(Apply(b, evs[0]), evs[1..])
  }

  /** The ids below n, in ascending order, whose entry of p is true: what
      the scan has pushed onto a group after visiting ids 0 .. n-1. */
  function Scanned(p: seq<bool>, n: nat): seq<int>
    requires n <= |p|
    decreases n
  {
    if n == 0 then [] else Scanned(p, n - 1) + (if p[n - 1] then [n - 1] else [])
  }

  lemma {:induction false} ScannedExactly(p: seq<bool>, n: nat)
    requires n <= |p|
    ensures forall x :: x in Scanned(p, n) <==> 0 <= x < n && p[x]
    ensures Ascending(Scanned(p, n)) && InRange(Scanned(p, n), n)
    decreases n
  {
    if n > 0 {
      ScannedExactly(p, n - 1);
    }
  }

  /** Phase one of a tick: the flags named in group are lowered. */
  function Cleared(flags: seq<bool>, group: seq<int>): (r: seq<bool>)
    ensures |r| == |flags|
    ensures forall i :: 0 <= i < |flags| ==> r[i] == (flags[i] && i !in group)
  {
    seq(|flags|, i requires 0 <= i < |flags| => flags[i] && i !in group)
  }

  /** The ids the scan schedules for an Up clear: Up raised, Down not. */
  function Pending(down: seq<bool>, up: seq<bool>): (r: seq<bool>)
    requires |up| == |down|
    ensures |r| == |down|
    ensures forall i :: 0 <= i < |down| ==> r[i] == (!down[i] && up[i])
  {
    seq(|down|, i requires 0 <= i < |down| => !down[i] && up[i])
  }

  /** The scan's new Hold flags: a raised Down sets Hold, otherwise a raised
      Up clears it, otherwise it is kept. */
  function Promoted(down: seq<bool>, up: seq<bool>, hold: seq<bool>): (r: seq<bool>)
    requires |up| == |down| && |hold| == |down|
    ensures |r| == |down|
    ensures forall i :: 0 <= i < |down| ==> r[i] == (down[i] || (!up[i] && hold[i]))
  {
    seq(|down|, i requires 0 <= i < |down| => if down[i] then true else if up[i] then false else hold[i])
  }

  /** The Hold flags part-way through the scan: ids below n already
      promoted, the others as they were. */
  function PartlyPromoted(down: seq<bool>, up: seq<bool>, hold: seq<bool>, n: nat): (r: seq<bool>)
    requires |up| == |down| && |hold| == |down| && n <= |down|
    ensures |r| == |down|
  {
    Promoted(down[..n], up[..n], hold[..n]) + hold[n..]
  }

  /** Before the first id nothing is promoted; after the last the scan is
      complete. */
  lemma PartlyPromotedEnds(down: seq<bool>, up: seq<bool>, hold: seq<bool>)
    requires |up| == |down| && |hold| == |down|
    ensures PartlyPromoted(down, up, hold, 0) == hold
    ensures PartlyPromoted(down, up, hold, |down|) == Promoted(down, up, hold)
  {
    assert hold[..|hold|] == hold && down[..|down|] == down && up[..|up|] == up;
  }

  /** Visiting id n advances the scan by exactly that id. */
  lemma PartlyPromotedStep(down: seq<bool>, up: seq<bool>, hold: seq<bool>, n: nat)
    requires |up| == |down| && |hold| == |down| && n < |down|
    ensures PartlyPromoted(down, up, hold, n)[n := down[n] || (!up[n] && hold[n])]
         == PartlyPromoted(down, up, hold, n + 1)
  {
  }

  /** One id of the scan: a raised Down pushes the id onto clearDown and
      raises Hold; otherwise a raised Up pushes it onto clearUp and lowers
      Hold; otherwise nothing changes. */
  function PromoteOne(b: Bank, i: int): (r: Bank)
    requires WellFormed(b) && 0 <= i < Size(b)
    ensures WellFormed(r) && Size(r) == Size(b) && r.down == b.down && r.up == b.up
  {
    if b.down[i] then b.(hold := b.hold[i := true], clearDown := b.clearDown + [i])
    else if b.up[i] then b.(hold := b.hold[i := false], clearUp := b.clearUp + [i])
    else b
  }

  /** The bank after the scan has visited ids 0 .. n-1 in order. */
  function ScanTo(b: Bank, n: nat): (r: Bank)
    requires WellFormed(b) && n <= Size(b)
    ensures WellFormed(r) && Size(r) == Size(b) && r.down == b.down && r.up == b.up
    decreases n
  {
    if n == 0 then b else PromoteOne(ScanTo(b, n - 1), n - 1)
  }

  /** After visiting ids 0 .. n-1 the scan has promoted exactly those ids. */
  lemma {:induction false} ScanToHold(b: Bank, n: nat)
    requires WellFormed(b) && n <= Size(b)
    ensures ScanTo(b, n).hold == PartlyPromoted(b.down, b.up, b.hold, n)
    decreases n
  {
    if n == 0 {
      PartlyPromotedEnds(b.down, b.up, b.hold);
    } else {
      var k := n - 1;
      ScanToHold(b, k);
      PartlyPromotedStep(b.down, b.up, b.hold, k);
      assert ScanTo(b, k).hold[k] == b.hold[k];
    }
  }

  /** After visiting ids 0 .. n-1 the scan has appended to the groups
      exactly the qualifying ids among them, in ascending order. */
  lemma {:induction false} ScanToGroups(b: Bank, n: nat)
    requires WellFormed(b) && n <= Size(b)
    ensures ScanTo(b, n).clearDown == b.clearDown + Scanned(b.down, n)
    ensures ScanTo(b, n).clearUp == b.clearUp + Scanned(Pending(b.down, b.up), n)
    decreases n
  {
    if n > 0 {
      var k := n - 1;
      var p := Pending(b.down, b.up);
      ScanToGroups(b, k);
      assert b.clearDown + Scanned(b.down, n) == b.clearDown + Scanned(b.down, k) + (if b.down[k] then [k] else []);
      assert b.clearUp + Scanned(p, n) == b.clearUp + Scanned(p, k) + (if p[k] then [k] else []);
    }
  }

  /** The id-by-id scan over every id, started from emptied groups, is
      phase two of the tick. */
  lemma ScanIsPromote(b: Bank)
    requires WellFormed(b) && b.clearDown == [] && b.clearUp == []
    ensures ScanTo(b, Size(b)) == Promote(b)
  {
    ScanToHold(b, Size(b));
    ScanToGroups(b, Size(b));
  }

  /** Phase one of a tick: the edges scheduled by the previous tick are
      lowered and both groups emptied. */
  function LowerScheduled(b: Bank): (r: Bank)
    requires WellFormed(b)
    ensures WellFormed(r) && Size(r) == Size(b)
    ensures r.hold == b.hold && r.clearDown == [] && r.clearUp == []
    ensures Exclusive(b) ==> Exclusive(r)
  {
    Bank(Cleared(b.down, b.clearDown), b.hold, Cleared(b.up, b.clearUp), [], [])
  }

  /** Phase two of a tick: the ascending scan over all ids that promotes
      raised edges and pushes their ids onto the emptied groups. */
  function Promote(b: Bank): (r: Bank)
    requires WellFormed(b)
    ensures WellFormed(r) && Size(r) == Size(b)
    ensures r.down == b.down && r.up == b.up
    ensures Exclusive(b) ==> Exclusive(r)
  {
    var pending := Pending(b.down, b.up);
    ScannedExactly(b.down, Size(b));
    ScannedExactly(pending, Size(b));
    Bank(b.down, Promoted(b.down, b.up, b.hold), b.up, Scanned(b.down, Size(b)), Scanned(pending, Size(b)))
  }

  /** update(): the two-phase tick.  The edges scheduled by the previous tick
      are lowered and the groups emptied; then every id whose Down is raised
      is promoted to Hold and scheduled in clearDown, and every other id
      whose Up is raised loses Hold and is scheduled in clearUp.  The groups
      come out in ascending id order and name exactly those ids. */
  function Update(b: Bank): (r: Bank)
    requires WellFormed(b)
    ensures WellFormed(r) && Size(r) == Size(b)
    ensures Exclusive(b) ==> Exclusive(r)
  {
    Promote(LowerScheduled(b))
  }

  /** What a tick computes, id by id: the flags the previous tick scheduled
      are lowered, Hold follows the surviving edges, and the new groups name
      exactly the surviving Down edges and the surviving Up edges without a
      Down, in ascending order. */
  lemma UpdateMeaning(b: Bank)
    requires WellFormed(b)
    ensures var r := Update(b);
      forall i :: 0 <= i < Size(b) ==>
        r.down[i] == (b.down[i] && i !in b.clearDown) && r.up[i] == (b.up[i] && i !in b.clearUp)
    ensures var r := Update(b);
      forall i :: 0 <= i < Size(b) ==> r.hold[i] == (r.down[i] || (!r.up[i] && b.hold[i]))
    ensures var r := Update(b);
      forall i :: i in r.clearDown <==> 0 <= i < Size(b) && r.down[i]
    ensures var r := Update(b);
      forall i :: i in r.clearUp <==> 0 <= i < Size(b) && !r.down[i] && r.up[i]
    ensures Ascending(Update(b).clearDown) && Ascending(Update(b).clearUp)
  {
    var lowered := LowerScheduled(b);
    ScannedExactly(lowered.down, Size(b));
    ScannedExactly(Pending(lowered.down, lowered.up), Size(b));
  }

  /** GetKey: the id counts as pressed while Down or Hold is raised. */
  function IsPressed(b: Bank, k: int): bool
    requires WellFormed(b) && 0 <= k < Size(b)
  {
    b.down[k] || b.hold[k]
  }

  /** While k is held, no event of the frame can raise its Down edge: a
      press is swallowed (this is what filters the operating system's
      key-repeat events) and a release only lowers Down. */
  lemma {:induction false} HeldIgnoresPresses(b: Bank, k: int, evs: seq<RawEvent>)
    requires WellFormed(b) && EventsInRange(evs, Size(b)) && 0 <= k < Size(b)
    requires b.hold[k]
    ensures Deliver(b, evs).down[k] ==> b.down[k]
    decreases |evs|
  {
    if evs != [] {
      var b1 := Apply(b, evs[0]);
      assert EventsInRange(evs[1..], Size(b1));
      HeldIgnoresPresses(b1, k, evs[1..]);
    }
  }

  /** A Down edge raised by an event is still visible after the first tick
      that follows (and Hold is raised and the id scheduled), and whatever
      events arrive before the next tick, that next tick lowers it. */
  lemma DownEdgeLastsOneTick(b: Bank, k: int, evs: seq<RawEvent>)
    requires WellFormed(b) && 0 <= k < Size(b) && EventsInRange(evs, Size(b))
    requires b.down[k] && k !in b.clearDown
    ensures Update(b).down[k] && Update(b).hold[k] && k in Update(b).clearDown
    ensures !Update(Deliver(Update(b), evs)).down[k]
  {
    UpdateMeaning(b);
    UpdateMeaning(Deliver(Update(b), evs));
  }

  /** An Up edge (with Down lowered) is still visible after the first tick
      that follows, with Hold lowered and the id scheduled; the next tick
      lowers it whatever events arrive in between. */
  lemma UpEdgeLastsOneTick(b: Bank, k: int, evs: seq<RawEvent>)
    requires WellFormed(b) && 0 <= k < Size(b) && EventsInRange(evs, Size(b))
    requires b.up[k] && !b.down[k] && k !in b.clearUp
    ensures Update(b).up[k] && !Update(b).hold[k] && k in Update(b).clearUp
    ensures !Update(Deliver(Update(b), evs)).up[k]
  {
    UpdateMeaning(b);
    UpdateMeaning(Deliver(Update(b), evs));
  }

  /** What the scan of a tick leaves behind: every id scheduled for a Down
      lowering is held, and every id scheduled for an Up lowering is not. */
  predicate Scheduled(b: Bank)
    requires WellFormed(b)
  {
    (forall i :: i in b.clearDown ==> 0 <= i < Size(b) && b.hold[i]) &&
    (forall i :: i in b.clearUp ==> 0 <= i < Size(b) && !b.hold[i])
  }

  /** After any tick, and any events delivered after it, the groups agree
      with Hold.  So a press of an id that is not held is never already on
      clearDown, and a release of a held id is never already on clearUp:
      the premises of DownEdgeLastsOneTick and UpEdgeLastsOneTick hold for
      every such event once the program is running. */
  lemma {:induction false} TickSchedules(b: Bank, evs: seq<RawEvent>, k: int)
    requires WellFormed(b) && EventsInRange(evs, Size(b)) && 0 <= k < Size(b)
    ensures Scheduled(Update(b)) && Scheduled(Deliver(Update(b), evs))
    ensures var s := Deliver(Update(b), evs);
      !s.hold[k] ==> UpdateDown(s, k).down[k] && k !in UpdateDown(s, k).clearDown
    ensures var s := Deliver(Update(b), evs);
      s.hold[k] ==> !UpdateUp(s, k).down[k] && UpdateUp(s, k).up[k] && k !in UpdateUp(s, k).clearUp
  {
    UpdateMeaning(b);
  }

  /** The one way around TickSchedules: init() lowers Hold but keeps the
      groups, so after an init() between two ticks a press of an id still on
      clearDown is lowered by the very next tick and never reads as held. */
  lemma InitThenPressLosesDown(b: Bank, k: int)
    requires WellFormed(b) && 0 <= k < Size(b) && k in b.clearDown
    ensures UpdateDown(Init(b), k).down[k]
    ensures var s := Update(UpdateDown(Init(b), k));
      !s.down[k] && !s.hold[k] && !s.up[k] && !IsPressed(s, k)
  {
    UpdateMeaning(UpdateDown(Init(b), k));
  }

  /** The full life of one key press: Idle, JustDown (Down and Hold), Held,
      JustUp (Up only) and Idle again, with GetKey true exactly while the
      key is down or held. */
  lemma PressReleaseCycle(b: Bank, k: int)
    requires WellFormed(b) && 0 <= k < Size(b) && Idle(b, k)
    ensures var s := Update(UpdateDown(b, k));
      s.down[k] && s.hold[k] && !s.up[k] && IsPressed(s, k)
    ensures var s := Update(Update(UpdateDown(b, k)));
      !s.down[k] && s.hold[k] && !s.up[k] && IsPressed(s, k)
    ensures var s := Update(UpdateUp(Update(Update(UpdateDown(b, k))), k));
      !s.down[k] && !s.hold[k] && s.up[k] && !IsPressed(s, k)
    ensures var s := Update(Update(UpdateUp(Update(Update(UpdateDown(b, k))), k)));
      Idle(s, k)
  {
    var s1 := Update(UpdateDown(b, k));
    UpdateMeaning(UpdateDown(b, k));
    var s2 := Update(s1);
    UpdateMeaning(s1);
    var s3 := Update(UpdateUp(s2, k));
    UpdateMeaning(UpdateUp(s2, k));
    UpdateMeaning(s3);
  }

  /** A second press (or release) before the next tick changes nothing: the
      repeat is harmless even though the Down check does not suppress it. */
  lemma RepeatedEventsIdempotent(b: Bank, k: int)
    requires WellFormed(b) && 0 <= k < Size(b)
    ensures UpdateDown(UpdateDown(b, k), k) == UpdateDown(b, k)
    ensures UpdateUp(UpdateUp(b, k), k) == UpdateUp(b, k)
  {
  }

  /** A release followed by a press of a held key within one frame leaves
      only the release: the press is swallowed because Hold is still raised,
      so after the tick the key reads as released. */
  lemma ReleaseThenPressWhileHeld(b: Bank, k: int)
    requires WellFormed(b) && 0 <= k < Size(b) && b.hold[k] && k !in b.clearUp
    ensures var s := UpdateDown(UpdateUp(b, k), k); !s.down[k] && s.up[k]
    ensures !IsPressed(Update(UpdateDown(UpdateUp(b, k), k)), k)
  {
    UpdateMeaning(UpdateDown(UpdateUp(b, k), k));
  }

  /** Between a press and the next tick, Down is raised but Hold is not: a
      query of Down or Hold (GetKey) already sees the press, a query of Hold
      alone (GetMouseButton) sees it only once the tick has run. */
  lemma HoldLagsDownUntilTick(b: Bank, k: int)
    requires WellFormed(b) && 0 <= k < Size(b) && Idle(b, k)
    ensures IsPressed(UpdateDown(b, k), k) && !UpdateDown(b, k).hold[k]
    ensures Update(UpdateDown(b, k)).hold[k]
  {
    UpdateMeaning(UpdateDown(b, k));
  }

  /** A quick tap right after a release is lost: the release's tick has put
      the id on clearUp and lowered Hold, so a press is accepted and the
      following release raises Up again, but the next tick lowers that Up
      before its scan reaches the id.  After that tick no flag of the id is
      raised, so no query ever saw the tap. */
  lemma TapAfterReleaseIsLost(b: Bank, k: int)
    requires WellFormed(b) && 0 <= k < Size(b)
    requires b.hold[k] && !b.down[k] && !b.up[k] && k !in b.clearDown && k !in b.clearUp
    ensures var s1 := Update(UpdateUp(b, k));
      k in s1.clearUp && !s1.hold[k] && s1.up[k]
    ensures var s1 := Update(UpdateUp(b, k));
      var s2 := Update(UpdateUp(UpdateDown(s1, k), k));
      !s2.down[k] && !s2.hold[k] && !s2.up[k]
  {
    var s1 := Update(UpdateUp(b, k));
    UpdateMeaning(UpdateUp(b, k));
    UpdateMeaning(UpdateUp(UpdateDown(s1, k), k));
  }

  /** A tap (a press and a release) within one frame from rest shows only
      as a release: the release lowers the Down edge before the tick sees
      it, so after the tick Up is raised and Down and Hold are not, and no
      GetKey or GetKeyDown query ever sees the tap. */
  lemma TapWithinFrameShowsOnlyUp(b: Bank, k: int)
    requires WellFormed(b) && 0 <= k < Size(b) && Idle(b, k)
    ensures var s := Update(UpdateUp(UpdateDown(b, k), k));
      !s.down[k] && !s.hold[k] && s.up[k] && !IsPressed(s, k)
  {
    UpdateMeaning(UpdateUp(UpdateDown(b, k), k));
  }
}
