/** The two loops of a tick as they run over one flag array, shared by the
    two-bank tracker and the keyboard-only revision.  Each is proved to do to
    the array what the corresponding function of module EdgeFlags does to a
    bank. */
module FlagArrays {
  import EdgeFlags

  /** Phase one of a tick for one flag array: every id named in the group
      has its flag lowered, in the group's order. */
  method LowerScheduled(flags: array<bool>, group: seq<int>)
    requires EdgeFlags.InRange(group, flags.Length)
    modifies flags
    ensures flags[..] == EdgeFlags.Cleared(old(flags[..]), group)
  {
    for j := 0 to |group|
      invariant forall x :: 0 <= x < flags.Length ==> flags[x] == (old(flags[x]) && x !in group[..j])
    {
      assert group[..j + 1] == group[..j] + [group[j]];
      flags[group[j]] := false;
    }
    assert group[..|group|] == group;
  }

  /** The loop body of phase two for one bank and one id: a raised Down
      flag pushes the id onto the Down group and raises Hold; otherwise a
      raised Up flag pushes it onto the Up group and lowers Hold. */
  method PromoteId(down: array<bool>, hold: array<bool>, up: array<bool>, i: int,
                   groupDown: seq<int>, groupUp: seq<int>)
    returns (nextDown: seq<int>, nextUp: seq<int>)
    requires hold.Length == down.Length && up.Length == down.Length && 0 <= i < down.Length
    requires hold != down && hold != up
    requires EdgeFlags.InRange(groupDown, down.Length) && EdgeFlags.InRange(groupUp, down.Length)
    modifies hold
    ensures EdgeFlags.Bank(down[..], hold[..], up[..], nextDown, nextUp)
         == EdgeFlags.PromoteOne(EdgeFlags.Bank(down[..], old(hold[..]), up[..], groupDown, groupUp), i)
  {
    nextDown, nextUp := groupDown, groupUp;
    if down[i] {
      nextDown := nextDown + [i];
      hold[i] := true;
    } else if up[i] {
      nextUp := nextUp + [i];
      hold[i] := false;
    }
  }
}
