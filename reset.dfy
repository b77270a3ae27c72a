/** The delta-preserving reset `resetOnImplementationChange` performs when a
    story's implementation, and so its initial args, change. */
module Reset {
  import opened ArgValues

  /** Arg `k` has been changed by the user: it has a current value, and the
      previous initial args either lack `k` or hold a different value. */
  predicate Changed(prevInitial: Args, current: Args, k: string) {
    k in current && (k !in prevInitial || current[k] != prevInitial[k])
  }

  /** The user's edits: every changed arg with its current value. */
  function Delta(prevInitial: Args, current: Args): (r: Args)
    ensures forall k :: k in r <==> Changed(prevInitial, current, k)
    ensures forall k :: k in r ==> k in current && r[k] == current[k]
  {
    map k | k in current && Changed(prevInitial, current, k) :: current[k]
  }

  /** The new current args: the new initial args with the user's edits laid
      over them. */
  function ResetArgs(prevInitial: Args, current: Args, newInitial: Args): (r: Args)
    ensures forall k :: Changed(prevInitial, current, k) ==> k in r && r[k] == current[k]
    ensures forall k :: !Changed(prevInitial, current, k) ==>
      (k in r <==> k in newInitial) && (k in r ==> r[k] == newInitial[k])
  {
    Overlay(newInitial, Delta(prevInitial, current))
  }

  /** Untouched args take whatever the new initial args say. */
  lemma {:induction false} UntouchedResetsToNewInitial(prevInitial: Args, newInitial: Args)
    ensures ResetArgs(prevInitial, prevInitial, newInitial) == newInitial
  {
    assert Delta(prevInitial, prevInitial) == map[];
  }

  /** With unchanged initial args, a reset keeps the current args as they are,
      provided every initial arg still has a current value. */
  lemma {:induction false} SameInitialKeepsCurrent(initial: Args, current: Args)
    requires initial.Keys <= current.Keys
    ensures ResetArgs(initial, current, initial) == current
  {
    var r := ResetArgs(initial, current, initial);
    assert r.Keys == current.Keys;
    forall k | k in r ensures r[k] == current[k] {
      if !Changed(initial, current, k) {
        assert current[k] == initial[k];
      }
    }
  }

  /** Every initial arg has a value after a reset, whatever the edits. */
  lemma {:induction false} ResetCoversNewInitial(prevInitial: Args, current: Args, newInitial: Args)
    ensures newInitial.Keys <= ResetArgs(prevInitial, current, newInitial).Keys
  {
    forall k | k in newInitial
      ensures k in ResetArgs(prevInitial, current, newInitial)
    {
      if !Changed(prevInitial, current, k) {
      }
    }
  }

  /** The edits measured against the new initial args are the old edits, less
      those the new initial args now agree with: the reset carries the delta
      over and adds none of its own. */
  lemma {:induction false} ResetCarriesDelta(prevInitial: Args, current: Args, newInitial: Args)
    ensures Delta(newInitial, ResetArgs(prevInitial, current, newInitial)) ==
      map k | k in Delta(prevInitial, current) && Changed(newInitial, current, k) :: current[k]
  {
    var r := ResetArgs(prevInitial, current, newInitial);
    var lhs := Delta(newInitial, r);
    var rhs := map k | k in Delta(prevInitial, current) && Changed(newInitial, current, k) :: current[k];
    forall k ensures k in lhs <==> k in rhs {
      if !Changed(prevInitial, current, k) {
        assert k in r ==> k in newInitial && r[k] == newInitial[k];
      }
    }
    assert lhs.Keys == rhs.Keys;
  }

  /** Resetting a second time to the same initial args changes nothing. */
  lemma {:induction false} ResetIdempotent(prevInitial: Args, current: Args, newInitial: Args)
    ensures var r := ResetArgs(prevInitial, current, newInitial);
      ResetArgs(newInitial, r, newInitial) == r
  {
    ResetCoversNewInitial(prevInitial, current, newInitial);
    SameInitialKeepsCurrent(newInitial, ResetArgs(prevInitial, current, newInitial));
  }
}
