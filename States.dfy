/**
 * The aggregate's state (`Aggregate.State`): the per-event transition, the
 * fold over a stream, and the snapshot support.
 *
 * `State` is the mutable object the source folds into. `StateValue` is the
 * value such an object holds; `Evolved` and `Folded` are the specification
 * of `State.Evolve` and `State.Fold` on those values.
 */
module States {
  import opened Events

  /** The contents of a `State` object. */
  datatype StateValue = StateValue(happened: bool)

  /** The state every stream starts from (the shared `State.Initial`). */
  const Initial: StateValue := StateValue(false)

  /** The effect of one event: `Happened` sets the flag, `Snapshotted` overwrites the whole state. */
  function Evolved(s: StateValue, x: Event): (r: StateValue) {
    match x
    case Happened => s.(happened := true)
    case Snapshotted(h) => s.(happened := h)
  }

  /** Applies `Evolved` to the events left to right, starting from `origin`. */
  function Folded(origin: StateValue, xs: seq<Event>): (r: StateValue)
    decreases xs
  {
    if xs == [] then origin else Folded(Evolved(origin, xs[0]), xs[1..])
  }

  /** Folding a concatenation is folding the second part from the result of the first. */
  lemma {:induction false} FoldConcat(origin: StateValue, xs: seq<Event>, ys: seq<Event>)
    ensures Folded(origin, xs + ys) == Folded(Folded(origin, xs), ys)
    decreases xs
  {
    if xs == [] {
      assert xs + ys == ys;
    } else {
      assert (xs + ys)[1..] == xs[1..] + ys;
      FoldConcat(Evolved(origin, xs[0]), xs[1..], ys);
    }
  }

  /**
   * Every event of this vocabulary overwrites the whole state, so the state
   * after a non-empty stream is the effect of its last event, whatever the
   * origin and whatever came before: it is what that event alone makes of
   * `Initial`.
   */
  lemma {:induction false} FoldIsLastEvent(origin: StateValue, xs: seq<Event>)
    ensures xs == [] ==> Folded(origin, xs) == origin
    ensures xs != [] ==> Folded(origin, xs) == Evolved(Initial, xs[|xs| - 1])
    decreases xs
  {
    if xs != [] {
      var rest := xs[1..];
      if rest == [] {
        assert Folded(origin, xs) == Folded(Evolved(origin, xs[0]), rest);
      } else {
        FoldIsLastEvent(Evolved(origin, xs[0]), rest);
        assert rest[|rest| - 1] == xs[|xs| - 1];
      }
    }
  }

  /** Whether a stored event is one a fold may start from: exactly the snapshots. */
  predicate IsOrigin(e: Event) {
    e.Snapshotted?
  }

  /** The snapshot event for a state: an origin that restores that state from `Initial`. */
  function Snapshot(s: StateValue): (e: Event)
    ensures IsOrigin(e)
    ensures Folded(Initial, [e]) == s
  {
    Snapshotted(s.happened)
  }

  /** The origin events are exactly the snapshots of states. */
  lemma OriginsAreSnapshots(e: Event)
    ensures IsOrigin(e) <==> exists s :: Snapshot(s) == e
  {
    if IsOrigin(e) {
      assert Snapshot(StateValue(e.happened)) == e;
    }
  }

  /**
   * A fold may start at any origin event in the stream: the events before it
   * do not matter, and folding the prefix up to and including it and then
   * the rest gives the same state as the whole fold.
   */
  lemma FoldFromOrigin(origin: StateValue, xs: seq<Event>, k: nat)
    requires k < |xs| && IsOrigin(xs[k])
    ensures Folded(origin, xs) == Folded(Initial, xs[k..])
    ensures Folded(origin, xs) == Folded(Folded(origin, xs[..k + 1]), xs[k + 1..])
  {
    assert xs == xs[..k] + xs[k..];
    FoldConcat(origin, xs[..k], xs[k..]);
    assert xs[k..][1..] == xs[k + 1..];
    assert xs == xs[..k + 1] + xs[k + 1..];
    FoldConcat(origin, xs[..k + 1], xs[k + 1..]);
  }

  /**
   * The snapshot event itself has to be replayed: resuming from the state
   * before it and folding only the events after it gives a different state.
   */
  lemma SnapshotMustBeReplayed()
    ensures var xs := [Happened, Snapshotted(false)];
      IsOrigin(xs[1]) && Folded(Initial, xs) != Folded(Folded(Initial, xs[..1]), xs[2..])
  {
  }

  /** The mutable state object the source folds events into. */
  class State {
    var happened: bool

    constructor (happened: bool)
      ensures this.happened == happened
    {
      this.happened := happened;
    }

    /** The value this object currently holds. */
    function Value(): (v: StateValue)
      reads this
    {
      StateValue(happened)
    }

    /** Applies one event to `s` in place. */
    static method Evolve(s: State, x: Event)
      modifies s
      ensures x.Happened? ==> s.happened
      ensures x.Snapshotted? ==> s.happened == x.happened
      ensures s.Value() == Evolved(old(s.Value()), x)
    {
      match x
      case Happened =>
        s.happened := true;
      case Snapshotted(h) =>
        s.happened := h;
    }

    /**
     * Copies `origin` into a fresh object and evolves the copy by each event
     * in order. The origin itself is never changed.
     */
    static method Fold(origin: State, xs: seq<Event>) returns (s: State)
      ensures fresh(s)
      ensures unchanged(origin)
      ensures s.Value() == Folded(origin.Value(), xs)
    {
      s := new State(origin.happened);
      for i := 0 to |xs|
        invariant s.Value() == Folded(origin.Value(), xs[..i])
      {
        FoldConcat(origin.Value(), xs[..i], [xs[i]]);
        assert xs[..i + 1] == xs[..i] + [xs[i]];
        Evolve(s, xs[i]);
      }
      assert xs[..|xs|] == xs;
    }
  }
}
