/**
 * The read model and the execute/read cycle of `Aggregate.Service` and its
 * `Handler`. The event store is not modelled: the events a stream returns
 * are a parameter, and the events to append are a result.
 */
module Service {
  import opened Events
  import opened States
  import opened Commands

  /** What a reader sees of the aggregate. */
  datatype View = View(sorted: bool)

  /** The view of a state: sorted once the state has happened. */
  function Render(s: StateValue): (v: View)
    ensures v.sorted <==> s.happened
  {
    View(sorted := s.happened)
  }

  /**
   * One execute cycle over the events read from the stream: fold them from
   * the shared initial state, interpret the command, and return the events
   * to append. The events appended are at most one `Happened`; afterwards
   * the stream's state has happened, and nothing is appended exactly when it
   * had happened already.
   */
  method Execute(initial: State, stream: seq<Event>, c: Command) returns (appended: seq<Event>)
    requires initial.Value() == Initial
    ensures appended == Interpret(Folded(Initial, stream), c)
    ensures |appended| <= 1
    ensures forall e <- appended :: e == Happened
    ensures appended == [] <==> Folded(Initial, stream).happened
    ensures Folded(Initial, stream + appended).happened
  {
    var s := State.Fold(initial, stream);
    appended := Interpret(s.Value(), c);
    FoldConcat(Initial, stream, appended);
    Idempotent(s.Value(), c);
  }

  /**
   * Reads the view of the stream: fold from the shared initial state and
   * render. The view is sorted exactly when the last event is `Happened` or
   * a snapshot of a state that had happened.
   */
  method Read(initial: State, stream: seq<Event>) returns (v: View)
    requires initial.Value() == Initial
    ensures v.sorted <==> stream != [] && stream[|stream| - 1] in {Happened, Snapshotted(true)}
  {
    var s := State.Fold(initial, stream);
    v := Render(s.Value());
    FoldIsLastEvent(Initial, stream);
  }

  /**
   * Executing the same command twice in a row against one stream appends at
   * most one event, and the second cycle appends none.
   */
  method ExecuteTwice(initial: State, stream: seq<Event>, c: Command) returns (first: seq<Event>, second: seq<Event>)
    requires initial.Value() == Initial
    ensures first == Interpret(Folded(Initial, stream), c)
    ensures |first| <= 1
    ensures second == []
  {
    first := Execute(initial, stream, c);
    second := Execute(initial, stream + first, c);
  }
}
