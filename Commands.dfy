/** The commands of the aggregate (`Aggregate.Command`) and the decision they make. */
module Commands {
  import opened Events
  import opened States

  datatype Command = MakeItSo

  /**
   * The events that carry out `c` against state `s`. `MakeItSo` yields one
   * `Happened` event when the state has not happened yet, and nothing when
   * it has.
   */
  function Interpret(s: StateValue, c: Command): (es: seq<Event>)
    ensures |es| <= 1
    ensures es == [] <==> s.happened
    ensures forall e <- es :: e == Happened
  {
    match c
    case MakeItSo => if !s.happened then [Happened] else []
  }

  /**
   * Interpreting a command and folding its events reaches a state that
   * already reflects the command, so interpreting it again decides nothing;
   * and a command decides nothing exactly when its events would not change
   * the state.
   */
  lemma Idempotent(s: StateValue, c: Command)
    ensures Folded(s, Interpret(s, c)).happened
    ensures Interpret(Folded(s, Interpret(s, c)), c) == []
    ensures Interpret(s, c) == [] <==> Folded(s, Interpret(s, c)) == s
  {
  }
}
