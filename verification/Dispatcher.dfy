/** "Hold until the gate opens, then forward in order", apart from any particular relay. */
module Dispatcher {
  import opened Wrappers

  datatype Hold<M> = Hold(done: seq<M>, held: seq<M>)

  /** One turn of a relay: the message that arrived, if any, and whether the gate was open when it
      arrived and when the turn ended. */
  datatype Turn<M> = Turn(arrival: Option<M>, openBefore: bool, openAfter: bool)

  function Advance<M>(h: Hold<M>, t: Turn<M>): Hold<M> {
    var h1 :=
      if t.arrival.None? then h
      else if t.openBefore then h.(done := h.done + [t.arrival.value])
      else h.(held := h.held + [t.arrival.value]);
    if t.openAfter then Hold(h1.done + h1.held, []) else h1
  }

  function Play<M>(turns: seq<Turn<M>>): Hold<M> {
    if turns == [] then Hold([], []) else Advance(Play(turns[..|turns| - 1]), turns[|turns| - 1])
  }

  function Arrivals<M>(turns: seq<Turn<M>>): seq<M> {
    if turns == [] then []
    else Arrivals(turns[..|turns| - 1]) + Listed(turns[|turns| - 1].arrival)
  }

  /** Each turn starts with the gate as the turn before left it; the first turn finds it open. */
  ghost predicate Continuous<M>(turns: seq<Turn<M>>) {
    forall i :: 0 <= i < |turns| ==>
      (turns[i].openBefore ==> i == 0 || turns[i - 1].openAfter)
  }

  /** First in, first out, with nothing lost: what was forwarded followed by what is held is what
      arrived, in the order of arrival; and an open gate holds nothing back. */
  lemma {:induction false} FirstInFirstOut<M>(turns: seq<Turn<M>>)
    requires Continuous(turns)
    ensures Play(turns).done + Play(turns).held == Arrivals(turns)
    ensures turns != [] && turns[|turns| - 1].openAfter ==> Play(turns).held == []
  {
    if turns != [] {
      var before, t := turns[..|turns| - 1], turns[|turns| - 1];
      FirstInFirstOut(before);
      if t.openBefore && before != [] {
        assert before[|before| - 1].openAfter;
      }
    }
  }
}
