/** What an event log says: the last screen entered, and how many screens were
    entered, actions performed, and gazes taken since the last entry. */
module EventLog {
  import opened Domain

  function LastEnter(es: seq<Event>): Option<ScreenId> {
    if es == [] then None
    else if es[|es| - 1].kind == ScreenEnter then es[|es| - 1].screen
    else LastEnter(es[..|es| - 1])
  }

  function Enters(es: seq<Event>): nat {
    if es == [] then 0
    else Enters(es[..|es| - 1]) + if es[|es| - 1].kind == ScreenEnter then 1 else 0
  }

  function Actions(es: seq<Event>): nat {
    if es == [] then 0
    else Actions(es[..|es| - 1]) + if es[|es| - 1].kind.Acted? then 1 else 0
  }

  function GazesSinceEnter(es: seq<Event>): nat {
    if es == [] || es[|es| - 1].kind == ScreenEnter then 0
    else GazesSinceEnter(es[..|es| - 1]) + if es[|es| - 1].kind == Gaze then 1 else 0
  }

  // Event i carries sequence number i.
  ghost predicate Numbered(es: seq<Event>) {
    forall i :: 0 <= i < |es| ==> es[i].sequenceNo == i
  }

  // Every gaze and every action is recorded on the screen entered last before it.
  predicate Placed(es: seq<Event>) {
    es == []
    || (var e := es[|es| - 1];
        Placed(es[..|es| - 1])
        && (e.kind == Gaze || e.kind.Acted? ==> e.screen == LastEnter(es[..|es| - 1])))
  }

  lemma {:induction false} PlacedMeans(es: seq<Event>)
    ensures Placed(es) <==>
            forall i :: 0 <= i < |es| && (es[i].kind == Gaze || es[i].kind.Acted?) ==> es[i].screen == LastEnter(es[..i])
  {
    if es != [] {
      var init := es[..|es| - 1];
      PlacedMeans(init);
      forall i | 0 <= i < |es|
        ensures es[..i] == if i < |init| then init[..i] else init
      {}
    }
  }

  predicate Terminal(kind: EventKind) {
    kind == TaskSuccess || kind == TaskFailure || kind == Abandon
  }

  lemma Append(es: seq<Event>, e: Event)
    ensures LastEnter(es + [e]) == if e.kind == ScreenEnter then e.screen else LastEnter(es)
    ensures Enters(es + [e]) == Enters(es) + if e.kind == ScreenEnter then 1 else 0
    ensures Actions(es + [e]) == Actions(es) + if e.kind.Acted? then 1 else 0
    ensures GazesSinceEnter(es + [e]) ==
            if e.kind == ScreenEnter then 0 else GazesSinceEnter(es) + if e.kind == Gaze then 1 else 0
  {
    assert (es + [e])[..|es|] == es;
  }

  ghost predicate Sound(es: seq<Event>) {
    Numbered(es) && Placed(es)
  }

  lemma AppendSound(es: seq<Event>, e: Event)
    requires Sound(es) && e.sequenceNo == |es|
    requires e.kind == Gaze || e.kind.Acted? ==> e.screen == LastEnter(es)
    ensures Sound(es + [e])
  {
    assert (es + [e])[..|es|] == es;
  }
}
