/**
 * The submit gate of the command box (frontend/src/components/CommandInput.tsx):
 * the text being typed, what a submit does with it, and which key presses
 * submit. While a reply is loading, submitting means stopping it.
 */
module CommandInput {
  import opened Text

  /** What a submit asks of the page: stop the reply, nothing, or send the text. */
  datatype Action = Stop | Nothing | Send(text: string)

  /** What the user does to the box while the page is or is not loading. */
  datatype UiEvent =
    | Typed(text: string)
    | Pressed(key: string, shift: bool, loading: bool)
    | Submitted(loading: bool)

  /**
   * handleSubmit's decision: while loading, call onStop if there is one;
   * otherwise a text that trims to nothing is ignored, and any other text
   * is sent exactly as typed.
   */
  function SubmitAction(input: string, isLoading: bool, hasOnStop: bool): (a: Action)
    ensures isLoading ==> !a.Send? && (a == Stop <==> hasOnStop)
    ensures !isLoading ==> a != Stop
    ensures a.Send? <==> !isLoading && TrimJs(input) != ""
    ensures a.Send? ==> a.text == input
  {
    if isLoading then (if hasOnStop then Stop else Nothing)
    else if TrimJs(input) == "" then Nothing
    else Send(input)
  }

  /** Enter without Shift submits; every other key leaves the gate alone. */
  predicate SubmitsOn(key: string, shift: bool)
  {
    key == "Enter" && !shift
  }

  class InputBox {
    var input: string

    constructor ()
      ensures input == ""
    {
      input := "";
    }

    /** The textarea's onChange. */
    method SetInput(text: string)
      modifies this
      ensures input == text
    {
      input := text;
    }

    /** handleSubmit: a sent text clears the box; a stop or an ignored submit keeps it. */
    method HandleSubmit(isLoading: bool, hasOnStop: bool) returns (action: Action)
      modifies this
      ensures action == SubmitAction(old(input), isLoading, hasOnStop)
      ensures input == (if action.Send? then "" else old(input))
    {
      if isLoading {
        if hasOnStop {
          return Stop;
        }
        return Nothing;
      }
      if TrimJs(input) == "" {
        return Nothing;
      }
      action := Send(input);
      input := "";
    }

    /** handleKeyDown: Enter without Shift has its default suppressed and submits. */
    method HandleKeyDown(key: string, shift: bool, isLoading: bool, hasOnStop: bool) returns (action: Action, prevented: bool)
      modifies this
      ensures prevented == SubmitsOn(key, shift)
      ensures prevented ==> action == SubmitAction(old(input), isLoading, hasOnStop)
      ensures !prevented ==> action == Nothing && input == old(input)
      ensures input == (if action.Send? then "" else old(input))
    {
      prevented := SubmitsOn(key, shift);
      if prevented {
        action := HandleSubmit(isLoading, hasOnStop);
      } else {
        action := Nothing;
      }
    }
  }

  /** One event's effect on the box: the new text and what the page is asked to do. */
  function Step(input: string, e: UiEvent, hasOnStop: bool): (r: (string, Action))
    ensures r.1.Send? ==> r.1.text == input && r.0 == "" && TrimJs(input) != ""
    ensures !r.1.Send? && !e.Typed? ==> r.0 == input
  {
    match e
    case Typed(text) => (text, Nothing)
    case Pressed(key, shift, loading) =>
      if SubmitsOn(key, shift) then
        var a := SubmitAction(input, loading, hasOnStop);
        (if a.Send? then "" else input, a)
      else (input, Nothing)
    case Submitted(loading) =>
      var a := SubmitAction(input, loading, hasOnStop);
      (if a.Send? then "" else input, a)
  }

  /** The texts a run of events hands to onSubmit, in order, and the box's text at the end. */
  function Replay(input: string, events: seq<UiEvent>, hasOnStop: bool): (string, seq<string>)
    decreases |events|
  {
    if events == [] then (input, [])
    else
      var (text, action) := Step(input, events[0], hasOnStop);
      var (final, sent) := Replay(text, events[1..], hasOnStop);
      (final, if action.Send? then [action.text] + sent else sent)
  }

  /** Whatever the user types and presses, onSubmit never sees a text that trims to nothing. */
  lemma {:induction false} ReplayNeverSendsBlank(input: string, events: seq<UiEvent>, hasOnStop: bool)
    ensures forall k :: 0 <= k < |Replay(input, events, hasOnStop).1| ==> TrimJs(Replay(input, events, hasOnStop).1[k]) != ""
    decreases |events|
  {
    if events != [] {
      var (text, action) := Step(input, events[0], hasOnStop);
      ReplayNeverSendsBlank(text, events[1..], hasOnStop);
    }
  }

  /** While the page is loading, no key press and no submit sends anything or changes the text. */
  lemma {:induction false} LoadingNeverSends(input: string, events: seq<UiEvent>, hasOnStop: bool)
    requires forall k :: 0 <= k < |events| ==> !events[k].Typed? && events[k].loading
    ensures Replay(input, events, hasOnStop) == (input, [])
    decreases |events|
  {
    if events != [] {
      LoadingNeverSends(input, events[1..], hasOnStop);
    }
  }
}
