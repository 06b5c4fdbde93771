/**
 Reassembly of streamed tool calls: what the interceptor's accumulators do with each fragment, and
 an independent description of the calls a fragment sequence carries.
 */
module ToolCalls {
  import opened Sequences
  import opened Wrappers

  /** One tool-call fragment of a streaming chunk. An absent property is None. */
  datatype ToolCallDelta = ToolCallDelta(
    index: Option<int>, id: Option<string>, name: Option<string>, arguments: Option<string>)
  {
    /** Fragments without an index belong to index 0. */
    function Index(): int { index.GetOr(0) }

    /** A non-empty id opens a new call; any other fragment continues one. */
    predicate Opens() { id.Some? && id.value != "" }
  }

  /** A call being collected. */
  datatype Accumulator = Accumulator(callId: string, toolName: string, arguments: string)

  /** The event handed to the callbacks; the time the call was first seen is left out. */
  datatype ToolCallEvent = ToolCallEvent(callId: string, toolName: string, arguments: string)

  /** An entry of the accumulator map. */
  datatype Slot = Slot(index: int, call: Accumulator)

  /** What the interceptor is fed: a fragment, or the end of the stream. */
  datatype Input = Fragment(delta: ToolCallDelta) | Flush

  /** The interceptor's state: the accumulator map in insertion order, and the events emitted so far. */
  datatype Interception = Interception(slots: seq<Slot>, emitted: seq<ToolCallEvent>)

  function EventOf(call: Accumulator): ToolCallEvent {
    ToolCallEvent(call.callId, call.toolName, call.arguments)
  }

  function EventsOf(slots: seq<Slot>): (events: seq<ToolCallEvent>)
    ensures |events| == |slots|
    ensures forall i :: 0 <= i < |slots| ==> events[i] == EventOf(slots[i].call)
  {
    seq(|slots|, i requires 0 <= i < |slots| => EventOf(slots[i].call))
  }

  function Open(delta: ToolCallDelta): Accumulator
    requires delta.Opens()
  {
    Accumulator(delta.id.value, delta.name.GetOr("unknown"), delta.arguments.GetOr(""))
  }

  function Extend(call: Accumulator, delta: ToolCallDelta): Accumulator {
    call.(toolName := if delta.name.GetOr("") != "" then delta.name.value else call.toolName,
          arguments := call.arguments + delta.arguments.GetOr(""))
  }

  /** Where the map holds an index, or the number of entries when it does not. */
  function Find(slots: seq<Slot>, index: int): (i: nat)
    ensures i <= |slots|
    ensures i < |slots| ==> slots[i].index == index
    ensures forall j :: 0 <= j < i ==> slots[j].index != index
  {
    FirstIndex(slots, (slot: Slot) => slot.index == index)
  }

  ghost predicate DistinctIndices(slots: seq<Slot>) {
    forall i, j :: 0 <= i < j < |slots| ==> slots[i].index != slots[j].index
  }

  /** The effect of one fragment on the interceptor. */
  function Feed(st: Interception, delta: ToolCallDelta): (next: Interception)
    requires DistinctIndices(st.slots)
    ensures DistinctIndices(next.slots)
  {
    var i := Find(st.slots, delta.Index());
    if delta.Opens() then
      if i < |st.slots| then
        Interception(st.slots[i := Slot(delta.Index(), Open(delta))], st.emitted + [EventOf(st.slots[i].call)])
      else
        Interception(st.slots + [Slot(delta.Index(), Open(delta))], st.emitted)
    else if i < |st.slots| then
      Interception(st.slots[i := Slot(delta.Index(), Extend(st.slots[i].call, delta))], st.emitted)
    else st
  }

  function Step(st: Interception, input: Input): (next: Interception)
    requires DistinctIndices(st.slots)
    ensures DistinctIndices(next.slots)
  {
    match input
    case Fragment(delta) => Feed(st, delta)
    case Flush => Interception([], st.emitted + EventsOf(st.slots))
  }

  function Run(st: Interception, inputs: seq<Input>): (next: Interception)
    requires DistinctIndices(st.slots)
    ensures DistinctIndices(next.slots)
    decreases |inputs|
  {
    if inputs == [] then st else Run(Step(st, inputs[0]), inputs[1..])
  }

  // ---------------------------------------------------------------------------
  // The calls a sequence of inputs carries, read off the fragments' own fields
  // ---------------------------------------------------------------------------

  /** The fragments that continue a call at `index`: those without an id up to the next one with an id there, or a flush. */
  function Continuation(inputs: seq<Input>, index: int): (deltas: seq<ToolCallDelta>) {
    if inputs == [] || inputs[0].Flush? then []
    else
      var delta := inputs[0].delta;
      if (if delta.index.Some? then delta.index.value else 0) != index then Continuation(inputs[1..], index)
      else if delta.id.Some? && delta.id.value != "" then []
      else [delta] + Continuation(inputs[1..], index)
  }

  /** All argument text of the fragments, in order. */
  function Arguments(deltas: seq<ToolCallDelta>): string {
    if deltas == [] then "" else deltas[0].arguments.GetOr("") + Arguments(deltas[1..])
  }

  /** The last non-empty name among the fragments, if any of them has one. */
  function LastName(deltas: seq<ToolCallDelta>, name: string): string {
    if deltas == [] then name
    else
      var last := deltas[|deltas| - 1].name.GetOr("");
      if last != "" then last else LastName(deltas[..|deltas| - 1], name)
  }

  /** A call completed by the fragments that continue it. */
  function Complete(call: Accumulator, deltas: seq<ToolCallDelta>): ToolCallEvent {
    ToolCallEvent(call.callId, LastName(deltas, call.toolName), call.arguments + Arguments(deltas))
  }

  /**
   One event per fragment with a non-empty id, in order: the id, the last non-empty name of the continuation or else
   the fragment's own name or "unknown", and the fragment's text followed by that of the continuation. The continuation
   is at the fragment's index, which is 0 if it has none.
   */
  function Calls(inputs: seq<Input>): (events: seq<ToolCallEvent>) {
    if inputs == [] then []
    else if inputs[0].Fragment? && inputs[0].delta.id.Some? && inputs[0].delta.id.value != "" then
      [FirstCallOf(inputs)] + Calls(inputs[1..])
    else Calls(inputs[1..])
  }

  /** The event of the call that the first fragment opens. */
  function FirstCallOf(inputs: seq<Input>): ToolCallEvent
    requires inputs != [] && inputs[0].Fragment? && inputs[0].delta.id.Some?
  {
    var delta := inputs[0].delta;
    var more := Continuation(inputs[1..], if delta.index.Some? then delta.index.value else 0);
    ToolCallEvent(delta.id.value,
                  LastName(more, if delta.name.Some? then delta.name.value else "unknown"),
                  (if delta.arguments.Some? then delta.arguments.value else "") + Arguments(more))
  }

  /** What the calls already open become when `inputs` follow. */
  function OpenCalls(slots: seq<Slot>, inputs: seq<Input>): (events: seq<ToolCallEvent>)
    ensures |events| == |slots|
    ensures forall i :: 0 <= i < |slots| ==>
      events[i] == Complete(slots[i].call, Continuation(inputs, slots[i].index))
  {
    seq(|slots|, i requires 0 <= i < |slots| => Complete(slots[i].call, Continuation(inputs, slots[i].index)))
  }

  // ---------------------------------------------------------------------------
  // Reassembly
  // ---------------------------------------------------------------------------

  lemma {:induction false} LastNameOfPrepend(delta: ToolCallDelta, deltas: seq<ToolCallDelta>, name: string)
    ensures LastName([delta] + deltas, name)
         == LastName(deltas, if delta.name.GetOr("") != "" then delta.name.value else name)
  {
    var all := [delta] + deltas;
    if deltas == [] {
      assert all[..|all| - 1] == [];
    } else {
      assert all[..|all| - 1] == [delta] + deltas[..|deltas| - 1];
      LastNameOfPrepend(delta, deltas[..|deltas| - 1], name);
    }
  }

  /** Appending a fragment in place is the same as leaving it in the continuation. */
  lemma CompleteExtends(call: Accumulator, delta: ToolCallDelta, deltas: seq<ToolCallDelta>)
    ensures Complete(Extend(call, delta), deltas) == Complete(call, [delta] + deltas)
  {
    LastNameOfPrepend(delta, deltas, call.toolName);
    assert ([delta] + deltas)[1..] == deltas;
  }

  /** When nothing more can be appended, the open calls are emitted as they are. */
  lemma NothingToAppend(slots: seq<Slot>, inputs: seq<Input>)
    requires inputs == [] || inputs[0].Flush?
    ensures OpenCalls(slots, inputs) == EventsOf(slots)
  {
    forall i | 0 <= i < |slots| ensures OpenCalls(slots, inputs)[i] == EventsOf(slots)[i] {
      assert slots[i].call.arguments + "" == slots[i].call.arguments;
    }
  }

  /** Emitted and still to come: the events a state owes once `inputs` and a flush have followed. */
  ghost function Owed(st: Interception, inputs: seq<Input>): multiset<ToolCallEvent> {
    multiset(st.emitted) + multiset(OpenCalls(st.slots, inputs)) + multiset(Calls(inputs))
  }

  /** One input neither loses, invents nor changes an event that is owed. */
  lemma StepConservesCalls(st: Interception, input: Input, rest: seq<Input>)
    requires DistinctIndices(st.slots)
    ensures Owed(Step(st, input), rest) == Owed(st, [input] + rest)
  {
    var inputs := [input] + rest;
    assert inputs[1..] == rest;
    match input
    case Flush =>
      NothingToAppend(st.slots, inputs);
      assert OpenCalls([], rest) == [];
    case Fragment(delta) =>
      FeedConservesCalls(st, delta, rest);
  }

  /** The calls of a sequence whose first input is a fragment. */
  lemma CallsOfFragment(delta: ToolCallDelta, rest: seq<Input>)
    ensures Calls([Fragment(delta)] + rest)
         == (if delta.Opens() then [Complete(Open(delta), Continuation(rest, delta.Index()))] else []) + Calls(rest)
  {
    assert ([Fragment(delta)] + rest)[1..] == rest;
  }

  /** What one fragment changes in the calls that are open. */
  lemma OpenCallsAfterFragment(st: Interception, delta: ToolCallDelta, rest: seq<Input>)
    requires DistinctIndices(st.slots)
    ensures var i := Find(st.slots, delta.Index());
      var before, after := OpenCalls(st.slots, [Fragment(delta)] + rest), OpenCalls(Feed(st, delta).slots, rest);
      if i < |st.slots| && delta.Opens() then
        && before[i] == EventOf(st.slots[i].call)
        && after == before[i := Complete(Open(delta), Continuation(rest, delta.Index()))]
      else if delta.Opens() then
        after == before + [Complete(Open(delta), Continuation(rest, delta.Index()))]
      else after == before
  {
    var inputs, i := [Fragment(delta)] + rest, Find(st.slots, delta.Index());
    assert inputs[1..] == rest;
    if i < |st.slots| && !delta.Opens() {
      CompleteExtends(st.slots[i].call, delta, Continuation(rest, delta.Index()));
    }
  }

  lemma FeedConservesCalls(st: Interception, delta: ToolCallDelta, rest: seq<Input>)
    requires DistinctIndices(st.slots)
    ensures Owed(Feed(st, delta), rest) == Owed(st, [Fragment(delta)] + rest)
  {
    CallsOfFragment(delta, rest);
    OpenCallsAfterFragment(st, delta, rest);
  }

  lemma {:induction false} RunConservesCalls(st: Interception, inputs: seq<Input>)
    requires DistinctIndices(st.slots)
    ensures Owed(Run(st, inputs), []) == Owed(st, inputs)
    decreases |inputs|
  {
    if inputs == [] {
    } else {
      StepConservesCalls(st, inputs[0], inputs[1..]);
      assert [inputs[0]] + inputs[1..] == inputs;
      RunConservesCalls(Step(st, inputs[0]), inputs[1..]);
    }
  }

  lemma {:induction false} RunConcat(st: Interception, a: seq<Input>, b: seq<Input>)
    requires DistinctIndices(st.slots)
    ensures Run(st, a + b) == Run(Run(st, a), b)
    decreases |a|
  {
    if a == [] {
      assert a + b == b;
    } else {
      assert (a + b)[1..] == a[1..] + b;
      RunConcat(Step(st, a[0]), a[1..], b);
    }
  }

  /**
   Reassembly: from an empty interceptor, any inputs closed by a flush emit exactly one event per
   opening fragment, with the opening fragment's text followed by that of its continuation.
   */
  lemma Reassembly(emitted: seq<ToolCallEvent>, inputs: seq<Input>)
    ensures var final := Run(Interception([], emitted), inputs + [Flush]);
      && final.slots == []
      && multiset(final.emitted) == multiset(emitted) + multiset(Calls(inputs))
  {
    var st := Interception([], emitted);
    var end := Run(st, inputs);
    RunConcat(st, inputs, [Flush]);
    assert Run(end, [Flush]) == Run(Step(end, Flush), []) == Step(end, Flush);
    assert Calls([]) == [];
    RunConservesCalls(st, inputs);
    NothingToAppend(end.slots, []);
    assert Owed(end, []) == multiset(end.emitted + EventsOf(end.slots));
    assert st.slots == [] && OpenCalls(st.slots, inputs) == [];
    assert Owed(st, inputs) == multiset(emitted) + multiset(Calls(inputs));
  }

  /** A second flush, as at the end of a stream that already sent its end marker, emits nothing more. */
  lemma SecondFlushEmitsNothing(st: Interception, inputs: seq<Input>)
    requires DistinctIndices(st.slots)
    ensures Run(st, inputs + [Flush] + [Flush]) == Run(st, inputs + [Flush])
  {
    RunConcat(st, inputs, [Flush]);
    RunConcat(st, inputs + [Flush], [Flush]);
    var flushed := Run(st, inputs + [Flush]);
    assert flushed == Run(Run(st, inputs), [Flush]) == Run(Step(Run(st, inputs), Flush), []);
    assert Run(flushed, [Flush]) == Run(Step(flushed, Flush), []);
    assert flushed.emitted + EventsOf([]) == flushed.emitted;
  }

  /** The number of calls is the number of opening fragments. */
  function Openings(inputs: seq<Input>): nat {
    if inputs == [] then 0
    else (if inputs[0].Fragment? && inputs[0].delta.id.Some? && inputs[0].delta.id.value != "" then 1 else 0)
         + Openings(inputs[1..])
  }

  lemma OneEventPerOpening(inputs: seq<Input>)
    ensures |Run(Interception([], []), inputs + [Flush]).emitted| == Openings(inputs)
  {
    Reassembly([], inputs);
    var final := Run(Interception([], []), inputs + [Flush]);
    assert |multiset(final.emitted)| == |final.emitted|;
    CallsCountOpenings(inputs);
  }

  lemma {:induction false} CallsCountOpenings(inputs: seq<Input>)
    ensures |Calls(inputs)| == Openings(inputs)
  {
    if inputs == [] {
    } else {
      CallsCountOpenings(inputs[1..]);
    }
  }

  // ---------------------------------------------------------------------------
  // Order of a flush
  // ---------------------------------------------------------------------------

  ghost predicate NoFlush(inputs: seq<Input>) {
    inputs != [] ==> inputs[0].Fragment? && NoFlush(inputs[1..])
  }

  /** The first input is a fragment with an id at this index. */
  ghost predicate OpensAt(inputs: seq<Input>, index: int) {
    && inputs != [] && inputs[0].Fragment?
    && inputs[0].delta.id.Some? && inputs[0].delta.id.value != ""
    && index == if inputs[0].delta.index.Some? then inputs[0].delta.index.value else 0
  }

  ghost predicate SomeOpenAt(inputs: seq<Input>, index: int) {
    inputs != [] && (OpensAt(inputs, index) || SomeOpenAt(inputs[1..], index))
  }

  /** The last call opened at an index. */
  ghost function LastCallAt(inputs: seq<Input>, index: int): ToolCallEvent
    requires SomeOpenAt(inputs, index)
  {
    if SomeOpenAt(inputs[1..], index) then LastCallAt(inputs[1..], index) else FirstCallOf(inputs)
  }

  /** The indices at which calls open, each where it comes up first, apart from those already known. */
  ghost function NewIndices(known: seq<int>, inputs: seq<Input>): seq<int>
    decreases |inputs|
  {
    if inputs == [] then []
    else if inputs[0].Flush? then NewIndices(known, inputs[1..])
    else
      var index := if inputs[0].delta.index.Some? then inputs[0].delta.index.value else 0;
      if OpensAt(inputs, index) && index !in known then [index] + NewIndices(known + [index], inputs[1..])
      else NewIndices(known, inputs[1..])
  }

  ghost function IndicesOf(slots: seq<Slot>): (indices: seq<int>)
    ensures |indices| == |slots| && forall i :: 0 <= i < |slots| ==> indices[i] == slots[i].index
  {
    seq(|slots|, i requires 0 <= i < |slots| => slots[i].index)
  }

  /** What becomes of the call at a slot: it is completed, or replaced by the last call opened at its index. */
  ghost predicate BecomesAt(slots: seq<Slot>, inputs: seq<Input>, end: Slot) {
    if SomeOpenAt(inputs, end.index) then EventOf(end.call) == LastCallAt(inputs, end.index)
    else
      var i := Find(slots, end.index);
      i < |slots| && EventOf(end.call) == Complete(slots[i].call, Continuation(inputs, end.index))
  }

  lemma BecomesAfterFragment(st: Interception, delta: ToolCallDelta, rest: seq<Input>, end: Slot)
    requires DistinctIndices(st.slots) && BecomesAt(Feed(st, delta).slots, rest, end)
    ensures BecomesAt(st.slots, [Fragment(delta)] + rest, end)
  {
    var inputs, fed := [Fragment(delta)] + rest, Feed(st, delta).slots;
    assert inputs[1..] == rest;
    var i, j := Find(st.slots, end.index), Find(fed, end.index);
    if !SomeOpenAt(rest, end.index) {
      if delta.Index() == end.index && !delta.Opens() {
        assert i == j;
        CompleteExtends(st.slots[i].call, delta, Continuation(rest, end.index));
      } else if delta.Index() != end.index {
        FedElsewhere(st, delta, end.index);
      }
    }
  }

  lemma FedElsewhere(st: Interception, delta: ToolCallDelta, index: int)
    requires DistinctIndices(st.slots) && delta.Index() != index && Find(Feed(st, delta).slots, index) < |Feed(st, delta).slots|
    ensures var i := Find(st.slots, index);
      i < |st.slots| && st.slots[i] == Feed(st, delta).slots[Find(Feed(st, delta).slots, index)]
  {
    var j := Find(Feed(st, delta).slots, index);
    assert j < |st.slots| && st.slots[j].index == index;
    assert Find(st.slots, index) == j;
  }

  lemma {:induction false} SlotsAfter(st: Interception, inputs: seq<Input>)
    requires DistinctIndices(st.slots) && NoFlush(inputs)
    ensures var end := Run(st, inputs).slots;
      && IndicesOf(end) == IndicesOf(st.slots) + NewIndices(IndicesOf(st.slots), inputs)
      && forall i :: 0 <= i < |end| ==> BecomesAt(st.slots, inputs, end[i])
    decreases |inputs|
  {
    if inputs == [] {
      NothingToAppend(st.slots, []);
      forall i | 0 <= i < |st.slots| ensures BecomesAt(st.slots, [], st.slots[i]) {
        assert Find(st.slots, st.slots[i].index) == i;
        assert OpenCalls(st.slots, [])[i] == EventsOf(st.slots)[i];
      }
    } else {
      var delta, rest := inputs[0].delta, inputs[1..];
      assert inputs == [Fragment(delta)] + rest;
      SlotsAfter(Feed(st, delta), rest);
      IndicesAfterFragment(st, delta, rest);
      forall i | 0 <= i < |Run(st, inputs).slots| ensures BecomesAt(st.slots, inputs, Run(st, inputs).slots[i]) {
        BecomesAfterFragment(st, delta, rest, Run(st, inputs).slots[i]);
      }
    }
  }

  lemma IndicesAfterFragment(st: Interception, delta: ToolCallDelta, rest: seq<Input>)
    requires DistinctIndices(st.slots)
    ensures var known, fed := IndicesOf(st.slots), IndicesOf(Feed(st, delta).slots);
      fed + NewIndices(fed, rest) == known + NewIndices(known, [Fragment(delta)] + rest)
  {
    var inputs, known, fed := [Fragment(delta)] + rest, IndicesOf(st.slots), IndicesOf(Feed(st, delta).slots);
    assert inputs[1..] == rest;
    var i := Find(st.slots, delta.Index());
    if i < |st.slots| {
      assert known[i] == delta.Index() && fed == known;
    } else {
      assert delta.Index() !in known;
      if delta.Opens() {
        assert fed == known + [delta.Index()];
      }
    }
  }

  /** The events are the last calls opened at each of the indices. */
  ghost predicate AreLastCalls(events: seq<ToolCallEvent>, inputs: seq<Input>, order: seq<int>) {
    && |events| == |order|
    && forall i :: 0 <= i < |order| ==> SomeOpenAt(inputs, order[i]) && events[i] == LastCallAt(inputs, order[i])
  }

  lemma SlotsAreLastCalls(slots: seq<Slot>, inputs: seq<Input>)
    requires forall i :: 0 <= i < |slots| ==> BecomesAt([], inputs, slots[i])
    ensures AreLastCalls(EventsOf(slots), inputs, IndicesOf(slots))
  {
    forall i | 0 <= i < |slots| ensures SomeOpenAt(inputs, slots[i].index) {
      assert BecomesAt([], inputs, slots[i]);
    }
  }

  lemma FlushOfRun(st: Interception, inputs: seq<Input>)
    requires DistinctIndices(st.slots)
    ensures Run(st, inputs + [Flush]).emitted == Run(st, inputs).emitted + EventsOf(Run(st, inputs).slots)
  {
    var end := Run(st, inputs);
    RunConcat(st, inputs, [Flush]);
    assert Run(end, [Flush]) == Run(Step(end, Flush), []) == Step(end, Flush);
  }

  /** A flush emits the open calls, the last one of each index, in the order in which the indices were first used. */
  lemma FlushOrder(emitted: seq<ToolCallEvent>, inputs: seq<Input>)
    requires NoFlush(inputs)
    ensures var before := Run(Interception([], emitted), inputs).emitted;
      var after := Run(Interception([], emitted), inputs + [Flush]).emitted;
      before <= after && AreLastCalls(after[|before|..], inputs, NewIndices([], inputs))
  {
    var st := Interception([], emitted);
    var end := Run(st, inputs);
    FlushOfRun(st, inputs);
    SlotsAfter(st, inputs);
    SlotsAreLastCalls(end.slots, inputs);
    assert IndicesOf([]) + NewIndices([], inputs) == NewIndices([], inputs);
    assert (end.emitted + EventsOf(end.slots))[|end.emitted|..] == EventsOf(end.slots);
  }

  // ---------------------------------------------------------------------------
  // Interleaving
  // ---------------------------------------------------------------------------

  /** The inputs that matter to one index: its fragments and every flush. */
  function Only(inputs: seq<Input>, index: int): seq<Input> {
    if inputs == [] then []
    else if inputs[0].Flush? || (if inputs[0].delta.index.Some? then inputs[0].delta.index.value else 0) == index then
      [inputs[0]] + Only(inputs[1..], index)
    else Only(inputs[1..], index)
  }

  lemma {:induction false} ContinuationOfOnly(inputs: seq<Input>, index: int)
    ensures Continuation(Only(inputs, index), index) == Continuation(inputs, index)
  {
    if inputs == [] {
    } else {
      ContinuationOfOnly(inputs[1..], index);
      if inputs[0].Flush? || inputs[0].delta.Index() == index {
        assert Only(inputs, index)[1..] == Only(inputs[1..], index);
      }
    }
  }

  /** The calls of each listed index, taken one index at a time. */
  ghost function CallsPerIndex(inputs: seq<Input>, indices: seq<int>): multiset<ToolCallEvent> {
    if indices == [] then multiset{}
    else multiset(Calls(Only(inputs, indices[0]))) + CallsPerIndex(inputs, indices[1..])
  }

  ghost predicate Distinct(indices: seq<int>) {
    forall i, j :: 0 <= i < j < |indices| ==> indices[i] != indices[j]
  }

  /** The call that the first input opens, if it opens one. */
  ghost function FirstCall(inputs: seq<Input>): multiset<ToolCallEvent>
    requires inputs != []
  {
    if inputs[0].Fragment? && inputs[0].delta.Opens() then multiset{Calls(inputs)[0]} else multiset{}
  }

  /** The call the first input opens at one of the given indices. */
  ghost function FirstCallAt(inputs: seq<Input>, indices: seq<int>): multiset<ToolCallEvent>
    requires inputs != []
  {
    if inputs[0].Fragment? && inputs[0].delta.Index() in indices then FirstCall(inputs) else multiset{}
  }

  lemma FirstCallSplits(inputs: seq<Input>, indices: seq<int>)
    requires inputs != [] && indices != [] && Distinct(indices)
    ensures FirstCallAt(inputs, indices) == FirstCallAt(inputs, [indices[0]]) + FirstCallAt(inputs, indices[1..])
  {
    if inputs[0].Fragment? {
      var k := inputs[0].delta.Index();
      assert k in indices <==> k == indices[0] || k in indices[1..];
    }
  }

  lemma CallsOfOnly(inputs: seq<Input>, index: int)
    requires inputs != []
    ensures multiset(Calls(Only(inputs, index)))
         == multiset(Calls(Only(inputs[1..], index)))
          + FirstCallAt(inputs, [index])
  {
    var kept := Only(inputs, index);
    if inputs[0].Flush? || inputs[0].delta.Index() == index {
      assert kept[0] == inputs[0] && kept[1..] == Only(inputs[1..], index);
      CallsOfFirst(inputs, kept, index);
    }
  }

  /** The first input opens the same call in a sequence and in what it keeps for the input's index. */
  lemma CallsOfFirst(inputs: seq<Input>, kept: seq<Input>, index: int)
    requires inputs != [] && kept != [] && kept[0] == inputs[0] && kept[1..] == Only(inputs[1..], index)
    requires inputs[0].Flush? || inputs[0].delta.Index() == index
    ensures multiset(Calls(kept)) == multiset(Calls(kept[1..])) + FirstCallAt(inputs, [index])
  {
    ContinuationOfOnly(inputs[1..], index);
    if inputs[0].Fragment? && inputs[0].delta.Opens() {
      assert FirstCallOf(kept) == FirstCallOf(inputs);
    }
  }

  lemma {:induction false} CallsPerIndexStep(inputs: seq<Input>, indices: seq<int>)
    requires inputs != [] && Distinct(indices)
    ensures CallsPerIndex(inputs, indices) == CallsPerIndex(inputs[1..], indices) + FirstCallAt(inputs, indices)
  {
    if indices == [] {
    } else {
      CallsOfOnly(inputs, indices[0]);
      CallsPerIndexStep(inputs, indices[1..]);
      FirstCallSplits(inputs, indices);
    }
  }

  ghost predicate Covers(indices: seq<int>, inputs: seq<Input>) {
    forall i :: 0 <= i < |inputs| && inputs[i].Fragment? ==> inputs[i].delta.Index() in indices
  }

  /** The calls of a sequence are the calls of its per-index subsequences put together. */
  lemma {:induction false} CallsDecompose(inputs: seq<Input>, indices: seq<int>)
    requires Distinct(indices) && Covers(indices, inputs)
    ensures multiset(Calls(inputs)) == CallsPerIndex(inputs, indices)
  {
    if inputs == [] {
      NoInputsNoCalls(indices);
    } else {
      CallsPerIndexStep(inputs, indices);
      CallsDecompose(inputs[1..], indices);
    }
  }

  lemma {:induction false} NoInputsNoCalls(indices: seq<int>)
    ensures CallsPerIndex([], indices) == multiset{}
  {
    if indices == [] {
    } else {
      NoInputsNoCalls(indices[1..]);
    }
  }

  /** The distinct indices of the fragments. */
  ghost function Indices(inputs: seq<Input>): (indices: seq<int>)
    ensures Distinct(indices) && Covers(indices, inputs)
  {
    if inputs == [] then []
    else
      var rest := Indices(inputs[1..]);
      if inputs[0].Flush? || inputs[0].delta.Index() in rest then rest else [inputs[0].delta.Index()] + rest
  }

  lemma {:induction false} OnlyKeepsFragments(inputs: seq<Input>, index: int, input: Input)
    requires input.Fragment? && input.delta.Index() == index
    ensures input in Only(inputs, index) <==> input in inputs
  {
    if inputs == [] {
    } else {
      OnlyKeepsFragments(inputs[1..], index, input);
    }
  }

  lemma {:induction false} SameSubsequencesSameCalls(a: seq<Input>, b: seq<Input>, indices: seq<int>)
    requires forall k :: Only(a, k) == Only(b, k)
    ensures CallsPerIndex(a, indices) == CallsPerIndex(b, indices)
  {
    if indices == [] {
    } else {
      SameSubsequencesSameCalls(a, b, indices[1..]);
    }
  }

  /**
   Interleaving independence: two input sequences that agree index by index (and on the flushes)
   make the interceptor emit the same events, however the indices are interleaved.
   */
  lemma InterleavingIndependence(emitted: seq<ToolCallEvent>, a: seq<Input>, b: seq<Input>)
    requires forall k :: Only(a, k) == Only(b, k)
    ensures multiset(Run(Interception([], emitted), a + [Flush]).emitted)
         == multiset(Run(Interception([], emitted), b + [Flush]).emitted)
  {
    Reassembly(emitted, a);
    Reassembly(emitted, b);
    var indices := Indices(a);
    forall i | 0 <= i < |b| && b[i].Fragment? ensures b[i].delta.Index() in indices {
      OnlyKeepsFragments(b, b[i].delta.Index(), b[i]);
      OnlyKeepsFragments(a, b[i].delta.Index(), b[i]);
    }
    CallsDecompose(a, indices);
    CallsDecompose(b, indices);
    SameSubsequencesSameCalls(a, b, indices);
  }
}
