/** The tool-call interceptor of the agent daemon. */
module OpenClawInterceptor {
  import opened Wrappers
  import opened ToolCalls
  import opened StreamModel

  class Interceptor {
    const enabled: bool
    const decode: Decoder
    /** Calls being collected, keyed by index, in insertion order. */
    var accumulators: seq<Slot>
    /** The events handed to the registered callbacks so far. */
    var emitted: seq<ToolCallEvent>

    function State(): Interception
      reads this
    {
      Interception(accumulators, emitted)
    }

    ghost predicate Valid()
      reads this
    {
      DistinctIndices(accumulators)
    }

    constructor (enabled: bool, decode: Decoder)
      ensures Valid() && State() == Interception([], [])
      ensures this.enabled == enabled && this.decode == decode
    {
      this.enabled, this.decode := enabled, decode;
      accumulators, emitted := [], [];
    }

    /** Handles one payload and returns its content, or throws part of the way through it. */
    method ProcessChunk(data: string) returns (content: Outcome<Option<string>>)
      requires Valid()
      modifies this
      ensures Valid()
      ensures State() == Run(old(State()), Fed(decode, enabled, data))
      ensures content.Threw? <==>
        data != "[DONE]" && decode(data).Some? && Throws(enabled, decode(data).value)
      ensures content.Returned? ==> (content.result ==
        if data == "[DONE]" || decode(data).None? || decode(data).value.delta.None? then None
        else decode(data).value.delta.value.content)
    {
      if data == "[DONE]" {
        FlushAll();
        assert Run(old(State()), [Flush]) == Run(Step(old(State()), Flush), []);
        return Returned(None);
      }
      var parsed := decode(data);
      if parsed.None? {
        return Returned(None);
      }
      if parsed.value.NullChunk? {
        return Threw;
      }
      var delta := parsed.value.delta;
      if delta.None? {
        return Returned(None);
      }
      if enabled && !delta.value.toolCalls.Absent? {
        if delta.value.toolCalls.NotIterable? {
          return Threw;
        }
        var walked := ProcessEntries(delta.value.toolCalls.entries);
        if !walked {
          return Threw;
        }
      }
      return Returned(delta.value.content);
    }

    /** Walks through the fragments of one chunk; false when it meets a null entry. */
    method ProcessEntries(entries: seq<Option<ToolCallDelta>>) returns (walked: bool)
      requires Valid()
      modifies this
      ensures Valid()
      ensures State() == Run(old(State()), Readable(entries))
      ensures walked <==> None !in entries
    {
      var i := 0;
      while i < |entries|
        invariant 0 <= i <= |entries|
        invariant Valid()
        invariant None !in entries[..i]
        invariant Run(State(), Readable(entries[i..])) == Run(old(State()), Readable(entries))
      {
        if entries[i].None? {
          return false;
        }
        ghost var inputs := Readable(entries[i..]);
        assert inputs[0] == Fragment(entries[i].value) && inputs[1..] == Readable(entries[i + 1..]);
        ProcessToolCallDelta(entries[i].value);
        i := i + 1;
      }
      return true;
    }

    method ProcessToolCallDelta(delta: ToolCallDelta)
      requires Valid()
      modifies this
      ensures Valid()
      ensures State() == Feed(old(State()), delta)
    {
      var index := delta.index.GetOr(0);
      var existing := Find(accumulators, index);
      if delta.id.Some? && delta.id.value != "" {
        if existing < |accumulators| {
          EmitToolCall(accumulators[existing].call);
        }
        var started := Slot(index, Accumulator(delta.id.value, delta.name.GetOr("unknown"), delta.arguments.GetOr("")));
        if existing < |accumulators| {
          accumulators := accumulators[existing := started];
        } else {
          accumulators := accumulators + [started];
        }
      } else if existing < |accumulators| {
        var call := accumulators[existing].call;
        if delta.name.Some? && delta.name.value != "" {
          call := call.(toolName := delta.name.value);
        }
        if delta.arguments.Some? && delta.arguments.value != "" {
          call := call.(arguments := call.arguments + delta.arguments.value);
        }
        assert call == Extend(accumulators[existing].call, delta);
        accumulators := accumulators[existing := Slot(index, call)];
      }
    }

    /** Emits every call still open, in insertion order, and forgets them. */
    method FlushAll()
      requires Valid()
      modifies this
      ensures Valid()
      ensures State() == Step(old(State()), Flush)
    {
      var i := 0;
      while i < |accumulators|
        invariant 0 <= i <= |accumulators|
        invariant accumulators == old(accumulators)
        invariant emitted == old(emitted) + EventsOf(accumulators)[..i]
      {
        EmitToolCall(accumulators[i].call);
        i := i + 1;
      }
      accumulators := [];
    }

    /** Forgets the open calls without emitting them. */
    method Reset()
      modifies this
      ensures Valid()
      ensures State() == Interception([], old(emitted))
    {
      accumulators := [];
    }

    method EmitToolCall(call: Accumulator)
      modifies this`emitted
      ensures emitted == old(emitted) + [EventOf(call)]
    {
      emitted := emitted + [EventOf(call)];
    }
  }
}
