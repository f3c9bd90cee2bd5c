/**
 * The `Task` ledger of src/core/task.ts: an append-only message list, a
 * completion flag and the per-terminal output accumulator.
 */
module TaskLedger {
  import opened Common
  import opened TaskText

  datatype Role = User | Assistant | System

  datatype Message = Message(role: Role, content: string, timestamp: int)

  class Task {
    var id: string
    var title: string
    var timestamp: int
    var messages: seq<Message>
    var isStreaming: bool
    var isComplete: bool
    /** The keys of `terminalOutputs`, in insertion order. */
    var terminalOrder: seq<string>
    var terminalOutputs: map<string, string>

    ghost predicate Valid()
      reads this
    {
      WellFormed(Outputs(terminalOrder, terminalOutputs))
    }

    /**
     * A new task.  The id and both clock readings are parameters.  A missing
     * or empty prompt gives the default title and no message; any other
     * prompt gives its generated title and one user message.
     */
    constructor (taskId: string, now: int, initialPrompt: Option<string>, promptTime: int)
      ensures Valid()
      ensures id == taskId && timestamp == now && !isStreaming && !isComplete
      ensures terminalOrder == [] && terminalOutputs == map[]
      ensures initialPrompt.None? || initialPrompt.value == "" ==> title == DefaultTitle && messages == []
      ensures initialPrompt.Some? && initialPrompt.value != "" ==>
        title == GenerateTitle(initialPrompt.value) && messages == [Message(User, initialPrompt.value, promptTime)]
    {
      var hasPrompt := initialPrompt.Some? && initialPrompt.value != "";
      id := taskId;
      timestamp := now;
      messages := [];
      isStreaming := false;
      isComplete := false;
      terminalOrder := [];
      terminalOutputs := map[];
      new;
      assert WellFormed(Outputs([], map[]));
      if hasPrompt {
        AddMessage(User, initialPrompt.value, promptTime);
      }
      title := if hasPrompt then GenerateTitle(initialPrompt.value) else DefaultTitle;
    }

    /** Appends one message; nothing earlier moves or changes. */
    method AddMessage(role: Role, content: string, now: int)
      modifies this`messages
      ensures messages == old(messages) + [Message(role, content, now)]
      ensures |messages| == |old(messages)| + 1
    {
      messages := messages + [Message(role, content, now)];
    }

    /** Marks the task complete; calling it again changes nothing. */
    method Complete()
      modifies this`isComplete
      ensures isComplete
    {
      isComplete := true;
    }

    /** The terminal manager's output callback: appends the chunk to that terminal's text. */
    method OnTerminalOutput(terminalId: string, output: string)
      requires Valid()
      modifies this`terminalOrder, this`terminalOutputs
      ensures Valid()
      ensures Outputs(terminalOrder, terminalOutputs) == Deliver(old(Outputs(terminalOrder, terminalOutputs)), terminalId, output)
    {
      var current := if terminalId in terminalOutputs then terminalOutputs[terminalId] else "";
      if terminalId !in terminalOutputs {
        terminalOrder := terminalOrder + [terminalId];
      }
      terminalOutputs := terminalOutputs[terminalId := current + output];
    }

    /** One block per terminal whose output is not blank, in insertion order; "" when there is none. */
    method GetTerminalOutputsForContext() returns (result: string)
      requires Valid()
      ensures result == Render(terminalOrder, terminalOutputs)
    {
      result := "";
      var i := 0;
      while i < |terminalOrder|
        invariant 0 <= i <= |terminalOrder|
        invariant result == Render(terminalOrder[..i], terminalOutputs)
      {
        var terminalId := terminalOrder[i];
        var output := terminalOutputs[terminalId];
        if !IsBlank(output) {
          result := result + Block(terminalId, output);
        }
        assert terminalOrder[..i + 1][..i] == terminalOrder[..i];
        i := i + 1;
      }
      assert terminalOrder[..i] == terminalOrder;
    }
  }
}
