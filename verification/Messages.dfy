/** Conversation messages (crates/rustykrab-core/src/types.rs) and stop reasons (model.rs).  Message
    identifiers and times are left out: two histories are compared up to them. */
module Messages {
  import opened Json

  datatype Role = System | User | Assistant | Tool

  datatype ToolCall = ToolCall(id: string, name: string, arguments: Json)

  datatype ToolResult = ToolResult(callId: string, output: Json, isError: bool)

  datatype Content =
    | Text(text: string)
    | Call(call: ToolCall)
    | Result(result: ToolResult)
    | MultiCall(calls: seq<ToolCall>)
  {
    predicate HasToolCalls() {
      Call? || MultiCall?
    }

    function ToolCalls(): seq<ToolCall> {
      match this
      case Call(c) => [c]
      case MultiCall(cs) => cs
      case _ => []
    }
  }

  datatype Message = Message(role: Role, content: Content)

  datatype StopReason = EndTurn | ToolUse | MaxTokens
}
