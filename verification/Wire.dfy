/** The conversation types every provider shares: messages, tool calls, responses. */
module Wire {
  import opened Common

  datatype Role = System | User | Assistant | Tool

  /** Arguments are the JSON text of the call. */
  datatype ToolCall = ToolCall(id: string, name: string, arguments: string)

  datatype Content =
    | Text(text: string)
    | WithTools(said: Option<string>, calls: seq<ToolCall>)
    | ToolResult(callId: string, output: string, isError: bool)

  datatype Message = Message(role: Role, content: Content)

  datatype Usage = Usage(prompt: int, completion: int)

  datatype Response =
    | Final(text: string, usage: Option<Usage>)
    | ToolCalls(said: Option<string>, calls: seq<ToolCall>, usage: Option<Usage>)

  datatype ToolOutput = ToolOutput(text: string, isError: bool)
}
