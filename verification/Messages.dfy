/** Provider-neutral conversation data: messages, content parts and tool calls. */
module Messages {
  import opened Prelude

  datatype Json =
    | Null
    | Bool(flag: bool)
    | Number(digits: string)
    | String(text: string)
    | Array(items: seq<Json>)
    | Object(fields: map<string, Json>)

  datatype ToolCall = ToolCall(id: string, name: string, arguments: Json)

  datatype ContentPart =
    | Text(text: string)
    | JsonPart(value: Json)
    | ImageUrl(url: string, mimeType: Option<string>)

  datatype Message =
    | System(content: seq<ContentPart>)
    | User(content: seq<ContentPart>)
    | Assistant(content: seq<ContentPart>, toolCalls: seq<ToolCall>)
    | Tool(toolCallId: string, name: string, content: seq<ContentPart>)
  {
    /** The calls an assistant message asks for; no other message asks for any. */
    function ToolCalls(): seq<ToolCall> {
      if Assistant? then toolCalls else []
    }
  }
}
