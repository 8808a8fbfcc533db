/** The conversation as every stage of the importer sees it. */
module Conversations {
  import opened Wrappers
  import Utf8

  datatype Source = ChatGpt | ClaudeChat | ClaudeCode | Codex | Hermes

  datatype Role = User | Assistant | System | Tool

  datatype NonTextKind = Image | File | Audio | Other

  datatype NonTextPart = NonTextPart(kind: NonTextKind, name: Option<string>)

  datatype ToolActivity = ToolActivity(name: string, request: Option<string>, result: Option<string>)

  /** A time with its offset: microseconds of local time since 0001-01-01T00:00, and the offset
      from UTC in microseconds. */
  datatype Moment = Moment(local: int, offset: int) {
    function Instant(): int {
      local - offset
    }
  }

  datatype Message = Message(
    role: Role,
    text: string,
    sentAt: Option<Moment>,
    toolActivity: seq<ToolActivity>,
    nonTextParts: seq<NonTextPart>)

  datatype Conversation = Conversation(
    source: Source,
    sourceId: string,
    title: Option<string>,
    startedAt: Moment,
    lastActivityAt: Option<Moment>,
    messages: seq<Message>)
  {
    function DocumentId(): string {
      SourceName(source) + ":" + sourceId
    }
  }

  /** A sanitized conversation and the project it was filed under: what is archived and retained. */
  datatype Enriched = Enriched(conversation: Conversation, project: string)

  /** The bytes a conversation was parsed from. */
  datatype OriginalPayload = OriginalPayload(content: seq<Utf8.Byte>, mediaType: string)

  /** What a source yields. */
  datatype SourceConversation = SourceConversation(conversation: Conversation, original: OriginalPayload)

  function SourceName(source: Source): string {
    match source
    case ChatGpt => "chatgpt"
    case ClaudeChat => "claude-chat"
    case ClaudeCode => "claude-code"
    case Codex => "codex"
    case Hermes => "hermes"
  }

  /** Every text field of a conversation, in the order it is read. */
  function FieldTexts(field: Option<string>): seq<string> {
    match field
    case None => []
    case Some(text) => [text]
  }

  function ActivityTexts(activities: seq<ToolActivity>): seq<string> {
    if activities == [] then []
    else
      var last := activities[|activities| - 1];
      ActivityTexts(activities[..|activities| - 1]) + OneActivityTexts(last)
  }

  function OneActivityTexts(activity: ToolActivity): seq<string> {
    [activity.name] + FieldTexts(activity.request) + FieldTexts(activity.result)
  }

  function PartTexts(parts: seq<NonTextPart>): seq<string> {
    if parts == [] then [] else PartTexts(parts[..|parts| - 1]) + FieldTexts(parts[|parts| - 1].name)
  }

  function MessageTexts(m: Message): seq<string> {
    [m.text] + ActivityTexts(m.toolActivity) + PartTexts(m.nonTextParts)
  }

  function MessagesTexts(messages: seq<Message>): seq<string> {
    if messages == [] then []
    else MessagesTexts(messages[..|messages| - 1]) + MessageTexts(messages[|messages| - 1])
  }

  function ConversationTexts(c: Conversation): seq<string> {
    FieldTexts(c.title) + MessagesTexts(c.messages)
  }
}
