/** The records the chat keeps: one message per bubble. */
module ChatTypes {
  import opened Wrappers

  datatype Role = User | Model

  /** A web page the model's answer was grounded on. */
  datatype GroundingSource = GroundingSource(title: Option<string>, uri: string)

  /** An image attached to a user message, as base64 text. */
  datatype Attachment = Image(content: string)

  datatype Message = Message(
    id: string,
    role: Role,
    text: string,
    isError: Option<bool>,
    groundingSources: Option<seq<GroundingSource>>,
    attachment: Option<Attachment>)
}
