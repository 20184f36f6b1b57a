/** The single status line the pages show under their forms. */
module Status {

  datatype MessageKind = SuccessKind | ErrorKind

  /** `{ type: "success" | "error"; text: string }` in the pages' state. */
  datatype Message = Message(kind: MessageKind, text: string)

  function ErrorMessage(text: string): Message
  {
    Message(ErrorKind, text)
  }

  function SuccessMessage(text: string): Message
  {
    Message(SuccessKind, text)
  }
}
