/** The parts of a chat message and of the bot's output that the wizard engine looks at.
    Sending is modelled as an append-only log of what was sent, as the fake bot of the
    repository's tests records it. */
module Telegram {
  import opened Wrappers

  /** An attached file: its `file_id` and its content-addressed `file_unique_id`. */
  datatype Attachment = Attachment(fileId: string, fileUniqueId: string)

  datatype GeoPoint = GeoPoint(latitude: real, longitude: real)

  /** An inbound message. `photo` distinguishes an absent photo list (None) from an empty one. */
  datatype Message = Message(
    fromId: int,
    text: string,
    isCommand: bool,
    sticker: Option<Attachment>,
    photo: Option<seq<Attachment>>,
    voice: Option<Attachment>,
    audio: Option<Attachment>,
    video: Option<Attachment>,
    videoNote: Option<Attachment>,
    animation: Option<Attachment>,
    document: Option<Attachment>,
    location: Option<GeoPoint>)

  /** The localisation lookup `Tr`: key to text in the user's language. */
  type Lang = string -> string

  /** Request-scoped resources handed to every handler. */
  datatype RequestEnv = RequestEnv(lang: Lang)

  /** An inline keyboard button: its label and its callback data (None when unset). */
  datatype Button = Button(text: string, callbackData: Option<string>)

  /** One message sent by the bot, by the kind of reply used. */
  datatype Sent =
    | Plain(text: string)
    | Markdown(text: string)
    | WithKeyboard(text: string, options: seq<string>)
    | WithInlineKeyboard(text: string, buttons: seq<Button>)

  /** The bot: everything it sends is appended to `sent`. */
  class Bot {
    var sent: seq<Sent>

    constructor ()
      ensures sent == []
    {
      sent := [];
    }

    method Send(s: Sent)
      modifies this
      ensures sent == old(sent) + [s]
    {
      sent := sent + [s];
    }
  }
}
