/** What travels over a connection (server/routing.go). JSON is a datatype here. */
module Frames {

  /** The two connection types, "agent" and "client". */
  datatype Kind = Agent | Client

  /** A chat message as routed: sender and recipient are the server's, not the JSON's. */
  datatype Routed = Routed(conversation: string, content: string, attachments: seq<string>,
                           senderType: Kind, senderId: string, recipient: string)

  /** An outgoing message. `ref` numbers the stored chat message a frame carries, so that
      equal texts stay apart; it is not part of the bytes sent. */
  datatype Frame =
    | Chat(msg: Routed, ref: nat)
    | ReadReceipt(message: string)
    | Presence(agent: string, online: bool)
    | Notice(text: string)
}
