/** The chat message that travels from the IRC client through the pipeline to the processor, and the
    record of it that the processor announces once it is stored. */
module IngestTypes {
  datatype Message = Message(
    channelName: string, username: string, displayName: string, text: string,
    tags: map<string, string>, receivedAt: int)

  datatype StoredMessage = StoredMessage(
    id: nat, channelId: nat, channelName: string, userId: nat, username: string, displayName: string,
    text: string, sentAt: int)
}
