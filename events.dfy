/**
 * The messages the server sends to clients. Delivery is left to the socket layer:
 * a handler's result lists each emit with the audience it is addressed to.
 */
module Events {
  import opened Roster
  import opened Polls

  /** One chat broadcast as the room keeps it in memory and sends it to clients. */
  datatype Broadcast = Broadcast(name: string, message: string, timestamp: int)

  /**
   * `io.to(roomId)`, `socket.emit` / `io.to(socketId)` (a socket's own room), and
   * `socket.to(roomId)` (everyone in the room but the sender).
   */
  datatype Audience = ToRoom(roomId: string) | ToSocket(socketId: string) | ToRoomExcept(roomId: string, socketId: string)

  datatype Payload =
    | UpdateUsers(participants: seq<Participant>)
    | ChatHistory(broadcasts: seq<Broadcast>)
    | PollUpdate(poll: PollView)
    | PollTimer(timeLeft: int)
    | PollEnd(poll: PollView)
    | Kicked
    | RoleUpdate(role: Role)
    | MutedByHost
    | AudioPermission(canProduce: bool)
    | ChatBroadcast(broadcast: Broadcast)
    | VideoUpdate(videoId: string)
    | NewProducer(producerId: string, socketId: string)
    | ConsumerClosed(consumerId: string)

  datatype Emit = Emit(to: Audience, payload: Payload)
}
