/**
 * The values the attribute-replication core works on: cluster nodes,
 * attribute sets, the application message kinds, outbound messages and
 * the observable events (sends, application notifications, log lines).
 * Wire encoding of messages is not modelled: a message carries its kind,
 * its tracking id and the names it talks about.
 */
module AttributeMessages {

  datatype Option<+T> = None | Some(value: T)
  {
    /** The value held, or `default` for None. */
    function GetOr(default: T): T
    {
      match this
      case Some(v) => v
      case None => default
    }
  }

  /** A cluster node; nodes compare by identity. */
  datatype Node = Node(id: nat)

  /** An attribute set: its name and the names of its members, in set order. */
  datatype AttributeSet = AttributeSet(name: string, members: seq<string>)

  /** The application message types the distributor dispatches on. */
  datatype MessageType =
    | CreateAttributeSet
    | AddAttribute
    | RemoveAttribute
    | ReplaceAttribute
    | ConfirmCreateAttributeSet
    | ConfirmAddAttribute
    | ConfirmRemoveAttribute
    | ConfirmReplaceAttribute

  /**
   * An outbound application message. `correlatingId` is the tracking id of
   * the mutation a confirmation answers ("" for mutations); `attributeName`
   * is "" for set-level messages.
   */
  datatype Message = Message(
    kind: MessageType,
    trackingId: string,
    correlatingId: string,
    setName: string,
    attributeName: string)

  /** The application callbacks the distributor fires. */
  datatype Notice = SetCreated | AttributeAdded | AttributeRemoved | AttributeReplaced

  /** What the outside world sees the distributor do. */
  datatype Event =
    | Send(message: Message, nodes: seq<Node>)
    | Inform(notice: Notice, setName: string, attributeName: string)
    | Logged(trackingId: string, nodes: seq<Node>)

  /** The distributor's answer to an operation the source may reject. */
  datatype Status = Success | IllegalArgument(reason: string)
}
