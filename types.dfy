/** Record shapes of the comment-to-DM service: the stored users, automations
    (rules) and delivery logs, and the inbound webhook payload. Optional
    properties of the TypeScript interfaces are `Option`s. */
module Types {

  datatype Option<+T> = None | Some(value: T) {
    /** The value, or `default` when absent (JavaScript's `x ?? default`). */
    function GetOr(default: T): T {
      match this
      case Some(v) => v
      case None => default
    }
  }

  datatype AccountType = Business | Creator

  /** A connected Instagram account, stored after login. */
  datatype User = User(
    id: string,
    instagramUserId: string,
    instagramUsername: string,
    accessToken: string,
    tokenExpiry: int,
    pageId: string,
    accountType: AccountType,
    createdAt: int,
    updatedAt: int)

  /** A rule: when a comment on `mediaId` contains `keyword`, send `dmMessage`. */
  datatype Automation = Automation(
    id: string,
    userId: string,
    mediaId: string,
    mediaUrl: Option<string>,
    mediaThumbnail: Option<string>,
    mediaCaption: Option<string>,
    keyword: string,
    dmMessage: string,
    replyOncePerUser: bool,
    isActive: bool,
    dmsSent: nat,
    createdAt: int,
    updatedAt: int)

  datatype LogStatus = Sent | Failed | Skipped

  /** One delivery decision for a (rule, commenter) pair. */
  datatype AutomationLog = AutomationLog(
    id: string,
    automationId: string,
    commenterInstagramId: string,
    commenterUsername: Option<string>,
    commentText: string,
    status: LogStatus,
    errorMessage: Option<string>,
    createdAt: int)

  /** The webhook body. Every property that the handler dereferences and that an
      untrusted sender may leave out is an `Option`: a `None` there is what makes
      the JavaScript handler throw. */
  datatype Commenter = Commenter(id: string, username: Option<string>)

  datatype MediaRef = MediaRef(id: string)

  datatype CommentValue = CommentValue(
    from: Option<Commenter>,
    media: Option<MediaRef>,
    id: string,
    text: Option<string>)

  datatype Change = Change(field: string, value: Option<CommentValue>)

  datatype Entry = Entry(id: string, time: int, changes: Option<seq<Change>>)

  /** `objectKind` is the payload's `object` property (`object` is a Dafny keyword). */
  datatype WebhookPayload = WebhookPayload(objectKind: string, entry: Option<seq<Entry>>)
}

/** The HTTP responses the route handlers produce: a status and a JSON or text body. */
module Http {
  import opened Types

  datatype Body =
    | Text(text: string)                               // a plain-text body
    | Received                                         // `{ received: true }`
    | Error(message: string)                           // `{ error: message }`
    | AutomationList(automations: seq<Automation>)     // `{ automations }`
    | SavedAutomation(automation: Automation)          // `{ automation }`

  datatype Response = Response(status: nat, body: Body)

  /** The webhook acknowledgement, status 200 with `{ received: true }`. */
  const Ack := Response(200, Received)
}
