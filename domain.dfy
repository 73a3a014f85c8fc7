/** Values shared by the access guard, the request validator and the store endpoint
    of the notification API: the payload as the validator receives it, the validated
    submission, the activity-log record and the responses the endpoint returns. */
module Domain {

  datatype Option<T> = None | Some(value: T)

  /** A PHP integer (a signed 64-bit value). */
  newtype Int64 = x: int | -0x8000_0000_0000_0000 <= x < 0x8000_0000_0000_0000

  /** One decoded JSON field of the request body. Arrays and objects are kept only
      by their element count, which is all the rules look at; booleans and floats
      are not part of this model. */
  datatype Value =
    | Null
    | Int(i: Int64)
    | Text(s: string)
    | List(count: nat)

  /** The four fields the rules name; `None` is a field the body does not contain. */
  datatype Payload = Payload(
    channel: Option<Value>,
    message: Option<Value>,
    notifiableType: Option<Value>,
    notifiableId: Option<Value>)

  /** The four fields the rules name, as the keys of an error body. */
  datatype Field = ChannelField | MessageField | NotifiableTypeField | NotifiableIdField

  /** The delivery channel a log entry describes. */
  datatype Channel = Email | Sms | Slack

  const ChannelNames: set<string> := {"email", "sms", "slack"}

  function ChannelName(c: Channel): (s: string)
    ensures s in ChannelNames
  {
    match c
    case Email => "email"
    case Sms => "sms"
    case Slack => "slack"
  }

  function ParseChannel(s: string): (r: Option<Channel>)
    ensures r.Some? <==> s in ChannelNames
    ensures r.Some? ==> ChannelName(r.value) == s
  {
    if s == "email" then Some(Email)
    else if s == "sms" then Some(Sms)
    else if s == "slack" then Some(Slack)
    else None
  }

  /** The two discriminator strings: the class names of the notifiable models. */
  const UserTag: string := "App\\Models\\User"
  const PostTag: string := "App\\Models\\Post"

  /** The polymorphic target of a log entry, as a tagged union. */
  datatype Notifiable = UserRef(id: Int64) | PostRef(id: Int64) {
    /** The `notifiable_type` string this target is stored and echoed under. */
    function Tag(): string {
      if UserRef? then UserTag else PostTag
    }
  }

  /** The data `validated()` hands to the controller. */
  datatype Submission = Submission(channel: Channel, message: string, target: Notifiable)

  /** The request body that carries exactly the fields of `s`. */
  function ToPayload(s: Submission): Payload {
    Payload(Some(Text(ChannelName(s.channel))), Some(Text(s.message)),
            Some(Text(s.target.Tag())), Some(Int(s.target.id)))
  }

  /** A creation time, supplied by the caller (the clock is not part of the model). */
  type Timestamp = int

  /** One row of the activity_logs table. */
  datatype LogRecord = LogRecord(
    id: nat,
    channel: Channel,
    message: string,
    target: Notifiable,
    createdAt: Timestamp,
    updatedAt: Timestamp)

  /** The `data` object of a 201 response. */
  datatype Echo = Echo(
    id: nat,
    channel: string,
    message: string,
    notifiableType: string,
    notifiableId: Int64,
    createdAt: Timestamp)

  /** What the endpoint sends back: a JSON reply with `success` and `message`
      (401 and 201), a validation failure (422) or an unhandled error (500). */
  datatype Response =
    | Reply(status: int, success: bool, message: string, data: Option<Echo>)
    | Unprocessable(errors: map<Field, seq<string>>)
    | InternalError
  {
    function Status(): int {
      match this
      case Reply(status, _, _, _) => status
      case Unprocessable(_) => 422
      case InternalError => 500
    }
  }
}
