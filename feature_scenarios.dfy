/** The feature tests of the notification endpoint, stated as lemmas over the model
    of the write path. */
module FeatureScenarios {
  import opened Domain
  import AccessGuard
  import RequestValidation
  import NotificationEndpoint

  /** `n` copies of `c` (PHP's str_repeat). */
  function Repeat(c: char, n: nat): (r: string)
    ensures |r| == n
    ensures forall k :: 0 <= k < n ==> r[k] == c
  {
    if n == 0 then [] else Repeat(c, n - 1) + [c]
  }

  /** A body whose message is `message`, targeting user `id` over email. */
  function UserBody(message: string, id: Int64): Payload {
    Payload(Some(Text("email")), Some(Text(message)), Some(Text(UserTag)), Some(Int(id)))
  }

  /** The messages a message of `n` letters gets. */
  lemma LetterMessageErrors(n: nat)
    ensures RequestValidation.MessageErrors(Some(Text(Repeat('a', n)))) ==
            if n == 0 then [RequestValidation.MessageRequired]
            else if n <= RequestValidation.MaxMessageLength then []
            else [RequestValidation.MessageTooLong]
  {
    if n > 0 {
      assert !RequestValidation.IsTrimmable(Repeat('a', n)[0]);
    }
  }

  /** Apart from the message, a user body for an existing user passes every rule. */
  lemma UserBodyOtherFieldsPass(m: string, id: Int64, users: set<Int64>, posts: set<Int64>)
    requires id in users
    ensures var body := UserBody(m, id);
      RequestValidation.ChannelErrors(body.channel) == [] &&
      RequestValidation.TypeErrors(body.notifiableType) == [] &&
      RequestValidation.IdErrors(body.notifiableId, body.notifiableType, users, posts) == Some([])
  {
  }

  /** A letter message for an existing user is accepted exactly when its length is
      between 1 and 255. */
  lemma LetterBodyAccepted(users: set<Int64>, posts: set<Int64>, id: Int64, n: nat)
    requires id in users
    ensures RequestValidation.Validate(UserBody(Repeat('a', n), id), users, posts).Accepted?
            <==> 1 <= n <= RequestValidation.MaxMessageLength
  {
    var body := UserBody(Repeat('a', n), id);
    LetterMessageErrors(n);
    UserBodyOtherFieldsPass(Repeat('a', n), id, users, posts);
    assert RequestValidation.Validate(body, users, posts).Accepted? <==>
           RequestValidation.MessageErrors(body.message) == [];
  }

  /** A longer one gets the length message and nothing else. */
  lemma LongLetterBodyRejected(users: set<Int64>, posts: set<Int64>, id: Int64, n: nat)
    requires id in users && n > RequestValidation.MaxMessageLength
    ensures RequestValidation.Validate(UserBody(Repeat('a', n), id), users, posts) ==
            RequestValidation.Rejected(map[MessageField := [RequestValidation.MessageTooLong]])
  {
    LetterMessageErrors(n);
    UserBodyOtherFieldsPass(Repeat('a', n), id, users, posts);
    assert RequestValidation.ErrorBag([], [RequestValidation.MessageTooLong], [], []) ==
           map[MessageField := [RequestValidation.MessageTooLong]];
  }

  /** A message of `n` letters is accepted exactly when 1 <= n <= 255 (so 255 passes),
      and a longer one (256 in the feature test) is rejected with the length message
      only, answered 422 with nothing stored. */
  lemma MessageLengthLimit(t: NotificationEndpoint.Tables, configured: Option<string>,
                           now: Timestamp, id: Int64, n: nat)
    requires id in t.users
    ensures RequestValidation.Validate(UserBody(Repeat('a', n), id), t.users, t.posts).Accepted?
            <==> 1 <= n <= RequestValidation.MaxMessageLength
    ensures n > RequestValidation.MaxMessageLength ==>
            NotificationEndpoint.Process(t, Some(AccessGuard.ExpectedKey(configured)), configured,
                                         UserBody(Repeat('a', n), id), now) ==
            (t, Unprocessable(map[MessageField := [RequestValidation.MessageTooLong]]))
  {
    LetterBodyAccepted(t.users, t.posts, id, n);
    if n > RequestValidation.MaxMessageLength {
      LongLetterBodyRejected(t.users, t.posts, id, n);
    }
    NotificationEndpoint.FailedValidationStoresNothing(
      t, Some(AccessGuard.ExpectedKey(configured)), configured, UserBody(Repeat('a', n), id), now);
  }

  /** A missing key gets 401 with the missing-key message and stores nothing, even
      for a body that would be accepted. */
  lemma MissingClientKey(t: NotificationEndpoint.Tables, configured: Option<string>, p: Payload,
                         now: Timestamp)
    ensures NotificationEndpoint.Process(t, None, configured, p, now) ==
            (t, Reply(401, false, AccessGuard.MissingKeyMessage, None))
  {
  }

  /** The validator's verdict on the feature test's body for user 99999. */
  lemma NonExistentUserErrors(users: set<Int64>, posts: set<Int64>)
    requires 99999 !in users
    ensures RequestValidation.Validate(UserBody("Test message", 99999), users, posts) ==
            RequestValidation.Rejected(map[NotifiableIdField :=
              [RequestValidation.NotFoundMessage(UserTag)]])
  {
    var body := UserBody("Test message", 99999);
    assert !RequestValidation.IsTrimmable("Test message"[0]);
    UserBodyOtherFieldsPass("Test message", 1, {1}, posts);
    RequestValidation.MissingTargetIdErrors(UserTag, 99999, users, posts);
    assert RequestValidation.ErrorBag([], [], [], [RequestValidation.NotFoundMessage(UserTag)]) ==
           map[NotifiableIdField := [RequestValidation.NotFoundMessage(UserTag)]];
  }

  /** A user id with no row (99999 in the feature test) is rejected with the
      existence message for the User model only, answered 422 with nothing stored. */
  lemma NonExistentUser(t: NotificationEndpoint.Tables, configured: Option<string>, now: Timestamp)
    requires 99999 !in t.users
    ensures NotificationEndpoint.Process(t, Some(AccessGuard.ExpectedKey(configured)), configured,
                                         UserBody("Test message", 99999), now) ==
            (t, Unprocessable(map[NotifiableIdField := [RequestValidation.NotFoundMessage(UserTag)]]))
  {
    NonExistentUserErrors(t.users, t.posts);
    NotificationEndpoint.FailedValidationStoresNothing(
      t, Some(AccessGuard.ExpectedKey(configured)), configured, UserBody("Test message", 99999), now);
  }

  /** The feature test's body with an unknown channel. */
  function InvalidChannelBody(): Payload {
    Payload(Some(Text("invalid_channel")), Some(Text("Test message")), Some(Text(UserTag)), Some(Int(1)))
  }

  /** The validator's verdict on that body. */
  lemma InvalidChannelErrors(users: set<Int64>, posts: set<Int64>)
    ensures var o := RequestValidation.Validate(InvalidChannelBody(), users, posts);
      o.Rejected? && ChannelField in o.errors &&
      o.errors[ChannelField] == [RequestValidation.ChannelNotIn] &&
      (1 in users ==> o.errors == map[ChannelField := [RequestValidation.ChannelNotIn]])
  {
    assert !RequestValidation.IsTrimmable("invalid_channel"[0]);
    assert !RequestValidation.IsTrimmable("Test message"[0]);
    RequestValidation.AcceptedNamesNotBlank();
  }

  /** An unknown channel is rejected with the channel message, whatever the tables
      hold, and answered 422 with nothing stored; when user 1 exists that is the only
      message. */
  lemma InvalidChannel(t: NotificationEndpoint.Tables, configured: Option<string>, now: Timestamp)
    ensures var (r, resp) := NotificationEndpoint.Process(
              t, Some(AccessGuard.ExpectedKey(configured)), configured, InvalidChannelBody(), now);
      r == t && resp.Unprocessable? &&
      ChannelField in resp.errors && resp.errors[ChannelField] == [RequestValidation.ChannelNotIn] &&
      (1 in t.users ==> resp.errors == map[ChannelField := [RequestValidation.ChannelNotIn]])
  {
    InvalidChannelErrors(t.users, t.posts);
    NotificationEndpoint.FailedValidationStoresNothing(
      t, Some(AccessGuard.ExpectedKey(configured)), configured, InvalidChannelBody(), now);
  }

  /** A valid body for an existing target, sent with the key the application expects,
      is stored as one new row and echoed with 201. */
  lemma StoreValidBody(t: NotificationEndpoint.Tables, configured: Option<string>,
                       s: Submission, now: Timestamp)
    requires NotificationEndpoint.WellFormed(t)
    requires RequestValidation.TargetExists(s.target, t.users, t.posts)
    requires !RequestValidation.Blank(s.message) && |s.message| <= RequestValidation.MaxMessageLength
    ensures var (r, resp) := NotificationEndpoint.Process(
              t, Some(AccessGuard.ExpectedKey(configured)), configured, ToPayload(s), now);
      resp.Status() == 201 && resp.Reply? && resp.success &&
      resp.message == NotificationEndpoint.CreatedMessage &&
      r.log == t.log + [LogRecord(t.nextId, s.channel, s.message, s.target, now, now)] &&
      resp.data == Some(Echo(t.nextId, ChannelName(s.channel), s.message, s.target.Tag(),
                             s.target.id, now))
  {
    RequestValidation.AcceptsExactly(s, t.users, t.posts);
  }

  /** An email body for an existing user is stored and echoed. */
  lemma StoreWithUser(t: NotificationEndpoint.Tables, configured: Option<string>, id: Int64,
                      now: Timestamp)
    requires NotificationEndpoint.WellFormed(t) && id in t.users
    ensures var (r, resp) := NotificationEndpoint.Process(
              t, Some(AccessGuard.ExpectedKey(configured)), configured,
              UserBody("Test notification message", id), now);
      resp.Status() == 201 && resp.Reply? && resp.success &&
      resp.message == NotificationEndpoint.CreatedMessage &&
      r.log == t.log + [LogRecord(t.nextId, Email, "Test notification message", UserRef(id), now, now)] &&
      resp.data == Some(Echo(t.nextId, "email", "Test notification message", UserTag, id, now))
  {
    var s := Submission(Email, "Test notification message", UserRef(id));
    assert UserBody(s.message, id) == ToPayload(s);
    assert !RequestValidation.IsTrimmable(s.message[0]);
    StoreValidBody(t, configured, s, now);
  }

  /** An sms body for an existing post is stored (201). */
  lemma StoreWithPost(t: NotificationEndpoint.Tables, configured: Option<string>, id: Int64,
                      now: Timestamp)
    requires NotificationEndpoint.WellFormed(t) && id in t.posts
    ensures NotificationEndpoint.Process(
              t, Some(AccessGuard.ExpectedKey(configured)), configured,
              Payload(Some(Text("sms")), Some(Text("Post notification")), Some(Text(PostTag)),
                      Some(Int(id))), now).1.Status() == 201
  {
    var s := Submission(Sms, "Post notification", PostRef(id));
    assert !RequestValidation.IsTrimmable(s.message[0]);
    StoreValidBody(t, configured, s, now);
  }
}
