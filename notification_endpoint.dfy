/** The store endpoint (NotificationController.store) over the persistence store,
    and the write path guard, validate, insert composed into one request handler. */
module NotificationEndpoint {
  import opened Domain
  import AccessGuard
  import RequestValidation

  const CreatedMessage: string := "Notification logged successfully."

  /** The store's contents: the ids of the users and posts rows, the activity_logs
      table in insertion order, and the id the next insert is given. */
  datatype Tables = Tables(users: set<Int64>, posts: set<Int64>, log: seq<LogRecord>, nextId: nat)

  /** Log ids are positive, increase along the table and stay below the next id. */
  predicate WellFormed(t: Tables) {
    1 <= t.nextId &&
    (forall k :: 0 <= k < |t.log| ==> 1 <= t.log[k].id < t.nextId) &&
    (forall k, l :: 0 <= k < l < |t.log| ==> t.log[k].id < t.log[l].id)
  }

  /** The row `save()` writes for a submission: the four assigned fields, the
      generated id and both timestamps set to `now`. */
  function NewRecord(id: nat, s: Submission, now: Timestamp): LogRecord {
    LogRecord(id, s.channel, s.message, s.target, now, now)
  }

  /** The store after one insert. */
  function Insert(t: Tables, s: Submission, now: Timestamp): Tables {
    t.(log := t.log + [NewRecord(t.nextId, s, now)], nextId := t.nextId + 1)
  }

  /** The `data` object of the 201 reply, read back from the saved row. */
  function EchoOf(r: LogRecord): (e: Echo)
    ensures e.id == r.id && e.message == r.message && e.createdAt == r.createdAt
    ensures e.channel == ChannelName(r.channel) && e.notifiableType == r.target.Tag()
    ensures e.notifiableId == r.target.id
  {
    Echo(r.id, ChannelName(r.channel), r.message, r.target.Tag(), r.target.id, r.createdAt)
  }

  function Created(r: LogRecord): (resp: Response)
    ensures resp.Status() == 201 && resp.Reply? && resp.success
    ensures resp.message == CreatedMessage && resp.data == Some(EchoOf(r))
  {
    Reply(201, true, CreatedMessage, Some(EchoOf(r)))
  }

  /** One insert adds exactly one row at the end, carrying the submitted fields and
      an id no earlier row has; the earlier rows and the user and post ids stay. */
  lemma InsertAppendsOne(t: Tables, s: Submission, now: Timestamp)
    requires WellFormed(t)
    ensures var r := Insert(t, s, now);
      WellFormed(r) && |r.log| == |t.log| + 1 && r.log[..|t.log|] == t.log &&
      r.users == t.users && r.posts == t.posts &&
      var last := r.log[|t.log|];
      last.channel == s.channel && last.message == s.message && last.target == s.target &&
      last.createdAt == now &&
      (forall k :: 0 <= k < |t.log| ==> t.log[k].id != last.id)
  {
  }

  /** Inserting a sequence of submissions, one request after another. */
  function InsertAll(t: Tables, batch: seq<(Submission, Timestamp)>): Tables
    decreases |batch|
  {
    if batch == [] then t
    else InsertAll(Insert(t, batch[0].0, batch[0].1), batch[1..])
  }

  /** No deduplication: every submission of a batch, identical ones included, gets
      its own row, in order, with pairwise distinct ids; the rows already there and
      the user and post ids are untouched. */
  lemma {:induction false} InsertAllAppends(t: Tables, batch: seq<(Submission, Timestamp)>)
    requires WellFormed(t)
    ensures var r := InsertAll(t, batch);
      WellFormed(r) && |r.log| == |t.log| + |batch| && r.log[..|t.log|] == t.log &&
      r.users == t.users && r.posts == t.posts &&
      (forall k :: 0 <= k < |batch| ==>
         r.log[|t.log| + k] == NewRecord(t.nextId + k, batch[k].0, batch[k].1))
    decreases |batch|
  {
    if batch != [] {
      var t1 := Insert(t, batch[0].0, batch[0].1);
      InsertAppendsOne(t, batch[0].0, batch[0].1);
      InsertAllAppends(t1, batch[1..]);
      var r := InsertAll(t1, batch[1..]);
      assert r.log[..|t.log|] == t.log by {
        assert r.log[..|t1.log|][..|t.log|] == t1.log[..|t.log|];
      }
      forall k | 0 <= k < |batch|
        ensures r.log[|t.log| + k] == NewRecord(t.nextId + k, batch[k].0, batch[k].1)
      {
        if k == 0 {
          assert r.log[|t.log|] == r.log[..|t1.log|][|t.log|];
        } else {
          assert batch[k] == batch[1..][k - 1];
        }
      }
    }
  }

  /** Two identical valid submissions make two rows that differ only in id (and,
      possibly, time). */
  lemma IdenticalSubmissionsTwoRows(t: Tables, s: Submission, now1: Timestamp, now2: Timestamp)
    requires WellFormed(t)
    ensures var r := Insert(Insert(t, s, now1), s, now2);
      |r.log| == |t.log| + 2 &&
      r.log[|t.log|].id != r.log[|t.log| + 1].id &&
      r.log[|t.log|].channel == r.log[|t.log| + 1].channel == s.channel &&
      r.log[|t.log|].message == r.log[|t.log| + 1].message == s.message &&
      r.log[|t.log|].target == r.log[|t.log| + 1].target == s.target
  {
  }

  /** The write path as one step: the store after the request, and the response. */
  function Process(t: Tables, header: Option<string>, configured: Option<string>,
                   p: Payload, now: Timestamp): (Tables, Response)
  {
    var d := AccessGuard.Check(header, configured);
    if d != AccessGuard.Pass then (t, AccessGuard.Rejection(d))
    else
      match RequestValidation.Validate(p, t.users, t.posts)
      case Rejected(errors) => (t, Unprocessable(errors))
      case ClassNotFound => (t, InternalError)
      case Accepted(s) =>
        var r := Insert(t, s, now);
        (r, Created(r.log[|t.log|]))
  }

  /** The guard decides first: a rejected key gives 401 with the guard's message
      whatever the body, and nothing is validated or stored. */
  lemma GuardFirst(t: Tables, header: Option<string>, configured: Option<string>,
                   p: Payload, now: Timestamp)
    requires header != Some(AccessGuard.ExpectedKey(configured))
    ensures var (r, resp) := Process(t, header, configured, p, now);
      r == t && resp.Status() == 401 && resp.Reply? && !resp.success &&
      resp.message == (if header.None? then AccessGuard.MissingKeyMessage
                       else AccessGuard.InvalidKeyMessage)
  {
  }

  /** A row is stored exactly when the key matches and the body is accepted, and then
      the reply is 201 echoing that new row: its id, `now`, and the body's four
      values; every other outcome leaves the store as it was. */
  lemma StoresOnlyValidRequests(t: Tables, header: Option<string>, configured: Option<string>,
                                p: Payload, now: Timestamp)
    requires WellFormed(t)
    ensures var (r, resp) := Process(t, header, configured, p, now);
      WellFormed(r) && r.users == t.users && r.posts == t.posts &&
      (resp.Status() == 201 <==>
         header == Some(AccessGuard.ExpectedKey(configured)) &&
         RequestValidation.Validate(p, t.users, t.posts).Accepted?) &&
      (resp.Status() == 201 ==>
         |r.log| == |t.log| + 1 && r.log[..|t.log|] == t.log &&
         ToPayload(Submission(r.log[|t.log|].channel, r.log[|t.log|].message,
                              r.log[|t.log|].target)) == p &&
         RequestValidation.TargetExists(r.log[|t.log|].target, t.users, t.posts) &&
         resp.data == Some(EchoOf(r.log[|t.log|])) &&
         resp.data.Some? && resp.data.value.id == t.nextId && resp.data.value.createdAt == now &&
         p == Payload(Some(Text(resp.data.value.channel)), Some(Text(resp.data.value.message)),
                      Some(Text(resp.data.value.notifiableType)),
                      Some(Int(resp.data.value.notifiableId)))) &&
      (resp.Status() != 201 ==> r == t)
  {
    if AccessGuard.Check(header, configured) == AccessGuard.Pass {
      var o := RequestValidation.Validate(p, t.users, t.posts);
      if o.Accepted? {
        RequestValidation.AcceptedIsToPayload(p, o.submission, t.users, t.posts);
        InsertAppendsOne(t, o.submission, now);
        var row := Insert(t, o.submission, now).log[|t.log|];
        assert row == NewRecord(t.nextId, o.submission, now);
        assert EchoOf(row).notifiableType == o.submission.target.Tag();
      }
    }
  }

  /** A body that fails validation is answered 422 with the validator's error map,
      a type that names no model class ends in a 500, and neither stores anything. */
  lemma FailedValidationStoresNothing(t: Tables, header: Option<string>,
                                      configured: Option<string>, p: Payload, now: Timestamp)
    ensures var (r, resp) := Process(t, header, configured, p, now);
      var o := RequestValidation.Validate(p, t.users, t.posts);
      (header == Some(AccessGuard.ExpectedKey(configured)) && o.Rejected? ==>
         r == t && resp == Unprocessable(o.errors)) &&
      (resp.Status() == 422 <==> header == Some(AccessGuard.ExpectedKey(configured)) && o.Rejected?) &&
      (resp.Status() == 500 <==>
         header == Some(AccessGuard.ExpectedKey(configured)) && o.ClassNotFound?) &&
      (resp.Status() == 500 ==> r == t && resp == InternalError)
  {
  }

  /** The persistence store the endpoint writes to. */
  class Database {
    var users: set<Int64>
    var posts: set<Int64>
    var log: seq<LogRecord>
    var nextId: nat

    function State(): Tables
      reads this
    {
      Tables(users, posts, log, nextId)
    }

    ghost predicate Valid()
      reads this
    {
      WellFormed(State())
    }

    /** An empty activity_logs table over the given users and posts. */
    constructor (users: set<Int64>, posts: set<Int64>)
      ensures Valid() && State() == Tables(users, posts, [], 1)
    {
      this.users := users;
      this.posts := posts;
      log := [];
      nextId := 1;
    }

    /** NotificationController.store: copy the validated fields into a new row,
        save it, and answer 201 with the saved row. */
    method Store(s: Submission, now: Timestamp) returns (resp: Response)
      requires Valid()
      modifies this
      ensures Valid()
      ensures State() == Insert(old(State()), s, now)
      ensures resp == Created(log[|old(log)|])
    {
      var record := LogRecord(nextId, s.channel, s.message, s.target, now, now);
      log := log + [record];
      nextId := nextId + 1;
      resp := Reply(201, true, CreatedMessage,
                    Some(Echo(record.id, ChannelName(record.channel), record.message,
                              record.target.Tag(), record.target.id, record.createdAt)));
    }

    /** A request on the write path: the key check, then validation against the
        current users and posts, then the store. */
    method Handle(header: Option<string>, configured: Option<string>, p: Payload, now: Timestamp)
      returns (resp: Response)
      requires Valid()
      modifies this
      ensures Valid()
      ensures (State(), resp) == Process(old(State()), header, configured, p, now)
    {
      var d := AccessGuard.Check(header, configured);
      if d != AccessGuard.Pass {
        return AccessGuard.Rejection(d);
      }
      var outcome := RequestValidation.Validate(p, users, posts);
      match outcome {
        case Rejected(errors) =>
          resp := Unprocessable(errors);
        case ClassNotFound =>
          resp := InternalError;
        case Accepted(s) =>
          resp := Store(s, now);
      }
    }
  }
}
