/** The field rules of NotificationRequest, with its custom messages, evaluated the way
    the framework's validator runs them: the rules of each field in order, every
    field checked; `required` is implicit, so when it fails the field's remaining
    rules are skipped; every other rule runs on a present value, and its message is
    added when it fails. */
module RequestValidation {
  import opened Domain

  const ChannelRequired: string := "Channel is required."
  const ChannelNotIn: string := "Channel must be one of: email, sms, slack."
  const MessageRequired: string := "Message is required."
  /** The framework's default text for the `string` rule (no custom one is given). */
  const MessageNotString: string := "The message field must be a string."
  const MessageTooLong: string := "Message cannot exceed 255 characters."
  const TypeRequired: string := "Notifiable type is required."
  const TypeNotIn: string := "Notifiable type must be App\\Models\\User or App\\Models\\Post."
  const IdRequired: string := "Notifiable ID is required."
  const IdNotInteger: string := "Notifiable ID must be an integer."

  /** The message the existence closure fails with, naming the submitted type. */
  function NotFoundMessage(tag: string): string {
    "The specified " + tag + " does not exist."
  }

  const MaxMessageLength: nat := 255

  // ---------------------------------------------------------------------------
  // The `required` rule

  /** The characters PHP's trim() removes. */
  predicate IsTrimmable(c: char) {
    c == ' ' || c == '\t' || c == '\n' || c == '\r' || c == '\0' || c == '\U{B}'
  }

  /** A string that is empty once trimmed. */
  predicate Blank(s: string) {
    forall k :: 0 <= k < |s| ==> IsTrimmable(s[k])
  }

  /** `required`: the field is in the body, is not null, is not a blank string
      and is not an empty array. */
  predicate Present(v: Option<Value>) {
    match v
    case None => false
    case Some(x) =>
      match x
      case Null => false
      case Int(_) => true
      case Text(s) => !Blank(s)
      case List(n) => n > 0
  }

  /** None of the accepted channel names and type tags is blank. */
  lemma AcceptedNamesNotBlank()
    ensures forall n :: n in ChannelNames ==> !Blank(n)
    ensures !Blank(UserTag) && !Blank(PostTag)
  {
    assert !IsTrimmable("email"[0]) && !IsTrimmable("sms"[0]) && !IsTrimmable("slack"[0]);
    assert !IsTrimmable(UserTag[0]) && !IsTrimmable(PostTag[0]);
  }

  // ---------------------------------------------------------------------------
  // The size `max:255` measures

  /** Number of decimal digits of a natural number. */
  function Digits(n: nat): (d: nat)
    ensures 1 <= d
    decreases n
  {
    if n < 10 then 1 else 1 + Digits(n / 10)
  }

  function Pow10(k: nat): (p: nat)
    ensures 1 <= p
  {
    if k == 0 then 1 else 10 * Pow10(k - 1)
  }

  /** Length of an integer's decimal text, sign included. */
  function DecimalLength(i: Int64): nat {
    if i < 0 then 1 + Digits(-(i as int)) else Digits(i as int)
  }

  /** The size `max` compares: a string's length in characters, an array's element
      count, and for a value of another type the length of its string form. */
  function Size(x: Value): nat {
    match x
    case Null => 0
    case Int(i) => DecimalLength(i)
    case Text(s) => |s|
    case List(n) => n
  }

  lemma {:induction false} DigitsBelowPow10(n: nat, k: nat)
    requires 1 <= k && n < Pow10(k)
    ensures Digits(n) <= k
    decreases k
  {
    if 10 <= n {
      assert k >= 2;
      assert n / 10 < Pow10(k - 1);
      DigitsBelowPow10(n / 10, k - 1);
    }
  }

  /** A PHP integer has at most 20 characters, so `max:255` never rejects one. */
  lemma IntegerFitsMaxLength(i: Int64)
    ensures DecimalLength(i) <= 20 < MaxMessageLength
  {
    assert Pow10(10) == 10_000_000_000;
    assert Pow10(19) == 10_000_000_000_000_000_000;
    if i < 0 {
      DigitsBelowPow10(-(i as int), 19);
    } else {
      DigitsBelowPow10(i as int, 19);
    }
  }

  /** An integer message fails only the `string` rule. */
  lemma IntegerMessageIsNotString(i: Int64)
    ensures MessageErrors(Some(Int(i))) == [MessageNotString]
  {
    IntegerFitsMaxLength(i);
  }

  // ---------------------------------------------------------------------------
  // Per-field rules

  /** channel: required, in:email,sms,slack. */
  function ChannelErrors(v: Option<Value>): (errs: seq<string>)
    ensures errs == [] <==> v.Some? && v.value.Text? && v.value.s in ChannelNames
    ensures errs == [ChannelRequired] <==> !Present(v)
    ensures errs == [] || errs == [ChannelRequired] || errs == [ChannelNotIn]
  {
    AcceptedNamesNotBlank();
    if !Present(v) then [ChannelRequired]
    else if v.value.Text? && ParseChannel(v.value.s).Some? then []
    else [ChannelNotIn]
  }

  /** No message is reported twice. */
  predicate Distinct(errs: seq<string>) {
    forall a, b :: 0 <= a < b < |errs| ==> errs[a] != errs[b]
  }

  /** message: required, string, max:255. */
  function MessageErrors(v: Option<Value>): (errs: seq<string>)
    ensures errs == [] <==>
      v.Some? && v.value.Text? && !Blank(v.value.s) && |v.value.s| <= MaxMessageLength
    ensures MessageRequired in errs <==> !Present(v)
    ensures MessageRequired in errs ==> errs == [MessageRequired]
    ensures MessageNotString in errs <==> Present(v) && !v.value.Text?
    ensures MessageTooLong in errs <==> Present(v) && Size(v.value) > MaxMessageLength
    ensures forall m :: m in errs ==> m == MessageRequired || m == MessageNotString || m == MessageTooLong
    ensures |errs| == 2 ==> errs == [MessageNotString, MessageTooLong]
    ensures Distinct(errs)
  {
    if !Present(v) then [MessageRequired]
    else
      (if v.value.Text? then [] else [MessageNotString]) +
      (if Size(v.value) <= MaxMessageLength then [] else [MessageTooLong])
  }

  /** notifiable_type: required, in:App\Models\User,App\Models\Post. */
  function TypeErrors(v: Option<Value>): (errs: seq<string>)
    ensures errs == [] <==> v == Some(Text(UserTag)) || v == Some(Text(PostTag))
    ensures errs == [TypeRequired] <==> !Present(v)
    ensures errs == [] || errs == [TypeRequired] || errs == [TypeNotIn]
  {
    AcceptedNamesNotBlank();
    if !Present(v) then [TypeRequired]
    else if v.value == Text(UserTag) || v.value == Text(PostTag) then []
    else [TypeNotIn]
  }

  // ---------------------------------------------------------------------------
  // The existence closure on notifiable_id

  /** PHP truthiness of the raw `notifiable_type` input (a missing field reads as null). */
  predicate Falsy(v: Option<Value>) {
    match v
    case None => true
    case Some(x) =>
      match x
      case Null => true
      case Int(i) => i == 0
      case Text(s) => s == "" || s == "0"
      case List(n) => n == 0
  }

  /** The explicit table from discriminator to the ids of its rows; a string that
      names neither model has no table. */
  function TableOf(tag: string, users: set<Int64>, posts: set<Int64>): Option<set<Int64>> {
    if tag == UserTag then Some(users)
    else if tag == PostTag then Some(posts)
    else None
  }

  /** Whether `find` on a table returns something truthy: an integer id finds its
      row; an array makes `find` return a collection, which is always truthy; a
      textual id is taken to match no row. */
  predicate Finds(rows: set<Int64>, id: Value) {
    match id
    case Int(i) => i in rows
    case List(_) => true
    case Text(_) => false
    case Null => false
  }

  datatype Lookup =
    | NotChecked          // the type input was falsy: the closure returns at once
    | Found
    | NotFound(tag: string)
    | ClassMissing        // the type input names no model class: instantiating it throws

  function ExistenceCheck(typ: Option<Value>, id: Value, users: set<Int64>, posts: set<Int64>): (r: Lookup)
    ensures r == NotChecked <==> Falsy(typ)
    ensures r == ClassMissing <==>
      !Falsy(typ) && (!typ.value.Text? || TableOf(typ.value.s, users, posts).None?)
    ensures r.NotFound? <==>
      !Falsy(typ) && typ.value.Text? && TableOf(typ.value.s, users, posts).Some? &&
      !Finds(TableOf(typ.value.s, users, posts).value, id)
    ensures r.NotFound? ==> typ == Some(Text(r.tag)) && (r.tag == UserTag || r.tag == PostTag)
  {
    if Falsy(typ) then NotChecked
    else
      match typ.value
      case Text(tag) =>
        (match TableOf(tag, users, posts)
         case None => ClassMissing
         case Some(rows) => if Finds(rows, id) then Found else NotFound(tag))
      case _ => ClassMissing
  }

  /** notifiable_id: required, integer, then the existence closure. None when the
      closure throws, which ends validation with an error instead of messages. */
  function IdErrors(id: Option<Value>, typ: Option<Value>, users: set<Int64>, posts: set<Int64>): (r: Option<seq<string>>)
    ensures !Present(id) ==> r == Some([IdRequired])
    ensures r.None? <==> Present(id) && ExistenceCheck(typ, id.value, users, posts) == ClassMissing
    ensures r == Some([]) <==>
      id.Some? && id.value.Int? &&
      (Falsy(typ) || (typ.value.Text? && TableOf(typ.value.s, users, posts).Some? &&
                      id.value.i in TableOf(typ.value.s, users, posts).value))
    ensures r.Some? && Present(id) ==>
      (IdNotInteger in r.value <==> !id.value.Int?) &&
      (forall m :: m in r.value && m != IdNotInteger ==>
         typ.Some? && typ.value.Text? && m == NotFoundMessage(typ.value.s))
    ensures r.Some? && Present(id) && ExistenceCheck(typ, id.value, users, posts).NotFound? ==>
      NotFoundMessage(ExistenceCheck(typ, id.value, users, posts).tag) in r.value
    ensures r.Some? && Present(id) ==>
      forall m :: m in r.value && m != IdNotInteger ==>
        ExistenceCheck(typ, id.value, users, posts).NotFound?
    ensures r.Some? && |r.value| == 2 ==> r.value[0] == IdNotInteger
    ensures r.Some? ==> Distinct(r.value)
  {
    if !Present(id) then Some([IdRequired])
    else
      var integerErrors := if id.value.Int? then [] else [IdNotInteger];
      match ExistenceCheck(typ, id.value, users, posts)
      case NotChecked => Some(integerErrors)
      case Found => Some(integerErrors)
      case NotFound(tag) => Some(integerErrors + [NotFoundMessage(tag)])
      case ClassMissing => None
  }

  /** An integer id under one of the two class names that its table does not hold
      gets exactly the not-found message naming that class. */
  lemma MissingTargetIdErrors(tag: string, i: Int64, users: set<Int64>, posts: set<Int64>)
    requires tag == UserTag || tag == PostTag
    requires i !in TableOf(tag, users, posts).value
    ensures IdErrors(Some(Int(i)), Some(Text(tag)), users, posts) == Some([NotFoundMessage(tag)])
  {
    assert ExistenceCheck(Some(Text(tag)), Int(i), users, posts) == NotFound(tag);
    assert [] + [NotFoundMessage(tag)] == [NotFoundMessage(tag)];
  }

  // ---------------------------------------------------------------------------
  // The whole request

  datatype Validation =
    | Accepted(submission: Submission)
    | Rejected(errors: map<Field, seq<string>>)
    | ClassNotFound

  /** The error body: one entry per field that has messages, holding them in rule order. */
  function ErrorBag(ce: seq<string>, me: seq<string>, te: seq<string>, ie: seq<string>): (m: map<Field, seq<string>>)
    ensures forall f :: f in m ==> m[f] != []
    ensures (ChannelField in m <==> ce != []) && (ChannelField in m ==> m[ChannelField] == ce)
    ensures (MessageField in m <==> me != []) && (MessageField in m ==> m[MessageField] == me)
    ensures (NotifiableTypeField in m <==> te != []) && (NotifiableTypeField in m ==> m[NotifiableTypeField] == te)
    ensures (NotifiableIdField in m <==> ie != []) && (NotifiableIdField in m ==> m[NotifiableIdField] == ie)
  {
    (if ce == [] then map[] else map[ChannelField := ce]) +
    (if me == [] then map[] else map[MessageField := me]) +
    (if te == [] then map[] else map[NotifiableTypeField := te]) +
    (if ie == [] then map[] else map[NotifiableIdField := ie])
  }

  /** The target a type tag and an id denote. */
  function TargetOf(tag: string, id: Int64): Notifiable {
    if tag == UserTag then UserRef(id) else PostRef(id)
  }

  /** The form request: validate the body against the rules, reading (never
      changing) the ids of the existing users and posts. */
  function Validate(p: Payload, users: set<Int64>, posts: set<Int64>): (o: Validation)
    ensures o.Accepted? <==>
      ChannelErrors(p.channel) == [] && MessageErrors(p.message) == [] &&
      TypeErrors(p.notifiableType) == [] &&
      IdErrors(p.notifiableId, p.notifiableType, users, posts) == Some([])
    ensures o.Accepted? ==> p == ToPayload(o.submission)
    ensures o.ClassNotFound? <==> IdErrors(p.notifiableId, p.notifiableType, users, posts).None?
    ensures o.Rejected? ==>
      o.errors != map[] &&
      o.errors == ErrorBag(ChannelErrors(p.channel), MessageErrors(p.message),
                           TypeErrors(p.notifiableType),
                           IdErrors(p.notifiableId, p.notifiableType, users, posts).value)
  {
    var ce := ChannelErrors(p.channel);
    var me := MessageErrors(p.message);
    var te := TypeErrors(p.notifiableType);
    match IdErrors(p.notifiableId, p.notifiableType, users, posts)
    case None => ClassNotFound
    case Some(ie) =>
      if ce == [] && me == [] && te == [] && ie == [] then
        var tag := p.notifiableType.value.s;
        Accepted(Submission(ParseChannel(p.channel.value.s).value, p.message.value.s,
                            TargetOf(tag, p.notifiableId.value.i)))
      else
        Rejected(ErrorBag(ce, me, te, ie))
  }

  /** The rows a target refers to exist. */
  predicate TargetExists(t: Notifiable, users: set<Int64>, posts: set<Int64>) {
    match t
    case UserRef(id) => id in users
    case PostRef(id) => id in posts
  }

  /** A submission is accepted exactly when its message is non-blank and at most
      255 characters long and its target row exists; the validated data is then
      the four submitted fields, unchanged. */
  lemma AcceptsExactly(s: Submission, users: set<Int64>, posts: set<Int64>)
    ensures Validate(ToPayload(s), users, posts) == Accepted(s) <==>
      !Blank(s.message) && |s.message| <= MaxMessageLength && TargetExists(s.target, users, posts)
  {
  }

  /** Every accepted body is the image of its submission, and only of it. */
  lemma AcceptedIsToPayload(p: Payload, s: Submission, users: set<Int64>, posts: set<Int64>)
    requires Validate(p, users, posts) == Accepted(s)
    ensures p == ToPayload(s)
    ensures TargetExists(s.target, users, posts)
  {
  }

  /** When the type input is falsy the closure looks nothing up: the id's messages
      do not depend on the tables. */
  lemma FalsyTypeSkipsLookup(id: Option<Value>, typ: Option<Value>,
                             users: set<Int64>, posts: set<Int64>,
                             users': set<Int64>, posts': set<Int64>)
    requires Falsy(typ)
    ensures IdErrors(id, typ, users, posts) == IdErrors(id, typ, users', posts')
    ensures IdErrors(id, typ, users, posts).Some?
  {
  }

  /** A present id under a type input that names no model class makes validation
      throw, whatever the other fields hold. */
  lemma UnknownClassThrows(p: Payload, users: set<Int64>, posts: set<Int64>)
    requires Present(p.notifiableId) && !Falsy(p.notifiableType)
    requires p.notifiableType.value != Text(UserTag) && p.notifiableType.value != Text(PostTag)
    ensures Validate(p, users, posts) == ClassNotFound
  {
  }
}
