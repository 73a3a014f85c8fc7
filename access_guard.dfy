/** The X-Client-Key check that guards the write path (ThrottleNotifications). */
module AccessGuard {
  import opened Domain

  /** The key used when no client key is configured. */
  const DefaultKey: string := "your-secret-key"

  const MissingKeyMessage: string := "Unauthorized: Missing X-Client-Key header."
  const InvalidKeyMessage: string := "Unauthorized: Invalid X-Client-Key."

  datatype Decision = Pass | MissingKey | InvalidKey

  /** The key requests must present: the configured one, else the default. */
  function ExpectedKey(configured: Option<string>): string {
    match configured
    case Some(k) => k
    case None => DefaultKey
  }

  /** The guard's decision on the header value (None when the header is absent). */
  function Check(header: Option<string>, configured: Option<string>): (d: Decision)
    ensures d == MissingKey <==> header.None?
    ensures d == InvalidKey <==> header.Some? && header.value != ExpectedKey(configured)
    ensures d == Pass <==> header == Some(ExpectedKey(configured))
    ensures configured.None? ==> (d == Pass <==> header == Some(DefaultKey))
  {
    if header.None? then MissingKey
    else if header.value != ExpectedKey(configured) then InvalidKey
    else Pass
  }

  /** The response a rejected request gets; the next handler is not invoked. */
  function Rejection(d: Decision): (r: Response)
    requires d != Pass
    ensures r.Reply? && r.Status() == 401 && !r.success && r.data.None?
    ensures r.message == MissingKeyMessage <==> d == MissingKey
    ensures r.message == InvalidKeyMessage <==> d == InvalidKey
  {
    Reply(401, false, if d == MissingKey then MissingKeyMessage else InvalidKeyMessage, None)
  }
}
