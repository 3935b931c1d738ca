/**
 * The wire vocabulary of the chat server: the frames it sends, the close
 * codes it uses, the gate on inbound actions, the generated default user
 * name `User<n>` and the echo endpoint's wrapping.
 */
module Protocol {
  import opened Json

  /** Room every new connection is placed in. */
  const DefaultRoom: string := "Default"

  /** The inbound actions the chat endpoint accepts, in the source's order. */
  const AllowedUserActions: seq<string> := ["set_nick", "join_room", "chat_message", "user_list"]

  /** WSCloseCode.TRY_AGAIN_LATER, used when the generated name is taken. */
  const TryAgainLater: int := 1013
  /** WSCloseCode.OK, the default code of a plain `close()`. */
  const NormalClosure: int := 1000
  const UsernameInUse: string := "Username already in use"
  const NotAllowedMessage: string := "Not allowed."

  /**
   * One JSON object sent with `send_json`, tagged by its 'action' field:
   *   Connecting -> {'action': 'connecting', 'room': room, 'user': user}
   *   Join       -> {'action': 'join', 'user': user, 'room': room}
   *   Reply      -> {'action': action, 'success': success, 'message': message}
   *   Sent       -> {'action': 'sent', 'message': data}
   *   Confirm    -> {'action': 'confirm', 'message': data}
   */
  datatype Frame =
    | Connecting(room: string, user: string)
    | Join(user: string, room: string)
    | Reply(action: Json, success: bool, message: string)
    | Sent(data: string)
    | Confirm(data: string)

  /** What a session does to one connection: send it a frame or close it. */
  datatype Event = Send(frame: Frame) | Close(code: int, reason: string)

  /**
   * One inbound text frame of the chat endpoint, already decoded: `action`
   * is the body's 'action' value (JNull when the key is absent, as Python's
   * `dict.get` gives None) and `data` the raw text of the frame.
   */
  datatype Inbound = Inbound(action: Json, data: string)

  /** `action in ALLOWED_USER_ACTIONS`: membership by equality, so only strings can match. */
  predicate IsAllowed(action: Json) {
    action.JString? && action.s in AllowedUserActions
  }

  /** The rejection the sender receives for an action outside the allowed list. */
  function NotAllowed(action: Json): Frame {
    Reply(action, false, NotAllowedMessage)
  }

  /** The gate accepts exactly the four listed action names; nothing else, not null, not 'change_room'. */
  lemma AllowedExactly(action: Json)
    ensures IsAllowed(action) <==>
      action in {JString("set_nick"), JString("join_room"), JString("chat_message"), JString("user_list")}
    ensures !IsAllowed(JNull) && !IsAllowed(JString("change_room"))
  {
  }

  // ----- Decimal rendering of the random suffix (Python's str(int)) -----

  predicate IsDigit(c: char) { '0' <= c <= '9' }

  predicate IsDigits(s: string) { forall i :: 0 <= i < |s| ==> IsDigit(s[i]) }

  function DigitChar(d: nat): (c: char)
    requires d < 10
    ensures IsDigit(c) && (c as int) - ('0' as int) == d
  {
    (('0' as int) + d) as char
  }

  /** Canonical decimal text of `n`: digits only, no leading zero except for "0". */
  function Decimal(n: nat): (s: string)
    ensures 1 <= |s| && IsDigits(s)
    ensures s[0] == '0' <==> n == 0
    decreases n
  {
    if n < 10 then [DigitChar(n)] else Decimal(n / 10) + [DigitChar(n % 10)]
  }

  /** Reads a run of decimal digits back as a number (the inverse of Decimal). */
  function ParseDecimal(s: string): nat
    requires IsDigits(s)
  {
    if s == [] then 0
    else ParseDecimal(s[..|s| - 1]) * 10 + ((s[|s| - 1] as int) - ('0' as int))
  }

  lemma {:induction false} DecimalRoundTrip(n: nat)
    ensures ParseDecimal(Decimal(n)) == n
    decreases n
  {
    if n >= 10 {
      DecimalRoundTrip(n / 10);
      var s := Decimal(n);
      assert s[..|s| - 1] == Decimal(n / 10);
    }
  }

  function Pow10(k: nat): (p: nat)
    ensures p >= 1
  {
    if k == 0 then 1 else 10 * Pow10(k - 1)
  }

  lemma {:induction false} DecimalLength(n: nat, k: nat)
    requires 1 <= k && n < Pow10(k)
    ensures |Decimal(n)| <= k
    decreases k
  {
    if n >= 10 {
      DecimalLength(n / 10, k - 1);
    }
  }

  // ----- The generated default user name -----

  /** f'User{n}' */
  function GeneratedName(n: nat): string {
    "User" + Decimal(n)
  }

  /** Shape of every name `random.randint(0, 999999)` can produce. */
  predicate IsGeneratedName(u: string) {
    5 <= |u| <= 10 && u[..4] == "User" && IsDigits(u[4..]) &&
    (u[4] == '0' ==> |u| == 5) && ParseDecimal(u[4..]) <= 999999
  }

  /** A drawn number in 0..999999 gives a name 'User' + at most six canonical digits that read back as that number. */
  lemma GeneratedNameShape(n: nat)
    requires n <= 999999
    ensures IsGeneratedName(GeneratedName(n))
    ensures ParseDecimal(GeneratedName(n)[4..]) == n
  {
    var u := GeneratedName(n);
    assert u[4..] == Decimal(n);
    DecimalRoundTrip(n);
    DecimalLength(n, 6);
  }

  /** Two connections get the same default name exactly when they draw the same number. */
  lemma GeneratedNameInjective(n: nat, m: nat)
    ensures GeneratedName(n) == GeneratedName(m) <==> n == m
  {
    if GeneratedName(n) == GeneratedName(m) {
      assert GeneratedName(n)[4..] == Decimal(n);
      assert GeneratedName(m)[4..] == Decimal(m);
      DecimalRoundTrip(n);
      DecimalRoundTrip(m);
    }
  }

  // ----- The echo endpoint -----

  /** {'echo': m} */
  function EchoReply(m: Json): Json {
    JObject([("echo", m)])
  }

  /** What a client reads back out of an echo reply: the value under 'echo' of an object. */
  function EchoPayload(r: Json): Option<Json> {
    if r.JObject? then Member(r.members, "echo") else None
  }

  /** Wrapping is undone by reading 'echo' back, so distinct inputs give distinct replies. */
  lemma EchoRoundTrip(m: Json, m': Json)
    ensures EchoPayload(EchoReply(m)) == Some(m)
    ensures EchoReply(m) == EchoReply(m') ==> m == m'
  {
  }
}
