/**
 * The payment webhook of backend/src/webhook.ts: the API-key middleware
 * (an allow-list read from API_KEY, split on ',' with each entry trimmed)
 * and the handler that matches an appointment id against the pending
 * appointments and drives `processPayment`.
 */
module Webhook {
  import opened Wrappers
  import opened Types
  import opened Seqs
  import opened Store
  import Actions
  import Resolvers

  // ---- String.prototype.split with a one-character separator ----

  function Join(parts: seq<string>, sep: char): string
    requires |parts| >= 1
  {
    if |parts| == 1 then parts[0] else parts[0] + [sep] + Join(parts[1..], sep)
  }

  /** `s.split(sep)`: the pieces between separators; an empty string gives one empty piece. */
  function Split(s: string, sep: char): (parts: seq<string>)
    ensures |parts| >= 1
    ensures forall i :: 0 <= i < |parts| ==> sep !in parts[i]
    ensures Join(parts, sep) == s
    decreases |s|
  {
    match FirstIndex(s, (c: char) => c == sep)
    case None => [s]
    case Some(k) =>
      var rest := Split(s[k + 1..], sep);
      assert s == s[..k] + [sep] + s[k + 1..];
      assert sep !in s[..k] by {
        forall j | 0 <= j < k ensures s[..k][j] != sep {
          assert s[..k][j] == s[j];
        }
      }
      [s[..k]] + rest
  }

  /** Splitting undoes joining pieces that contain no separator. */
  lemma {:induction false} SplitJoin(parts: seq<string>, sep: char)
    requires |parts| >= 1 && forall i :: 0 <= i < |parts| ==> sep !in parts[i]
    ensures Split(Join(parts, sep), sep) == parts
    decreases |parts|
  {
    var s := Join(parts, sep);
    if |parts| == 1 {
      assert FirstIndex(s, (c: char) => c == sep).None?;
    } else {
      var tail := Join(parts[1..], sep);
      assert s == parts[0] + [sep] + tail;
      var k := |parts[0]|;
      assert s[k] == sep;
      forall j | 0 <= j < k ensures s[j] != sep {
        assert s[j] == parts[0][j];
      }
      assert FirstIndex(s, (c: char) => c == sep) == Some(k);
      assert s[..k] == parts[0] && s[k + 1..] == tail;
      SplitJoin(parts[1..], sep);
    }
  }

  // ---- String.prototype.trim ----

  /** The characters `trim` removes: ECMAScript WhiteSpace and LineTerminator. */
  predicate IsTrimmed(c: char) {
    || c == ' ' || c == '\t' || c == '\n' || c == '\r' || c == '\U{0B}' || c == '\U{0C}'
    || c == '\U{A0}' || c == '\U{1680}' || ('\U{2000}' <= c <= '\U{200A}')
    || c == '\U{2028}' || c == '\U{2029}' || c == '\U{202F}' || c == '\U{205F}'
    || c == '\U{3000}' || c == '\U{FEFF}'
  }

  function TrimStart(s: string): (r: string)
    ensures |r| <= |s| && r == s[|s| - |r|..]
    ensures forall i :: 0 <= i < |s| - |r| ==> IsTrimmed(s[i])
    ensures r != [] ==> !IsTrimmed(r[0])
  {
    if s != [] && IsTrimmed(s[0]) then TrimStart(s[1..]) else s
  }

  function TrimEnd(s: string): (r: string)
    ensures |r| <= |s| && r == s[..|r|]
    ensures forall i :: |r| <= i < |s| ==> IsTrimmed(s[i])
    ensures r != [] ==> !IsTrimmed(r[|r| - 1])
  {
    if s != [] && IsTrimmed(s[|s| - 1]) then TrimEnd(s[..|s| - 1]) else s
  }

  /** `r` is `s[i..j]`, and everything of `s` outside it is white space. */
  predicate CutFrom(s: string, r: string, i: int, j: int) {
    && 0 <= i <= j <= |s| && r == s[i..j]
    && (forall k :: 0 <= k < i ==> IsTrimmed(s[k]))
    && (forall k :: j <= k < |s| ==> IsTrimmed(s[k]))
  }

  /** Cutting white space off the front of `s`, then off the end of what remains. */
  lemma CutCompose(s: string, front: string, r: string)
    requires |front| <= |s| && front == s[|s| - |front|..]
    requires forall k :: 0 <= k < |s| - |front| ==> IsTrimmed(s[k])
    requires |r| <= |front| && r == front[..|r|]
    requires forall k :: |r| <= k < |front| ==> IsTrimmed(front[k])
    ensures CutFrom(s, r, |s| - |front|, |s| - |front| + |r|)
  {
    var i := |s| - |front|;
    var j := i + |r|;
    assert r == s[i..j];
    forall k | j <= k < |s| ensures IsTrimmed(s[k]) {
      assert s[k] == front[k - i];
    }
  }

  /** `s.trim()`: `s` without its leading and trailing white space. */
  function Trim(s: string): (r: string)
    ensures exists i, j :: CutFrom(s, r, i, j)
    ensures r != [] ==> !IsTrimmed(r[0]) && !IsTrimmed(r[|r| - 1])
  {
    var front := TrimStart(s);
    var r := TrimEnd(front);
    CutCompose(s, front, r);
    assert r != [] ==> r[0] == front[0];
    r
  }

  /** Trimming a trimmed string changes nothing. */
  lemma TrimIdempotent(s: string)
    ensures Trim(Trim(s)) == Trim(s)
  {
    var t := Trim(s);
    if t != [] {
      assert TrimStart(t) == t;
      assert TrimEnd(t) == t;
    }
  }

  // ---- validateApiKey ----

  /** `(API_KEY || '').split(',').map(v => v.trim())`. */
  function AcceptedApiKeys(apiKeyEnv: Option<string>): (keys: seq<string>)
    ensures |keys| == |Split(apiKeyEnv.GetOr(""), ',')|
    ensures forall i :: 0 <= i < |keys| ==> keys[i] == Trim(Split(apiKeyEnv.GetOr(""), ',')[i])
  {
    var parts := Split(apiKeyEnv.GetOr(""), ',');
    seq(|parts|, i requires 0 <= i < |parts| => Trim(parts[i]))
  }

  /** The middleware's three outcomes: two 401 responses, or a single call of `next`. */
  datatype KeyCheck = MissingKey | InvalidKey | CallNext {
    function StatusCode(): int {
      if CallNext? then 200 else 401
    }
  }

  /**
   * validateApiKey: 401 without an `x-api-key` header; 401 unless the key
   * equals one trimmed allow-list entry exactly; otherwise `next` once.
   */
  function ValidateApiKey(apiKeyHeader: Option<string>, apiKeyEnv: Option<string>): (r: KeyCheck)
    ensures r == MissingKey <==> !Truthy(apiKeyHeader)
    ensures r == CallNext <==> Truthy(apiKeyHeader) && apiKeyHeader.value in AcceptedApiKeys(apiKeyEnv)
    ensures r != CallNext ==> r.StatusCode() == 401
  {
    if !Truthy(apiKeyHeader) then MissingKey
    else
      var accepted := AcceptedApiKeys(apiKeyEnv);
      if FirstIndex(accepted, (v: string) => v == apiKeyHeader.value).None? then InvalidKey
      else CallNext
  }

  /** With API_KEY unset the allow-list is the single empty entry, so no key is accepted. */
  lemma UnsetApiKeyRejectsAll(apiKeyHeader: Option<string>)
    ensures ValidateApiKey(apiKeyHeader, None) != CallNext
  {
    assert FirstIndex("", (c: char) => c == ',').None?;
    assert Split("", ',') == [""];
    assert AcceptedApiKeys(None) == [""];
  }

  /** A configured entry is accepted with the blanks around it ignored. */
  lemma ConfiguredKeyAccepted(entries: seq<string>, i: nat)
    requires |entries| >= 1 && i < |entries| && forall j :: 0 <= j < |entries| ==> ',' !in entries[j]
    requires Trim(entries[i]) != ""
    ensures ValidateApiKey(Some(Trim(entries[i])), Some(Join(entries, ','))) == CallNext
  {
    var env := Some(Join(entries, ','));
    SplitJoin(entries, ',');
    var keys := AcceptedApiKeys(env);
    assert keys[i] == Trim(entries[i]);
    assert Trim(entries[i]) in keys;
  }

  // ---- webhookHandler ----

  /** The pending appointment the webhook pays for: the first whose id equals the query value. */
  function PendingMatch(apps: seq<Appointment>, appointmentId: string): (r: Option<Appointment>)
    ensures r.Some? <==> exists a :: a in apps && a.status == PendingPayment && a.id == appointmentId
    ensures r.Some? ==> r.value in apps && r.value.status == PendingPayment && r.value.id == appointmentId
  {
    var pending := Actions.PendingPaymentAppointments(apps);
    match FirstIndex(pending, (a: Appointment) => a.id == appointmentId)
    case None => None
    case Some(k) => Some(pending[k])
  }

  /**
   * webhookHandler: 400 without an appointment id or when no pending
   * appointment has it, with no state change; otherwise `processPayment`
   * for that id and 200.
   */
  method WebhookHandler(db: Database, appointmentId: Option<string>) returns (status: int)
    requires db.WellFormed()
    modifies db
    ensures db.WellFormed() && (old(db.Exclusive()) ==> db.Exclusive())
    ensures db.customers == old(db.customers) && db.slots == old(db.slots)
    ensures status == 200 || status == 400
    ensures status == 200 <==> Truthy(appointmentId) && PendingMatch(old(db.appointments), appointmentId.value).Some?
    ensures status == 400 ==> db.appointments == old(db.appointments) && db.notices == old(db.notices)
    ensures status == 200 ==> db.appointments == Actions.Paid(old(db.appointments), appointmentId.value)
                              && |db.notices| == |old(db.notices)| + 1
    ensures status == 200 ==>
      var a := PendingMatch(old(db.appointments), appointmentId.value).value;
      HasSlot(old(db.slots), a.slotId)
      && db.notices == old(db.notices) + [Notice(appointmentId.value, Resolvers.SlotOf(old(db.slots), a), NewStatus(Reserved))]
  {
    if !Truthy(appointmentId) {
      return 400;
    }
    var appointment := PendingMatch(db.appointments, appointmentId.value);
    if appointment.None? {
      return 400;
    }
    var k := AppointmentIndex(db.appointments, appointment.value.id);
    assert k.Some? && db.appointments[k.value] == appointment.value by {
      var i :| 0 <= i < |db.appointments| && db.appointments[i] == appointment.value;
    }
    var _ := Actions.ProcessPayment(db, appointment.value.id);
    return 200;
  }

  /**
   * A replayed webhook call for an appointment already paid is answered 400:
   * the two calls together leave the table as the first call alone, with one
   * notice sent.
   */
  method WebhookReplay(db: Database, appointmentId: Option<string>) returns (first: int, second: int)
    requires db.WellFormed()
    modifies db
    ensures db.WellFormed() && (old(db.Exclusive()) ==> db.Exclusive())
    ensures second == 400
    ensures db.customers == old(db.customers) && db.slots == old(db.slots)
    ensures first == 200 ==> Truthy(appointmentId) && db.appointments == Actions.Paid(old(db.appointments), appointmentId.value)
                             && |db.notices| == |old(db.notices)| + 1
    ensures first == 400 ==> db.appointments == old(db.appointments) && db.notices == old(db.notices)
  {
    first := WebhookHandler(db, appointmentId);
    if first == 200 {
      Actions.NoPendingAfterPaid(old(db.appointments), appointmentId.value);
    }
    second := WebhookHandler(db, appointmentId);
  }
}
