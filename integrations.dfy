/** Outbound delivery: sendEmail and sendSms pick the workspace's active
    integration of that kind, call its provider (or the mock), and record
    every attempt in integration_logs through logIntegration, which also keeps
    the integration's last_error. The provider's HTTP answer is an input. */
module Integrations {
  import opened Common
  import opened Text
  import opened Seqs
  import opened Store
  import opened Workspaces

  /** The options a caller passes to sendEmail or sendSms. */
  datatype SendOptions =
    | EmailOptions(to: string, subject: string, body: string, from: Option<string>)
    | SmsOptions(to: string, body: string)
  {
    function Kind(): Channel {
      if EmailOptions? then Email else Sms
    }
  }

  /** The request handed to the provider's API. */
  datatype Outgoing =
    | ResendEmail(from: string, to: string, subject: string, html: string)
    | TwilioSms(to: string, from: string, body: string)

  /** The provider's answer: a response (its ok flag, the id/sid and message
      fields of its JSON body and its status text), or a thrown error. */
  datatype Delivery =
    | Responded(ok: bool, id: Option<string>, message: Option<string>, statusText: string)
    | Threw(reason: string)

  /** IntegrationResult. */
  datatype SendResult = SendResult(success: bool, externalId: Option<string>, error: Option<string>)

  /** One send: its result, the log row it writes and the request it posted, if any. */
  datatype Attempt = Attempt(result: SendResult, log: IntegrationLog, request: Option<Outgoing>)

  predicate IsActiveIntegration(row: Integration, wid: Id, kind: Channel) {
    IsIntegration(row, wid, kind) && row.isActive
  }

  function ActiveOf(wid: Id, kind: Channel): Integration -> bool {
    (row: Integration) => IsActiveIntegration(row, wid, kind)
  }

  /** `r.rows[0]` of the active-integration lookup. */
  function ActiveIntegration(rows: seq<Integration>, wid: Id, kind: Channel): (r: Option<Integration>)
    ensures r.None? <==> forall x :: x in rows ==> !IsActiveIntegration(x, wid, kind)
    ensures r.Some? ==> r.value in rows && IsActiveIntegration(r.value, wid, kind)
  {
    FirstMatch(rows, ActiveOf(wid, kind))
  }

  /** The provider each kind really calls. */
  function ProviderName(kind: Channel): string {
    if kind == Email then "resend" else "twilio"
  }

  /** `config?.apiKey` for Resend; `config?.accountSid && config?.authToken` for Twilio. */
  predicate Credentialed(kind: Channel, config: ProviderConfig) {
    if kind == Email then Present(config.apiKey) else Present(config.accountSid) && Present(config.authToken)
  }

  function NotConfiguredLog(kind: Channel): string {
    if kind == Email then "No email integration configured" else "No SMS integration configured"
  }

  function NotConfiguredError(kind: Channel): string {
    if kind == Email then "No email integration" else "No SMS integration"
  }

  function FailedFallback(kind: Channel): string {
    if kind == Email then "Email failed" else "SMS failed"
  }

  function UnknownProviderError(kind: Channel): string {
    if kind == Email then "Unknown email provider" else "Unknown SMS provider"
  }

  const DefaultSender: string := "onboarding@resend.dev"

  /** The request body: the sender falls back to the configured address, then to Resend's
      onboarding sender; an SMS is sent from the configured number or "". */
  function Request(opts: SendOptions, config: ProviderConfig): Outgoing {
    match opts
    case EmailOptions(to, subject, body, from) =>
      ResendEmail(Coalesce2(from, config.fromEmail, DefaultSender), to, subject, body)
    case SmsOptions(to, body) => TwilioSms(to, config.phoneNumber.GetOr(""), body)
  }

  /** `a ?? b ?? fallback` */
  function Coalesce2(a: Option<string>, b: Option<string>, fallback: string): string {
    if a.Some? then a.value else b.GetOr(fallback)
  }

  function SendLog(wid: Id, kind: Channel, success: bool, message: Option<string>, metadata: LogMetadata): IntegrationLog {
    IntegrationLog(wid, kind, "send", success, message, metadata)
  }

  /** The external id the mock provider reports: "mock-" followed by Date.now(). */
  function MockId(nowMs: nat): string {
    "mock-" + NatToString(nowMs)
  }

  /** What sendEmail / sendSms do given the active integration found, the
      provider's answer and the clock. */
  function Dispatch(found: Option<Integration>, wid: Id, opts: SendOptions, delivery: Delivery, nowMs: nat)
    : (a: Attempt)
    ensures a.log.workspaceId == wid && a.log.kind == opts.Kind() && a.log.event == "send"
    ensures a.log.success == a.result.success
    ensures a.result.success ==> a.result.error.None? && a.log.errorMessage.None?
    ensures !a.result.success ==> a.result.error.Some? && a.result.externalId.None? && a.log.errorMessage.Some?
    ensures a.request.Some? <==>
      found.Some? && found.value.provider == ProviderName(opts.Kind()) && Credentialed(opts.Kind(), found.value.config)
    ensures a.request.Some? ==> a.request.value == Request(opts, found.value.config)
    ensures a.result.success <==>
      found.Some? && (found.value.provider == "mock" || (a.request.Some? && delivery.Responded? && delivery.ok))
    ensures found.None? ==>
      a.result.error == Some(NotConfiguredError(opts.Kind())) && a.log.errorMessage == Some(NotConfiguredLog(opts.Kind()))
    ensures found.Some? && found.value.provider == "mock" ==>
      a.result.externalId == Some(MockId(nowMs)) && StartsWith(a.result.externalId.value, "mock-")
    ensures found.Some? && found.value.provider != "mock" && a.request.None? ==>
      && a.result.error == Some(UnknownProviderError(opts.Kind()))
      && a.log.errorMessage == Some("Unknown provider: " + found.value.provider)
    ensures a.request.Some? && delivery.Responded? ==>
      if delivery.ok then a.result.externalId == delivery.id && a.log.metadata == ProviderRef(delivery.id)
      else
        && a.result.error == Some(delivery.message.GetOr(FailedFallback(opts.Kind())))
        && a.log.errorMessage == Some(delivery.message.GetOr(delivery.statusText))
    ensures a.request.Some? && delivery.Threw? ==>
      a.result.error == Some(delivery.reason) && a.log.errorMessage == Some(delivery.reason)
  {
    var kind := opts.Kind();
    if found.None? then
      Attempt(SendResult(false, None, Some(NotConfiguredError(kind))),
              SendLog(wid, kind, false, Some(NotConfiguredLog(kind)), NoMetadata), None)
    else
      var row := found.value;
      if row.provider == ProviderName(kind) && Credentialed(kind, row.config) then
        var request := Some(Request(opts, row.config));
        match delivery
        case Threw(reason) =>
          Attempt(SendResult(false, None, Some(reason)), SendLog(wid, kind, false, Some(reason), NoMetadata), request)
        case Responded(ok, id, message, statusText) =>
          if !ok then
            Attempt(SendResult(false, None, Some(message.GetOr(FailedFallback(kind)))),
                    SendLog(wid, kind, false, Some(message.GetOr(statusText)), NoMetadata), request)
          else
            Attempt(SendResult(true, id, None), SendLog(wid, kind, true, None, ProviderRef(id)), request)
      else if row.provider == "mock" then
        Attempt(SendResult(true, Some(MockId(nowMs)), None), SendLog(wid, kind, true, None, MockSend), None)
      else
        Attempt(SendResult(false, None, Some(UnknownProviderError(kind))),
                SendLog(wid, kind, false, Some("Unknown provider: " + row.provider), NoMetadata), None)
  }

  /** The provider's answer matters only when the provider is really called. */
  lemma DeliveryOnlyMattersWhenCalled(found: Option<Integration>, wid: Id, opts: SendOptions,
                                      d1: Delivery, d2: Delivery, nowMs: nat)
    requires Dispatch(found, wid, opts, d1, nowMs).request.None?
    ensures Dispatch(found, wid, opts, d1, nowMs) == Dispatch(found, wid, opts, d2, nowMs)
  {
  }

  /** A "resend" or "twilio" integration without its credentials fails exactly as
      an unknown provider does, without calling anyone. */
  lemma MissingCredentialsIsUnknownProvider(row: Integration, wid: Id, opts: SendOptions, delivery: Delivery, nowMs: nat)
    requires row.provider == ProviderName(opts.Kind()) && !Credentialed(opts.Kind(), row.config)
    ensures Dispatch(Some(row), wid, opts, delivery, nowMs) ==
      Attempt(SendResult(false, None, Some(UnknownProviderError(opts.Kind()))),
              SendLog(wid, opts.Kind(), false, Some("Unknown provider: " + ProviderName(opts.Kind())), NoMetadata), None)
  {
  }

  /** logIntegration's UPDATE: a failure that carries a message becomes the
      last_error of the (workspace, type) integration row. */
  function RecordError(rows: seq<Integration>, entry: IntegrationLog): (r: seq<Integration>)
    ensures |r| == |rows|
  {
    if !entry.success && Present(entry.errorMessage) then
      seq(|rows|, i requires 0 <= i < |rows| =>
        if IsIntegration(rows[i], entry.workspaceId, entry.kind) then rows[i].(lastError := entry.errorMessage)
        else rows[i])
    else rows
  }

  /** last_error changes only for a failure with a message, only on the logged
      (workspace, type) key, and nothing but last_error changes. */
  lemma RecordErrorEffect(rows: seq<Integration>, entry: IntegrationLog, i: int)
    requires 0 <= i < |rows|
    ensures var r := RecordError(rows, entry);
      && r[i] == rows[i].(lastError := r[i].lastError)
      && (r[i].lastError != rows[i].lastError ==>
            !entry.success && Present(entry.errorMessage) && IsIntegration(rows[i], entry.workspaceId, entry.kind))
      && (!entry.success && Present(entry.errorMessage) && IsIntegration(rows[i], entry.workspaceId, entry.kind) ==>
            r[i].lastError == entry.errorMessage)
  {
  }

  /** A successful send never touches last_error, and the key of each row is kept. */
  lemma RecordErrorKeepsKeys(rows: seq<Integration>, entry: IntegrationLog)
    requires IntegrationKeysUnique(rows)
    ensures IntegrationKeysUnique(RecordError(rows, entry))
    ensures entry.success ==> RecordError(rows, entry) == rows
  {
    var r := RecordError(rows, entry);
    forall i, j | 0 <= i < j < |r| ensures !IsIntegration(r[j], r[i].workspaceId, r[i].kind) {
      RecordErrorEffect(rows, entry, i);
      RecordErrorEffect(rows, entry, j);
    }
  }

  /** Two integration tables that differ at most in last_error. */
  predicate SameButLastError(before: seq<Integration>, after: seq<Integration>) {
    |after| == |before| && forall i :: 0 <= i < |before| ==> after[i] == before[i].(lastError := after[i].lastError)
  }

  /** `after` is `before` followed by one log row per call, of the call's kind and workspace. */
  predicate LogsAppended(before: seq<IntegrationLog>, after: seq<IntegrationLog>, calls: seq<SendOptions>, wid: Id) {
    && |after| == |before| + |calls|
    && after[..|before|] == before
    && forall k :: 0 <= k < |calls| ==> after[|before| + k].kind == calls[k].Kind() && after[|before| + k].workspaceId == wid
  }

  /** An exit before any send: no log row and no integration change. */
  lemma NothingSent(logs: seq<IntegrationLog>, rows: seq<Integration>, wid: Id)
    ensures LogsAppended(logs, logs, [], wid) && SameButLastError(rows, rows)
  {
    assert logs[..|logs|] == logs;
    assert forall i :: 0 <= i < |rows| ==> rows[i] == rows[i].(lastError := rows[i].lastError);
  }

  lemma SameButLastErrorTransitive(a: seq<Integration>, b: seq<Integration>, c: seq<Integration>)
    requires SameButLastError(a, b) && SameButLastError(b, c)
    ensures SameButLastError(a, c)
  {
    forall i | 0 <= i < |a| ensures c[i] == a[i].(lastError := c[i].lastError) {
      assert b[i] == a[i].(lastError := b[i].lastError);
    }
  }

  lemma RecordErrorOnlyLastError(rows: seq<Integration>, entry: IntegrationLog)
    ensures SameButLastError(rows, RecordError(rows, entry))
  {
    forall i | 0 <= i < |rows| ensures RecordError(rows, entry)[i] == rows[i].(lastError := RecordError(rows, entry)[i].lastError) {
      RecordErrorEffect(rows, entry, i);
    }
  }

  /** logIntegration: one log row, then the last_error update for a failure with a message. */
  method LogIntegration(db: Db, entry: IntegrationLog)
    modifies db`integrationLogs, db`integrations
    ensures db.integrationLogs == old(db.integrationLogs) + [entry]
    ensures db.integrations == RecordError(old(db.integrations), entry)
  {
    db.integrationLogs := db.integrationLogs + [entry];
    if !entry.success && entry.errorMessage.Some? && entry.errorMessage.value != "" {
      db.integrations := RecordError(db.integrations, entry);
    }
  }

  /** sendEmail (EmailOptions) and sendSms (SmsOptions): every branch writes exactly one
      log row. `delivery` is what the provider answers if called; `posted` is what was sent to it. */
  method Send(db: Db, wid: Id, opts: SendOptions, delivery: Delivery, nowMs: nat)
    returns (res: SendResult, posted: Option<Outgoing>)
    modifies db`integrationLogs, db`integrations
    ensures var a := Dispatch(old(ActiveIntegration(db.integrations, wid, opts.Kind())), wid, opts, delivery, nowMs);
      && res == a.result && posted == a.request
      && db.integrationLogs == old(db.integrationLogs) + [a.log]
      && db.integrations == RecordError(old(db.integrations), a.log)
    ensures |db.integrationLogs| == |old(db.integrationLogs)| + 1
    ensures db.integrationLogs[..|old(db.integrationLogs)|] == old(db.integrationLogs)
    ensures db.integrationLogs[|old(db.integrationLogs)|].kind == opts.Kind()
    ensures db.integrationLogs[|old(db.integrationLogs)|].workspaceId == wid
    ensures SameButLastError(old(db.integrations), db.integrations)
  {
    RecordErrorOnlyLastError(db.integrations,
      Dispatch(ActiveIntegration(db.integrations, wid, opts.Kind()), wid, opts, delivery, nowMs).log);
    var kind := opts.Kind();
    var found := ActiveIntegration(db.integrations, wid, kind);
    if found.None? {
      LogIntegration(db, SendLog(wid, kind, false, Some(NotConfiguredLog(kind)), NoMetadata));
      return SendResult(false, None, Some(NotConfiguredError(kind))), None;
    }
    var row := found.value;
    if row.provider == ProviderName(kind) && Credentialed(kind, row.config) {
      posted := Some(Request(opts, row.config));
      if delivery.Threw? {
        LogIntegration(db, SendLog(wid, kind, false, Some(delivery.reason), NoMetadata));
        return SendResult(false, None, Some(delivery.reason)), posted;
      }
      if !delivery.ok {
        LogIntegration(db, SendLog(wid, kind, false, Some(delivery.message.GetOr(delivery.statusText)), NoMetadata));
        return SendResult(false, None, Some(delivery.message.GetOr(FailedFallback(kind)))), posted;
      }
      LogIntegration(db, SendLog(wid, kind, true, None, ProviderRef(delivery.id)));
      return SendResult(true, delivery.id, None), posted;
    }
    if row.provider == "mock" {
      LogIntegration(db, SendLog(wid, kind, true, None, MockSend));
      return SendResult(true, Some(MockId(nowMs)), None), None;
    }
    LogIntegration(db, SendLog(wid, kind, false, Some("Unknown provider: " + row.provider), NoMetadata));
    res, posted := SendResult(false, None, Some(UnknownProviderError(kind))), None;
  }
}
