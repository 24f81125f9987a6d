/** The `POST /verification/webhook` handler. Its three checks have no
    `return`, so each one after the first still runs and one request can
    attempt several responses. `Response` records every
    `res.status(..).json(..)` attempt; `WebhookTrace` is the specification of
    the whole run. */
module Webhook {
  import opened Wrappers
  import opened Hex
  import opened Auth

  /** One `json({message})` call, with the status code in force. */
  datatype Write = Write(status: int, message: string)

  const Unauthorized: Write := Write(401, "Unauthorized")
  const Processed: Write := Write(200, "Webhook event processed successfully")

  /** `Threw`: `createHmac` raised because the secret was `undefined`. */
  datatype Outcome = Returned | Threw

  datatype Trace = Trace(writes: seq<Write>, outcome: Outcome)

  /** The request as the handler reads it: body and `x-signature` header. */
  datatype WebhookRequest = WebhookRequest(body: Body, signature: Option<string>)

  /** JavaScript truthiness of a string that may be `undefined`. */
  predicate Truthy(s: Option<string>) {
    s.Some? && s.value != ""
  }

  /** `!s` holds for `undefined` and the empty string only. */
  lemma FalsyStrings(s: string)
    ensures !Truthy(None) && !Truthy(Some(""))
    ensures s != "" ==> Truthy(Some(s))
  {
  }

  /** The Express response object, reduced to its status code and the log
      of attempted JSON writes. */
  class Response {
    var statusCode: int
    var writes: seq<Write>

    constructor ()
      ensures statusCode == 200 && writes == []
    {
      statusCode := 200;
      writes := [];
    }

    /** `res.status(code)` */
    method Status(code: int)
      modifies this
      ensures statusCode == code && writes == old(writes)
    {
      statusCode := code;
    }

    /** `res.json({message})` */
    method Json(message: string)
      modifies this
      ensures statusCode == old(statusCode)
      ensures writes == old(writes) + [Write(statusCode, message)]
    {
      writes := writes + [Write(statusCode, message)];
    }
  }

  /** What one request does: the writes it attempts, in order, and whether
      it ran to its end. */
  function WebhookTrace(ext: Externals, req: WebhookRequest, secret: Option<string>, now: int): (t: Trace)
    ensures 1 <= |t.writes| <= 3
    ensures forall w :: w in t.writes ==> w == Unauthorized || w == Processed
    ensures Processed in t.writes <==>
            secret.Some? && VerifySignature(ext, EncodeData(ext, req.body), req.signature, secret.value)
    ensures t.outcome == Threw <==> secret.None?
  {
    var credentialCheck := if !Truthy(req.signature) || !Truthy(secret) then [Unauthorized] else [];
    var timestampCheck := if !VerifyTimestamp(req.body.createdAt, now) then [Unauthorized] else [];
    if secret.None? then
      Trace(credentialCheck + timestampCheck, Threw)
    else
      var verdict :=
        if VerifySignature(ext, EncodeData(ext, req.body), req.signature, secret.value)
        then Processed else Unauthorized;
      Trace(credentialCheck + timestampCheck + [verdict], Returned)
  }

  /** The handler body, with `process.env.WEBHOOK_SECRET_KEY` as `secret`
      and the clock as `now`. */
  method HandleWebhook(ext: Externals, req: WebhookRequest, secret: Option<string>, now: int, res: Response)
    returns (outcome: Outcome)
    modifies res
    ensures res.writes == old(res.writes) + WebhookTrace(ext, req, secret, now).writes
    ensures res.statusCode == WebhookTrace(ext, req, secret, now).writes[|WebhookTrace(ext, req, secret, now).writes| - 1].status
    ensures outcome == WebhookTrace(ext, req, secret, now).outcome
  {
    var body := req.body;
    var signature := req.signature;

    if !Truthy(signature) || !Truthy(secret) {
      res.Status(401);
      res.Json("Unauthorized");
    }

    var timestamp := body.createdAt;
    if !VerifyTimestamp(timestamp, now) {
      res.Status(401);
      res.Json("Unauthorized");
    }

    var encodedData := EncodeData(ext, body);

    if secret.None? {
      // `createHmac("sha256", undefined)` raises before any further write.
      return Threw;
    }
    if VerifySignature(ext, encodedData, signature, secret.value) {
      res.Status(200);
      res.Json("Webhook event processed successfully");
    } else {
      res.Status(401);
      res.Json("Unauthorized");
    }
    outcome := Returned;
  }

  // ---------------------------------------------------------------------
  // Properties of a run

  /** When the secret is set, the signature check always runs and its
      verdict is the last write, whatever the earlier checks wrote. */
  lemma FinalCheckAlwaysRuns(ext: Externals, req: WebhookRequest, secret: string, now: int)
    ensures var t := WebhookTrace(ext, req, Some(secret), now);
            t.outcome == Returned &&
            t.writes[|t.writes| - 1] ==
              (if VerifySignature(ext, EncodeData(ext, req.body), req.signature, secret)
               then Processed else Unauthorized)
  {
  }

  /** With a secret set, exactly one write is attempted precisely when the
      header and the secret are non-empty and the timestamp is fresh. */
  lemma SingleWriteIff(ext: Externals, req: WebhookRequest, secret: string, now: int)
    ensures |WebhookTrace(ext, req, Some(secret), now).writes| == 1 <==>
            Truthy(req.signature) && secret != "" && VerifyTimestamp(req.body.createdAt, now)
  {
  }

  /** All checks pass: one write, the 200. */
  lemma AcceptedRequest(ext: Externals, req: WebhookRequest, secret: string, now: int)
    requires Truthy(req.signature) && secret != ""
    requires VerifyTimestamp(req.body.createdAt, now)
    requires VerifySignature(ext, EncodeData(ext, req.body), req.signature, secret)
    ensures WebhookTrace(ext, req, Some(secret), now) == Trace([Processed], Returned)
  {
  }

  /** The run is `[200]` exactly when every check passes. */
  lemma AcceptedIff(ext: Externals, req: WebhookRequest, secret: string, now: int)
    ensures WebhookTrace(ext, req, Some(secret), now).writes == [Processed] <==>
            Truthy(req.signature) && secret != "" &&
            VerifyTimestamp(req.body.createdAt, now) &&
            VerifySignature(ext, EncodeData(ext, req.body), req.signature, secret)
  {
    var t := WebhookTrace(ext, req, Some(secret), now);
    if t.writes == [Processed] {
      assert Processed in t.writes;
    }
  }

  /** A correctly signed request is accepted by a fresh response object,
      and again by another one: no state is carried between requests. */
  method SignedRequestAccepted(ext: Externals, body: Body, secret: string, now: int)
    returns (first: seq<Write>, second: seq<Write>)
    requires secret != ""
    requires VerifyTimestamp(body.createdAt, now)
    ensures first == [Processed] && second == [Processed]
  {
    var signature := ComputedSignature(ext, secret, EncodeData(ext, body));
    var req := WebhookRequest(body, Some(signature));
    SignatureRoundTrip(ext, EncodeData(ext, body), secret);
    var res := new Response();
    var outcome := HandleWebhook(ext, req, Some(secret), now, res);
    first := res.writes;
    res := new Response();
    outcome := HandleWebhook(ext, req, Some(secret), now, res);
    second := res.writes;
  }

  /** A stale timestamp with a valid signature: a 401, then the 200. */
  lemma StaleWithValidSignature(ext: Externals, req: WebhookRequest, secret: string, now: int)
    requires Truthy(req.signature) && secret != ""
    requires !VerifyTimestamp(req.body.createdAt, now)
    requires VerifySignature(ext, EncodeData(ext, req.body), req.signature, secret)
    ensures WebhookTrace(ext, req, Some(secret), now).writes == [Unauthorized, Processed]
  {
  }

  /** A stale timestamp with a present but wrong signature: two 401s. */
  lemma StaleWithWrongSignature(ext: Externals, req: WebhookRequest, secret: string, now: int)
    requires Truthy(req.signature) && secret != ""
    requires !VerifyTimestamp(req.body.createdAt, now)
    requires !VerifySignature(ext, EncodeData(ext, req.body), req.signature, secret)
    ensures WebhookTrace(ext, req, Some(secret), now).writes == [Unauthorized, Unauthorized]
  {
  }

  /** No `x-signature` header: the first 401 is written, and the signature
      check still runs and writes another 401. */
  lemma MissingSignatureHeader(ext: Externals, body: Body, secret: string, now: int)
    ensures var t := WebhookTrace(ext, WebhookRequest(body, None), Some(secret), now);
            t.writes == (if VerifyTimestamp(body.createdAt, now)
                         then [Unauthorized, Unauthorized]
                         else [Unauthorized, Unauthorized, Unauthorized])
  {
    MissingSignatureRejected(ext, EncodeData(ext, body), secret);
  }

  /** An empty `x-signature` header fails the first check and can never
      match a 64-digit digest, so it ends the same way as a missing one. */
  lemma EmptySignatureHeader(ext: Externals, body: Body, secret: string, now: int)
    ensures WebhookTrace(ext, WebhookRequest(body, Some("")), Some(secret), now).writes ==
            WebhookTrace(ext, WebhookRequest(body, None), Some(secret), now).writes
  {
    WrongLengthRejected(ext, EncodeData(ext, body), "", secret);
  }

  /** `WEBHOOK_SECRET_KEY` unset: the first 401 is written, the run ends
      with `createHmac` raising, and there is never a 200. */
  lemma MissingSecret(ext: Externals, req: WebhookRequest, now: int)
    ensures var t := WebhookTrace(ext, req, None, now);
            t.outcome == Threw && t.writes[0] == Unauthorized && Processed !in t.writes
  {
  }

  /** `WEBHOOK_SECRET_KEY` set to the empty string: the first check writes a
      401, but the empty string is a valid HMAC key, so a request signed with
      it still reaches a 200 attempt. */
  lemma EmptySecretStillSigns(ext: Externals, body: Body, now: int)
    requires VerifyTimestamp(body.createdAt, now)
    ensures var req := WebhookRequest(body, Some(ComputedSignature(ext, "", EncodeData(ext, body))));
            WebhookTrace(ext, req, Some(""), now).writes == [Unauthorized, Processed]
  {
    SignatureRoundTrip(ext, EncodeData(ext, body), "");
  }
}
