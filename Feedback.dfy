/**
 * The serverless feedback relay: the HTML escaper and the request handler's
 * chain of guards.  Parsing a text body and sending the e-mail are oracles
 * handed to the handler as functions.
 */
module Feedback {
  import opened Options

  // ---------------------------------------------------------------------
  // Escaping
  // ---------------------------------------------------------------------

  /** `s.replace(/c/g, rep)`: every occurrence of `c` becomes `rep`. */
  function ReplaceAll(s: string, c: char, rep: string): (r: string)
    ensures c !in rep ==> c !in r
  {
    if s == [] then []
    else (if s[0] == c then rep else [s[0]]) + ReplaceAll(s[1..], c, rep)
  }

  const AmpEntity := "&amp;"
  const LtEntity := "&lt;"
  const GtEntity := "&gt;"
  const QuotEntity := "&quot;"

  /** The chain of `esc` as written: four global replacements, ampersand first. */
  function EscapePasses(s: string): string {
    ReplaceAll(ReplaceAll(ReplaceAll(ReplaceAll(s, '&', AmpEntity), '<', LtEntity), '>', GtEntity), '"', QuotEntity)
  }

  /**
   * `esc`.  Because `&` is replaced first, the chain equals escaping each
   * character on its own, and no `<`, `>` or `"` is left in the result.
   */
  function Esc(s: string): (r: string)
    ensures r == EscapeEach(s)
    ensures '<' !in r && '>' !in r && '"' !in r
  {
    PassesArePerCharacter(s);
    EscapeEachRemovesMarkup(s);
    EscapePasses(s)
  }

  /** The entity (or the character itself) that one input character turns into. */
  function EscapeChar(c: char): string {
    match c
    case '&' => AmpEntity
    case '<' => LtEntity
    case '>' => GtEntity
    case '"' => QuotEntity
    case _ => [c]
  }

  /** Reference definition of escaping: each character replaced independently. */
  function EscapeEach(s: string): string {
    if s == [] then [] else EscapeChar(s[0]) + EscapeEach(s[1..])
  }

  predicate HasSpecial(s: string) {
    '&' in s || '<' in s || '>' in s || '"' in s
  }

  lemma {:induction false} ReplaceAllAppend(a: string, b: string, c: char, rep: string)
    ensures ReplaceAll(a + b, c, rep) == ReplaceAll(a, c, rep) + ReplaceAll(b, c, rep)
  {
    if a == [] {
      assert a + b == b;
    } else {
      assert (a + b)[0] == a[0];
      assert (a + b)[1..] == a[1..] + b;
      ReplaceAllAppend(a[1..], b, c, rep);
    }
  }

  lemma {:induction false} ReplaceAllAbsent(s: string, c: char, rep: string)
    requires c !in s
    ensures ReplaceAll(s, c, rep) == s
  {
    if s != [] {
      assert s == [s[0]] + s[1..];
      ReplaceAllAbsent(s[1..], c, rep);
    }
  }

  lemma ReplaceAllSingle(c: char, d: char, rep: string)
    ensures ReplaceAll([c], d, rep) == if c == d then rep else [c]
  {
    assert ReplaceAll([c], d, rep) == (if c == d then rep else [c]) + ReplaceAll([], d, rep);
  }

  /** Escaping one character through the four passes gives its entity. */
  lemma EscOneChar(c: char)
    ensures EscapePasses([c]) == EscapeChar(c)
  {
    ReplaceAllSingle(c, '&', AmpEntity);
    if c == '&' {
      EscAmpersand();
    } else {
      ReplaceAllSingle(c, '<', LtEntity);
      if c == '<' {
        assert '>' !in LtEntity && '"' !in LtEntity;
        ReplaceAllAbsent(LtEntity, '>', GtEntity);
        ReplaceAllAbsent(LtEntity, '"', QuotEntity);
      } else {
        ReplaceAllSingle(c, '>', GtEntity);
        if c == '>' {
          assert '"' !in GtEntity;
          ReplaceAllAbsent(GtEntity, '"', QuotEntity);
        } else {
          ReplaceAllSingle(c, '"', QuotEntity);
        }
      }
    }
  }

  /** The entity made by the first pass survives the three later passes. */
  lemma EscAmpersand()
    ensures ReplaceAll(ReplaceAll(ReplaceAll(AmpEntity, '<', LtEntity), '>', GtEntity), '"', QuotEntity) == AmpEntity
  {
    var a := AmpEntity;
    assert '<' !in a && '>' !in a && '"' !in a;
    ReplaceAllAbsent(a, '<', LtEntity);
    ReplaceAllAbsent(a, '>', GtEntity);
    ReplaceAllAbsent(a, '"', QuotEntity);
  }

  lemma EscAppend(a: string, b: string)
    ensures EscapePasses(a + b) == EscapePasses(a) + EscapePasses(b)
  {
    var a1, b1 := ReplaceAll(a, '&', AmpEntity), ReplaceAll(b, '&', AmpEntity);
    ReplaceAllAppend(a, b, '&', AmpEntity);
    var a2, b2 := ReplaceAll(a1, '<', LtEntity), ReplaceAll(b1, '<', LtEntity);
    ReplaceAllAppend(a1, b1, '<', LtEntity);
    var a3, b3 := ReplaceAll(a2, '>', GtEntity), ReplaceAll(b2, '>', GtEntity);
    ReplaceAllAppend(a2, b2, '>', GtEntity);
    ReplaceAllAppend(a3, b3, '"', QuotEntity);
  }

  /** No entity produced by one pass is touched by a later one. */
  lemma {:induction false} PassesArePerCharacter(s: string)
    ensures EscapePasses(s) == EscapeEach(s)
  {
    if s != [] {
      assert s == [s[0]] + s[1..];
      EscAppend([s[0]], s[1..]);
      EscOneChar(s[0]);
      PassesArePerCharacter(s[1..]);
    }
  }

  lemma {:induction false} EscapeEachRemovesMarkup(s: string)
    ensures '<' !in EscapeEach(s) && '>' !in EscapeEach(s) && '"' !in EscapeEach(s)
  {
    if s != [] {
      EscapeEachRemovesMarkup(s[1..]);
    }
  }

  /** Text with none of the four special characters is left unchanged. */
  lemma {:induction false} EscIdentityOnPlainText(s: string)
    requires !HasSpecial(s)
    ensures Esc(s) == s
  {
    ReplaceAllAbsent(s, '&', AmpEntity);
    ReplaceAllAbsent(s, '<', LtEntity);
    ReplaceAllAbsent(s, '>', GtEntity);
    ReplaceAllAbsent(s, '"', QuotEntity);
  }

  /** Decodes the four entities `esc` produces; every other character is kept. */
  function Unescape(s: string): string
    decreases |s|
  {
    if s == [] then []
    else if AmpEntity <= s then "&" + Unescape(s[|AmpEntity|..])
    else if LtEntity <= s then "<" + Unescape(s[|LtEntity|..])
    else if GtEntity <= s then ">" + Unescape(s[|GtEntity|..])
    else if QuotEntity <= s then "\"" + Unescape(s[|QuotEntity|..])
    else [s[0]] + Unescape(s[1..])
  }

  /** No entity is escaped twice: decoding the output recovers the input. */
  lemma {:induction false} EscRoundTrip(s: string)
    ensures Unescape(Esc(s)) == s
  {
    EscapeEachRoundTrip(s);
  }

  lemma {:induction false} EscapeEachRoundTrip(s: string)
    ensures Unescape(EscapeEach(s)) == s
  {
    if s != [] {
      UnescapeEscapedChar(s[0], EscapeEach(s[1..]));
      EscapeEachRoundTrip(s[1..]);
      assert s == [s[0]] + s[1..];
    }
  }

  /** Decoding undoes one escaped character in front of any text. */
  lemma UnescapeEscapedChar(c: char, rest: string)
    ensures Unescape(EscapeChar(c) + rest) == [c] + Unescape(rest)
  {
    var t := EscapeChar(c) + rest;
    if c == '&' {
      assert AmpEntity <= t && t[5..] == rest;
    } else if c == '<' {
      assert t[1] == 'l' && LtEntity <= t && t[4..] == rest;
    } else if c == '>' {
      assert t[1] == 'g' && GtEntity <= t && t[4..] == rest;
    } else if c == '"' {
      assert t[1] == 'q' && QuotEntity <= t && t[6..] == rest;
    } else {
      assert t[0] == c && t[1..] == rest;
    }
  }

  // ---------------------------------------------------------------------
  // The request handler
  // ---------------------------------------------------------------------

  /** The three form fields; a field absent from the JSON object is `None`. */
  datatype Fields = Fields(name: Option<string>, email: Option<string>, message: Option<string>)

  const NoFields := Fields(None, None, None)

  /** `req.body` as delivered by the platform. */
  datatype Body = NoBody | JsonObject(fields: Fields) | RawText(text: string)

  datatype Request = Request(httpMethod: string, body: Body)

  /** The process environment the handler reads. */
  datatype Env = Env(
    resendApiKey: Option<string>,
    feedbackTo: Option<string>,
    feedbackFrom: Option<string>,
    vercelEnv: Option<string>)

  datatype Email = Email(from: string, to: seq<string>, replyTo: seq<string>, subject: string, html: string)

  /** What the provider's send call did: returned, or threw an error. */
  datatype SendOutcome = Returned | Threw(errMessage: Option<string>, errText: string)

  datatype Json = OkTrue | Error(error: string) | ErrorWithDetails(error: string, details: SendOutcome)

  datatype Response = Response(status: int, json: Json)

  const DefaultFrom := "EngliBot <onboarding@resend.dev>"

  // The error strings of the handler's JSON replies.
  const MethodNotAllowed := "Method Not Allowed"
  const MissingFields := "Missing fields"
  const ApiKeyNotSet := "RESEND_API_KEY not set"
  const RecipientNotSet := "FEEDBACK_TO_EMAIL not set"
  const SendFailed := "Failed to send email"

  /** JavaScript truthiness of an optional string: present and non-empty. */
  predicate Truthy(v: Option<string>) {
    v.Some? && v.value != ""
  }

  /** `a || b` on optional strings. */
  function OrElse(a: Option<string>, b: string): (r: string)
    ensures Truthy(a) ==> r == a.value
    ensures !Truthy(a) ==> r == b
  {
    if Truthy(a) then a.value else b
  }

  /**
   * The body normalisation: a missing body is `{}`, a text body is parsed
   * (an empty text as `"{}"`), and a parse that throws or yields a
   * non-object gives `{}`.
   */
  function FormFields(body: Body, parse: string -> Option<Fields>): (f: Fields)
    ensures body.NoBody? ==> f == NoFields
    ensures body.JsonObject? ==> f == body.fields
    ensures body.RawText? && body.text == "" ==> f == NoFields
    ensures body.RawText? && body.text != "" ==> f == parse(body.text).GetOr(NoFields)
  {
    match body
    case NoBody => NoFields
    case JsonObject(fs) => fs
    case RawText(t) => if t == "" then NoFields else parse(t).GetOr(NoFields)
  }

  predicate FieldsComplete(f: Fields) {
    Truthy(f.name) && Truthy(f.email) && Truthy(f.message)
  }

  const LineBreak := "<br/>"

  /** The message paragraph: escaped first, then each line feed becomes `<br/>`. */
  function MessageHtml(m: string): string {
    ReplaceAll(Esc(m), '\n', LineBreak)
  }

  function EscapeLine(c: char): string {
    if c == '\n' then LineBreak else EscapeChar(c)
  }

  function EscapeLines(s: string): string {
    if s == [] then [] else EscapeLine(s[0]) + EscapeLines(s[1..])
  }

  /** The message paragraph is the per-character escape with line feeds turned into `<br/>`. */
  lemma {:induction false} MessageHtmlPerCharacter(m: string)
    ensures MessageHtml(m) == EscapeLines(m)
    ensures '\n' !in MessageHtml(m)
  {
    EscapeLinesOf(m);
    assert '\n' !in LineBreak;
  }

  lemma {:induction false} EscapeLinesOf(m: string)
    ensures ReplaceAll(EscapeEach(m), '\n', LineBreak) == EscapeLines(m)
  {
    if m != [] {
      ReplaceAllAppend(EscapeChar(m[0]), EscapeEach(m[1..]), '\n', LineBreak);
      EscapeLineOfChar(m[0]);
      EscapeLinesOf(m[1..]);
    }
  }

  lemma EscapeLineOfChar(c: char)
    ensures ReplaceAll(EscapeChar(c), '\n', LineBreak) == EscapeLine(c)
  {
    if c == '\n' {
      ReplaceAllSingle(c, '\n', LineBreak);
    } else {
      var e := EscapeChar(c);
      assert '\n' !in AmpEntity && '\n' !in LtEntity && '\n' !in GtEntity && '\n' !in QuotEntity;
      assert '\n' !in e;
      ReplaceAllAbsent(e, '\n', LineBreak);
    }
  }

  // The fixed parts of the e-mail's HTML template, in order.
  const HtmlHeading := "\n        <h2>Nuevo testimonio de EngliBot A2</h2>\n        <p><strong>Nombre:</strong> "
  const HtmlEmailLabel := "</p>\n        <p><strong>Email:</strong> "
  const HtmlMessageLabel := "</p>\n        <p><strong>Mensaje:</strong></p>\n        <p>"
  const HtmlClosing := "</p>\n      "

  /**
   * The e-mail body: the fixed template around the name and the address
   * escaped character by character and the message escaped with its line
   * feeds turned into `<br/>`.
   */
  function FeedbackHtml(name: string, email: string, message: string): (h: string)
    ensures h == HtmlHeading + EscapeEach(name) + HtmlEmailLabel + EscapeEach(email)
                 + HtmlMessageLabel + EscapeLines(message) + HtmlClosing
  {
    MessageHtmlPerCharacter(message);
    HtmlHeading + Esc(name) + HtmlEmailLabel + Esc(email) + HtmlMessageLabel + MessageHtml(message) + HtmlClosing
  }

  /**
   * The message handed to the provider: sent to the configured recipient,
   * replying to the visitor, from the configured or the default sender.
   */
  function FeedbackEmail(f: Fields, env: Env): (e: Email)
    requires FieldsComplete(f) && Truthy(env.feedbackTo)
    ensures e.to == [env.feedbackTo.value] && e.replyTo == [f.email.value]
    ensures Truthy(env.feedbackFrom) ==> e.from == env.feedbackFrom.value
    ensures !Truthy(env.feedbackFrom) ==> e.from == DefaultFrom
    ensures e.subject == "Nuevo testimonio - " + f.name.value
    ensures e.html == FeedbackHtml(f.name.value, f.email.value, f.message.value)
  {
    Email(OrElse(env.feedbackFrom, DefaultFrom), [env.feedbackTo.value], [f.email.value],
          "Nuevo testimonio - " + f.name.value,
          FeedbackHtml(f.name.value, f.email.value, f.message.value))
  }

  /** The error payload of a failed send: detailed everywhere but production. */
  function SendFailure(err: SendOutcome, env: Env): (j: Json)
    requires err.Threw?
    ensures env.vercelEnv != Some("production") ==> j.ErrorWithDetails? && j.details == err
    ensures env.vercelEnv != Some("production") && Truthy(err.errMessage) ==> j.error == err.errMessage.value
    ensures env.vercelEnv != Some("production") && !Truthy(err.errMessage) ==> j.error == err.errText
    ensures env.vercelEnv == Some("production") ==> j == Error(SendFailed)
  {
    if env.vercelEnv != Some("production") then
      ErrorWithDetails(OrElse(err.errMessage, err.errText), err)
    else
      Error(SendFailed)
  }

  /**
   * The handler.  `sent` is the e-mail handed to the provider, if any.
   * Guards run in order: method, fields, API key, recipient, send outcome.
   */
  method Handler(req: Request, env: Env, parse: string -> Option<Fields>, send: Email -> SendOutcome)
    returns (res: Response, sent: Option<Email>)
    ensures req.httpMethod != "POST" ==>
      res == Response(405, Error(MethodNotAllowed)) && sent == None
    ensures req.httpMethod == "POST" && !FieldsComplete(FormFields(req.body, parse)) ==>
      res == Response(400, Error(MissingFields)) && sent == None
    ensures req.httpMethod == "POST" && FieldsComplete(FormFields(req.body, parse))
            && !Truthy(env.resendApiKey) ==>
      res == Response(500, Error(ApiKeyNotSet)) && sent == None
    ensures req.httpMethod == "POST" && FieldsComplete(FormFields(req.body, parse))
            && Truthy(env.resendApiKey) && !Truthy(env.feedbackTo) ==>
      res == Response(500, Error(RecipientNotSet)) && sent == None
    ensures req.httpMethod == "POST" && FieldsComplete(FormFields(req.body, parse))
            && Truthy(env.resendApiKey) && Truthy(env.feedbackTo) ==>
      var email := FeedbackEmail(FormFields(req.body, parse), env);
      && sent == Some(email)
      && (send(email).Returned? ==> res == Response(200, OkTrue))
      && (send(email).Threw? ==> res == Response(500, SendFailure(send(email), env)))
    ensures res.status == 200 <==> sent.Some? && send(sent.value).Returned?
  {
    sent := None;
    if req.httpMethod != "POST" {
      return Response(405, Error(MethodNotAllowed)), sent;
    }
    var body := req.body;
    var fields: Fields;
    match body {
      case NoBody =>
        fields := NoFields;
      case JsonObject(fs) =>
        fields := fs;
      case RawText(t) =>
        var parsed := if t == "" then Some(NoFields) else parse(t);
        fields := parsed.GetOr(NoFields);
    }
    assert fields == FormFields(req.body, parse);
    if !Truthy(fields.name) || !Truthy(fields.email) || !Truthy(fields.message) {
      return Response(400, Error(MissingFields)), sent;
    }
    if !Truthy(env.resendApiKey) {
      return Response(500, Error(ApiKeyNotSet)), sent;
    }
    if !Truthy(env.feedbackTo) {
      return Response(500, Error(RecipientNotSet)), sent;
    }
    var email := FeedbackEmail(fields, env);
    sent := Some(email);
    var outcome := send(email);
    if outcome.Returned? {
      return Response(200, OkTrue), sent;
    }
    return Response(500, SendFailure(outcome, env)), sent;
  }

  /** An unparseable text body is treated as `{}` and so is refused with 400. */
  lemma UnparseableBodyIsIncomplete(t: string, parse: string -> Option<Fields>)
    requires parse(t).None?
    ensures !FieldsComplete(FormFields(RawText(t), parse))
  {
  }
}
