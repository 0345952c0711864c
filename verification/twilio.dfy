/**
 * The Twilio gateway plugin: its configuration, outbound sending with the
 * carrier's error-code table, and the inbound webhook that turns a POST into
 * an incoming message.
 */
module TwilioGateway {
  import opened Sms
  import opened PhpStrings
  import TwilioMedia

  /** The configuration keys the gateway reads. */
  const ConfigKeys: set<string> := {"account_sid", "auth_token", "from"}

  /** What the SDK's messages->create call returned: the created resource, or a RestException. */
  datatype CreateOutcome = Created(uri: string) | RestException(code: int, message: string)

  /** The arguments the gateway hands to the SDK: client credentials, recipient and options. */
  datatype CreateRequest = CreateRequest(accountSid: string, authToken: string, to: string, from: string, body: string)

  /** Recipient-side failures: invalid, unroutable, blacklisted, incapable of receiving SMS. */
  const InvalidRecipientCodes: set<int> := {21211, 21612, 21610, 21614}

  /** The account lacks the international permission. */
  const NoInternationalPermission: int := 21408

  /** The configuration after the form is submitted: both credentials trimmed, the sender number as entered. */
  function Submitted(configuration: map<string, string>, form: map<string, string>): (c: map<string, string>)
    requires ConfigKeys <= form.Keys
    ensures c.Keys == configuration.Keys + ConfigKeys
    ensures c["account_sid"] == Trim(form["account_sid"])
    ensures c["auth_token"] == Trim(form["auth_token"])
    ensures c["from"] == form["from"]
    ensures forall k :: k in configuration && k !in ConfigKeys ==> c[k] == configuration[k]
  {
    configuration["account_sid" := Trim(form["account_sid"])]["auth_token" := Trim(form["auth_token"])]["from" := form["from"]]
  }

  /**
   * The form shows the stored values as its defaults; submitting it unchanged
   * after a first submission leaves the configuration as it is.
   */
  lemma ResubmitUnchanged(configuration: map<string, string>, form: map<string, string>)
    requires ConfigKeys <= form.Keys
    ensures Submitted(Submitted(configuration, form), Submitted(configuration, form)) == Submitted(configuration, form)
  {
    var c := Submitted(configuration, form);
    TrimIdempotent(form["account_sid"]);
    TrimIdempotent(form["auth_token"]);
    UpdateSame(c, "account_sid");
    UpdateSame(c, "auth_token");
    UpdateSame(c, "from");
  }

  /** Writing back the value a key already holds leaves a map unchanged. */
  lemma UpdateSame(c: map<string, string>, k: string)
    requires k in c
    ensures c[k := c[k]] == c
  {
  }

  /**
   * The HTTP response for an inbound message's result: the default response
   * unless the result carries an error PHP treats as true (any error except
   * code 0), in which case its error message becomes the body and its error
   * the status.
   */
  function ResponseFor(result: MessageResult): (r: Response)
    ensures r == DefaultResponse <==> result.error == None || result.error == Some(ErrorCode(0))
    ensures r != DefaultResponse ==> r == ErrorResponse(result.errorMessage, result.error.value)
  {
    match result.error
    case None => DefaultResponse
    case Some(e) => if e == ErrorCode(0) then DefaultResponse else ErrorResponse(result.errorMessage, e)
  }

  class Twilio {
    var configuration: map<string, string>

    ghost predicate Valid()
      reads this
    {
      ConfigKeys <= configuration.Keys
    }

    /** Twilio::defaultConfiguration: the three keys, each empty. */
    static function DefaultConfiguration(): (c: map<string, string>)
      ensures c.Keys == ConfigKeys
      ensures forall k :: k in c ==> c[k] == ""
    {
      map["account_sid" := "", "auth_token" := "", "from" := ""]
    }

    /** The plugin starts from the defaults, overridden by the stored configuration. */
    constructor (stored: map<string, string>)
      ensures Valid()
      ensures configuration == DefaultConfiguration() + stored
    {
      configuration := DefaultConfiguration() + stored;
    }

    /** Twilio::submitConfigurationForm. */
    method SubmitConfigurationForm(form: map<string, string>)
      requires ConfigKeys <= form.Keys
      modifies this
      ensures Valid()
      ensures configuration == Submitted(old(configuration), form)
    {
      configuration := configuration["account_sid" := Trim(form["account_sid"])];
      configuration := configuration["auth_token" := Trim(form["auth_token"])];
      configuration := configuration["from" := form["from"]];
    }

    /**
     * Twilio::send. The SDK call is the outcome parameter; request is what the
     * gateway passes to it. Exactly one report comes back, addressed to the
     * first recipient, with its status chosen by the carrier's error code.
     */
    method Send(sms: SmsMessage, outcome: CreateOutcome) returns (result: MessageResult, request: CreateRequest)
      requires Valid()
      requires |sms.recipients| > 0
      ensures request == CreateRequest(configuration["account_sid"], configuration["auth_token"],
                                       sms.recipients[0], configuration["from"], sms.message)
      ensures result.errorMessage == ""
      ensures |result.reports| == 1
      ensures result.reports[0].recipient == Some(sms.recipients[0])
      ensures result.reports[0].status.Some?
      ensures outcome.Created? ==>
        && result.reports[0].status == Some(Queued)
        && result.reports[0].messageId == Some(outcome.uri)
        && result.reports[0].statusMessage == None
        && result.error == None
      ensures outcome.RestException? ==>
        && result.reports[0].messageId == None
        && result.reports[0].statusMessage == Some(outcome.message)
      ensures outcome.RestException? && outcome.code in {21211, 21612, 21610, 21614} ==>
        result.reports[0].status == Some(InvalidRecipient) && result.error == None
      ensures outcome.RestException? && outcome.code == 21408 ==>
        result.reports[0].status == Some(Error) && result.error == Some(AccountError)
      ensures outcome.RestException? && outcome.code !in {21211, 21612, 21610, 21614, 21408} ==>
        result.reports[0].status == Some(Error) && result.error == None
    {
      var recipient := sms.recipients[0];
      result := EmptyResult;
      var accountSid := configuration["account_sid"];
      var authToken := configuration["auth_token"];
      request := CreateRequest(accountSid, authToken, recipient, configuration["from"], sms.message);

      var report := EmptyReport.(recipient := Some(recipient));
      match outcome {
        case Created(uri) =>
          report := report.(status := Some(Queued));
          report := report.(messageId := Some(uri));
        case RestException(code, message) =>
          if code in InvalidRecipientCodes {
            report := report.(status := Some(InvalidRecipient));
            report := report.(statusMessage := Some(message));
          } else if code == NoInternationalPermission {
            result := result.(error := Some(AccountError));
            report := report.(status := Some(Error));
            report := report.(statusMessage := Some(message));
          } else {
            report := report.(status := Some(Error));
            report := report.(statusMessage := Some(message));
          }
      }

      if report.status.Some? {
        result := result.(reports := result.reports + [report]);
      }
    }

    /**
     * Twilio::buildIncomingFromRequest. The signature check's verdict is the
     * parameter accepted. Attachments are extracted before the verdict is
     * looked at. On the accepted path the message carries the trimmed body,
     * the sender, the single recipient, the raw payload, the attachments when
     * there are any, and a DELIVERED report addressed to To. On the rejected
     * path the source reads an exception variable that was never assigned, so
     * the call aborts and no message is returned.
     */
    method BuildIncomingFromRequest(request: Request, accepted: bool) returns (sms: Option<SmsMessage>)
      requires "To" in request.params && "Body" in request.params && "From" in request.params
      requires TwilioMedia.WellFormedMedia(request.params)
      ensures !accepted ==> sms == None
      ensures accepted ==> sms.Some?
      ensures accepted ==> sms.Some? && sms.value.message == Trim(request.params["Body"])
      ensures accepted ==> sms.Some? && sms.value.direction == Some(Incoming)
      ensures accepted ==> sms.Some? && sms.value.sender == Some(request.params["From"])
      ensures accepted ==> sms.Some? && sms.value.recipients == [request.params["To"]]
      ensures accepted ==> sms.Some? && sms.value.gateway == None
      ensures accepted ==> sms.Some? && sms.value.options.Keys <= {"data", "media"}
      ensures accepted ==> sms.Some? && "data" in sms.value.options && sms.value.options["data"] == Data(request.params)
      ensures accepted ==> sms.Some? && ("media" in sms.value.options <==> TwilioMedia.ExtractMedia(request.params) != [])
      ensures accepted ==> sms.Some? && ("media" in sms.value.options ==>
                                         sms.value.options["media"] == Media(TwilioMedia.ExtractMedia(request.params)))
      ensures accepted ==> sms.Some? &&
                           sms.value.result == Some(MessageResult(None, "", [Report(Some(request.params["To"]), Some(Delivered), None, None)]))
    {
      var result := EmptyResult;
      var params := request.params;
      var report := EmptyReport.(recipient := Some(params["To"])).(status := Some(Delivered));
      var message := NewMessage.(message := Trim(params["Body"]));
      message := message.(direction := Some(Incoming));
      message := message.(options := message.options["data" := Data(params)]);
      message := message.(sender := Some(params["From"]));
      message := message.(recipients := message.recipients + [params["To"]]);
      assert message.recipients == [params["To"]];
      assert message.options == map["data" := Data(params)];
      var files := TwilioMedia.ProcessMedia(params);
      if files != [] {
        message := message.(options := message.options["media" := Media(files)]);
      }
      assert message.options == if files != [] then map["data" := Data(params), "media" := Media(files)]
                                else map["data" := Data(params)];
      if !accepted {
        return None;
      }
      result := result.(reports := result.reports + [report]);
      assert result.reports == [report];
      message := message.(result := Some(result));
      assert message == SmsMessage(Trim(params["Body"]), Some(Incoming), Some(params["From"]), [params["To"]],
                                   message.options, Some(MessageResult(None, "", [report])), None);
      return Some(message);
    }

    /**
     * Twilio::processIncoming. Builds the message, attaches the gateway, and
     * answers with the response its result calls for. An accepted message
     * carries no result error, so the answer is the default response.
     */
    method ProcessIncoming(request: Request, accepted: bool, gateway: string) returns (task: Option<ProcessingResponse>)
      requires "To" in request.params && "Body" in request.params && "From" in request.params
      requires TwilioMedia.WellFormedMedia(request.params)
      ensures !accepted ==> task == None
      ensures accepted ==>
        && task.Some?
        && |task.value.messages| == 1
        && task.value.messages[0].gateway == Some(gateway)
        && task.value.messages[0].direction == Some(Incoming)
        && task.value.messages[0].sender == Some(request.params["From"])
        && task.value.messages[0].recipients == [request.params["To"]]
        && task.value.messages[0].message == Trim(request.params["Body"])
        && task.value.messages[0].options.Keys <= {"data", "media"}
        && "data" in task.value.messages[0].options
        && task.value.messages[0].options["data"] == Data(request.params)
        && ("media" in task.value.messages[0].options <==> TwilioMedia.ExtractMedia(request.params) != [])
        && ("media" in task.value.messages[0].options ==>
              task.value.messages[0].options["media"] == Media(TwilioMedia.ExtractMedia(request.params)))
        && task.value.messages[0].result ==
             Some(MessageResult(None, "", [Report(Some(request.params["To"]), Some(Delivered), None, None)]))
        && task.value.response == DefaultResponse
    {
      var built := BuildIncomingFromRequest(request, accepted);
      if built == None {
        return None;
      }
      var sms := built.value.(gateway := Some(gateway));
      var response := ResponseFor(sms.result.value);
      return Some(ProcessingResponse([sms], response));
    }
  }
}
