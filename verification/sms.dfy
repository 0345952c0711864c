/**
 * Value types of the host SMS framework that the Twilio gateway reads and
 * builds: messages, delivery reports, message results, the inbound request
 * and the HTTP response. The framework keeps these in mutable objects that the
 * gateway fills in through setters; each object the gateway touches is local
 * to one call, so the model keeps them as values updated field by field.
 */
module Sms {

  datatype Option<+T> = None | Some(value: T)

  /** A POST payload: field name to field value, as the carrier sends it. */
  type Params = map<string, string>

  datatype Direction = Incoming | Outgoing

  /** Delivery report statuses used by the gateway. */
  datatype ReportStatus = Queued | Delivered | Error | InvalidRecipient | Rejected

  /**
   * A result-level error: the framework's ACCOUNT_ERROR status, or a numeric
   * code taken from an exception.
   */
  datatype ResultError = AccountError | ErrorCode(code: int)

  /** A delivery report; every field starts unset. */
  datatype Report = Report(
    recipient: Option<string>,
    status: Option<ReportStatus>,
    statusMessage: Option<string>,
    messageId: Option<string>)

  const EmptyReport := Report(None, None, None, None)

  /** The outcome of one message: an optional error and the delivery reports. */
  datatype MessageResult = MessageResult(error: Option<ResultError>, errorMessage: string, reports: seq<Report>)

  const EmptyResult := MessageResult(None, "", [])

  /** One attachment of an inbound MMS. */
  datatype MediaFile = MediaFile(url: string, contentType: string)

  /** Values stored under a message's options: the raw payload ("data") or the attachments ("media"). */
  datatype OptionValue = Data(params: Params) | Media(files: seq<MediaFile>)

  datatype SmsMessage = SmsMessage(
    message: string,
    direction: Option<Direction>,
    sender: Option<string>,
    recipients: seq<string>,
    options: map<string, OptionValue>,
    result: Option<MessageResult>,
    gateway: Option<string>)

  const NewMessage := SmsMessage("", None, None, [], map[], None, None)

  /**
   * The parts of an inbound HTTP request the gateway reads: the POST fields,
   * the X-Twilio-Signature header (absent or present), the scheme and host,
   * and the request URI with its query string.
   */
  datatype Request = Request(
    params: Params,
    signature: Option<string>,
    schemeAndHttpHost: string,
    requestUri: string)

  /** An HTTP response: the default one (empty body, status 200) or one built from a result error. */
  datatype Response = DefaultResponse | ErrorResponse(content: string, status: ResultError)

  datatype ProcessingResponse = ProcessingResponse(messages: seq<SmsMessage>, response: Response)
}
