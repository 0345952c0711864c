/**
 * SmsUtility: webhook authentication and the older copy of attachment
 * extraction. The signature check itself (HMAC-SHA1 inside the Twilio SDK's
 * RequestValidator) is a parameter: a total predicate over the auth token,
 * the signature header, the callback URL and the POST fields.
 */
module SmsUtility {
  import opened Sms
  import TwilioMedia

  /** The SDK's RequestValidator: validate(signature, url, params) for a validator built with a token. */
  type Validator = (string, Option<string>, string, Params) -> bool

  datatype Outcome = Pass | AccessDenied

  /**
   * The URL the carrier signed: the scheme and host, then the request URI
   * (path and query string) directly after it, with nothing inserted between.
   */
  function CallbackUrl(request: Request): (url: string)
    ensures |url| == |request.schemeAndHttpHost| + |request.requestUri|
    ensures url[..|request.schemeAndHttpHost|] == request.schemeAndHttpHost
    ensures url[|request.schemeAndHttpHost|..] == request.requestUri
  {
    request.schemeAndHttpHost + request.requestUri
  }

  /**
   * SmsUtility::validate. Passes the validator the gateway's auth token, the
   * signature header, the callback URL and the POST fields; denies access
   * (AccessDeniedHttpException) exactly when the validator rejects them.
   */
  function Validate(configuration: map<string, string>, request: Request, validator: Validator): (r: Outcome)
    requires "auth_token" in configuration
    ensures r == Pass <==> validator(configuration["auth_token"], request.signature, CallbackUrl(request), request.params)
  {
    var token := configuration["auth_token"];
    if !validator(token, request.signature, CallbackUrl(request), request.params) then AccessDenied else Pass
  }

  /**
   * SmsUtility::processMedia, the same loop as TwilioMedia::processMedia: i
   * counts up from 0 while below NumMedia and each step appends one entry.
   */
  method ProcessMedia(params: Params) returns (files: seq<MediaFile>)
    requires TwilioMedia.WellFormedMedia(params)
    ensures files == TwilioMedia.ExtractMedia(params)
  {
    var i := 0;
    files := [];
    while i < TwilioMedia.MediaCount(params)
      invariant 0 <= i && (i <= TwilioMedia.MediaCount(params) || i == 0)
      invariant |files| == i
      invariant files == TwilioMedia.MediaPrefix(params, i)
    {
      files := files + [MediaFile(params[TwilioMedia.MediaUrlKey(i)], params[TwilioMedia.MediaContentTypeKey(i)])];
      i := i + 1;
    }
  }

  /** The two copies of processMedia give the same list for every payload. */
  method ProcessMediaCopiesAgree(params: Params) returns (fromUtility: seq<MediaFile>, fromMedia: seq<MediaFile>)
    requires TwilioMedia.WellFormedMedia(params)
    ensures fromUtility == fromMedia
  {
    fromUtility := ProcessMedia(params);
    fromMedia := TwilioMedia.ProcessMedia(params);
  }
}
