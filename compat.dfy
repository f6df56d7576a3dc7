/** How the payload check of the current back end (index.js) relates to the
    truthiness check of the earlier one (server/index.js). */
module Compat {
  import opened JsValues
  import PingLogger
  import LegacyServer

  /** Every payload the current back end accepts, the earlier one accepted too. */
  lemma ValidImpliesLegacyAccepts(body: Value)
    requires PingLogger.IsValidPayload(body)
    ensures LegacyServer.PostStatus(body) == 200
  {
    var timestamp := Field(body, "timestamp");
    if !Truthy(timestamp) {
      FalsyNumber(timestamp);
    }
  }

  /** The converse fails: a truthy device id with a timestamp string whose trimmed
      form starts with none of a digit, a sign, a decimal point or `I` (such as
      `"x"`) passed the earlier check but is refused now. */
  lemma LegacyAcceptsNonNumericTimestamp(body: Value, s: string)
    requires body.Obj? && Truthy(Field(body, "deviceId"))
    requires Field(body, "timestamp") == Str(s)
    requires Trim(s) != [] && !IsDigit(Trim(s)[0])
    requires Trim(s)[0] != '+' && Trim(s)[0] != '-' && Trim(s)[0] != '.' && Trim(s)[0] != 'I'
    ensures LegacyServer.PostStatus(body) == 200
    ensures !PingLogger.IsValidPayload(body)
  {
    NonNumericStringIsNaN(s);
    assert s != [];
  }
}
