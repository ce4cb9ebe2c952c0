/** The Asterisk server configuration that click-to-dial reads, and the
    constraints the configuration form enforces on it before it is saved. */
module Configuration {
  import opened Text

  /** One Asterisk server's settings. A character field left unset is the
      empty string; the source turns an unset prefix into '' before use. */
  datatype AsteriskServer = AsteriskServer(
    name: string,
    ipAddress: string,
    port: string,
    outPrefix: string,
    nationalPrefix: string,
    internationalPrefix: string,
    countryPrefix: string,
    nationalFormatAllowed: bool,
    login: string,
    password: string,
    context: string,
    waitTime: int,
    extensionPriority: int,
    alertInfo: string)

  /** `_only_digits`: an empty value passes exactly when it may be empty,
      any other value must consist of digits. */
  function OnlyDigits(value: string, canBeEmpty: bool): (ok: bool)
    ensures ok ==> AllDigits(value)
    ensures ok && !canBeEmpty ==> value != ""
    ensures AllDigits(value) && (canBeEmpty || value != "") ==> ok
  {
    if value == "" then canBeEmpty else IsDigitString(value)
  }

  predicate OnlyDigitsPort(c: AsteriskServer) {
    OnlyDigits(c.port, false)
  }

  predicate OnlyDigitsOutPrefix(c: AsteriskServer) {
    OnlyDigits(c.outPrefix, true)
  }

  predicate OnlyDigitsCountryPrefix(c: AsteriskServer) {
    OnlyDigits(c.countryPrefix, false)
  }

  predicate OnlyDigitsNationalPrefix(c: AsteriskServer) {
    OnlyDigits(c.nationalPrefix, true)
  }

  predicate OnlyDigitsInternationalPrefix(c: AsteriskServer) {
    OnlyDigits(c.internationalPrefix, false)
  }

  /** `_check_wait_time`: from 1 to 120 seconds. */
  predicate CheckWaitTime(c: AsteriskServer) {
    !(c.waitTime < 1 || c.waitTime > 120)
  }

  /** `_check_extension_priority`: a positive priority. */
  predicate CheckExtensionPriority(c: AsteriskServer) {
    !(c.extensionPriority < 1)
  }

  /** `_check_port`: `int(port)` within the TCP port range. `int` would raise
      on anything but digits; the digits-only constraint on the port is
      registered first, so this check only ever sees digits. */
  predicate CheckPort(port: string)
    requires OnlyDigits(port, false)
  {
    !(DecimalValue(port) > 65535 || DecimalValue(port) < 1)
  }

  /** Every constraint registered for the configuration holds. */
  predicate Valid(c: AsteriskServer) {
    && OnlyDigitsPort(c)
    && OnlyDigitsOutPrefix(c)
    && OnlyDigitsCountryPrefix(c)
    && OnlyDigitsNationalPrefix(c)
    && OnlyDigitsInternationalPrefix(c)
    && CheckWaitTime(c)
    && CheckExtensionPriority(c)
    && CheckPort(c.port)
  }

  /** A port written the way `str` writes a number is accepted exactly when
      the number is a TCP port. */
  lemma PortAccepted(n: nat)
    ensures OnlyDigits(NatToDecimal(n), false)
    ensures CheckPort(NatToDecimal(n)) <==> 1 <= n <= 65535
  {
    DecimalRoundTrip(n);
  }

  /** What the constraints together demand, in plain terms: the country and
      international prefixes are non-empty digit strings, the out and
      national prefixes are digits or empty, the port is a number from 1 to
      65535, the wait time 1 to 120 seconds, the priority at least 1. The
      number normaliser and the originate message rely on these. */
  lemma ValidFacts(c: AsteriskServer)
    ensures Valid(c) <==>
      && IsDigitString(c.countryPrefix) && IsDigitString(c.internationalPrefix)
      && AllDigits(c.outPrefix) && AllDigits(c.nationalPrefix)
      && IsDigitString(c.port) && 1 <= DecimalValue(c.port) <= 65535
      && 1 <= c.waitTime <= 120 && c.extensionPriority >= 1
  {
  }
}
