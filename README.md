# Asterisk click-to-dial, modelled in Dafny

This project models the logic of the Tryton Asterisk module (`asterisk.py`) that a
click-to-dial request runs through before any network traffic:

- **Number normaliser** (`reformat_number`). A phone number as a user typed it is
  rewritten into the string the Asterisk server dials. The eight formatting
  characters are removed. A number in international notation (`+…`) has every `+`
  dropped. The own country prefix is then swapped for the national prefix, or the
  international prefix is prepended. A number in national notation is kept when
  national notation is allowed and refused otherwise. The out prefix is prepended
  to every result. `Normalizer.ReformatNumber` follows the source step by step,
  with its loop of `replace` calls. It is proved equal, on every input, to the
  one-pass definition `Normalizer.Normalized`, and the lemmas are stated about
  that definition.
- **Configuration constraints** (`_only_digits*`, `_check_wait_time`,
  `_check_extension_priority`, `_check_port`). These are predicates over the
  `AsteriskServer` settings. `Configuration.Valid` is their conjunction.
- **`dial` up to the socket**. It covers:
  - the four pre-checks, in order;
  - the choice of caller ID;
  - the number rewritten for the user's server;
  - the payloads handed to `send`.

  `Dialer.Dial` returns either the first error or those payloads. The payloads are
  related to a structured view: three Asterisk Manager Interface (AMI) actions
  (login, originate, logoff), each a run of `Key: Value` lines closed by an empty
  line.

Errors raised with `raise_user_error` become the `Errors.Failure` cases of a
`Result`. The source treats a `False`/`None` number or prefix like the empty
string, and this model uses `""` for both.

The code is followed where it differs from a plain reading of its messages:

- An empty number given to `reformat_number` raises the description
  `invalid_format` (asterisk.py:265-267). The model uses `InvalidFormat`, not a
  separate "empty number" error.
- When the `+` branch refuses a number that is not all digits, it passes the key
  `invalid_format_msg` (asterisk.py:289-290). That key has no entry in the error
  table, and the model reports it as `InvalidFormat`.
- A number made only of formatting characters leaves `tmp_number` empty, and
  `tmp_number[0]` (asterisk.py:281) raises IndexError. The model reports this as a
  distinct `EmptyAfterCleaning` failure.
- `_check_port` calls `int(port)`. The digits-only constraint on the port is
  registered before it (asterisk.py:176, 183), so `Configuration.CheckPort`
  requires digits.

## Model

| member | source | states |
|---|---|---|
| Normalizer.ReformatNumber | asterisk.py:252-322 | Following the source's steps yields exactly `Normalized` for every input. This covers the empty-input error, the eight `replace` calls, the `+`, national-allowed and national-refused branches, the clamped slice compared with the country prefix, and the out prefix. |
| Text.StripTwice | asterisk.py:270-271 | Two successive removals of character sets equal one removal of their union, so the `replace` loop removes all eight formatting characters. |
| Normalizer.FormattingIgnored | asterisk.py:269-271 | A formatting character inserted anywhere into a non-empty number does not change its rewrite or its error. |
| Normalizer.InnerPlusIgnored | asterisk.py:281-290 | In international notation every `+` is dropped, not only the leading one. |
| Normalizer.StrayCharacterRefused | asterisk.py:281-317 | Any character that is not a digit, `+` or a formatting character, anywhere in the number, makes the rewrite fail. The error is `InvalidFormat` in international notation, `InvalidNationalFormat` when national notation is allowed, and `InvalidInternationalFormat` otherwise. |
| Normalizer.ExampleEdgeCases | asterisk.py:264-290 | Under every configuration, `""` and `"+"` fail with `InvalidFormat`, and `" ()"` leaves nothing to index. |
| Normalizer.InternationalMatchesNational | asterisk.py:293-319 | Take a valid configuration that allows national notation. Then `+`, the country prefix and the national digits dial the same string as the national prefix and those digits: out prefix, national prefix, digits. |
| Normalizer.OwnCountryRewritten | asterisk.py:293-297 | Under any configuration, a `+` number whose digits start with the country prefix dials the out prefix, the national prefix and the digits after the country prefix. |
| Normalizer.NationalKept | asterisk.py:307-312 | When national notation is allowed, a number of digits dials the out prefix followed by the number unchanged. |
| Normalizer.EmptyCountryPrefixMatchesAll | asterisk.py:275-297 | An unset country prefix matches every number, so every `+` number is rewritten with the national prefix. |
| Normalizer.ForeignKeepsCountryDigits | asterisk.py:300-303 | A `+` number that does not start with the country prefix keeps all its digits behind the out and international prefixes. |
| Normalizer.NationalNotationRefused | asterisk.py:314-317 | When national notation is not allowed, a number whose first character after formatting is not `+` is refused with `InvalidInternationalFormat`. |
| Normalizer.DialStringDigits | asterisk.py:264-319 | Under a valid configuration, every successful rewrite is digits only, with no `+` and no formatting character. |
| Normalizer.ExampleFrenchNumber | asterisk.py:31-50 | The help texts' French settings, with the default out prefix `0` of asterisk.py:226-227: `+33141981242` and `0141981242` both dial `00141981242`. |
| Normalizer.ExampleForeignNumber | asterisk.py:41-50 | Under the French settings, a foreign `+1…` number gets the international prefix `00` after the default out prefix `0` of asterisk.py:226-227. |
| Normalizer.ExampleNationalRefused | asterisk.py:52-56 | With national notation disallowed, `01 41 98 12 42` is refused. |
| Configuration.OnlyDigits | asterisk.py:125-135 | An accepted value is all digits; it is non-empty unless empty is allowed; and every digit string, or the empty value when allowed, is accepted. |
| Configuration.PortAccepted | asterisk.py:166-170 | A port written as a decimal number passes the digits check, and it passes the range check exactly when it is 1 to 65535. |
| Configuration.ValidFacts | asterisk.py:125-184 | The registered constraints hold exactly when all of these hold: the country and international prefixes are non-empty digit strings; the out and national prefixes are digits or empty; the port is 1-65535; the wait is 1-120 s; the priority is at least 1. |
| Dialer.CallerIdAsWrittenRaises | asterisk.py:359-366 | As written, a user who has a caller ID of their own makes the caller-ID lookup raise. |
| Dialer.CallerIdPrecedence | asterisk.py:359-366 | The corrected choice agrees with the source wherever the source does not raise. The source does not raise exactly when the user has no caller ID. The user's caller ID wins over the party's display name, which is the fallback. |
| Dialer.Dial | asterisk.py:337-369 | A successful dial has a server configured, and its number rewrote successfully. |
| Dialer.DialFirstFailureWins | asterisk.py:337-369 | The first failed check (number, server, channel type, internal number, in that order) is the error raised. When all checks pass, `dial` fails exactly when the rewrite fails, with the rewrite's error. |
| Dialer.DialSendsActions | asterisk.py:359-405 | A successful dial sends login, originate and logoff, with the corrected caller ID and the rewritten number as extension. The extension is digits only under a valid configuration. |
| Dialer.SendsFrameActions | asterisk.py:389-405 | The `send` payloads, joined, equal the rendering of three header lists: login, originate, logoff, in order. Each list is rendered as CRLF-terminated `Key: Value` lines and then an empty line. This is the framing on the wire only when no header value contains CR or LF; see "Left out". |
| Dialer.ActionEndsWithBlankLine | asterisk.py:389-405 | Every action's text ends in CRLF CRLF. |
| Dialer.OriginateHeaders | asterisk.py:393-404 | The originate headers are: `Action`, `Channel` as `chan_type/internal_number`, `Timeout`, `CallerId`, `Exten` as the rewritten number, `Context`, then `Priority` last. Under the wait-time and priority checks, `Timeout` is the wait time times 1000 written in decimal (1000 to 120000), and `Priority` is a decimal number of at least 1. |
| Dialer.AlertInfoHeaderIff | asterisk.py:400-402 | The `Variable` header is present exactly when an Alert-Info value is set and the channel type is `SIP`. It carries `SIPAddHeader=Alert-Info: ` and that value; see section 20.4 of RFC 3261. |

## Left out

- Socket I/O and DNS resolution (asterisk.py:376-413) are network plumbing. The model stops at the list of payloads.
- The loop over resolved addresses (asterisk.py:384-411) can send the payloads once per address, and it fails on the first address it cannot reach. The model describes one session.
- The `cant_resolve_dns` error and the network causes of `connection_failed` are left out because they come from the network.
- Sends: the payloads are modelled for ASCII field values only. The source is Python 2. There, `str()` of a non-ASCII login, password, context, channel type, internal number or Alert-Info value (asterisk.py:391-402) raises UnicodeEncodeError inside the `try`. The bare `except` (asterisk.py:407-411) then raises `connection_failed`, after some payloads have already been sent. The model returns the full payload list instead.
- SendsFrameActions: header values are not checked for CR or LF, in the model or in the source. A value containing `"\r\n"`, such as a party display name used as caller ID, adds lines or whole actions to the text on the wire. The framing lemma is about the header lists, not about how a server would parse that text.
- `unaccent` (asterisk.py:245-250) depends on Unicode NFKD normalisation in a foreign library. The caller ID is passed through as given.
- `get_fields`/`set_fields` (asterisk.py:90-123) are ORM access through the pool and transaction. The configuration is a plain value.
- `__setup__`, the error-message table and the `default_*` values (asterisk.py:172-243) are registration and defaults. The constraint order is used only in `CheckPort`'s precondition.
- The company configuration model (asterisk.py:416-443) holds only field declarations.
- `__init__.py` only registers models.
- Logging calls are left out.
- Finding the current user through the transaction context (asterisk.py:331-336) is left out. `Dial` takes the user as a parameter.
- Python's `str.isdigit` accepts all Unicode digits. The model accepts ASCII `0`-`9` only.
- Python's `str()` of `None` (`"None"`) is not modelled. Unset text fields are the empty string.
- `Dialer.Dial` uses the corrected caller ID (see Findings). The model does not compose the as-written lookup with the rest of `dial`.
- The user and party models are not part of this model. Only the fields `dial` reads are modelled: server, channel type, internal number, caller ID and display name.

## Findings

| source | as written | input that shows it | evidently intended | confidence | as-written member | corrected member |
|---|---|---|---|---|---|---|
| asterisk.py:366 | When the user has a caller ID, it is read as `user.CallerId`. The user record's field is `callerid` (asterisk.py:361, 371), so the lookup raises AttributeError. | A user whose caller ID is `"Sales"` | Read `user.callerid`, so the user's own caller ID is sent | high, not executed | Dialer.CallerIdAsWritten (Dialer.CallerIdAsWrittenRaises) | Dialer.CallerId (Dialer.CallerIdPrecedence) |
