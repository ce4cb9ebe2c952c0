/** `dial`: the checks made before a call is placed, the choice of the
    caller ID, and the text written to the Asterisk Manager Interface (AMI)
    to log in, originate the call and log off. The socket is not modelled:
    the result is the sequence of payloads handed to `send`. */
module Dialer {
  import opened Text
  import opened Errors
  import opened Configuration
  import opened Normalizer

  /** The user fields `dial` reads. An unset field is the empty string. */
  datatype User = User(
    asteriskServer: Option<AsteriskServer>,
    asteriskChanType: string,
    internalNumber: string,
    callerid: string)

  /** The party being called; only its display name is read. */
  datatype Party = Party(displayName: string)

  /** Attribute access on a user record as Python performs it: names are
      case-sensitive, and a name the record does not have raises
      AttributeError, which is None here. */
  function UserAttribute(user: User, name: string): Option<string> {
    if name == "asterisk_chan_type" then Some(user.asteriskChanType)
    else if name == "internal_number" then Some(user.internalNumber)
    else if name == "callerid" then Some(user.callerid)
    else None
  }

  /** The caller-ID choice as written: the test reads `user.callerid`, the
      value is then read as `user.CallerId`. None is the AttributeError. */
  function CallerIdAsWritten(user: User, party: Party): Option<string> {
    if UserAttribute(user, "callerid") == Some("") then Some(party.displayName)
    else UserAttribute(user, "CallerId")
  }

  /** As written, every user who has a caller ID of their own makes `dial`
      raise instead of using it. */
  lemma CallerIdAsWrittenRaises(user: User, party: Party)
    requires user.callerid != ""
    ensures CallerIdAsWritten(user, party) == None
  {
    assert "CallerId"[0] != "callerid"[0];
    assert "CallerId"[0] != "asterisk_chan_type"[0];
    assert "CallerId"[0] != "internal_number"[0];
  }

  /** The caller ID `dial` evidently means to send: the user's own when set,
      otherwise the called party's display name. */
  function CallerId(user: User, party: Party): string {
    if user.callerid == "" then party.displayName else user.callerid
  }

  /** The corrected choice agrees with the source wherever the source does
      not raise, and makes the user's own caller ID take precedence over the
      party's name. */
  lemma CallerIdPrecedence(user: User, party: Party)
    ensures CallerIdAsWritten(user, party).Some? ==> CallerIdAsWritten(user, party).value == CallerId(user, party)
    ensures CallerIdAsWritten(user, party).Some? <==> user.callerid == ""
    ensures user.callerid != "" ==> CallerId(user, party) == user.callerid
    ensures user.callerid == "" ==> CallerId(user, party) == party.displayName
  {
    if user.callerid != "" {
      CallerIdAsWrittenRaises(user, party);
    }
  }

  /** One `Key: Value` line of an AMI action. */
  datatype Header = Header(key: string, value: string)

  /** The Alert-Info header (section 20.4 of RFC 3261) is added only for a
      SIP channel and a non-empty configured value. */
  predicate AlertInfoWanted(server: AsteriskServer, chanType: string) {
    server.alertInfo != "" && chanType == "SIP"
  }

  function LoginAction(server: AsteriskServer): seq<Header> {
    [Header("Action", "login"), Header("Events", "off"),
     Header("Username", server.login), Header("Secret", server.password)]
  }

  /** The originate action: the call headers, the optional Alert-Info
      header, the priority. */
  function OriginateAction(server: AsteriskServer, chanType: string, internalNumber: string,
                           callerId: string, exten: string): seq<Header>
  {
    CallHeaders(server, chanType, internalNumber, callerId, exten)
    + AlertInfoHeaders(server, chanType)
    + [Header("Priority", IntToDecimal(server.extensionPriority))]
  }

  function CallHeaders(server: AsteriskServer, chanType: string, internalNumber: string,
                       callerId: string, exten: string): seq<Header>
  {
    [Header("Action", "originate"),
     Header("Channel", chanType + "/" + internalNumber),
     Header("Timeout", IntToDecimal(server.waitTime * 1000)),
     Header("CallerId", callerId),
     Header("Exten", exten),
     Header("Context", server.context)]
  }

  function AlertInfoHeaders(server: AsteriskServer, chanType: string): seq<Header> {
    if AlertInfoWanted(server, chanType)
    then [Header("Variable", "SIPAddHeader=Alert-Info: " + server.alertInfo)]
    else []
  }

  const LogoffAction: seq<Header> := [Header("Action", "Logoff")]

  /** The three AMI actions of one click-to-dial, in order. */
  function Actions(server: AsteriskServer, chanType: string, internalNumber: string,
                   callerId: string, exten: string): seq<seq<Header>>
  {
    [LoginAction(server), OriginateAction(server, chanType, internalNumber, callerId, exten), LogoffAction]
  }

  function HeaderLine(h: Header): string {
    h.key + ": " + h.value + "\r\n"
  }

  /** The CRLF-terminated lines of the headers. */
  function Lines(a: seq<Header>): string {
    if a == [] then "" else HeaderLine(a[0]) + Lines(a[1..])
  }

  /** An action on the wire: its lines, then an empty line. */
  function ActionText(a: seq<Header>): string {
    Lines(a) + "\r\n"
  }

  function Render(actions: seq<seq<Header>>): string {
    if actions == [] then "" else ActionText(actions[0]) + Render(actions[1..])
  }

  function Concat(ss: seq<string>): string {
    if ss == [] then "" else ss[0] + Concat(ss[1..])
  }

  /** The payloads of the successive `send` calls, as the source writes
      them: some carry one line, some a line and the empty line after it. */
  function Sends(server: AsteriskServer, chanType: string, internalNumber: string,
                 callerId: string, exten: string): seq<string>
  {
    LoginSends(server)
    + OriginateSends(server, chanType, internalNumber, callerId, exten)
    + ["Action: Logoff\r\n\r\n"]
  }

  function LoginSends(server: AsteriskServer): seq<string> {
    ["Action: login\r\n",
     "Events: off\r\n",
     "Username: " + server.login + "\r\n",
     "Secret: " + server.password + "\r\n\r\n"]
  }

  function OriginateSends(server: AsteriskServer, chanType: string, internalNumber: string,
                          callerId: string, exten: string): seq<string>
  {
    CallSends(server, chanType, internalNumber, callerId, exten)
    + AlertInfoSends(server, chanType)
    + ["Priority: " + IntToDecimal(server.extensionPriority) + "\r\n\r\n"]
  }

  function CallSends(server: AsteriskServer, chanType: string, internalNumber: string,
                     callerId: string, exten: string): seq<string>
  {
    ["Action: originate\r\n",
     "Channel: " + chanType + "/" + internalNumber + "\r\n",
     "Timeout: " + IntToDecimal(server.waitTime * 1000) + "\r\n",
     "CallerId: " + callerId + "\r\n",
     "Exten: " + exten + "\r\n",
     "Context: " + server.context + "\r\n"]
  }

  function AlertInfoSends(server: AsteriskServer, chanType: string): seq<string> {
    if AlertInfoWanted(server, chanType)
    then ["Variable: " + "SIPAddHeader=Alert-Info: " + server.alertInfo + "\r\n"]
    else []
  }

  lemma {:induction false} ConcatAppend(a: seq<string>, b: seq<string>)
    ensures Concat(a + b) == Concat(a) + Concat(b)
  {
    if a == [] {
      assert a + b == b;
    } else {
      assert (a + b)[1..] == a[1..] + b;
      ConcatAppend(a[1..], b);
    }
  }

  lemma {:induction false} LinesAppend(a: seq<Header>, b: seq<Header>)
    ensures Lines(a + b) == Lines(a) + Lines(b)
  {
    if a == [] {
      assert a + b == b;
    } else {
      assert (a + b)[1..] == a[1..] + b;
      LinesAppend(a[1..], b);
    }
  }

  /** Every action ends with an empty line: its text ends in CRLF CRLF. */
  lemma {:induction false} ActionEndsWithBlankLine(a: seq<Header>)
    requires a != []
    ensures |ActionText(a)| >= 4 && ActionText(a)[|ActionText(a)| - 4..] == "\r\n\r\n"
  {
    var last := a[|a| - 1];
    assert a == a[..|a| - 1] + [last];
    LinesAppend(a[..|a| - 1], [last]);
    assert Lines([last]) == HeaderLine(last);
    var t := ActionText(a);
    assert t == Lines(a[..|a| - 1]) + (last.key + ": " + last.value) + "\r\n" + "\r\n";
  }

  /** Payloads that carry the header lines of an action one by one, the
      last with the empty line appended, spell that action. */
  lemma {:induction false} GroupSent(ss: seq<string>, hs: seq<Header>)
    requires |ss| == |hs| > 0
    requires forall i :: 0 <= i < |ss| - 1 ==> ss[i] == HeaderLine(hs[i])
    requires ss[|ss| - 1] == HeaderLine(hs[|hs| - 1]) + "\r\n"
    ensures Concat(ss) == ActionText(hs)
  {
    if |ss| == 1 {
      assert Lines(hs) == HeaderLine(hs[0]) + Lines([]);
    } else {
      GroupSent(ss[1..], hs[1..]);
    }
  }

  lemma LoginSent(server: AsteriskServer)
    ensures Concat(LoginSends(server)) == ActionText(LoginAction(server))
  {
    GroupSent(LoginSends(server), LoginAction(server));
  }

  /** Payloads that each carry one header line spell those lines. */
  lemma {:induction false} LinesSent(ss: seq<string>, hs: seq<Header>)
    requires |ss| == |hs|
    requires forall i :: 0 <= i < |ss| ==> ss[i] == HeaderLine(hs[i])
    ensures Concat(ss) == Lines(hs)
  {
    if ss != [] {
      LinesSent(ss[1..], hs[1..]);
    }
  }

  /** A header line whose value is itself a concatenation. */
  lemma HeaderLineSplit(key: string, v1: string, v2: string)
    ensures HeaderLine(Header(key, v1 + v2)) == key + ": " + v1 + v2 + "\r\n"
  {
  }

  lemma CallSent(server: AsteriskServer, chanType: string, internalNumber: string,
                 callerId: string, exten: string)
    ensures Concat(CallSends(server, chanType, internalNumber, callerId, exten))
            == Lines(CallHeaders(server, chanType, internalNumber, callerId, exten))
  {
    var ss := CallSends(server, chanType, internalNumber, callerId, exten);
    var hs := CallHeaders(server, chanType, internalNumber, callerId, exten);
    assert ss[0] == HeaderLine(hs[0]);
    assert ss[1] == HeaderLine(hs[1]) by {
      HeaderLineSplit("Channel", chanType + "/", internalNumber);
    }
    assert ss[2] == HeaderLine(hs[2]);
    assert ss[3] == HeaderLine(hs[3]);
    assert ss[4] == HeaderLine(hs[4]);
    assert ss[5] == HeaderLine(hs[5]);
    LinesSent(ss, hs);
  }

  lemma AlertInfoSent(server: AsteriskServer, chanType: string)
    ensures Concat(AlertInfoSends(server, chanType)) == Lines(AlertInfoHeaders(server, chanType))
  {
    var ss, hs := AlertInfoSends(server, chanType), AlertInfoHeaders(server, chanType);
    if AlertInfoWanted(server, chanType) {
      assert ss[0] == HeaderLine(hs[0]) by {
        HeaderLineSplit("Variable", "SIPAddHeader=Alert-Info: ", server.alertInfo);
      }
    }
    LinesSent(ss, hs);
  }

  lemma OriginateSent(server: AsteriskServer, chanType: string, internalNumber: string,
                      callerId: string, exten: string)
    ensures Concat(OriginateSends(server, chanType, internalNumber, callerId, exten))
            == ActionText(OriginateAction(server, chanType, internalNumber, callerId, exten))
  {
    var call := CallSends(server, chanType, internalNumber, callerId, exten);
    var callHeaders := CallHeaders(server, chanType, internalNumber, callerId, exten);
    var alert, alertHeaders := AlertInfoSends(server, chanType), AlertInfoHeaders(server, chanType);
    var last := "Priority: " + IntToDecimal(server.extensionPriority) + "\r\n\r\n";
    var lastHeader := Header("Priority", IntToDecimal(server.extensionPriority));
    CallSent(server, chanType, internalNumber, callerId, exten);
    AlertInfoSent(server, chanType);
    ConcatAppend(call + alert, [last]);
    ConcatAppend(call, alert);
    LinesAppend(callHeaders + alertHeaders, [lastHeader]);
    LinesAppend(callHeaders, alertHeaders);
    assert Concat([last]) == last + Concat([]);
    assert Lines([lastHeader]) == HeaderLine(lastHeader) + Lines([]);
  }

  lemma LogoffSent()
    ensures Concat(["Action: Logoff\r\n\r\n"]) == ActionText(LogoffAction)
  {
    GroupSent(["Action: Logoff\r\n\r\n"], LogoffAction);
  }

  /** The payloads the source sends, joined, are exactly the three actions
      login, originate and logoff, each a run of `Key: Value` lines closed
      by an empty line. */
  lemma SendsFrameActions(server: AsteriskServer, chanType: string, internalNumber: string,
                          callerId: string, exten: string)
    ensures Concat(Sends(server, chanType, internalNumber, callerId, exten))
            == Render(Actions(server, chanType, internalNumber, callerId, exten))
  {
    var login := LoginSends(server);
    var originate := OriginateSends(server, chanType, internalNumber, callerId, exten);
    var acts := Actions(server, chanType, internalNumber, callerId, exten);
    ConcatAppend(login + originate, ["Action: Logoff\r\n\r\n"]);
    ConcatAppend(login, originate);
    LoginSent(server);
    OriginateSent(server, chanType, internalNumber, callerId, exten);
    LogoffSent();
    assert Render(acts) == ActionText(acts[0]) + Render(acts[1..]);
    assert Render(acts[1..]) == ActionText(acts[1]) + Render(acts[2..]) by {
      assert acts[1..][1..] == acts[2..];
    }
    assert Render(acts[2..]) == ActionText(acts[2]) + Render([]) by {
      assert acts[2..][1..] == [];
    }
  }

  /** A Timeout header carries the configured wait in milliseconds; a valid
      wait time makes it a plain number between 1 and 120 seconds. */
  lemma OriginateHeaders(server: AsteriskServer, chanType: string, internalNumber: string,
                         callerId: string, exten: string)
    requires CheckWaitTime(server) && CheckExtensionPriority(server)
    ensures var o := OriginateAction(server, chanType, internalNumber, callerId, exten);
      && |o| == (if AlertInfoWanted(server, chanType) then 8 else 7)
      && o[0] == Header("Action", "originate")
      && o[1] == Header("Channel", chanType + "/" + internalNumber)
      && o[2].key == "Timeout" && IsDigitString(o[2].value)
      && DecimalValue(o[2].value) == server.waitTime * 1000
      && 1000 <= DecimalValue(o[2].value) <= 120000
      && o[3] == Header("CallerId", callerId)
      && o[4] == Header("Exten", exten)
      && o[5] == Header("Context", server.context)
      && o[|o| - 1].key == "Priority" && IsDigitString(o[|o| - 1].value)
      && DecimalValue(o[|o| - 1].value) == server.extensionPriority >= 1
  {
  }

  /** The Alert-Info line is present exactly when the server has an
      Alert-Info value and the channel is SIP, and it carries that value. */
  lemma AlertInfoHeaderIff(server: AsteriskServer, chanType: string, internalNumber: string,
                           callerId: string, exten: string)
    ensures var o := OriginateAction(server, chanType, internalNumber, callerId, exten);
      (exists i :: 0 <= i < |o| && o[i].key == "Variable") <==> AlertInfoWanted(server, chanType)
    ensures var o := OriginateAction(server, chanType, internalNumber, callerId, exten);
      forall i :: 0 <= i < |o| && o[i].key == "Variable" ==>
        o[i].value == "SIPAddHeader=Alert-Info: " + server.alertInfo
  {
    var o := OriginateAction(server, chanType, internalNumber, callerId, exten);
    if AlertInfoWanted(server, chanType) {
      assert o[6].key == "Variable";
    }
  }

  /** The checks `dial` makes before it places the call, in the order it
      makes them, as the errors they raise: the number, the Asterisk server
      of the user, the user's channel type, the user's internal number. */
  function FailedChecks(user: User, number: string): seq<Failure> {
    (if number == "" then [NoPhoneNumber] else [])
    + (if user.asteriskServer.None? then [NoAsteriskConfiguration] else [])
    + (if user.asteriskChanType == "" then [NoChannelType] else [])
    + (if user.internalNumber == "" then [NoInternalPhone] else [])
  }

  /** `dial` up to the socket: the pre-checks, the caller ID, the number
      rewritten for the server, and the payloads it then sends. */
  function Dial(user: User, party: Party, number: string): (r: Result<seq<string>>)
    ensures r.Ok? ==> user.asteriskServer.Some? && Normalized(number, user.asteriskServer.value).Ok?
  {
    if number == "" then Err(NoPhoneNumber)
    else if user.asteriskServer.None? then Err(NoAsteriskConfiguration)
    else if user.asteriskChanType == "" then Err(NoChannelType)
    else if user.internalNumber == "" then Err(NoInternalPhone)
    else
      var server := user.asteriskServer.value;
      var callerId := CallerId(user, party);
      match Normalized(number, server)
      case Err(e) => Err(e)
      case Ok(exten) => Ok(Sends(server, user.asteriskChanType, user.internalNumber, callerId, exten))
  }

  /** The first failed pre-check is the error `dial` raises; when all pass,
      `dial` fails exactly when the number cannot be rewritten, with the
      rewriting's error. */
  lemma DialFirstFailureWins(user: User, party: Party, number: string)
    ensures FailedChecks(user, number) != [] ==> Dial(user, party, number) == Err(FailedChecks(user, number)[0])
    ensures FailedChecks(user, number) == [] ==>
      && user.asteriskServer.Some?
      && (Normalized(number, user.asteriskServer.value).Err? <==> Dial(user, party, number).Err?)
      && (Dial(user, party, number).Err? ==>
            Dial(user, party, number).error == Normalized(number, user.asteriskServer.value).error)
  {
  }

  /** A call that gets through the checks sends the three actions, with the
      corrected caller ID and the rewritten number as the extension; on a
      valid configuration that extension is digits only. */
  lemma DialSendsActions(user: User, party: Party, number: string)
    requires Dial(user, party, number).Ok?
    ensures FailedChecks(user, number) == []
    ensures var server := user.asteriskServer.value;
      var exten := Normalized(number, server).value;
      Concat(Dial(user, party, number).value)
      == Render(Actions(server, user.asteriskChanType, user.internalNumber, CallerId(user, party), exten))
    ensures Valid(user.asteriskServer.value) ==> AllDigits(Normalized(number, user.asteriskServer.value).value)
  {
    var server := user.asteriskServer.value;
    var exten := Normalized(number, server).value;
    SendsFrameActions(server, user.asteriskChanType, user.internalNumber, CallerId(user, party), exten);
    if Valid(server) {
      DialStringDigits(number, server);
    }
  }
}
