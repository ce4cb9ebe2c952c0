/** `reformat_number`: the rewrite of a phone number as a user typed it into
    the number the Asterisk server must dial, driven by the configured out,
    national, international and country prefixes. */
module Normalizer {
  import opened Text
  import opened Errors
  import opened Configuration

  /** The formatting characters removed before anything else, in the order
      the source removes them. */
  const FormattingChars: seq<char> := [' ', '.', '(', ')', '[', ']', '-', '/']

  const Formatting: set<char> := {' ', '.', '(', ')', '[', ']', '-', '/'}

  function CharsOf(s: seq<char>): set<char> {
    set c | c in s
  }

  lemma FormattingCharsAll()
    ensures CharsOf(FormattingChars[..|FormattingChars|]) == Formatting
  {
    assert FormattingChars[..|FormattingChars|] == FormattingChars;
    forall c | c in Formatting ensures c in CharsOf(FormattingChars) {
      if c == ' ' { assert FormattingChars[0] == c; }
      else if c == '.' { assert FormattingChars[1] == c; }
      else if c == '(' { assert FormattingChars[2] == c; }
      else if c == ')' { assert FormattingChars[3] == c; }
      else if c == '[' { assert FormattingChars[4] == c; }
      else if c == ']' { assert FormattingChars[5] == c; }
      else if c == '-' { assert FormattingChars[6] == c; }
      else { assert FormattingChars[7] == c; }
    }
  }

  /** The number with every formatting character removed. */
  function Cleaned(number: string): string {
    Strip(number, Formatting)
  }

  /** The dial string for `number`, or the error the source raises, stated
      in one pass over the cleaned number. */
  function Normalized(number: string, conf: AsteriskServer): Result<string> {
    if number == "" then Err(InvalidFormat)
    else
      var cleaned := Cleaned(number);
      if cleaned == "" then Err(EmptyAfterCleaning)
      else if cleaned[0] == '+' then
        var digits := Strip(cleaned, {'+'});
        if !IsDigitString(digits) then Err(InvalidFormat)
        else if conf.countryPrefix <= digits then
          Ok(conf.outPrefix + (conf.nationalPrefix + digits[|conf.countryPrefix|..]))
        else
          Ok(conf.outPrefix + (conf.internationalPrefix + digits))
      else if conf.nationalFormatAllowed then
        if IsDigitString(cleaned) then Ok(conf.outPrefix + cleaned) else Err(InvalidNationalFormat)
      else
        Err(InvalidInternationalFormat)
  }

  function Min(a: int, b: int): int {
    if a <= b then a else b
  }

  /** One pass of the cleaning loop removes one more formatting character. */
  lemma CleaningStep(number: string, i: nat)
    requires i < |FormattingChars|
    ensures Strip(Strip(number, CharsOf(FormattingChars[..i])), {FormattingChars[i]})
            == Strip(number, CharsOf(FormattingChars[..i + 1]))
  {
    StripTwice(number, CharsOf(FormattingChars[..i]), {FormattingChars[i]});
    assert CharsOf(FormattingChars[..i + 1]) == CharsOf(FormattingChars[..i]) + {FormattingChars[i]};
  }

  /** Comparing a prefix with a clamped slice, as Python's slicing does, is
      the prefix test. */
  lemma PrefixSlice(p: string, s: string)
    ensures p == s[..Min(|p|, |s|)] <==> p <= s
  {
  }

  /** The source's step-by-step rewrite of `tmp_number`: one `replace` per
      formatting character, then the branch on the first character, then the
      out prefix. */
  method ReformatNumber(trytonNumber: string, astServer: AsteriskServer) returns (r: Result<string>)
    ensures r == Normalized(trytonNumber, astServer)
  {
    var tmpNumber := trytonNumber;
    if tmpNumber == "" {
      return Err(InvalidFormat);
    }
    assert CharsOf(FormattingChars[..0]) == {};
    StripNone(trytonNumber, {});
    for i := 0 to |FormattingChars|
      invariant tmpNumber == Strip(trytonNumber, CharsOf(FormattingChars[..i]))
    {
      CleaningStep(trytonNumber, i);
      tmpNumber := Strip(tmpNumber, {FormattingChars[i]});
    }
    FormattingCharsAll();
    assert tmpNumber == Cleaned(trytonNumber);

    var countryPrefix := astServer.countryPrefix;
    var nationalPrefix := astServer.nationalPrefix;
    var internationalPrefix := astServer.internationalPrefix;
    var outPrefix := astServer.outPrefix;

    if tmpNumber == "" {
      // `tmp_number[0]` raises IndexError
      return Err(EmptyAfterCleaning);
    }
    if tmpNumber[0] == '+' {
      tmpNumber := Strip(tmpNumber, {'+'});
      if !IsDigitString(tmpNumber) {
        return Err(InvalidFormat);
      }
      // Python's slice `tmp_number[0:len(country_prefix)]` stops at the end
      PrefixSlice(countryPrefix, tmpNumber);
      if countryPrefix == tmpNumber[..Min(|countryPrefix|, |tmpNumber|)] {
        tmpNumber := nationalPrefix + tmpNumber[|countryPrefix|..];
      } else {
        tmpNumber := internationalPrefix + tmpNumber;
      }
    } else if astServer.nationalFormatAllowed {
      if !IsDigitString(tmpNumber) {
        return Err(InvalidNationalFormat);
      }
    } else {
      return Err(InvalidInternationalFormat);
    }
    tmpNumber := outPrefix + tmpNumber;
    r := Ok(tmpNumber);
  }

  /** Formatting characters may stand anywhere in a number and change
      nothing: "01 41 98 12 42", "01.41.98.12.42" and "0141981242" dial the
      same. */
  lemma FormattingIgnored(x: string, f: char, y: string, conf: AsteriskServer)
    requires f in FormattingChars
    requires x + y != ""
    ensures Normalized(x + [f] + y, conf) == Normalized(x + y, conf)
  {
    var fs := Formatting;
    StripAppend(x + [f], y, fs);
    StripAppend(x, [f], fs);
    StripAppend(x, y, fs);
    assert Strip([f], fs) == [] by {
      assert [f][0] in fs && [f][1..] == [];
    }
    assert Cleaned(x + [f] + y) == Cleaned(x + y);
  }

  /** With a valid configuration a dial string holds digits only: no
      formatting character and no '+' survives. */
  lemma DialStringDigits(number: string, conf: AsteriskServer)
    requires Valid(conf)
    requires Normalized(number, conf).Ok?
    ensures AllDigits(Normalized(number, conf).value)
    ensures forall i :: 0 <= i < |Normalized(number, conf).value| ==>
      Normalized(number, conf).value[i] !in FormattingChars && Normalized(number, conf).value[i] != '+'
  {
    ValidFacts(conf);
    var r := Normalized(number, conf).value;
    var cleaned := Cleaned(number);
    if cleaned[0] == '+' {
      var digits := Strip(cleaned, {'+'});
      if conf.countryPrefix <= digits {
        var rest := digits[|conf.countryPrefix|..];
        assert AllDigits(rest);
        assert r == conf.outPrefix + conf.nationalPrefix + rest;
      } else {
        assert r == conf.outPrefix + conf.internationalPrefix + digits;
      }
    } else {
      assert r == conf.outPrefix + cleaned;
    }
  }

  /** Two numbers whose cleaned forms both start with '+' and hold the same
      characters once every '+' is dropped are rewritten alike. */
  lemma SamePlusDigits(n1: string, n2: string, conf: AsteriskServer)
    requires n1 != "" && Cleaned(n1) != "" && Cleaned(n1)[0] == '+'
    requires n2 != "" && Cleaned(n2) != "" && Cleaned(n2)[0] == '+'
    requires Strip(Cleaned(n1), {'+'}) == Strip(Cleaned(n2), {'+'})
    ensures Normalized(n1, conf) == Normalized(n2, conf)
  {
  }

  lemma StripThree(a: string, b: string, c: string, cs: set<char>)
    ensures Strip(a + b + c, cs) == Strip(a, cs) + Strip(b, cs) + Strip(c, cs)
  {
    StripAppend(a + b, c, cs);
    StripAppend(a, b, cs);
  }

  lemma StripPlus()
    ensures Strip("+", Formatting) == "+"
    ensures Strip("+", {'+'}) == ""
  {
    assert "+"[1..] == "";
  }

  /** Every '+' of an international number is dropped, not only the
      leading one. */
  lemma InnerPlusIgnored(x: string, y: string, conf: AsteriskServer)
    ensures Normalized("+" + x + "+" + y, conf) == Normalized("+" + x + y, conf)
  {
    InnerPlusCleaned(x, y);
    InnerPlusStripped(Cleaned(x), Cleaned(y));
    SamePlusDigits("+" + x + "+" + y, "+" + x + y, conf);
  }

  lemma InnerPlusCleaned(x: string, y: string)
    ensures Cleaned("+" + x + "+" + y) == "+" + Cleaned(x) + "+" + Cleaned(y)
    ensures Cleaned("+" + x + y) == "+" + Cleaned(x) + Cleaned(y)
  {
    StripPlus();
    StripThree("+" + x, "+", y, Formatting);
    StripAppend("+", x, Formatting);
    StripThree("+", x, y, Formatting);
  }

  lemma InnerPlusStripped(a: string, b: string)
    ensures Strip("+" + a + "+" + b, {'+'}) == Strip(a, {'+'}) + Strip(b, {'+'})
    ensures Strip("+" + a + b, {'+'}) == Strip(a, {'+'}) + Strip(b, {'+'})
  {
    StripPlus();
    StripThree("+" + a, "+", b, {'+'});
    StripAppend("+", a, {'+'});
    StripThree("+", a, b, {'+'});
  }

  /** A string of digits is its own cleaned form. */
  lemma DigitsClean(d: string)
    requires AllDigits(d)
    ensures Cleaned(d) == d
  {
    StripNone(d, Formatting);
  }

  /** '+' followed by digits is its own cleaned form, and dropping the '+'
      leaves the digits. */
  lemma PlusDigitsClean(d: string)
    requires AllDigits(d)
    ensures Cleaned("+" + d) == "+" + d
    ensures Strip("+" + d, {'+'}) == d
  {
    StripAppend("+", d, Formatting);
    StripAppend("+", d, {'+'});
    StripNone(d, Formatting);
    StripNone(d, {'+'});
  }

  /** The design of the country prefix: a national number typed in
      international notation ('+', country prefix, national digits) dials
      exactly what the same number typed in national notation dials. */
  lemma InternationalMatchesNational(conf: AsteriskServer, d: string)
    requires Valid(conf) && conf.nationalFormatAllowed
    requires AllDigits(d) && conf.nationalPrefix + d != ""
    ensures Normalized("+" + conf.countryPrefix + d, conf) == Normalized(conf.nationalPrefix + d, conf)
    ensures Normalized(conf.nationalPrefix + d, conf) == Ok(conf.outPrefix + (conf.nationalPrefix + d))
  {
    ValidFacts(conf);
    var digits := conf.countryPrefix + d;
    assert AllDigits(digits);
    assert "+" + conf.countryPrefix + d == "+" + digits;
    PlusDigitsClean(digits);
    assert digits[|conf.countryPrefix|..] == d;
    var national := conf.nationalPrefix + d;
    assert AllDigits(national);
    assert IsDigit(national[0]);
    DigitsClean(national);
  }

  /** A number outside the own country keeps its country digits behind the
      international prefix. */
  lemma ForeignKeepsCountryDigits(conf: AsteriskServer, d: string)
    requires IsDigitString(d) && !(conf.countryPrefix <= d)
    ensures Normalized("+" + d, conf) == Ok(conf.outPrefix + (conf.internationalPrefix + d))
  {
    PlusDigitsClean(d);
    var cleaned := Cleaned("+" + d);
    assert cleaned[0] == '+';
    assert Strip(cleaned, {'+'}) == d;
  }

  /** A '+' number that starts with the own country prefix has that prefix
      replaced by the national prefix, whatever else the configuration says. */
  lemma OwnCountryRewritten(conf: AsteriskServer, d: string)
    requires IsDigitString(d) && conf.countryPrefix <= d
    ensures Normalized("+" + d, conf) == Ok(conf.outPrefix + (conf.nationalPrefix + d[|conf.countryPrefix|..]))
  {
    PlusDigitsClean(d);
    assert Cleaned("+" + d)[0] == '+';
  }

  /** When national notation is allowed, a number of digits is kept as it
      is, behind the out prefix. */
  lemma NationalKept(conf: AsteriskServer, d: string)
    requires conf.nationalFormatAllowed && IsDigitString(d)
    ensures Normalized(d, conf) == Ok(conf.outPrefix + d)
  {
    DigitsClean(d);
  }

  /** An empty country prefix is a prefix of every number: every
      international number is then rewritten as a national one. */
  lemma EmptyCountryPrefixMatchesAll(conf: AsteriskServer, d: string)
    requires conf.countryPrefix == "" && IsDigitString(d)
    ensures Normalized("+" + d, conf) == Ok(conf.outPrefix + (conf.nationalPrefix + d))
  {
    PlusDigitsClean(d);
    assert Cleaned("+" + d)[0] == '+';
    assert d[|conf.countryPrefix|..] == d;
  }

  /** A character that is neither a digit, nor '+', nor a formatting
      character, wherever it stands, makes the number refused. */
  lemma StrayCharacterRefused(x: string, c: char, y: string, conf: AsteriskServer)
    requires !IsDigit(c) && c != '+' && c !in Formatting
    ensures Cleaned(x + [c] + y) != ""
    ensures Cleaned(x + [c] + y) != "" && Normalized(x + [c] + y, conf) ==
      Err(if Cleaned(x + [c] + y)[0] == '+' then InvalidFormat
          else if conf.nationalFormatAllowed then InvalidNationalFormat
          else InvalidInternationalFormat)
  {
    var n := x + [c] + y;
    StripThree(x, [c], y, Formatting);
    assert Strip([c], Formatting) == [c] by {
      assert [c][1..] == [];
    }
    var cleaned := Cleaned(n);
    assert cleaned == Cleaned(x) + [c] + Cleaned(y);
    assert cleaned[|Cleaned(x)|] == c;
    if cleaned[0] == '+' {
      StripThree(Cleaned(x), [c], Cleaned(y), {'+'});
      assert Strip([c], {'+'}) == [c] by {
        assert [c][1..] == [];
      }
      var digits := Strip(cleaned, {'+'});
      assert digits[|Strip(Cleaned(x), {'+'})|] == c;
    }
  }

  /** When national notation is not allowed, a number whose first character
      after formatting is not '+' is refused, whatever its digits. */
  lemma NationalNotationRefused(x: string, y: string, conf: AsteriskServer)
    requires !conf.nationalFormatAllowed
    requires forall i :: 0 <= i < |x| ==> x[i] in FormattingChars
    requires y != "" && y[0] != '+' && y[0] !in FormattingChars
    ensures Normalized(x + y, conf) == Err(InvalidInternationalFormat)
  {
    var fs := Formatting;
    StripAppend(x, y, fs);
    StripAllGone(x, fs);
    assert y == [y[0]] + y[1..];
    StripAppend([y[0]], y[1..], fs);
  }

  lemma {:induction false} StripAllGone(s: string, cs: set<char>)
    requires forall i :: 0 <= i < |s| ==> s[i] in cs
    ensures Strip(s, cs) == ""
  {
    if s != [] {
      StripAllGone(s[1..], cs);
    }
  }

  /** The French configuration of the field help texts. */
  const France := AsteriskServer("asterisk", "10.0.0.1", "5038", "0", "0", "00", "33", true,
                                 "tryton", "secret", "from-internal", 5, 1, "")

  lemma FranceValid()
    ensures Valid(France)
  {
    assert "5038"[..3] == "503";
    assert "503"[..2] == "50";
    assert "50"[..1] == "5";
  }

  lemma FrenchDigits()
    ensures France.outPrefix + (France.nationalPrefix + "141981242") == "00141981242"
    ensures France.outPrefix + (France.internationalPrefix + "1415555") == "0001415555"
  {
  }

  lemma FrenchNumberRewritten()
    ensures Normalized("+33141981242", France) == Ok(France.outPrefix + (France.nationalPrefix + "141981242"))
  {
    FranceValid();
    InternationalMatchesNational(France, "141981242");
    assert "+" + France.countryPrefix + "141981242" == "+33141981242";
  }

  lemma FrenchNationalRewritten()
    ensures Normalized("0141981242", France) == Ok(France.outPrefix + (France.nationalPrefix + "141981242"))
  {
    FranceValid();
    InternationalMatchesNational(France, "141981242");
    assert France.nationalPrefix + "141981242" == "0141981242";
  }

  /** The help text's French number in international notation drops the
      country prefix 33 for the national prefix 0, behind the out prefix 0;
      the same number in national notation dials the same string. */
  lemma ExampleFrenchNumber()
    ensures Normalized("+33141981242", France) == Ok("00141981242")
    ensures Normalized("0141981242", France) == Ok("00141981242")
  {
    FrenchNumberRewritten();
    FrenchNationalRewritten();
    FrenchDigits();
  }

  lemma ForeignNumberRewritten()
    ensures Normalized("+1415555", France) == Ok(France.outPrefix + (France.internationalPrefix + "1415555"))
  {
    assert "1415555"[..2][0] != France.countryPrefix[0];
    ForeignKeepsCountryDigits(France, "1415555");
    assert "+" + "1415555" == "+1415555";
  }

  /** A foreign number keeps its country code behind the international
      prefix 00. */
  lemma ExampleForeignNumber()
    ensures Normalized("+1415555", France) == Ok("0001415555")
  {
    ForeignNumberRewritten();
    FrenchDigits();
  }

  /** The help text's number in national notation is refused when national
      notation is not allowed. The number is a parameter because unfolding
      the literal inside the contract is costly for the solver. */
  lemma ExampleNationalRefused(spaced: string)
    requires spaced == "01 41 98 12 42"
    ensures Normalized(spaced, France.(nationalFormatAllowed := false)) == Err(InvalidInternationalFormat)
  {
    NationalNotationRefused("", spaced, France.(nationalFormatAllowed := false));
  }

  /** The boundary cases, under any configuration: nothing, a lone '+', and
      formatting characters only. */
  lemma ExampleEdgeCases(conf: AsteriskServer)
    ensures Normalized("", conf) == Err(InvalidFormat)
    ensures Normalized("+", conf) == Err(InvalidFormat)
    ensures Normalized(" ()", conf) == Err(EmptyAfterCleaning)
  {
    StripPlus();
    StripAllGone(" ()", Formatting);
  }
}
