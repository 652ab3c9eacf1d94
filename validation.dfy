/** The input checks of lib/validation.ts.

    Year and session key arrive as loosely typed JSON fields and are read
    with parseInt(value, 10); e-mail addresses are checked against the
    pattern ^[^\s@]+@[^\s@]+\.[^\s@]+$ and names by their trimmed length. */
module Validation {
  import opened Common

  /** The characters JavaScript treats as white space in String.prototype.trim,
      in parseInt and in the \s class of regular expressions. */
  predicate IsJsWhitespace(c: char)
  {
    c == '\t' || c == '\n' || c == '\U{000B}' || c == '\U{000C}' || c == '\r' || c == ' '
    || c == '\U{00A0}' || c == '\U{1680}' || ('\U{2000}' <= c <= '\U{200A}')
    || c == '\U{2028}' || c == '\U{2029}' || c == '\U{202F}' || c == '\U{205F}'
    || c == '\U{3000}' || c == '\U{FEFF}'
  }

  /** s without its leading white space. */
  function TrimStart(s: string): (r: string)
    ensures |r| <= |s| && r == s[|s| - |r|..]
    ensures forall i :: 0 <= i < |s| - |r| ==> IsJsWhitespace(s[i])
    ensures r != [] ==> !IsJsWhitespace(r[0])
  {
    if s != [] && IsJsWhitespace(s[0]) then TrimStart(s[1..]) else s
  }

  /** s without its trailing white space. */
  function TrimEnd(s: string): (r: string)
    ensures |r| <= |s| && r == s[..|r|]
    ensures forall i :: |r| <= i < |s| ==> IsJsWhitespace(s[i])
    ensures r != [] ==> !IsJsWhitespace(r[|r| - 1])
  {
    if s != [] && IsJsWhitespace(s[|s| - 1]) then TrimEnd(s[..|s| - 1]) else s
  }

  /** String.prototype.trim */
  function Trim(s: string): string
  {
    TrimEnd(TrimStart(s))
  }

  /** The longest prefix of decimal digits. */
  function LeadingDigits(s: string): (r: string)
    ensures |r| <= |s| && r == s[..|r|]
    ensures forall i :: 0 <= i < |r| ==> IsDigit(r[i])
    ensures |r| < |s| ==> !IsDigit(s[|r|])
  {
    if s != [] && IsDigit(s[0]) then [s[0]] + LeadingDigits(s[1..]) else []
  }

  /** parseInt(s, 10) on a string: leading white space, an optional sign, and
      the longest run of digits after it; None stands for NaN. */
  function ParseIntString(s: string): (r: Option<int>)
    ensures r.Some? <==> LeadingDigits(UnsignedPart(TrimStart(s))) != []
  {
    var t := TrimStart(s);
    var digits := LeadingDigits(UnsignedPart(t));
    if digits == [] then None
    else if t != [] && t[0] == '-' then Some(-(DigitsValue(digits) as int))
    else Some(DigitsValue(digits))
  }

  function UnsignedPart(t: string): string
  {
    if t != [] && (t[0] == '+' || t[0] == '-') then t[1..] else t
  }

  /** parseInt(value, 10) on a truthy JSON value. A number below 10^21 in
      magnitude is printed in plain decimal and read back, which gives the
      number itself; larger numbers, which JavaScript prints in exponent
      notation, are outside this model. */
  function ParseInt(v: JsValue): Option<int>
  {
    match v
    case Num(n) => Some(n)
    case Str(s) => ParseIntString(s)
    case _ => None
  }

  /** Printing a number and parsing the text gives the number back. */
  lemma ParseIntOfPrinted(n: int)
    ensures ParseIntString(IntToString(n)) == Some(n)
  {
    var text := IntToString(n);
    var m: nat := if n < 0 then -n else n;
    var digits := NatToString(m);
    DigitsValueOfNatToString(m);
    PrintedUnpadded(n);
    assert UnsignedPart(text) == digits;
    AllDigitsLeading(digits);
  }

  /** Printed numbers start with a digit or '-', never with white space. */
  lemma PrintedUnpadded(n: int)
    ensures TrimStart(IntToString(n)) == IntToString(n)
  {
    var text := IntToString(n);
    if n >= 0 {
      assert IsDigit(text[0]);
    }
    assert !IsJsWhitespace(text[0]);
  }

  lemma {:induction false} AllDigitsLeading(s: string)
    requires forall i :: 0 <= i < |s| ==> IsDigit(s[i])
    ensures LeadingDigits(s) == s
    decreases |s|
  {
    if s != [] {
      AllDigitsLeading(s[1..]);
    }
  }

  /** A year is accepted when it parses to a number from 2000 to 2030. */
  function ValidateYear(year: JsValue): (r: Result<int>)
    ensures !Truthy(year) ==> r == Err(Response(400, "Year is required"))
    ensures Truthy(year) && ParseInt(year).None? ==> r == Err(Response(400, "Year must be a valid number"))
    ensures r.Ok? <==> Truthy(year) && ParseInt(year).Some? && 2000 <= ParseInt(year).value <= 2030
    ensures r.Ok? ==> r.value == ParseInt(year).value
    ensures r.Err? ==> r.response.status == 400
  {
    if !Truthy(year) then Err(Response(400, "Year is required"))
    else
      match ParseInt(year)
      case None => Err(Response(400, "Year must be a valid number"))
      case Some(yearNum) =>
        if yearNum < 2000 || yearNum > 2030 then Err(Response(400, "Year must be between 2000 and 2030"))
        else Ok(yearNum)
  }

  /** Every year from 2000 to 2030, given as a number or as its decimal
      text, is accepted as itself; the bounds are included. */
  lemma AcceptsSeasonYears(n: int)
    requires 2000 <= n <= 2030
    ensures ValidateYear(Num(n)) == Ok(n)
    ensures ValidateYear(Str(IntToString(n))) == Ok(n)
  {
    ParseIntOfPrinted(n);
  }

  /** parseInt reads only the leading digits, so trailing text is ignored. */
  lemma YearWithTrailingText()
    ensures ValidateYear(Str(" 2025abc")) == Ok(2025)
  {
    ParsePaddedYear();
  }

  lemma ParsePaddedYear()
    ensures ParseIntString(" 2025abc") == Some(2025)
  {
    var text := " 2025abc";
    var t := text[1..];
    assert t == "2025abc";
    assert TrimStart(text) == t by {
      assert IsJsWhitespace(text[0]) && !IsJsWhitespace(t[0]);
    }
    assert UnsignedPart(t) == t;
    LeadingDigitsOf2025();
    ValueOf2025();
  }

  lemma LeadingDigitsOf2025()
    ensures LeadingDigits("2025abc") == "2025"
  {
    var t := "2025abc";
    assert LeadingDigits(t[4..]) == [];
    assert LeadingDigits(t[3..]) == "5";
    assert LeadingDigits(t[2..]) == "25";
    assert LeadingDigits(t[1..]) == "025";
  }

  lemma ValueOf2025()
    ensures DigitsValue("2025") == 2025
  {
    assert "2"[..0] == [];
    assert DigitsValue("2") == 2;
    assert "20"[..1] == "2";
    assert DigitsValue("20") == 20;
    assert "202"[..2] == "20";
    assert DigitsValue("202") == 202;
    assert "2025"[..3] == "202";
  }

  /** A session key is accepted when it parses to a positive number. */
  function ValidateSessionKey(sessionKey: JsValue): (r: Result<int>)
    ensures !Truthy(sessionKey) ==> r == Err(Response(400, "Session key is required"))
    ensures Truthy(sessionKey) && ParseInt(sessionKey).None? ==> r == Err(Response(400, "Session key must be a valid number"))
    ensures r.Ok? <==> Truthy(sessionKey) && ParseInt(sessionKey).Some? && ParseInt(sessionKey).value > 0
    ensures r.Ok? ==> r.value == ParseInt(sessionKey).value && r.value > 0
    ensures r.Err? ==> r.response.status == 400
  {
    if !Truthy(sessionKey) then Err(Response(400, "Session key is required"))
    else
      match ParseInt(sessionKey)
      case None => Err(Response(400, "Session key must be a valid number"))
      case Some(sessionKeyNum) =>
        if sessionKeyNum <= 0 then Err(Response(400, "Session key must be a positive number"))
        else Ok(sessionKeyNum)
  }

  /** Every positive key, as a number or as its decimal text, is accepted
      as itself. */
  lemma AcceptsPositiveKeys(n: int)
    requires n > 0
    ensures ValidateSessionKey(Num(n)) == Ok(n)
    ensures ValidateSessionKey(Str(IntToString(n))) == Ok(n)
  {
    var text := IntToString(n);
    ParseIntOfPrinted(n);
    assert Truthy(Str(text)) && ParseInt(Str(text)) == Some(n);
  }

  /** "0" is a truthy string but not a positive number. */
  lemma RefusesZeroKey()
    ensures ValidateSessionKey(Str("0")) == Err(Response(400, "Session key must be a positive number"))
  {
    assert TrimStart("0") == "0";
    assert UnsignedPart("0") == "0";
    assert LeadingDigits("0") == "0";
    assert DigitsValue("0") == 0;
  }

  /** A run of the class [^\s@]+ */
  predicate IsSegment(s: string)
  {
    |s| > 0 && forall i :: 0 <= i < |s| ==> !IsJsWhitespace(s[i]) && s[i] != '@'
  }

  /** The language of ^[^\s@]+@[^\s@]+\.[^\s@]+$ */
  ghost predicate MatchesEmailPattern(s: string)
  {
    exists local, host, top :: IsSegment(local) && IsSegment(host) && IsSegment(top)
                               && s == local + "@" + host + "." + top
  }

  /** Position of the first occurrence of c, or |s| when there is none. */
  function IndexOfChar(s: string, c: char): (i: nat)
    ensures i <= |s|
    ensures i < |s| ==> s[i] == c
    ensures forall j :: 0 <= j < i ==> s[j] != c
  {
    if s == [] || s[0] == c then 0 else 1 + IndexOfChar(s[1..], c)
  }

  /** validateEmail, decided without a regular-expression engine: no white
      space, exactly one '@' with text before it, and after it a '.' that is
      neither the first nor the last character. */
  function ValidateEmail(email: string): bool
  {
    var at := IndexOfChar(email, '@');
    var domain := if at < |email| then email[at + 1..] else [];
    (forall i :: 0 <= i < |email| ==> !IsJsWhitespace(email[i]))
    && 0 < at < |email|
    && (forall i :: 0 <= i < |domain| ==> domain[i] != '@')
    && exists p :: 1 <= p < |domain| - 1 && domain[p] == '.'
  }

  /** The decision procedure accepts exactly the language of the pattern. */
  lemma ValidateEmailMatchesPattern(email: string)
    ensures ValidateEmail(email) <==> MatchesEmailPattern(email)
  {
    if ValidateEmail(email) {
      AcceptedMatchesPattern(email);
    }
    if MatchesEmailPattern(email) {
      var local, host, top :| IsSegment(local) && IsSegment(host) && IsSegment(top)
                              && email == local + "@" + host + "." + top;
      PatternAccepted(local, host, top);
    }
  }

  lemma AcceptedMatchesPattern(email: string)
    requires ValidateEmail(email)
    ensures MatchesEmailPattern(email)
  {
    var at := IndexOfChar(email, '@');
    var domain := email[at + 1..];
    var p :| 1 <= p < |domain| - 1 && domain[p] == '.';
    var dot := at + 1 + p;
    assert email[dot] == '.';
    SplitAtTwo(email, at, dot);
    LocalIsSegment(email, at);
    DomainPartsAreSegments(email, at, dot);
  }

  /** A sequence is its parts around two positions put back together. */
  lemma SplitAtTwo<T>(s: seq<T>, i: nat, j: nat)
    requires i < j < |s|
    ensures s == s[..i] + [s[i]] + s[i + 1..j] + [s[j]] + s[j + 1..]
  {
  }

  /** The text before the first '@' of an accepted address is a segment. */
  lemma LocalIsSegment(email: string, at: nat)
    requires ValidateEmail(email)
    requires at == IndexOfChar(email, '@')
    ensures IsSegment(email[..at])
  {
    assert forall i :: 0 <= i < at ==> email[..at][i] == email[i];
  }

  /** The texts between the '@' and a later '.', and after that '.', are
      segments when the address is accepted. */
  lemma DomainPartsAreSegments(email: string, at: nat, dot: nat)
    requires ValidateEmail(email)
    requires at == IndexOfChar(email, '@')
    requires at + 1 < dot < |email| - 1
    ensures IsSegment(email[at + 1..dot])
    ensures IsSegment(email[dot + 1..])
  {
    var domain := email[at + 1..];
    var host := email[at + 1..dot];
    var top := email[dot + 1..];
    forall i | 0 <= i < |host| ensures !IsJsWhitespace(host[i]) && host[i] != '@' {
      assert host[i] == email[at + 1 + i] == domain[i];
    }
    forall i | 0 <= i < |top| ensures !IsJsWhitespace(top[i]) && top[i] != '@' {
      assert top[i] == email[dot + 1 + i] == domain[dot - at + i];
    }
  }

  lemma PatternAccepted(local: string, host: string, top: string)
    requires IsSegment(local) && IsSegment(host) && IsSegment(top)
    ensures ValidateEmail(local + "@" + host + "." + top)
  {
    var email := local + "@" + host + "." + top;
    assert "@" == ['@'] && "." == ['.'];
    PartsAt(local, '@', host, '.', top);
    var domain := email[|local| + 1..];
    assert IndexOfChar(email, '@') == |local|;
    forall i | 0 <= i < |domain| ensures domain[i] != '@' {
      assert domain[i] == email[|local| + 1 + i];
    }
    assert domain[|host|] == '.';
  }

  /** Where each part of a + [x] + b + [y] + c sits. */
  lemma PartsAt<T>(a: seq<T>, x: T, b: seq<T>, y: T, c: seq<T>)
    ensures var s := a + [x] + b + [y] + c;
            |s| == |a| + |b| + |c| + 2
            && (forall i :: 0 <= i < |a| ==> s[i] == a[i])
            && s[|a|] == x
            && (forall i :: 0 <= i < |b| ==> s[|a| + 1 + i] == b[i])
            && s[|a| + 1 + |b|] == y
            && (forall i :: 0 <= i < |c| ==> s[|a| + 2 + |b| + i] == c[i])
  {
  }

  /** A character outside the Basic Multilingual Plane, which UTF-16 stores
      as a surrogate pair. */
  predicate IsAstral(c: char)
  {
    c >= '\U{10000}'
  }

  /** The length of s as JavaScript counts it: in UTF-16 code units, two for
      each astral character and one for every other character. */
  function Utf16Length(s: string): (n: nat)
    ensures |s| <= n <= 2 * |s|
    ensures (forall i :: 0 <= i < |s| ==> !IsAstral(s[i])) ==> n == |s|
    ensures (forall i :: 0 <= i < |s| ==> IsAstral(s[i])) ==> n == 2 * |s|
  {
    if s == [] then 0 else (if IsAstral(s[0]) then 2 else 1) + Utf16Length(s[1..])
  }

  /** validateName: the trimmed name is 2 to 100 UTF-16 code units long. */
  function ValidateName(name: string): (ok: bool)
    ensures ok <==> 2 <= Utf16Length(Trim(name)) <= 100
  {
    2 <= Utf16Length(Trim(name)) <= 100
  }

  /** Without astral characters the UTF-16 length is the number of
      characters, so a name is valid exactly when its trimmed form has 2 to
      100 characters. */
  lemma ValidateNameWithoutAstral(name: string)
    requires forall i :: 0 <= i < |name| ==> !IsAstral(name[i])
    ensures ValidateName(name) <==> 2 <= |Trim(name)| <= 100
  {
    var t := Trim(name);
    forall i | 0 <= i < |t| ensures !IsAstral(t[i]) {
      TrimChars(name, i);
    }
  }

  /** Every character of the trimmed text is a character of the text. */
  lemma TrimChars(s: string, i: int)
    requires 0 <= i < |Trim(s)|
    ensures Trim(s)[i] in s
  {
    var t := TrimStart(s);
    assert Trim(s)[i] == t[i];
    assert t[i] == s[|s| - |t| + i];
  }

  /** One astral character is two code units, enough for a valid name. */
  lemma SingleAstralNameAccepted(c: char)
    requires IsAstral(c)
    ensures ValidateName([c])
  {
    assert !IsJsWhitespace(c);
    assert TrimStart([c]) == [c];
    assert TrimEnd([c]) == [c];
    assert Utf16Length([c]) == 2;
  }

  /** Fifty-one astral characters are 102 code units, too long for a name. */
  lemma FiftyOneAstralRefused(name: string)
    requires |name| == 51 && forall i :: 0 <= i < |name| ==> IsAstral(name[i])
    ensures !ValidateName(name)
  {
    assert TrimStart(name) == name;
    assert TrimEnd(name) == name;
  }

  lemma {:induction false} TrimStartAppend(s: string, c: char)
    requires IsJsWhitespace(c)
    ensures TrimStart(s + [c]) == (if TrimStart(s) == [] then [] else TrimStart(s) + [c])
    decreases |s|
  {
    if s != [] {
      assert (s + [c])[1..] == s[1..] + [c];
      if IsJsWhitespace(s[0]) {
        TrimStartAppend(s[1..], c);
      }
    }
  }

  /** White space around a name changes neither its trimmed form nor
      whether it is accepted. */
  lemma TrimIgnoresPadding(name: string, c: char)
    requires IsJsWhitespace(c)
    ensures Trim([c] + name + [c]) == Trim(name)
    ensures ValidateName([c] + name + [c]) == ValidateName(name)
  {
    var padded := [c] + name + [c];
    assert padded[1..] == name + [c];
    assert TrimStart(padded) == TrimStart(name + [c]);
    TrimStartAppend(name, c);
    var t := TrimStart(name);
    if t != [] {
      TrimEndDrops(t, c);
    }
  }

  /** Trailing white space is dropped by TrimEnd. */
  lemma TrimEndDrops(t: string, c: char)
    requires IsJsWhitespace(c)
    ensures TrimEnd(t + [c]) == TrimEnd(t)
  {
    assert (t + [c])[..|t + [c]| - 1] == t;
  }
}
