/**
 * The request-hygiene pieces of the security middleware: the SQL parameter
 * scrubber, the string rules of the form validators, and the handler that turns
 * collected validation errors into a response.
 */
module SecurityMiddleware {
  import opened JsValues
  import opened Strings
  import opened Express

  // ---------------------------------------------------------------------------
  // sanitizeDbParams
  // ---------------------------------------------------------------------------

  /** The characters `/['";\\]/g` removes. */
  predicate IsStripped(c: char)
  {
    c == '\'' || c == '"' || c == ';' || c == '\\'
  }

  predicate NoStripped(s: string)
  {
    forall k | 0 <= k < |s| :: !IsStripped(s[k])
  }

  /** Number of characters of `s` the scrubber keeps. */
  function KeptCount(s: string): nat
  {
    if s == [] then 0 else (if IsStripped(s[0]) then 0 else 1) + KeptCount(s[1..])
  }

  /** `t` can be obtained from `s` by deleting characters (order is kept). */
  predicate IsSubsequence(t: string, s: string)
    decreases |s|
  {
    t == [] || (s != [] && ((t[0] == s[0] && IsSubsequence(t[1..], s[1..])) || IsSubsequence(t, s[1..])))
  }

  /**
   * `param.replace(/['";\\]/g, '')`: every quote, double quote, semicolon and backslash
   * is gone, every other character is kept, and the kept ones stay in their order.
   */
  function StripDangerous(s: string): (r: string)
    ensures NoStripped(r)
    ensures IsSubsequence(r, s)
    ensures |r| == KeptCount(s)
  {
    if s == [] then []
    else if IsStripped(s[0]) then StripDangerous(s[1..])
    else [s[0]] + StripDangerous(s[1..])
  }

  /** A subsequence free of stripped characters is never longer than what the scrubber keeps. */
  lemma {:induction false} SubsequenceBound(t: string, s: string)
    requires IsSubsequence(t, s) && NoStripped(t)
    ensures |t| <= KeptCount(s)
    decreases |s|
  {
    if t != [] {
      if t[0] == s[0] && IsSubsequence(t[1..], s[1..]) {
        SubsequenceBound(t[1..], s[1..]);
      } else {
        SubsequenceBound(t, s[1..]);
      }
    }
  }

  /**
   * The three properties of `StripDangerous` determine its result: any string free of
   * stripped characters that keeps the input's order and all of its other characters is it.
   */
  lemma {:induction false} StripDangerousUnique(t: string, s: string)
    requires IsSubsequence(t, s) && NoStripped(t) && |t| == KeptCount(s)
    ensures t == StripDangerous(s)
    decreases |s|
  {
    if s == [] {
    } else if IsStripped(s[0]) {
      if t != [] {
        assert t[0] != s[0];
        assert IsSubsequence(t, s[1..]);
      }
      StripDangerousUnique(t, s[1..]);
    } else if t == [] {
      assert false;
    } else if t[0] == s[0] && IsSubsequence(t[1..], s[1..]) {
      StripDangerousUnique(t[1..], s[1..]);
      assert t == [t[0]] + t[1..];
    } else {
      assert IsSubsequence(t, s[1..]);
      SubsequenceBound(t, s[1..]);
      assert false;
    }
  }

  /** A string with nothing to strip comes back unchanged. */
  lemma {:induction false} StripDangerousClean(s: string)
    requires NoStripped(s)
    ensures StripDangerous(s) == s
  {
    if s != [] {
      assert !IsStripped(s[0]);
      StripDangerousClean(s[1..]);
      assert s == [s[0]] + s[1..];
    }
  }

  /** Scrubbing twice is scrubbing once. */
  lemma StripDangerousIdempotent(s: string)
    ensures StripDangerous(StripDangerous(s)) == StripDangerous(s)
  {
    StripDangerousClean(StripDangerous(s));
  }

  /** The argument of `sanitizeDbParams`: an array of values, or anything else. */
  datatype Params = Array(items: seq<Value>) | NotArray(value: Value)

  /** What the `map` callback does to one element: strings are scrubbed, other values pass untouched. */
  function SanitizeParam(v: Value): Value
  {
    if v.Str? then Str(StripDangerous(v.s)) else v
  }

  /**
   * `sanitizeDbParams`: an array keeps its length, each string element is scrubbed and each
   * other element is returned as it was; a non-array argument is returned as it was.
   */
  function SanitizeDbParams(p: Params): (r: Params)
    ensures p.NotArray? ==> r == p
    ensures p.Array? ==> r.Array? && |r.items| == |p.items|
    ensures p.Array? ==> forall i | 0 <= i < |p.items| ::
      if p.items[i].Str?
      then r.items[i].Str? && NoStripped(r.items[i].s) && IsSubsequence(r.items[i].s, p.items[i].s)
           && |r.items[i].s| == KeptCount(p.items[i].s)
      else r.items[i] == p.items[i]
  {
    match p
    case Array(items) => Array(seq(|items|, i requires 0 <= i < |items| => SanitizeParam(items[i])))
    case NotArray(_) => p
  }

  /** Sanitizing already-sanitized parameters changes nothing. */
  lemma SanitizeDbParamsIdempotent(p: Params)
    ensures SanitizeDbParams(SanitizeDbParams(p)) == SanitizeDbParams(p)
  {
    if p.Array? {
      var once := SanitizeDbParams(p);
      var twice := SanitizeDbParams(once);
      forall i | 0 <= i < |p.items|
        ensures twice.items[i] == once.items[i]
      {
        if p.items[i].Str? {
          StripDangerousIdempotent(p.items[i].s);
        }
      }
    }
  }

  // ---------------------------------------------------------------------------
  // Validation rules (express-validator chains; each failing validator contributes its message)
  // ---------------------------------------------------------------------------

  predicate IsAsciiLetter(c: char)
  {
    ('a' <= c <= 'z') || ('A' <= c <= 'Z')
  }

  predicate IsUpper(c: char)
  {
    'A' <= c <= 'Z'
  }

  predicate IsPasswordSpecial(c: char)
  {
    c == '!' || c == '@' || c == '#' || c == '$' || c == '%' || c == '^' || c == '&' || c == '*'
  }

  /** The variation selectors U+FE0E and U+FE0F, which validator.js's `isLength` leaves out of the count. */
  predicate IsPresentationSelector(c: char)
  {
    c == '\U{FE0E}' || c == '\U{FE0F}'
  }

  /**
   * The length `isLength` measures. A character here is a Unicode scalar value, so a surrogate pair
   * already counts once, as validator.js arranges; the variation selectors do not count at all.
   */
  function ValidatorLength(s: string): (n: nat)
    ensures n <= |s|
  {
    if s == [] then 0 else (if IsPresentationSelector(s[0]) then 0 else 1) + ValidatorLength(s[1..])
  }

  /** validator.js's own formula: the characters less the occurrences of each selector. */
  lemma {:induction false} ValidatorLengthFormula(s: string)
    ensures ValidatorLength(s) == |s| - Count(s, '\U{FE0E}') - Count(s, '\U{FE0F}')
  {
    if s != [] {
      ValidatorLengthFormula(s[1..]);
    }
  }

  lemma {:induction false} ValidatorLengthAppend(a: string, b: string)
    ensures ValidatorLength(a + b) == ValidatorLength(a) + ValidatorLength(b)
  {
    if a == [] {
      assert a + b == b;
    } else {
      assert (a + b)[1..] == a[1..] + b;
      ValidatorLengthAppend(a[1..], b);
    }
  }

  /** Inserting a selector anywhere leaves the measured length as it was. */
  lemma SelectorNotCounted(a: string, c: char, b: string)
    requires IsPresentationSelector(c)
    ensures ValidatorLength(a + [c] + b) == ValidatorLength(a + b)
  {
    ValidatorLengthAppend(a + [c], b);
    ValidatorLengthAppend(a, [c]);
    ValidatorLengthAppend(a, b);
    assert [c][1..] == [];
  }

  /** Without selectors the measured length is the number of characters. */
  lemma {:induction false} ValidatorLengthPlain(s: string)
    requires forall k | 0 <= k < |s| :: !IsPresentationSelector(s[k])
    ensures ValidatorLength(s) == |s|
  {
    if s != [] {
      assert forall k | 0 <= k < |s| - 1 :: s[1..][k] == s[k + 1];
      ValidatorLengthPlain(s[1..]);
    }
  }

  /** `isLength({ min, max })`. */
  predicate LengthBetween(s: string, min: nat, max: nat)
  {
    min <= ValidatorLength(s) <= max
  }

  /** `/^[a-zA-Z\s]+$/`, scanned left to right. */
  predicate MatchesLettersAndSpaces(s: string)
  {
    s != [] && LettersAndSpacesScan(s)
  }

  predicate LettersAndSpacesScan(s: string)
  {
    s == [] || ((IsAsciiLetter(s[0]) || IsSpace(s[0])) && LettersAndSpacesScan(s[1..]))
  }

  lemma {:induction false} LettersAndSpacesScanAll(s: string)
    ensures LettersAndSpacesScan(s) <==> forall k | 0 <= k < |s| :: IsAsciiLetter(s[k]) || IsSpace(s[k])
  {
    if s != [] {
      LettersAndSpacesScanAll(s[1..]);
      assert forall k | 1 <= k < |s| :: s[k] == s[1..][k - 1];
    }
  }

  const NameLengthMessage := "Name must be between 2 and 100 characters"
  const NameCharsMessage := "Name can only contain letters and spaces"

  /** Errors of the registration `name` chain: trim, length 2..100, letters and whitespace only. */
  function RegisterNameErrors(name: string): seq<string>
  {
    var t := Trim(name);
    (if LengthBetween(t, 2, 100) then [] else [NameLengthMessage])
    + (if MatchesLettersAndSpaces(t) then [] else [NameCharsMessage])
  }

  /** A registration name is accepted iff, once trimmed, it has 2 to 100 characters, all ASCII letters or whitespace. */
  predicate RegisterNameAcceptable(name: string)
  {
    var t := Trim(name);
    2 <= |t| <= 100 && forall k | 0 <= k < |t| :: IsAsciiLetter(t[k]) || IsSpace(t[k])
  }

  lemma RegisterNameRule(name: string)
    ensures RegisterNameErrors(name) == [] <==> RegisterNameAcceptable(name)
  {
    var t := Trim(name);
    assert MatchesLettersAndSpaces(t) <==> t != [] && forall k | 0 <= k < |t| :: IsAsciiLetter(t[k]) || IsSpace(t[k]) by {
      LettersAndSpacesScanAll(t);
    }
    if forall k | 0 <= k < |t| :: IsAsciiLetter(t[k]) || IsSpace(t[k]) {
      LettersAndSpacesMeasure(t);
    }
  }

  /** Letters and whitespace are no variation selectors, so such a string measures its character count. */
  lemma LettersAndSpacesMeasure(t: string)
    requires forall k | 0 <= k < |t| :: IsAsciiLetter(t[k]) || IsSpace(t[k])
    ensures ValidatorLength(t) == |t|
  {
    assert forall k | 0 <= k < |t| :: !IsPresentationSelector(t[k]) by {
      forall k | 0 <= k < |t|
        ensures !IsPresentationSelector(t[k])
      {
        assert IsAsciiLetter(t[k]) || IsSpace(t[k]);
      }
    }
    ValidatorLengthPlain(t);
  }

  /** An accepted registration name starts and ends with a letter. */
  lemma RegisterNameEnds(name: string)
    requires RegisterNameAcceptable(name)
    ensures IsAsciiLetter(Trim(name)[0]) && IsAsciiLetter(Trim(name)[|Trim(name)| - 1])
  {
    TrimEnds(name);
  }

  const PasswordLengthMessage := "Password must be at least 8 characters"
  const PasswordUpperMessage := "Password must contain at least one uppercase letter"
  const PasswordDigitMessage := "Password must contain at least one number"
  const PasswordSpecialMessage := "Password must contain at least one special character (!@#$%^&*)"

  /** `/[A-Z]/`, `/[0-9]/` and `/[!@#$%^&*]/` tested against the password: the first position at which the class matches, if any. */
  function FirstMatch(p: string, cls: char -> bool): (r: Option<nat>)
    ensures r.Some? ==> r.value < |p| && cls(p[r.value])
    ensures r.None? ==> forall k | 0 <= k < |p| :: !cls(p[k])
  {
    if p == [] then None
    else if cls(p[0]) then Some(0)
    else match FirstMatch(p[1..], cls)
      case None => None
      case Some(k) => Some(k + 1)
  }

  /** Errors of the `password` chain (no trimming): length at least 8, an upper-case letter, a digit, a special character. */
  function PasswordErrors(p: string): seq<string>
  {
    (if ValidatorLength(p) >= 8 then [] else [PasswordLengthMessage])
    + (if FirstMatch(p, IsUpper).Some? then [] else [PasswordUpperMessage])
    + (if FirstMatch(p, IsDigit).Some? then [] else [PasswordDigitMessage])
    + (if FirstMatch(p, IsPasswordSpecial).Some? then [] else [PasswordSpecialMessage])
  }

  predicate PasswordAcceptable(p: string)
  {
    && ValidatorLength(p) >= 8
    && (exists k | 0 <= k < |p| :: IsUpper(p[k]))
    && (exists k | 0 <= k < |p| :: IsDigit(p[k]))
    && (exists k | 0 <= k < |p| :: IsPasswordSpecial(p[k]))
  }

  /** A password passes iff it measures at least 8 characters, an A-Z, a 0-9 and one of !@#$%^&*; each missing requirement is reported once. */
  lemma PasswordRule(p: string)
    ensures PasswordErrors(p) == [] <==> PasswordAcceptable(p)
    ensures |PasswordErrors(p)| <= 4
  {
  }

  /** "Abcd1!" and a heart with its emoji selector: eight characters, but seven as `isLength` counts them. */
  lemma PasswordSelectorExample()
    ensures PasswordErrors("Abcd1!\U{2764}\U{FE0F}") == [PasswordLengthMessage]
  {
    assert ValidatorLength("Abcd1!\U{2764}\U{FE0F}") == 7;
  }

  const CheckinTimeMessage := "Invalid check-in time format (HH:MM)"
  const CheckoutTimeMessage := "Invalid check-out time format (HH:MM)"

  /** The hour group `([0-1]?[0-9]|2[0-3])` matching all of `h`. */
  predicate HourPattern(h: string)
  {
    || (|h| == 1 && IsDigit(h[0]))
    || (|h| == 2 && (('0' <= h[0] <= '1' && IsDigit(h[1])) || (h[0] == '2' && '0' <= h[1] <= '3')))
  }

  /** The tail `:[0-5][0-9]` matching all of `m`. */
  predicate MinutePattern(m: string)
  {
    |m| == 3 && m[0] == ':' && '0' <= m[1] <= '5' && IsDigit(m[2])
  }

  /** `/^([0-1]?[0-9]|2[0-3]):[0-5][0-9]$/.test(s)`. */
  predicate MatchesTimeFormat(s: string)
  {
    || (|s| == 4 && HourPattern(s[..1]) && MinutePattern(s[1..]))
    || (|s| == 5 && HourPattern(s[..2]) && MinutePattern(s[2..]))
  }

  function TimeErrors(s: string, message: string): seq<string>
  {
    if MatchesTimeFormat(s) then [] else [message]
  }

  function TwoDigits(n: nat): string
    requires n < 100
  {
    [DigitChar(n / 10), DigitChar(n % 10)]
  }

  /** "HH:MM" with a two-digit hour. */
  function ClockText(h: nat, m: nat): string
    requires h < 24 && m < 60
  {
    TwoDigits(h) + ":" + TwoDigits(m)
  }

  /** "H:MM" with a one-digit hour. */
  function ShortClockText(h: nat, m: nat): string
    requires h < 10 && m < 60
  {
    [DigitChar(h)] + ":" + TwoDigits(m)
  }

  /** A time of day written as H:MM or HH:MM, hour 0..23, minute 00..59. */
  predicate IsClockTime(s: string)
  {
    exists h: nat, m: nat | h < 24 && m < 60 ::
      s == ClockText(h, m) || (h < 10 && s == ShortClockText(h, m))
  }

  function DigitValue(c: char): nat
    requires IsDigit(c)
  {
    c as int - '0' as int
  }

  /** Two digit characters read as a number and written back with `TwoDigits` give the same characters. */
  lemma TwoDigitsOfChars(a: char, b: char)
    requires IsDigit(a) && IsDigit(b)
    ensures TwoDigits(10 * DigitValue(a) + DigitValue(b)) == [a, b]
  {
  }

  lemma MatchedTimeIsClockTime(s: string)
    requires MatchesTimeFormat(s)
    ensures IsClockTime(s)
  {
    var off := |s| - 3;
    var m: nat := 10 * DigitValue(s[off + 1]) + DigitValue(s[off + 2]);
    TwoDigitsOfChars(s[off + 1], s[off + 2]);
    assert s[off..] == ":" + TwoDigits(m);
    if |s| == 4 {
      var h: nat := DigitValue(s[0]);
      assert s == [DigitChar(h)] + s[1..];
      assert s == ShortClockText(h, m);
    } else {
      var h: nat := 10 * DigitValue(s[0]) + DigitValue(s[1]);
      TwoDigitsOfChars(s[0], s[1]);
      assert s == TwoDigits(h) + s[2..];
      assert s == ClockText(h, m);
    }
  }

  lemma ClockTimeMatches(h: nat, m: nat)
    requires h < 24 && m < 60
    ensures MatchesTimeFormat(ClockText(h, m))
    ensures h < 10 ==> MatchesTimeFormat(ShortClockText(h, m))
  {
    var c := ClockText(h, m);
    assert c[..2] == TwoDigits(h) && c[2..] == ":" + TwoDigits(m);
    if h < 10 {
      var sc := ShortClockText(h, m);
      assert sc[..1] == [DigitChar(h)] && sc[1..] == ":" + TwoDigits(m);
    }
  }

  /** The time pattern accepts exactly the clock times: H:MM or HH:MM with hour 0-23 and minute 00-59. */
  lemma TimeFormatIsClockTime(s: string)
    ensures MatchesTimeFormat(s) <==> IsClockTime(s)
  {
    if MatchesTimeFormat(s) {
      MatchedTimeIsClockTime(s);
    }
    if IsClockTime(s) {
      var h: nat, m: nat :| h < 24 && m < 60 && (s == ClockText(h, m) || (h < 10 && s == ShortClockText(h, m)));
      ClockTimeMatches(h, m);
    }
  }

  lemma TimeFormatExamples()
    ensures MatchesTimeFormat("5:30") && MatchesTimeFormat("23:59") && MatchesTimeFormat("09:05")
    ensures !MatchesTimeFormat("24:00") && !MatchesTimeFormat("7:5") && !MatchesTimeFormat("12:60")
  {
  }

  const ListingIdMessage := "Invalid listing ID"

  predicate AllDigits(s: string)
  {
    forall k | 0 <= k < |s| :: IsDigit(s[k])
  }

  /** Value of a run of decimal digits. */
  function DecimalValue(d: string): nat
    requires AllDigits(d)
  {
    if d == [] then 0 else 10 * DecimalValue(d[..|d| - 1]) + DigitValue(d[|d| - 1])
  }

  /** validator.js's default integer syntax `/^[-+]?[0-9]+$/`. */
  predicate MatchesIntFormat(s: string)
  {
    if s != [] && (s[0] == '+' || s[0] == '-') then |s| > 1 && AllDigits(s[1..]) else s != [] && AllDigits(s)
  }

  function IntValue(s: string): int
    requires MatchesIntFormat(s)
  {
    if s[0] == '-' then -(DecimalValue(s[1..]) as int)
    else if s[0] == '+' then DecimalValue(s[1..])
    else DecimalValue(s)
  }

  /** `isInt({ min: 1 })` on `listing_id`. */
  function ListingIdErrors(s: string): seq<string>
  {
    if MatchesIntFormat(s) && IntValue(s) >= 1 then [] else [ListingIdMessage]
  }

  lemma {:induction false} DecimalRoundTrip(n: nat)
    ensures DecimalValue(NatToDecimal(n)) == n
  {
    if n >= 10 {
      DecimalRoundTrip(n / 10);
      var d := NatToDecimal(n);
      assert d[..|d| - 1] == NatToDecimal(n / 10);
    }
  }

  /** Every listing id a form can post for an existing listing (1, 2, ...) passes, and no digit string of value 0 does. */
  lemma ListingIdRule(n: nat, zeros: string)
    requires zeros != [] && forall k | 0 <= k < |zeros| :: zeros[k] == '0'
    ensures ListingIdErrors(NatToDecimal(n)) == [] <==> n >= 1
    ensures ListingIdErrors(zeros) == [ListingIdMessage]
  {
    DecimalRoundTrip(n);
    ZerosValue(zeros);
  }

  lemma {:induction false} ZerosValue(zeros: string)
    requires forall k | 0 <= k < |zeros| :: zeros[k] == '0'
    ensures AllDigits(zeros) && DecimalValue(zeros) == 0
  {
    if zeros != [] {
      ZerosValue(zeros[..|zeros| - 1]);
    }
  }

  const BookingNameMessage := NameLengthMessage

  /** Errors of a length-only chain after `trim()`. */
  function TrimmedLengthErrors(s: string, min: nat, max: nat, message: string): (r: seq<string>)
    ensures r == [] <==> min <= ValidatorLength(Trim(s)) <= max
    ensures r != [] ==> r == [message]
  {
    if LengthBetween(Trim(s), min, max) then [] else [message]
  }

  /** A title "Hi" and a heart with its emoji selector: five characters, four as `isLength` counts them, so short of 5. */
  lemma TitleSelectorExample()
    ensures TrimmedLengthErrors("Hi \U{2764}\U{FE0F}", 5, 200, TitleMessage) == [TitleMessage]
  {
    var t := "Hi \U{2764}\U{FE0F}";
    TrimStartOfTrimmed(t);
    TrimEndOfTrimmed(t);
    assert ValidatorLength(t) == 4;
  }

  /** A sun with its emoji selector: two characters, one as `isLength` counts them, so short of a name's 2. */
  lemma NameSelectorExample()
    ensures TrimmedLengthErrors("\U{2600}\U{FE0F}", 2, 100, BookingNameMessage) == [BookingNameMessage]
  {
    var t := "\U{2600}\U{FE0F}";
    TrimStartOfTrimmed(t);
    TrimEndOfTrimmed(t);
    assert ValidatorLength(t) == 1;
  }

  /** A booking form's fields; the email and both date checks are opaque results (their error messages, in order). */
  datatype BookingForm = BookingForm(
    listingId: string, name: string, emailErrors: seq<string>,
    checkinDateErrors: seq<string>, checkinTime: string,
    checkoutDateErrors: seq<string>, checkoutTime: string)

  /** `bookingValidation`, field by field in declaration order. */
  function BookingErrors(f: BookingForm): seq<string>
  {
    ListingIdErrors(f.listingId)
    + TrimmedLengthErrors(f.name, 2, 100, BookingNameMessage)
    + f.emailErrors
    + f.checkinDateErrors
    + TimeErrors(f.checkinTime, CheckinTimeMessage)
    + f.checkoutDateErrors
    + TimeErrors(f.checkoutTime, CheckoutTimeMessage)
  }

  /** A booking form with clean opaque checks passes iff its id, name and both times do. */
  lemma BookingRule(f: BookingForm)
    requires f.emailErrors == [] && f.checkinDateErrors == [] && f.checkoutDateErrors == []
    ensures BookingErrors(f) == [] <==>
      && MatchesIntFormat(f.listingId) && IntValue(f.listingId) >= 1
      && 2 <= ValidatorLength(Trim(f.name)) <= 100
      && IsClockTime(f.checkinTime) && IsClockTime(f.checkoutTime)
  {
    TimeFormatIsClockTime(f.checkinTime);
    TimeFormatIsClockTime(f.checkoutTime);
  }

  /** `registerValidation`; the email chain's errors are opaque. */
  function RegisterErrors(name: string, emailErrors: seq<string>, password: string): seq<string>
  {
    RegisterNameErrors(name) + emailErrors + PasswordErrors(password)
  }

  const PasswordRequiredMessage := "Password is required"

  /** `loginValidation`: the password must not be empty; the email chain's errors are opaque. */
  function LoginErrors(emailErrors: seq<string>, password: string): seq<string>
  {
    emailErrors + (if password != "" then [] else [PasswordRequiredMessage])
  }

  /** With a clean email check, a login passes iff the password is non-empty; otherwise the one message. */
  lemma LoginRule(password: string)
    ensures LoginErrors([], password) == [] <==> password != ""
    ensures password == "" ==> LoginErrors([], password) == [PasswordRequiredMessage]
  {
  }

  const TitleMessage := "Title must be between 5 and 200 characters"
  const DescriptionMessage := "Description must be between 20 and 5000 characters"
  const LocationMessage := "Location must be between 2 and 200 characters"

  /** `listingValidation`; the price check (a floating-point parse) is opaque. */
  function ListingErrors(title: string, description: string, priceErrors: seq<string>, location: string): seq<string>
  {
    TrimmedLengthErrors(title, 5, 200, TitleMessage)
    + TrimmedLengthErrors(description, 20, 5000, DescriptionMessage)
    + priceErrors
    + TrimmedLengthErrors(location, 2, 200, LocationMessage)
  }

  /** A listing passes (price aside) iff its trimmed title, description and location lengths lie in [5,200], [20,5000] and [2,200]. */
  lemma ListingRule(title: string, description: string, location: string)
    ensures ListingErrors(title, description, [], location) == [] <==>
      && 5 <= ValidatorLength(Trim(title)) <= 200
      && 20 <= ValidatorLength(Trim(description)) <= 5000
      && 2 <= ValidatorLength(Trim(location)) <= 200
  {
  }

  const ContactMessageMessage := "Message must be between 10 and 2000 characters"

  /** `contactValidation`; the email chain's errors are opaque. */
  function ContactErrors(name: string, emailErrors: seq<string>, message: string): seq<string>
  {
    TrimmedLengthErrors(name, 2, 100, NameLengthMessage)
    + emailErrors
    + TrimmedLengthErrors(message, 10, 2000, ContactMessageMessage)
  }

  /** With a clean email check, a contact message passes iff its trimmed name and text measure within [2,100] and [10,2000]. */
  lemma ContactRule(name: string, message: string)
    ensures ContactErrors(name, [], message) == [] <==>
      && 2 <= ValidatorLength(Trim(name)) <= 100
      && 10 <= ValidatorLength(Trim(message)) <= 2000
  {
  }

  // ---------------------------------------------------------------------------
  // handleValidationErrors
  // ---------------------------------------------------------------------------

  /** The form view to re-render for a failed submission, chosen by the first path fragment that matches. */
  function ChooseView(path: string): (v: Option<string>)
    ensures Contains(path, "/register") ==> v == Some("register")
    ensures !Contains(path, "/register") && Contains(path, "/login") ==> v == Some("login")
    ensures !Contains(path, "/register") && !Contains(path, "/login") && Contains(path, "/contact") ==> v == Some("contact")
    ensures !Contains(path, "/register") && !Contains(path, "/login") && !Contains(path, "/contact")
      ==> v == (if Contains(path, "/bookings") then Some("bookings") else None)
  {
    if Contains(path, "/register") then Some("register")
    else if Contains(path, "/login") then Some("login")
    else if Contains(path, "/contact") then Some("contact")
    else if Contains(path, "/bookings") then Some("bookings")
    else None
  }

  /** A row of `SELECT id, title, price, location FROM listings`. */
  datatype ListingChoice = ListingChoice(id: int, title: string, price: real, location: string)

  /** The request as the handler sees it. `accept` is `req.headers.accept`, absent when the header was not sent. */
  datatype FormRequest = FormRequest(path: string, xhr: bool, accept: Option<string>, listingId: Value)

  /** What the handler ends in. */
  datatype Outcome =
    | Proceed                                                   // next()
    | JsonErrors(status: nat, errors: seq<string>)              // res.status(400).json({ errors })
    | RenderForm(view: string, error: string, csrfToken: Value,
                 listings: Option<seq<ListingChoice>>, selectedListingId: Value)
    | RedirectBack                                              // res.redirect('back') with req.session.error set
    | TypeErrorThrown                                           // `req.headers.accept.indexOf` on an absent header

  const CrossMark := "\U{274C} "

  /**
   * `handleValidationErrors`. `errors` are the messages collected by the chains, in order;
   * `csrfToken` is `res.locals.csrfToken`; `listingsQuery` is the result of the listings query
   * the bookings view needs (`None` when it fails).
   */
  method HandleValidationErrors(session: Session, req: FormRequest, errors: seq<string>, csrfToken: Value,
                                listingsQuery: Option<seq<ListingChoice>>)
    returns (outcome: Outcome)
    modifies session`error
    ensures errors == [] ==> outcome == Proceed
    ensures errors != [] && req.xhr ==> outcome == JsonErrors(400, errors)
    ensures errors != [] && !req.xhr && req.accept.None? ==> outcome == TypeErrorThrown
    ensures errors != [] && !req.xhr && req.accept.Some? && Contains(req.accept.value, "json")
      ==> outcome == JsonErrors(400, errors)
    ensures errors != [] && !req.xhr && req.accept.Some? && !Contains(req.accept.value, "json") ==>
      var joined := Join(errors, ", ");
      var view := ChooseView(req.path);
      if view.None? || (view == Some("bookings") && listingsQuery.None?) then outcome == RedirectBack
      else if view == Some("bookings") then
        outcome == RenderForm("bookings", CrossMark + joined, csrfToken, listingsQuery,
                              if Truthy(req.listingId) then req.listingId else Null)
      else outcome == RenderForm(view.value, CrossMark + joined, csrfToken, None, Undefined)
    ensures outcome == RedirectBack ==> session.error == Str(Join(errors, ", "))
    ensures outcome != RedirectBack ==> session.error == old(session.error)
  {
    if errors == [] {
      return Proceed;
    }
    if req.xhr {
      return JsonErrors(400, errors);
    }
    if req.accept.None? {
      return TypeErrorThrown;
    }
    if Contains(req.accept.value, "json") {
      return JsonErrors(400, errors);
    }
    var errorMessages := Join(errors, ", ");
    var viewName := ChooseView(req.path);
    if viewName.Some? {
      var renderData := RenderForm(viewName.value, CrossMark + errorMessages, csrfToken, None, Undefined);
      if viewName.value == "bookings" {
        match listingsQuery
        case Some(listings) =>
          renderData := renderData.(listings := Some(listings),
                                    selectedListingId := if Truthy(req.listingId) then req.listingId else Null);
          return renderData;
        case None =>
          session.error := Str(errorMessages);
          return RedirectBack;
      }
      return renderData;
    }
    session.error := Str(errorMessages);
    return RedirectBack;
  }
}
