/** The Jakarta bean-validation constraints on the three request bodies, as
    predicates. A field that Java allows to be null is an Option. @Size counts
    UTF-16 code units, as Java's `String.length()` does. */
module Requests {
  import opened Common

  /** @NotBlank: not null and not only characters up to U+0020, which is what
      `trim()` removes. */
  predicate NotBlank(s: Option<string>)
  {
    s.Some? && exists i :: 0 <= i < |s.value| && s.value[i] > ' '
  }

  /** The length of a string in UTF-16 code units: a character beyond U+FFFF is
      a surrogate pair and counts twice. */
  function Utf16Length(s: string): (r: nat)
    ensures |s| <= r <= 2 * |s|
  {
    if s == [] then 0 else (if s[0] as int > 0xFFFF then 2 else 1) + Utf16Length(s[1..])
  }

  /** A string of characters beyond U+FFFF is twice as long for @Size as it has
      characters. */
  lemma {:induction false} Utf16LengthOfAstral(s: string)
    requires forall i :: 0 <= i < |s| ==> s[i] as int > 0xFFFF
    ensures Utf16Length(s) == 2 * |s|
  {
    if s != [] {
      Utf16LengthOfAstral(s[1..]);
    }
  }

  /** A string within the Basic Multilingual Plane has one code unit per character. */
  lemma {:induction false} Utf16LengthOfBmp(s: string)
    requires forall i :: 0 <= i < |s| ==> s[i] as int <= 0xFFFF
    ensures Utf16Length(s) == |s|
  {
    if s != [] {
      Utf16LengthOfBmp(s[1..]);
    }
  }

  /** @Size(max = n) on a non-null string. */
  predicate AtMost(s: Option<string>, n: nat)
  {
    s.Some? ==> Utf16Length(s.value) <= n
  }

  /** A name of 60 emoji has 60 characters but 120 code units, so @Size(max = 100)
      refuses it. */
  lemma EmojiNameTooLong(name: string)
    requires |name| == 60 && forall i :: 0 <= i < |name| ==> name[i] == '\U{1F600}'
    ensures !AtMost(Some(name), 100)
  {
    Utf16LengthOfAstral(name);
  }

  predicate IsAsciiDigit(c: char)
  {
    '0' <= c <= '9'
  }

  predicate AllDigits(s: string)
  {
    forall i :: 0 <= i < |s| ==> IsAsciiDigit(s[i])
  }

  /** The whole string matches `^[+]?[0-9]{8,15}$`. */
  predicate MatchesPhonePattern(s: string)
  {
    var digits := if |s| > 0 && s[0] == '+' then s[1..] else s;
    8 <= |digits| <= 15 && AllDigits(digits)
  }

  /** A character of the class `[a-z0-9-]`. */
  predicate IsSlugChar(c: char)
  {
    ('a' <= c <= 'z') || IsAsciiDigit(c) || c == '-'
  }

  /** The whole string matches `^[a-z0-9-]+$`. */
  predicate MatchesSlugPattern(s: string)
  {
    |s| >= 1 && forall i :: 0 <= i < |s| ==> IsSlugChar(s[i])
  }

  // ---------------------------------------------------------------- BookingRequest

  /** A booking request body; `startTime` is an instant. */
  datatype BookingRequest = BookingRequest(
    serviceId: Option<nat>,
    startTime: Option<int>,
    customerName: Option<string>,
    customerPhone: Option<string>)

  /** The constraints of BookingRequest; `validatedAt` is the instant @Future is
      checked against. */
  predicate BookingRequestValid(req: BookingRequest, validatedAt: int)
  {
    && req.serviceId.Some?                                   // @NotNull
    && req.startTime.Some? && req.startTime.value > validatedAt  // @NotNull @Future
    && NotBlank(req.customerName) && AtMost(req.customerName, 100)
    && NotBlank(req.customerPhone) && MatchesPhonePattern(req.customerPhone.value)
  }

  /** A valid phone number is an optional leading '+' and then 8 to 15 digits:
      no other character, and no '+' anywhere but first. */
  lemma PhoneShape(phone: string)
    requires MatchesPhonePattern(phone)
    ensures 8 <= |phone| <= 16
    ensures forall i :: 0 <= i < |phone| ==> IsAsciiDigit(phone[i]) || (i == 0 && phone[i] == '+')
  {
    if |phone| > 0 && phone[0] == '+' {
      forall i | 1 <= i < |phone| ensures IsAsciiDigit(phone[i]) {
        assert phone[i] == phone[1..][i - 1];
      }
    }
  }

  /** @Future is strict: a request starting exactly at the validation instant is
      refused, although the service's own check (`startTime < now` rejects)
      would let it through. */
  lemma FutureIsStricterThanPastCheck(req: BookingRequest, now: int)
    requires req.startTime == Some(now)
    ensures !BookingRequestValid(req, now)
    ensures !(req.startTime.value < now)
  {
  }

  // ---------------------------------------------------------------- ServiceRequest

  /** A service request body; `price` is a BigDecimal in the source. */
  datatype ServiceRequest = ServiceRequest(
    name: Option<string>,
    durationMinutes: Option<int>,
    price: Option<real>)

  predicate ServiceNameValid(req: ServiceRequest)
  {
    NotBlank(req.name) && AtMost(req.name, 100)           // @NotBlank @Size(max = 100)
  }

  predicate ServiceDurationValid(req: ServiceRequest)
  {
    req.durationMinutes.Some? && 5 <= req.durationMinutes.value <= 480  // @NotNull @Min(5) @Max(480)
  }

  predicate ServicePriceValid(req: ServiceRequest)
  {
    req.price.Some? && req.price.value > 0.0             // @NotNull @DecimalMin("0.0", inclusive = false)
  }

  predicate ServiceRequestValid(req: ServiceRequest)
  {
    ServiceNameValid(req) && ServiceDurationValid(req) && ServicePriceValid(req)
  }

  /** A valid service lasts at least five minutes, so every slot and booking made
      from it ends strictly after it starts. */
  lemma ValidServiceHasPositiveDuration(req: ServiceRequest, start: int)
    requires ServiceRequestValid(req)
    ensures start < start + req.durationMinutes.value <= start + 480
  {
  }

  /** A price of zero is refused. */
  lemma FreeServiceRefused(req: ServiceRequest)
    requires req.price == Some(0.0)
    ensures !ServiceRequestValid(req)
  {
  }

  // ---------------------------------------------------------------- BusinessRequest

  /** A business request body. The @Email constraint on `ownerEmail` is not
      modelled; only its @NotBlank is. */
  datatype BusinessRequest = BusinessRequest(
    name: Option<string>,
    slug: Option<string>,
    ownerEmail: Option<string>)

  predicate SlugValid(slug: Option<string>)
  {
    && NotBlank(slug)
    && MatchesSlugPattern(slug.value)        // @Pattern("^[a-z0-9-]+$")
    && 3 <= |slug.value| <= 50               // @Size(min = 3, max = 50); the pattern admits ASCII only
  }

  predicate BusinessRequestValid(req: BusinessRequest)
  {
    && NotBlank(req.name) && AtMost(req.name, 100)
    && SlugValid(req.slug)
    && NotBlank(req.ownerEmail)
  }

  /** Every character of a valid slug is printable, so @NotBlank adds nothing to
      the pattern and size constraints. */
  lemma SlugPatternImpliesNotBlank(slug: string)
    requires MatchesSlugPattern(slug)
    ensures NotBlank(Some(slug))
  {
    assert slug[0] > ' ';
  }
}
