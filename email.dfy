/**
 * E-mail address validation. The check is a few structural tests followed by
 * the regular expression `^[a-zA-Z0-9._%+-]+@[a-zA-Z0-9.-]+\.[a-zA-Z]{2,}$`;
 * it is a fixed subset of the address syntax of section 3.4.1 of RFC 5322,
 * not that syntax.
 */
module Email {
  import opened Strings

  /** `s.contains("..")` */
  predicate HasDoubleDot(s: string) {
    exists i :: 0 <= i < |s| - 1 && s[i] == '.' && s[i + 1] == '.'
  }

  // ---------------------------------------------------------------------------
  // The regular expression

  /** `[a-zA-Z0-9._%+-]` */
  predicate LocalChar(c: char) {
    IsAsciiAlpha(c) || IsDigit(c) || c == '.' || c == '_' || c == '%' || c == '+' || c == '-'
  }

  /** `[a-zA-Z0-9.-]` */
  predicate DomainChar(c: char) {
    IsAsciiAlpha(c) || IsDigit(c) || c == '.' || c == '-'
  }

  /**
   * The regular expression matches with its '@' at index `at` and the dot
   * before the top-level domain at index `dot`: one or more local characters,
   * the '@', one or more domain characters, the dot, then two or more ASCII
   * letters up to the end.
   */
  predicate RegexSplit(email: string, at: nat, dot: nat) {
    0 < at && at + 1 < dot && dot + 3 <= |email|
    && email[at] == '@' && email[dot] == '.'
    && (forall i :: 0 <= i < at ==> LocalChar(email[i]))
    && (forall i :: at < i < dot ==> DomainChar(email[i]))
    && (forall i :: dot < i < |email| ==> IsAsciiAlpha(email[i]))
  }

  /** `email_regex().is_match(email)`: the pattern matches for some choice of the two split points. */
  ghost predicate RegexMatches(email: string) {
    exists at: nat, dot: nat :: RegexSplit(email, at, dot)
  }

  /**
   * The matcher without a search over split points: no local or domain
   * character is '@' and no letter is '.', so the '@' can only be the first
   * one and the dot only the last one.
   */
  function MatchRegex(email: string): (r: bool)
    ensures r <==> RegexMatches(email)
  {
    match (FirstIndex(email, '@'), LastIndex(email, '.'))
    case (Some(at), Some(dot)) =>
      SplitPointsForced(email, at, dot);
      RegexSplit(email, at, dot)
    case (None, _) => false
    case (_, None) => false
  }

  /** Any split the pattern accepts uses the first '@' and the last '.'. */
  lemma SplitPointsForced(email: string, at: nat, dot: nat)
    requires FirstIndex(email, '@') == Some(at) && LastIndex(email, '.') == Some(dot)
    ensures RegexMatches(email) ==> RegexSplit(email, at, dot)
  {
    if RegexMatches(email) {
      var at': nat, dot': nat :| RegexSplit(email, at', dot');
      assert at' == at;
      assert dot' == dot;
    }
  }

  // ---------------------------------------------------------------------------
  // Validation

  /**
   * `is_valid`: not empty, not starting with '.', no "..", exactly one '@'
   * (two pieces when split on it), a local part not ending with '.', a domain
   * not starting with '.', and then the regular expression.
   */
  function IsValid(email: string): (r: bool)
  {
    if |email| == 0 then false
    else if email[0] == '.' then false
    else if HasDoubleDot(email) then false
    else if '@' !in email then false
    else
      var parts := Split(email, '@');
      if |parts| != 2 then false
      else
        var local, domain := parts[0], parts[1];
        if |local| > 0 && local[|local| - 1] == '.' then false
        else if |domain| > 0 && domain[0] == '.' then false
        else MatchRegex(email)
  }

  /**
   * A local part of `[a-zA-Z0-9._%+-]` ending at index `at - 1`, the only '@'
   * at `at`, a domain of `[a-zA-Z0-9.-]` up to the dot at `dot`, and two or
   * more ASCII letters after it; the text does not start with '.', has no
   * "..", and has no '.' right before or right after the '@'.
   */
  predicate AddressShape(email: string, at: nat, dot: nat) {
    RegexSplit(email, at, dot)
    && email[0] != '.' && email[at - 1] != '.' && email[at + 1] != '.' && !HasDoubleDot(email)
    && '@' !in email[..at] && '@' !in email[at + 1..]
  }

  /** `is_valid` accepts exactly the addresses of that shape. */
  lemma ValidShape(email: string)
    ensures IsValid(email) <==> exists at: nat, dot: nat :: AddressShape(email, at, dot)
  {
    if IsValid(email) {
      ValidHasShape(email);
    }
    if exists at: nat, dot: nat :: AddressShape(email, at, dot) {
      var at: nat, dot: nat :| AddressShape(email, at, dot);
      ShapeIsValid(email, at, dot);
    }
  }

  lemma ValidHasShape(email: string)
    requires IsValid(email)
    ensures AddressShape(email, FirstIndex(email, '@').value, LastIndex(email, '.').value)
  {
    var at := FirstIndex(email, '@').value;
    var dot := LastIndex(email, '.').value;
    AtUnique(email, at);
    SplitOnce(email, '@', at);
    assert RegexSplit(email, at, dot);
  }

  lemma ShapeIsValid(email: string, at: nat, dot: nat)
    requires AddressShape(email, at, dot)
    ensures IsValid(email)
  {
    SplitOnce(email, '@', at);
    var parts := Split(email, '@');
    assert parts[0][at - 1] == email[at - 1];
    assert parts[1][0] == email[at + 1];
    assert RegexMatches(email);
  }

  /**
   * An address put together from a local part (local characters, no "..",
   * not starting or ending with '.'), an '@', a domain name without dots, a
   * '.', and two or more ASCII letters is valid.
   */
  lemma AssembledAddress(local: string, domain: string, tld: string)
    requires |local| > 0 && forall i :: 0 <= i < |local| ==> LocalChar(local[i])
    requires local[0] != '.' && local[|local| - 1] != '.' && !HasDoubleDot(local)
    requires |domain| > 0 && forall i :: 0 <= i < |domain| ==> DomainChar(domain[i]) && domain[i] != '.'
    requires |tld| >= 2 && forall i :: 0 <= i < |tld| ==> IsAsciiAlpha(tld[i])
    ensures IsValid(local + "@" + domain + "." + tld)
  {
    var email := local + "@" + domain + "." + tld;
    var at := |local|;
    var dot := at + 1 + |domain|;
    assert email[at] == '@' && email[dot] == '.';
    forall i | 0 <= i < at ensures email[i] == local[i] && LocalChar(email[i]) && email[i] != '@' { }
    forall i | at < i < dot ensures email[i] == domain[i - at - 1] && DomainChar(email[i]) && email[i] != '.' { }
    forall i | dot < i < |email| ensures email[i] == tld[i - dot - 1] && IsAsciiAlpha(email[i]) { }
    forall i | 0 <= i < |email| - 1 ensures !(email[i] == '.' && email[i + 1] == '.') {
      if i + 1 < at {
        assert !(local[i] == '.' && local[i + 1] == '.');
      }
    }
    assert '@' !in email[..at];
    assert '@' !in email[at + 1..];
    ShapeIsValid(email, at, dot);
  }

  /** An accepted address ends with two ASCII letters, and everything before its '@' is a local character. */
  lemma ValidEnds(email: string)
    requires IsValid(email)
    ensures |email| >= 6 && IsAsciiAlpha(email[|email| - 1]) && IsAsciiAlpha(email[|email| - 2])
    ensures forall i :: 0 <= i < |email| && email[i] != '@' && '@' !in email[..i] ==> LocalChar(email[i])
  {
    ValidHasShape(email);
    var at := FirstIndex(email, '@').value;
    forall i | 0 <= i < |email| && email[i] != '@' && '@' !in email[..i] ensures LocalChar(email[i]) {
      assert i < at;
    }
  }

  /** A character outside `[a-zA-Z0-9._%+-]` before the first '@' makes an address invalid. */
  lemma ForeignLocalChar(email: string, i: nat)
    requires i < |email| && email[i] != '@' && '@' !in email[..i] && !LocalChar(email[i])
    ensures !IsValid(email)
  {
    if IsValid(email) {
      ValidEnds(email);
    }
  }

  /** When the split yields two pieces, the first '@' is the only one. */
  lemma AtUnique(email: string, at: nat)
    requires FirstIndex(email, '@') == Some(at) && |Split(email, '@')| == 2
    ensures '@' !in email[at + 1..]
  {
    if '@' in email[at + 1..] {
      var k :| 0 <= k < |email[at + 1..]| && email[at + 1..][k] == '@';
      SplitTwice(email, '@', at, at + 1 + k);
    }
  }
}

module EmailTests {
  import opened Strings
  import opened Email

  lemma SimpleAddress(email: string)
    requires email == "user" + "@" + "example" + "." + "com"
    ensures IsValid(email)
  {
    AssembledAddress("user", "example", "com");
  }

  lemma PercentAddress(email: string)
    requires email == "user%test" + "@" + "example" + "." + "com"
    ensures IsValid(email)
  {
    AssembledAddress("user%test", "example", "com");
  }

  lemma NumericTopLevelDomainRejected(a: string, b: string)
    requires a == "user@example.123" && b == "user@example.com."
    ensures !IsValid(a) && !IsValid(b)
  {
    if IsValid(a) { ValidEnds(a); }
    if IsValid(b) { ValidEnds(b); }
  }

  lemma HashInLocalPartRejected(email: string)
    requires email == "user#test@example.com"
    ensures !IsValid(email)
  {
    assert '@' !in email[..4] && !LocalChar(email[4]);
    ForeignLocalChar(email, 4);
  }

  lemma EmptyRejected()
    ensures !IsValid("")
  {
  }

  lemma LeadingDotRejected(email: string)
    requires email == ".user@example.com"
    ensures !IsValid(email)
  {
  }

  lemma DoubleDotRejected(email: string)
    requires email == "user..name@example.com"
    ensures !IsValid(email)
  {
    assert email[4] == '.' && email[5] == '.';
  }

  lemma TwoAtsRejected(email: string)
    requires email == "user@exam@ple.com"
    ensures !IsValid(email)
  {
    SplitTwice(email, '@', 4, 9);
  }

  lemma ShortTopLevelDomainRejected(email: string)
    requires email == "user@example.c"
    ensures !IsValid(email)
  {
    var dot := LastIndex(email, '.').value;
    assert dot == 12;
  }
}
