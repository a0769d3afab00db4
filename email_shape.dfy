/**
  The address-shape test `/^[^\s@]+@[^\s@]+\.[^\s@]+$/` of the mail handler.

  `MatchesEmailRegex` is the regex read directly: the string splits into a
  non-empty local run, `@`, a non-empty domain run, `.`, and a non-empty
  final run, every run drawn from the class `[^\s@]`. `IsEmailShaped` is the
  deterministic check: split at the first `@` and look for a dot strictly
  inside the domain. The lemmas prove the two agree and give the
  characterisation by whitespace, the number of `@`s and the inner dot.
*/
module EmailShape {
  import opened Strings

  /** The characters of the ECMAScript class `\s`: WhiteSpace and LineTerminator. */
  predicate IsWhitespace(c: char) {
    || c == '\t' || c == '\n' || c == '\U{000B}' || c == '\U{000C}' || c == '\r'
    || c == ' ' || c == '\U{00A0}' || c == '\U{1680}'
    || ('\U{2000}' <= c <= '\U{200A}')
    || c == '\U{2028}' || c == '\U{2029}' || c == '\U{202F}' || c == '\U{205F}'
    || c == '\U{3000}' || c == '\U{FEFF}'
  }

  /** One character of the class `[^\s@]`. */
  predicate IsAddressChar(c: char) {
    !IsWhitespace(c) && c != '@'
  }

  predicate AllAddressChars(s: string) {
    forall i :: 0 <= i < |s| ==> IsAddressChar(s[i])
  }

  predicate NoWhitespace(s: string) {
    forall i :: 0 <= i < |s| ==> !IsWhitespace(s[i])
  }

  /** The regex, anchored at both ends, read as a split of `s` at an `@` and a later `.`. */
  ghost predicate MatchesEmailRegex(s: string) {
    exists at, dot ::
      && 0 < at && at + 1 < dot && dot + 1 < |s|
      && s[at] == '@' && s[dot] == '.'
      && AllAddressChars(s[..at])
      && AllAddressChars(s[at + 1..dot])
      && AllAddressChars(s[dot + 1..])
  }

  /** Position of the first `c` in `s`, or `|s|` when there is none. */
  function IndexOf(s: string, c: char): (i: nat)
    ensures i <= |s|
    ensures i < |s| ==> s[i] == c
    ensures forall j :: 0 <= j < i ==> s[j] != c
    decreases |s|
  {
    if s == [] then 0
    else if s[0] == c then 0
    else 1 + IndexOf(s[1..], c)
  }

  /** The domain holds a `.` that is neither its first nor its last character. */
  predicate HasInnerDot(domain: string) {
    exists k :: 0 < k < |domain| - 1 && domain[k] == '.'
  }

  /** The handler's address test, computed by splitting at the first `@`. */
  predicate IsEmailShaped(s: string): (ok: bool)
    ensures ok ==> 5 <= |s| && '@' in s && '.' in s
  {
    var at := IndexOf(s, '@');
    && 0 < at < |s|
    && AllAddressChars(s[..at])
    && AllAddressChars(s[at + 1..])
    && HasInnerDot(s[at + 1..])
  }

  /** The deterministic check accepts exactly the strings the regex matches. */
  lemma IsEmailShapedMatchesRegex(s: string)
    ensures IsEmailShaped(s) <==> MatchesEmailRegex(s)
  {
    if IsEmailShaped(s) {
      ShapedMatches(s);
    }
    if MatchesEmailRegex(s) {
      var at, dot :| && 0 < at && at + 1 < dot && dot + 1 < |s|
                     && s[at] == '@' && s[dot] == '.'
                     && AllAddressChars(s[..at])
                     && AllAddressChars(s[at + 1..dot])
                     && AllAddressChars(s[dot + 1..]);
      MatchIsShaped(s, at, dot);
    }
  }

  /** An accepted string splits at its first `@` and its inner dot as the regex requires. */
  lemma ShapedMatches(s: string)
    requires IsEmailShaped(s)
    ensures MatchesEmailRegex(s)
  {
    var at := IndexOf(s, '@');
    var domain := s[at + 1..];
    var k :| 0 < k < |domain| - 1 && domain[k] == '.';
    var dot := at + 1 + k;
    assert s[dot] == '.';
    assert s[at + 1..dot] == domain[..k];
    assert s[dot + 1..] == domain[k + 1..];
    assert AllAddressChars(s[at + 1..dot]);
    assert AllAddressChars(s[dot + 1..]);
  }

  /** A split the regex accepts has its `@` first, and its dot inside the domain. */
  lemma MatchIsShaped(s: string, at: nat, dot: nat)
    requires && 0 < at && at + 1 < dot && dot + 1 < |s|
             && s[at] == '@' && s[dot] == '.'
             && AllAddressChars(s[..at])
             && AllAddressChars(s[at + 1..dot])
             && AllAddressChars(s[dot + 1..])
    ensures IsEmailShaped(s)
  {
    assert forall j :: 0 <= j < at ==> s[..at][j] == s[j];
    assert IndexOf(s, '@') == at;
    var domain := s[at + 1..];
    forall i | 0 <= i < |domain|
      ensures IsAddressChar(domain[i])
    {
      if at + 1 + i < dot {
        assert domain[i] == s[at + 1..dot][i];
      } else if at + 1 + i > dot {
        assert domain[i] == s[dot + 1..][at + i - dot];
      }
    }
    assert domain[dot - at - 1] == '.';
  }

  /**
    The characterisation of accepted addresses: no whitespace, exactly one
    `@`, a non-empty local part before it, and a domain after it with a dot
    at neither its first nor its last position.
  */
  lemma EmailShapeCharacterisation(s: string)
    ensures IsEmailShaped(s) <==>
      && NoWhitespace(s)
      && Occurrences(s, '@') == 1
      && exists at :: 0 < at < |s| && s[at] == '@' && HasInnerDot(s[at + 1..])
  {
    if IsEmailShaped(s) {
      ShapedHasOneAtSign(s);
    }
    if && NoWhitespace(s)
       && Occurrences(s, '@') == 1
       && exists at :: 0 < at < |s| && s[at] == '@' && HasInnerDot(s[at + 1..])
    {
      var at :| 0 < at < |s| && s[at] == '@' && HasInnerDot(s[at + 1..]);
      OneAtSignIsShaped(s, at);
    }
  }

  /** An accepted address has no whitespace and one `@`, its first. */
  lemma ShapedHasOneAtSign(s: string)
    requires IsEmailShaped(s)
    ensures NoWhitespace(s) && Occurrences(s, '@') == 1
    ensures exists at :: 0 < at < |s| && s[at] == '@' && HasInnerDot(s[at + 1..])
  {
    var first := IndexOf(s, '@');
    SplitAtSign(s, first);
    assert 0 < first < |s| && s[first] == '@' && HasInnerDot(s[first + 1..]);
  }

  /** With only one `@`, that `@` is the first, so the check splits there. */
  lemma OneAtSignIsShaped(s: string, at: nat)
    requires NoWhitespace(s) && Occurrences(s, '@') == 1
    requires 0 < at < |s| && s[at] == '@' && HasInnerDot(s[at + 1..])
    ensures IsEmailShaped(s)
  {
    SplitAtSign(s, at);
    var first := IndexOf(s, '@');
    assert first <= at;
    assert forall j :: 0 <= j < at ==> s[j] == s[..at][j];
    assert first == at;
  }

  /**
    Around an `@` at position `at`, both sides are runs of `[^\s@]` exactly
    when the whole string has no whitespace and that `@` is its only one.
  */
  lemma SplitAtSign(s: string, at: nat)
    requires at < |s| && s[at] == '@'
    ensures AllAddressChars(s[..at]) && AllAddressChars(s[at + 1..])
        <==> NoWhitespace(s) && Occurrences(s, '@') == 1
  {
    var local, domain := s[..at], s[at + 1..];
    assert s == local + [s[at]] + domain;
    OccurrencesAppend(local + [s[at]], domain, '@');
    OccurrencesAppend(local, [s[at]], '@');
    OccurrencesZero(local, '@');
    OccurrencesZero(domain, '@');
    if AllAddressChars(local) && AllAddressChars(domain) {
      forall i | 0 <= i < |s| ensures !IsWhitespace(s[i]) {
        if i < at {
          assert s[i] == local[i];
        } else if i > at {
          assert s[i] == domain[i - at - 1];
        }
      }
    }
    if NoWhitespace(s) && Occurrences(s, '@') == 1 {
      forall i | 0 <= i < |local| ensures IsAddressChar(local[i]) {
        assert local[i] in local;
      }
      forall i | 0 <= i < |domain| ensures IsAddressChar(domain[i]) {
        assert domain[i] in domain;
      }
    }
  }

  /** An ordinary address is accepted. */
  lemma AcceptsPlainAddress()
    ensures IsEmailShaped("a@b.com")
  {
    var s := "a@b.com";
    assert IndexOf(s, '@') == 1;
    assert s[2..][1] == '.';
  }

  /** A dot that opens the domain is not an inner dot. */
  lemma RejectsLeadingDomainDot()
    ensures !IsEmailShaped("a@.com")
  {
    var s := "a@.com";
    assert IndexOf(s, '@') == 1;
    assert s[2..] == ".com";
  }

  /** A dot that closes the domain is not an inner dot. */
  lemma RejectsTrailingDomainDot()
    ensures !IsEmailShaped("a@b.")
  {
    var s := "a@b.";
    assert IndexOf(s, '@') == 1;
    assert s[2..] == "b.";
  }

  /** A second `@` is rejected. */
  lemma RejectsSecondAtSign()
    ensures !IsEmailShaped("a@b@c.d")
  {
    var s := "a@b@c.d";
    assert IndexOf(s, '@') == 1;
    assert s[2..][1] == '@';
  }
}
