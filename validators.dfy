/** The input checks of the bot: is_valid_name, is_valid_email, is_valid_phone,
    is_positive_amount, the duration menu and the case-insensitive "yes". */
module Validators {
  import opened Wrappers

  // ---------------------------------------------------------------------
  // is_valid_name: something is left once surrounding whitespace is stripped
  // ---------------------------------------------------------------------

  /** The characters Python's str.isspace() accepts (and str.strip() removes). */
  predicate IsSpace(c: char) {
    c == ' ' || ('\t' <= c <= '\r') || ('\U{1C}' <= c <= '\U{1F}')
    || c == '\U{85}' || c == '\U{A0}' || c == '\U{1680}'
    || ('\U{2000}' <= c <= '\U{200A}') || c == '\U{2028}' || c == '\U{2029}'
    || c == '\U{202F}' || c == '\U{205F}' || c == '\U{3000}'
  }

  /** s with its leading whitespace removed. */
  function StripLeft(s: string): (r: string)
    ensures |r| <= |s| && r == s[|s| - |r|..]
    ensures r == [] || !IsSpace(r[0])
    ensures forall i :: 0 <= i < |s| - |r| ==> IsSpace(s[i])
  {
    if s == [] || !IsSpace(s[0]) then s else StripLeft(s[1..])
  }

  /** s with its trailing whitespace removed. */
  function StripRight(s: string): (r: string)
    ensures |r| <= |s| && r == s[..|r|]
    ensures r == [] || !IsSpace(r[|r| - 1])
    ensures forall i :: |r| <= i < |s| ==> IsSpace(s[i])
  {
    if s == [] || !IsSpace(s[|s| - 1]) then s else StripRight(s[..|s| - 1])
  }

  /** Python's str.strip() with no argument. */
  function Strip(s: string): string {
    StripRight(StripLeft(s))
  }

  predicate IsValidName(name: string) {
    |Strip(name)| > 0
  }

  /** A name is accepted exactly when it holds a character that is not whitespace. */
  lemma ValidNameIffNonSpace(name: string)
    ensures IsValidName(name) <==> exists i :: 0 <= i < |name| && !IsSpace(name[i])
  {
    var left := StripLeft(name);
    var r := StripRight(left);
    if IsValidName(name) {
      var k := |name| - |left| + |r| - 1;
      assert r[|r| - 1] == left[|r| - 1] == name[k];
    } else {
      forall i | 0 <= i < |name| ensures IsSpace(name[i]) {
        if i >= |name| - |left| {
          assert name[i] == left[i - (|name| - |left|)];
        }
      }
    }
  }

  // ---------------------------------------------------------------------
  // is_valid_email: a full match of the address pattern, local@domain.suffix
  // ---------------------------------------------------------------------

  /** The regular expression class \w, restricted to ASCII. */
  predicate IsWordChar(c: char) {
    ('a' <= c <= 'z') || ('A' <= c <= 'Z') || ('0' <= c <= '9') || c == '_'
  }

  /** The regular expression class [\w\.-]. */
  predicate IsNameChar(c: char) {
    IsWordChar(c) || c == '.' || c == '-'
  }

  predicate AllWord(s: string) {
    forall i :: 0 <= i < |s| ==> IsWordChar(s[i])
  }

  predicate AllNameChars(s: string) {
    forall i :: 0 <= i < |s| ==> IsNameChar(s[i])
  }

  /** The language of [\w\.-]+@[\w\.-]+\.\w+ : a non-empty local part, one '@', a non-empty
      domain part, a '.', and a non-empty run of word characters to the end. */
  ghost predicate InEmailLanguage(s: string) {
    exists at, dot :: 0 < at && at + 1 < dot < |s| - 1 && s[at] == '@' && s[dot] == '.'
      && AllNameChars(s[..at]) && AllNameChars(s[at + 1..dot]) && AllWord(s[dot + 1..])
  }

  /** Python's `$` also matches just before one final newline. */
  ghost predicate MatchesEmailRegex(s: string) {
    InEmailLanguage(s) || (|s| > 0 && s[|s| - 1] == '\n' && InEmailLanguage(s[..|s| - 1]))
  }

  /** Index of the first occurrence of c in s. */
  function IndexOf(s: string, c: char): (r: Option<nat>)
    ensures r.Some? ==> r.value < |s| && s[r.value] == c && forall j :: 0 <= j < r.value ==> s[j] != c
    ensures r.None? ==> forall j :: 0 <= j < |s| ==> s[j] != c
  {
    if s == [] then None
    else if s[0] == c then Some(0)
    else match IndexOf(s[1..], c)
      case None => None
      case Some(k) => Some(k + 1)
  }

  /** Index of the last occurrence of c in s. */
  function LastIndexOf(s: string, c: char): (r: Option<nat>)
    ensures r.Some? ==> r.value < |s| && s[r.value] == c && forall j :: r.value < j < |s| ==> s[j] != c
    ensures r.None? ==> forall j :: 0 <= j < |s| ==> s[j] != c
  {
    if s == [] then None
    else if s[|s| - 1] == c then Some(|s| - 1)
    else LastIndexOf(s[..|s| - 1], c)
  }

  /** Does the domain part (after '@') match [\w\.-]+\.\w+ to its end? The backtracking
      matcher can only end on the last '.', since \w does not contain '.'. */
  predicate DomainMatches(d: string) {
    match LastIndexOf(d, '.')
    case None => false
    case Some(dot) => 0 < dot < |d| - 1 && AllNameChars(d[..dot]) && AllWord(d[dot + 1..])
  }

  /** Does s match [\w\.-]+@[\w\.-]+\.\w+ in full? The first '@' ends the local part,
      since the class [\w\.-] does not contain '@'. */
  predicate MatchesEmailPattern(s: string) {
    match IndexOf(s, '@')
    case None => false
    case Some(at) => 0 < at && AllNameChars(s[..at]) && DomainMatches(s[at + 1..])
  }

  predicate IsValidEmail(email: string) {
    MatchesEmailPattern(email)
    || (|email| > 0 && email[|email| - 1] == '\n' && MatchesEmailPattern(email[..|email| - 1]))
  }

  /** What the executable check accepts is in the language of the pattern. */
  lemma PatternSound(s: string)
    requires MatchesEmailPattern(s)
    ensures InEmailLanguage(s)
  {
    var at := IndexOf(s, '@').value;
    var d := s[at + 1..];
    var k := LastIndexOf(d, '.').value;
    var dot := at + 1 + k;
    assert s[at + 1..dot] == d[..k];
    assert s[dot + 1..] == d[k + 1..];
    assert s[dot] == d[k];
  }

  /** The first occurrence of c is at k when s[k] is c and nothing before it is. */
  lemma IndexOfAt(s: string, c: char, k: nat)
    requires k < |s| && s[k] == c && forall j :: 0 <= j < k ==> s[j] != c
    ensures IndexOf(s, c) == Some(k)
  {
  }

  /** The last occurrence of c is at k when s[k] is c and nothing after it is. */
  lemma LastIndexOfAt(s: string, c: char, k: nat)
    requires k < |s| && s[k] == c && forall j :: k < j < |s| ==> s[j] != c
    ensures LastIndexOf(s, c) == Some(k)
  {
  }

  /** Everything in the language of the pattern passes the executable check. */
  lemma PatternComplete(s: string, at: int, dot: int)
    requires 0 < at && at + 1 < dot < |s| - 1 && s[at] == '@' && s[dot] == '.'
    requires AllNameChars(s[..at]) && AllNameChars(s[at + 1..dot]) && AllWord(s[dot + 1..])
    ensures MatchesEmailPattern(s)
  {
    var local, domain, suffix := s[..at], s[at + 1..dot], s[dot + 1..];
    assert forall j :: 0 <= j < at ==> s[j] == local[j];
    IndexOfAt(s, '@', at);
    var d := s[at + 1..];
    var k := dot - at - 1;
    assert forall j :: k < j < |d| ==> d[j] == suffix[j - k - 1];
    LastIndexOfAt(d, '.', k);
    assert forall j :: 0 <= j < k ==> d[..k][j] == domain[j];
    assert d[..k] == domain;
    assert forall j :: 0 <= j < |suffix| ==> d[k + 1..][j] == suffix[j];
    assert d[k + 1..] == suffix;
  }

  /** The executable check decides exactly the language of the pattern. */
  lemma PatternIffLanguage(s: string)
    ensures MatchesEmailPattern(s) <==> InEmailLanguage(s)
  {
    if MatchesEmailPattern(s) {
      PatternSound(s);
    }
    if InEmailLanguage(s) {
      var at, dot :| 0 < at && at + 1 < dot < |s| - 1 && s[at] == '@' && s[dot] == '.'
        && AllNameChars(s[..at]) && AllNameChars(s[at + 1..dot]) && AllWord(s[dot + 1..]);
      PatternComplete(s, at, dot);
    }
  }

  /** is_valid_email accepts exactly the strings re.match accepts with this pattern. */
  lemma ValidEmailIffRegex(email: string)
    ensures IsValidEmail(email) <==> MatchesEmailRegex(email)
  {
    PatternIffLanguage(email);
    if |email| > 0 {
      PatternIffLanguage(email[..|email| - 1]);
    }
  }

  // ---------------------------------------------------------------------
  // is_valid_phone: only digits, between 10 and 15 of them
  // ---------------------------------------------------------------------

  predicate IsDigit(c: char) {
    '0' <= c <= '9'
  }

  /** Every character is a decimal digit (scanned left to right). */
  predicate AllDigits(s: string) {
    s == [] || (IsDigit(s[0]) && AllDigits(s[1..]))
  }

  /** Python's str.isdigit(): non-empty and all digits. */
  predicate IsDigitString(s: string) {
    |s| > 0 && AllDigits(s)
  }

  predicate IsValidPhone(phone: string) {
    IsDigitString(phone) && 10 <= |phone| <= 15
  }

  lemma {:induction false} AllDigitsIff(s: string)
    ensures AllDigits(s) <==> forall i :: 0 <= i < |s| ==> IsDigit(s[i])
  {
    if s != [] {
      AllDigitsIff(s[1..]);
      assert forall i :: 1 <= i < |s| ==> s[i] == s[1..][i - 1];
    }
  }

  /** A phone number is accepted exactly when it is 10 to 15 characters, all digits; it is
      not normalised in any way. */
  lemma ValidPhoneIff(phone: string)
    ensures IsValidPhone(phone) <==> 10 <= |phone| <= 15 && forall i :: 0 <= i < |phone| ==> IsDigit(phone[i])
  {
    AllDigitsIff(phone);
  }

  // ---------------------------------------------------------------------
  // is_positive_amount: the text parses as a number and that number is above zero
  // ---------------------------------------------------------------------

  /** `parsed` is what float() made of the text: None when it raised ValueError. */
  predicate IsPositiveAmount(parsed: Option<real>) {
    parsed.Some? && parsed.value > 0.0
  }

  // ---------------------------------------------------------------------
  // The loan duration menu and the confirmation reply
  // ---------------------------------------------------------------------

  /** The three durations the menu offers, as typed. */
  predicate IsDurationText(text: string) {
    text == "3" || text == "6" || text == "12"
  }

  /** int(duration_text) for an accepted duration. */
  function DurationOf(text: string): (d: int)
    requires IsDurationText(text)
    ensures d in {3, 6, 12}
  {
    if text == "3" then 3 else if text == "6" then 6 else 12
  }

  function LowerChar(c: char): char {
    if 'A' <= c <= 'Z' then (c as int + 32) as char else c
  }

  /** str.lower() on ASCII letters; other characters are kept as they are. */
  function Lower(s: string): (r: string)
    ensures |r| == |s| && forall i :: 0 <= i < |s| ==> r[i] == LowerChar(s[i])
  {
    if s == [] then [] else [LowerChar(s[0])] + Lower(s[1..])
  }

  /** The reply, lower-cased, is the word yes. */
  predicate IsYes(text: string) {
    Lower(text) == "yes"
  }

  /** Only a three-letter "yes" in any mix of cases confirms. */
  lemma IsYesIff(text: string)
    ensures IsYes(text) <==>
      (|text| == 3 && (text[0] == 'y' || text[0] == 'Y')
       && (text[1] == 'e' || text[1] == 'E') && (text[2] == 's' || text[2] == 'S'))
  {
    if |text| == 3 {
      var l := Lower(text);
      if l[0] == 'y' && l[1] == 'e' && l[2] == 's' {
        assert l == "yes";
      }
    }
  }
}
