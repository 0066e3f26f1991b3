/** The UUID pattern both experiment handlers test a user id against:
    `/^[0-9a-f]{8}-[0-9a-f]{4}-[0-9a-f]{4}-[0-9a-f]{4}-[0-9a-f]{12}$/i`.

    The pattern is a fixed sequence of single-character classes (each
    `{n}` expands to n copies of its class) anchored at both ends, so it
    is modelled as that sequence and a matcher that consumes one character
    per class and requires the input to end exactly where the pattern
    does. */
module Uuid {
  import Strings

  /** A single-character class of the pattern: `[0-9a-f]` under the `i`
      flag, or a literal character. */
  datatype CharClass = HexDigit | Literal(c: char)

  /** `[0-9a-f]` with the case-insensitive flag: the ten digits and the
      letters a-f in either case, and nothing else. */
  predicate IsHexDigit(c: char) {
    '0' <= c <= '9' || 'a' <= c <= 'f' || 'A' <= c <= 'F'
  }

  predicate ClassMatches(cls: CharClass, c: char) {
    match cls
    case HexDigit => IsHexDigit(c)
    case Literal(l) => c == l
  }

  /** `cls{n}`. */
  function Repeat(cls: CharClass, n: nat): seq<CharClass> {
    seq(n, _ => cls)
  }

  /** The five hex groups of 8, 4, 4, 4 and 12 digits separated by '-'. */
  function UuidPattern(): seq<CharClass> {
    Repeat(HexDigit, 8) + [Literal('-')] + Repeat(HexDigit, 4) + [Literal('-')]
    + Repeat(HexDigit, 4) + [Literal('-')] + Repeat(HexDigit, 4) + [Literal('-')]
    + Repeat(HexDigit, 12)
  }

  /** Anchored matching (`^` … `$`, no multiline flag): each class consumes
      one character and no character may be left over. */
  function Matches(s: string, p: seq<CharClass>): bool
    decreases |p|
  {
    if p == [] then s == []
    else s != [] && ClassMatches(p[0], s[0]) && Matches(s[1..], p[1..])
  }

  /** `uuidRegex.test(s)`. */
  predicate IsUuid(s: string) {
    Matches(s, UuidPattern())
  }

  /** The indices of the four hyphens. */
  predicate IsHyphenIndex(i: int) {
    i == 8 || i == 13 || i == 18 || i == 23
  }

  /** A string matches a class sequence iff it has one character per class
      and each character matches its class. */
  lemma {:induction false} MatchesIff(s: string, p: seq<CharClass>)
    ensures Matches(s, p) <==> |s| == |p| && forall i :: 0 <= i < |s| ==> ClassMatches(p[i], s[i])
    decreases |p|
  {
    if p != [] && s != [] {
      MatchesIff(s[1..], p[1..]);
      assert forall i :: 1 <= i < |s| ==> s[1..][i - 1] == s[i];
    }
  }

  /** The pattern is 36 classes long, a hyphen at each hyphen index and a hex
      digit everywhere else. */
  lemma UuidPatternLayout()
    ensures |UuidPattern()| == 36
    ensures forall i :: 0 <= i < 36 ==>
              UuidPattern()[i] == if IsHyphenIndex(i) then Literal('-') else HexDigit
  {
    var p := UuidPattern();
    forall i | 0 <= i < 36
      ensures p[i] == if IsHyphenIndex(i) then Literal('-') else HexDigit
    {
      if i < 8 { assert p[i] == Repeat(HexDigit, 8)[i]; }
      else if i == 8 { }
      else if i < 13 { assert p[i] == Repeat(HexDigit, 4)[i - 9]; }
      else if i == 13 { }
      else if i < 18 { assert p[i] == Repeat(HexDigit, 4)[i - 14]; }
      else if i == 18 { }
      else if i < 23 { assert p[i] == Repeat(HexDigit, 4)[i - 19]; }
      else if i == 23 { }
      else { assert p[i] == Repeat(HexDigit, 12)[i - 24]; }
    }
  }

  /** The positional reading of the pattern: exactly 36 characters, '-' at
      indices 8, 13, 18 and 23, a hex digit of either case everywhere else.
      No version or variant nibble is constrained. */
  predicate UuidShape(s: string) {
    |s| == 36
    && forall i :: 0 <= i < 36 ==> if IsHyphenIndex(i) then s[i] == '-' else IsHexDigit(s[i])
  }

  lemma IsUuidIff(s: string)
    ensures IsUuid(s) <==> UuidShape(s)
  {
    MatchesIff(s, UuidPattern());
    UuidPatternLayout();
    if UuidShape(s) {
      forall i | 0 <= i < |s| ensures ClassMatches(UuidPattern()[i], s[i]) {
      }
    }
  }

  predicate AllHex(g: string) {
    forall i :: 0 <= i < |g| ==> IsHexDigit(g[i])
  }

  /** Five hex groups of 8, 4, 4, 4 and 12 digits joined by '-' form a UUID,
      whatever the digits are. */
  lemma GroupsAccepted(a: string, b: string, c: string, d: string, e: string)
    requires |a| == 8 && |b| == 4 && |c| == 4 && |d| == 4 && |e| == 12
    requires AllHex(a) && AllHex(b) && AllHex(c) && AllHex(d) && AllHex(e)
    ensures IsUuid(a + "-" + b + "-" + c + "-" + d + "-" + e)
  {
    var s := a + "-" + b + "-" + c + "-" + d + "-" + e;
    forall i | 0 <= i < 36
      ensures if IsHyphenIndex(i) then s[i] == '-' else IsHexDigit(s[i])
    {
      if i < 8 { assert s[i] == a[i]; }
      else if i == 8 { }
      else if i < 13 { assert s[i] == b[i - 9]; }
      else if i == 13 { }
      else if i < 18 { assert s[i] == c[i - 14]; }
      else if i == 18 { }
      else if i < 23 { assert s[i] == d[i - 19]; }
      else if i == 23 { }
      else { assert s[i] == e[i - 24]; }
    }
    IsUuidIff(s);
  }

  /** Joins five groups with '-' and states which literal that gives. */
  lemma JoinedIs(a: string, b: string, c: string, d: string, e: string, s: string)
    requires |a| + |b| + |c| + |d| + |e| + 4 == |s|
    requires forall i :: 0 <= i < |s| ==> (a + "-" + b + "-" + c + "-" + d + "-" + e)[i] == s[i]
    ensures a + "-" + b + "-" + c + "-" + d + "-" + e == s
  {
  }

  /** The nil UUID is accepted: no version or variant nibble is checked. */
  lemma NilUuidAccepted()
    ensures IsUuid("00000000-0000-0000-0000-000000000000")
  {
    JoinedIs("00000000", "0000", "0000", "0000", "000000000000", "00000000-0000-0000-0000-000000000000");
    GroupsAccepted("00000000", "0000", "0000", "0000", "000000000000");
  }

  /** Upper-case hex digits are accepted. */
  lemma UpperCaseAccepted()
    ensures IsUuid("123E4567-E89B-12D3-A456-426614174000")
  {
    JoinedIs("123E4567", "E89B", "12D3", "A456", "426614174000", "123E4567-E89B-12D3-A456-426614174000");
    GroupsAccepted("123E4567", "E89B", "12D3", "A456", "426614174000");
  }

  /** The unhyphenated form, braces, a trailing newline, a non-hex letter and
      free text are all refused. */
  lemma RejectedExamples()
    ensures !IsUuid("123e4567e89b12d3a456426614174000")
    ensures !IsUuid("{123e4567-e89b-12d3-a456-426614174000}")
    ensures !IsUuid("123e4567-e89b-12d3-a456-426614174000\n")
    ensures !IsUuid("g23e4567-e89b-12d3-a456-426614174000")
    ensures !IsUuid("not-a-uuid")
    ensures !IsUuid("")
  {
    IsUuidIff("123e4567e89b12d3a456426614174000");
    IsUuidIff("{123e4567-e89b-12d3-a456-426614174000}");
    IsUuidIff("123e4567-e89b-12d3-a456-426614174000\n");
    IsUuidIff("g23e4567-e89b-12d3-a456-426614174000");
    assert !UuidShape("g23e4567-e89b-12d3-a456-426614174000") by {
      assert !IsHexDigit("g23e4567-e89b-12d3-a456-426614174000"[0]);
    }
    IsUuidIff("not-a-uuid");
    IsUuidIff("");
  }

  /** Whether two UUID strings denote the same UUID value, as the database
      compares its `uuid` column: hex digits compare without regard to case. */
  predicate SameUuid(a: string, b: string) {
    Strings.Lower(a) == Strings.Lower(b)
  }

  /** Between strings written in lower case, the same UUID value means the
      same string. */
  lemma SameUuidLowerCase(a: string, b: string)
    requires Strings.HasNoUpper(a) && Strings.HasNoUpper(b)
    ensures SameUuid(a, b) <==> a == b
  {
    Strings.LowerFixes(a);
    Strings.LowerFixes(b);
  }
}
