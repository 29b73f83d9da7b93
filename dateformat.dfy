/** The date check of the JSON reviver in the file stores: a string is turned
    back into a date when it matches
    `/^\d{4}-\d{2}-\d{2}T\d{2}:\d{2}:\d{2}.\d{3}Z$/`. The `.` is not escaped,
    so it stands for any character but a line terminator. */
module DateFormat {

  /** What one position of the regular expression accepts. */
  datatype CharClass =
    | Digit                 // `\d`: an ASCII digit
    | AnyButLineTerminator  // `.` without the `s` and `u` flags
    | Literal(c: char)

  predicate IsDigit(c: char)
  {
    '0' <= c <= '9'
  }

  /** The characters `.` does not match: line feed, carriage return, line
      separator and paragraph separator. */
  predicate IsLineTerminator(c: char)
  {
    c == '\n' || c == '\r' || c == '\U{2028}' || c == '\U{2029}'
  }

  /** A character JavaScript stores as one UTF-16 code unit. Without the `u`
      flag `.` matches one code unit, so a character outside the Basic
      Multilingual Plane (two code units) is not matched by one `.`. */
  predicate IsOneCodeUnit(c: char)
  {
    c <= '\U{FFFF}'
  }

  predicate ClassAccepts(k: CharClass, c: char)
  {
    match k
    case Digit => IsDigit(c)
    case AnyButLineTerminator => !IsLineTerminator(c) && IsOneCodeUnit(c)
    case Literal(l) => c == l
  }

  /** The pattern between `^` and `$`, one class per character. */
  const DatePattern: seq<CharClass> := [
    Digit, Digit, Digit, Digit, Literal('-'), Digit, Digit, Literal('-'),
    Digit, Digit, Literal('T'), Digit, Digit, Literal(':'), Digit, Digit,
    Literal(':'), Digit, Digit, AnyButLineTerminator, Digit, Digit, Digit,
    Literal('Z')]

  /** An anchored match of a pattern without repetition or alternation. */
  predicate MatchesPattern(pattern: seq<CharClass>, s: string)
  {
    if pattern == [] then s == []
    else s != [] && ClassAccepts(pattern[0], s[0]) && MatchesPattern(pattern[1..], s[1..])
  }

  /** `dateFormat.test(s)`. */
  predicate IsDateString(s: string)
  {
    MatchesPattern(DatePattern, s)
  }

  /** An anchored match is a position-by-position match of equal length. */
  lemma {:induction false} MatchesPatternPointwise(pattern: seq<CharClass>, s: string)
    ensures MatchesPattern(pattern, s) <==>
      |s| == |pattern| && forall i :: 0 <= i < |s| ==> ClassAccepts(pattern[i], s[i])
  {
    if pattern != [] && s != [] {
      MatchesPatternPointwise(pattern[1..], s[1..]);
      if |s| == |pattern| && forall i :: 0 <= i < |s| ==> ClassAccepts(pattern[i], s[i]) {
        assert ClassAccepts(pattern[0], s[0]);
        forall i | 0 <= i < |s[1..]|
          ensures ClassAccepts(pattern[1..][i], s[1..][i])
        {
          assert ClassAccepts(pattern[i + 1], s[i + 1]);
        }
      }
    }
  }

  /** The shape the reviver accepts, written out: 24 characters, digits and
      separators at fixed places, and at index 19 any one-code-unit character
      but a line terminator. */
  predicate HasDateShape(s: string)
  {
    && |s| == 24
    && IsDigit(s[0]) && IsDigit(s[1]) && IsDigit(s[2]) && IsDigit(s[3])
    && s[4] == '-' && IsDigit(s[5]) && IsDigit(s[6])
    && s[7] == '-' && IsDigit(s[8]) && IsDigit(s[9])
    && s[10] == 'T' && IsDigit(s[11]) && IsDigit(s[12])
    && s[13] == ':' && IsDigit(s[14]) && IsDigit(s[15])
    && s[16] == ':' && IsDigit(s[17]) && IsDigit(s[18])
    && !IsLineTerminator(s[19]) && IsOneCodeUnit(s[19])
    && IsDigit(s[20]) && IsDigit(s[21]) && IsDigit(s[22])
    && s[23] == 'Z'
  }

  lemma ShapeFromPattern(s: string)
    requires |s| == 24
    requires forall i :: 0 <= i < 24 ==> ClassAccepts(DatePattern[i], s[i])
    ensures HasDateShape(s)
  {
  }

  lemma PatternFromShape(s: string)
    requires HasDateShape(s)
    ensures forall i :: 0 <= i < 24 ==> ClassAccepts(DatePattern[i], s[i])
  {
  }

  /** The regular expression accepts exactly the strings of that shape. */
  lemma DateStringShape(s: string)
    ensures IsDateString(s) <==> HasDateShape(s)
  {
    MatchesPatternPointwise(DatePattern, s);
    if IsDateString(s) {
      ShapeFromPattern(s);
    }
    if HasDateShape(s) {
      PatternFromShape(s);
    }
  }

  /** What `toISOString` writes is accepted. */
  lemma IsoStringAccepted()
    ensures IsDateString("2018-01-01T18:25:24.000Z")
  {
    var iso := "2018-01-01T18:25:24.000Z";
    assert HasDateShape(iso);
    DateStringShape(iso);
  }

  /** Because the dot is not escaped, any other character in its place is
      accepted too. */
  lemma UnescapedDot()
    ensures IsDateString("2018-01-01T18:25:24x000Z")
  {
    var other := "2018-01-01T18:25:24x000Z";
    assert HasDateShape(other);
    DateStringShape(other);
  }

  /** A line feed where the dot stands, a character of two code units there,
      or a missing `Z`, is refused. */
  lemma DateStringRefused()
    ensures !IsDateString("2018-01-01T18:25:24\n000Z")
    ensures !IsDateString("2018-01-01T18:25:24\U{1F600}000Z")
    ensures !IsDateString("2018-01-01T18:25:24.000")
  {
    var feed := "2018-01-01T18:25:24\n000Z";
    assert IsLineTerminator(feed[19]);
    DateStringShape(feed);
    var astral := "2018-01-01T18:25:24\U{1F600}000Z";
    assert !IsOneCodeUnit(astral[19]);
    DateStringShape(astral);
    DateStringShape("2018-01-01T18:25:24.000");
  }

  /** A parsed JSON leaf, before and after reviving. */
  datatype JsonValue =
    | JString(s: string)
    | JDate(iso: string)   // `new Date(iso)`; the parse itself is not modelled
    | JOther               // numbers, booleans, null, arrays and objects

  /** `reviver(key, value)`: a string of date shape becomes a date, anything
      else is returned as it came. */
  function Revive(v: JsonValue): (r: JsonValue)
    ensures r.JDate? <==> v.JDate? || (v.JString? && IsDateString(v.s))
    ensures !r.JDate? ==> r == v
    ensures r.JDate? && v.JString? ==> r.iso == v.s
  {
    if v.JString? && IsDateString(v.s) then JDate(v.s) else v
  }

  /** Reviving twice is reviving once. */
  lemma ReviveIdempotent(v: JsonValue)
    ensures Revive(Revive(v)) == Revive(v)
  {
  }
}
