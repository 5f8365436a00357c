/** The two fixed regular expressions of the board detection,
    `Hardware\s*:\s*(.*)` and `Revision\s*:\s*(.*)`, both of the shape
    `<key>\s*:\s*(.*)`, matched with the semantics of .NET's `Regex.Match`:
    the match is not anchored (the leftmost starting position wins), the
    key is compared case-sensitively, both `\s*` are greedy, and `.`
    matches every character except a newline. */
module FieldPattern {
  import opened Wrappers

  /** The pattern `<key>\s*:\s*(.*)`; it has exactly one capturing group. */
  datatype Pattern = Pattern(key: string)

  /** A successful match: the position where it starts and the value of group 1. */
  datatype Capture = Capture(index: nat, value: string)

  /** The characters of .NET's `\s` class, `[\f\n\r\t\v\x85\p{Z}]`, with the
      separator category `\p{Z}` listed as the current Unicode tables give it. */
  predicate IsWhitespace(c: char)
  {
    || c == '\t' || c == '\n' || c == '\U{000B}' || c == '\U{000C}' || c == '\r'
    || c == ' ' || c == '\U{0085}' || c == '\U{00A0}' || c == '\U{1680}'
    || ('\U{2000}' <= c <= '\U{200A}')
    || c == '\U{2028}' || c == '\U{2029}' || c == '\U{202F}' || c == '\U{205F}' || c == '\U{3000}'
  }

  predicate AllWhitespace(s: string)
  {
    forall k :: 0 <= k < |s| ==> IsWhitespace(s[k])
  }

  /** Where a greedy `\s*` tried at position `i` stops: the end of the
      longest run of whitespace starting there. */
  function WhitespaceRun(s: string, i: nat): (j: nat)
    requires i <= |s|
    ensures i <= j <= |s|
    ensures forall k :: i <= k < j ==> IsWhitespace(s[k])
    ensures j == |s| || !IsWhitespace(s[j])
    decreases |s| - i
  {
    if i < |s| && IsWhitespace(s[i]) then WhitespaceRun(s, i + 1) else i
  }

  /** Where `(.*)` tried at position `i` stops: the first newline at or after
      `i`, or the end of the text. */
  function LineEnd(s: string, i: nat): (j: nat)
    requires i <= |s|
    ensures i <= j <= |s|
    ensures forall k :: i <= k < j ==> s[k] != '\n'
    ensures j == |s| || s[j] == '\n'
    decreases |s| - i
  {
    if i < |s| && s[i] != '\n' then LineEnd(s, i + 1) else i
  }

  /** The key occurs in `s` at position `i`, compared case-sensitively. */
  predicate KeyAt(p: Pattern, s: string, i: nat)
  {
    i + |p.key| <= |s| && s[i..i + |p.key|] == p.key
  }

  /** The pattern tried with the match starting at position `i`: the key,
      then greedy `\s*`, a colon, greedy `\s*` and `(.*)`; the result is the
      value of group 1. Backtracking never helps: the `\s*` before the colon
      cannot give back a colon, and `(.*)` matches whatever the `\s*` after
      the colon leaves. */
  function MatchAt(p: Pattern, s: string, i: nat): (r: Option<string>)
    requires i <= |s|
    ensures r.Some? ==> KeyAt(p, s, i)
    ensures r.Some? ==> '\n' !in r.value && (r.value == [] || !IsWhitespace(r.value[0]))
  {
    if KeyAt(p, s, i) then
      var colon := WhitespaceRun(s, i + |p.key|);
      if colon < |s| && s[colon] == ':' then
        var valueStart := WhitespaceRun(s, colon + 1);
        Some(s[valueStart..LineEnd(s, valueStart)])
      else
        None
    else
      None
  }

  /** The pattern matches at no position from `lo` up to, not including, `hi`. */
  predicate NoMatchBetween(p: Pattern, s: string, lo: nat, hi: nat)
  {
    forall j :: lo <= j < hi && j <= |s| ==> MatchAt(p, s, j).None?
  }

  /** The leftmost match starting at or after position `start`. */
  function MatchFrom(p: Pattern, s: string, start: nat): (r: Option<Capture>)
    requires start <= |s|
    ensures r.Some? ==> start <= r.value.index <= |s| && MatchAt(p, s, r.value.index) == Some(r.value.value)
    ensures NoMatchBetween(p, s, start, if r.Some? then r.value.index else |s| + 1)
    decreases |s| - start
  {
    match MatchAt(p, s, start)
    case Some(v) => Some(Capture(start, v))
    case None => if start == |s| then None else MatchFrom(p, s, start + 1)
  }

  /** `Regex.Match(s)`: the leftmost position where the pattern matches, with
      its capture; `None` when `Success` is false. */
  function Match(p: Pattern, s: string): (r: Option<Capture>)
    ensures r.Some? ==> r.value.index <= |s| && MatchAt(p, s, r.value.index) == Some(r.value.value)
    ensures NoMatchBetween(p, s, 0, if r.Some? then r.value.index else |s| + 1)
  {
    MatchFrom(p, s, 0)
  }

  /** A line laid out as `<key><before>:<after><value><rest>`. */
  function Field(key: string, before: string, after: string, value: string, rest: string): string
  {
    key + before + [':'] + after + value + rest
  }

  /** The layouts for which the pattern captures exactly `value`: only
      whitespace around the colon, the value ends at a newline or at the end,
      and the value does not itself start with whitespace (the greedy `\s*`
      would take it). */
  predicate WellFormedField(before: string, after: string, value: string, rest: string)
  {
    && AllWhitespace(before)
    && AllWhitespace(after)
    && '\n' !in value
    && (rest == [] || rest[0] == '\n')
    && (value + rest == [] || !IsWhitespace((value + rest)[0]))
  }

  /** The greedy `\s*` stops exactly at the first non-whitespace character. */
  lemma WhitespaceRunEndsAt(s: string, i: nat, j: nat)
    requires i <= j <= |s|
    requires forall k :: i <= k < j ==> IsWhitespace(s[k])
    requires j == |s| || !IsWhitespace(s[j])
    ensures WhitespaceRun(s, i) == j
  {
  }

  /** `(.*)` stops exactly at the first newline. */
  lemma LineEndAt(s: string, i: nat, j: nat)
    requires i <= j <= |s|
    requires forall k :: i <= k < j ==> s[k] != '\n'
    requires j == |s| || s[j] == '\n'
    ensures LineEnd(s, i) == j
  {
  }

  /** The match at position `i`, read off the positions of its parts. */
  lemma MatchAtParts(p: Pattern, s: string, i: nat, colon: nat, valueStart: nat, valueEnd: nat)
    requires i + |p.key| <= colon < valueStart <= valueEnd <= |s|
    requires s[i..i + |p.key|] == p.key
    requires forall k :: i + |p.key| <= k < colon ==> IsWhitespace(s[k])
    requires s[colon] == ':'
    requires forall k :: colon < k < valueStart ==> IsWhitespace(s[k])
    requires valueStart == |s| || !IsWhitespace(s[valueStart])
    requires forall k :: valueStart <= k < valueEnd ==> s[k] != '\n'
    requires valueEnd == |s| || s[valueEnd] == '\n'
    ensures MatchAt(p, s, i) == Some(s[valueStart..valueEnd])
  {
    WhitespaceRunEndsAt(s, i + |p.key|, colon);
    WhitespaceRunEndsAt(s, colon + 1, valueStart);
    LineEndAt(s, valueStart, valueEnd);
  }

  /** Reading a well-formed field back gives the value it was written with. */
  lemma MatchAtField(p: Pattern, before: string, after: string, value: string, rest: string)
    requires WellFormedField(before, after, value, rest)
    ensures MatchAt(p, Field(p.key, before, after, value, rest), 0) == Some(value)
  {
    var tail := value + rest;
    var s := p.key + before + [':'] + after + tail;
    assert s == Field(p.key, before, after, value, rest);
    var colon := |p.key| + |before|;
    var valueStart := colon + 1 + |after|;
    var valueEnd := valueStart + |value|;
    assert s[..valueStart] == p.key + before + [':'] + after;
    assert s[valueStart..] == tail;
    assert s[valueStart..valueEnd] == value;
    MatchAtParts(p, s, 0, colon, valueStart, valueEnd);
  }

  /** Cutting a line before the key, at the colon and around the value and
      putting the pieces back together gives the line. */
  lemma FieldOfPieces(s: string, i: nat, keyEnd: nat, colon: nat, valueStart: nat, valueEnd: nat)
    requires i <= keyEnd <= colon < valueStart <= valueEnd <= |s|
    requires s[colon] == ':'
    ensures s == s[..i] + Field(s[i..keyEnd], s[keyEnd..colon], s[colon + 1..valueStart], s[valueStart..valueEnd], s[valueEnd..])
  {
    assert s[colon..colon + 1] == [':'];
    assert s == s[..i] + (s[i..keyEnd] + s[keyEnd..colon] + s[colon..colon + 1] + s[colon + 1..valueStart] + s[valueStart..valueEnd] + s[valueEnd..]);
  }

  /** The pieces around a colon form a well-formed field when the padding is
      whitespace and the value runs from the first non-whitespace character
      to the first newline. */
  lemma WellFormedPieces(s: string, keyEnd: nat, colon: nat, valueStart: nat, valueEnd: nat)
    requires keyEnd <= colon < valueStart <= valueEnd <= |s|
    requires forall k :: keyEnd <= k < colon ==> IsWhitespace(s[k])
    requires forall k :: colon < k < valueStart ==> IsWhitespace(s[k])
    requires valueStart == |s| || !IsWhitespace(s[valueStart])
    requires forall k :: valueStart <= k < valueEnd ==> s[k] != '\n'
    requires valueEnd == |s| || s[valueEnd] == '\n'
    ensures WellFormedField(s[keyEnd..colon], s[colon + 1..valueStart], s[valueStart..valueEnd], s[valueEnd..])
  {
    assert s[valueStart..valueEnd] + s[valueEnd..] == s[valueStart..];
  }

  /** The positions of the colon and of the captured value in a match at `i`. */
  lemma MatchAtPositions(p: Pattern, s: string, i: nat) returns (colon: nat, valueStart: nat, valueEnd: nat)
    requires i <= |s| && MatchAt(p, s, i).Some?
    ensures i + |p.key| <= colon < valueStart <= valueEnd <= |s|
    ensures s[i..i + |p.key|] == p.key
    ensures forall k :: i + |p.key| <= k < colon ==> IsWhitespace(s[k])
    ensures s[colon] == ':'
    ensures forall k :: colon < k < valueStart ==> IsWhitespace(s[k])
    ensures valueStart == |s| || !IsWhitespace(s[valueStart])
    ensures forall k :: valueStart <= k < valueEnd ==> s[k] != '\n'
    ensures valueEnd == |s| || s[valueEnd] == '\n'
    ensures MatchAt(p, s, i) == Some(s[valueStart..valueEnd])
  {
    colon := WhitespaceRun(s, i + |p.key|);
    valueStart := WhitespaceRun(s, colon + 1);
    valueEnd := LineEnd(s, valueStart);
  }

  /** Every match, at whatever position `i` the unanchored search finds it,
      is a well-formed field that follows the text before `i`: the converse
      of MatchAtField. */
  lemma MatchAtIsField(p: Pattern, s: string, i: nat)
    requires i <= |s| && MatchAt(p, s, i).Some?
    ensures exists before, after, rest ::
      && WellFormedField(before, after, MatchAt(p, s, i).value, rest)
      && s == s[..i] + Field(p.key, before, after, MatchAt(p, s, i).value, rest)
  {
    var colon, valueStart, valueEnd := MatchAtPositions(p, s, i);
    var keyEnd := i + |p.key|;
    var before, after, value, rest := s[keyEnd..colon], s[colon + 1..valueStart], s[valueStart..valueEnd], s[valueEnd..];
    FieldOfPieces(s, i, keyEnd, colon, valueStart, valueEnd);
    WellFormedPieces(s, keyEnd, colon, valueStart, valueEnd);
    assert WellFormedField(before, after, value, rest) && s == s[..i] + Field(p.key, before, after, value, rest);
  }



  /** A field at the start of a line is what `Regex.Match` finds, at position 0. */
  lemma MatchField(p: Pattern, before: string, after: string, value: string, rest: string)
    requires WellFormedField(before, after, value, rest)
    ensures Match(p, Field(p.key, before, after, value, rest)) == Some(Capture(0, value))
  {
    MatchAtField(p, before, after, value, rest);
  }

  /** A text in which the key occurs nowhere does not match. */
  lemma NoKeyNoMatch(p: Pattern, s: string)
    requires forall i :: 0 <= i <= |s| ==> !KeyAt(p, s, i)
    ensures Match(p, s) == None
  {
  }

  /** A text without a colon does not match. */
  lemma NoColonNoMatch(p: Pattern, s: string)
    requires ':' !in s
    ensures Match(p, s) == None
  {
  }

  /** A text without the first character of the key does not match. */
  lemma NoKeyStartNoMatch(p: Pattern, s: string)
    requires p.key != [] && p.key[0] !in s
    ensures Match(p, s) == None
  {
  }
}
