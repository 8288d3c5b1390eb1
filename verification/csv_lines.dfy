/**
 * How both map readers see a line of a map file: comment and blank lines are skipped, and a
 * data line is cut at every comma into trimmed tokens (`line.split(",")` followed by
 * `String.trim` on each part).
 */
module CsvLines {

  /** `Character.isWhitespace`: the ASCII controls it names and the Unicode space, line and paragraph separators other than the non-breaking ones. */
  predicate IsWhitespace(c: char)
  {
    || c == ' ' || c == '\t' || c == '\n' || c == '\U{B}' || c == '\U{C}' || c == '\r'
    || ('\U{1C}' <= c <= '\U{1F}')
    || c == '\U{1680}' || ('\U{2000}' <= c <= '\U{2006}') || ('\U{2008}' <= c <= '\U{200A}')
    || c == '\U{2028}' || c == '\U{2029}' || c == '\U{205F}' || c == '\U{3000}'
  }

  /** `line.isBlank()`: empty or whitespace only. */
  predicate IsBlank(line: string)
  {
    forall i | 0 <= i < |line| :: IsWhitespace(line[i])
  }

  /** `line.startsWith("#")`. */
  predicate IsComment(line: string)
  {
    |line| > 0 && line[0] == '#'
  }

  /** A line both readers skip without looking at it. */
  predicate Skipped(line: string)
  {
    IsComment(line) || IsBlank(line)
  }

  /** The number of leading characters `String.trim` removes: each is at most a space. */
  function LeadingSpace(s: string): (n: nat)
    ensures n <= |s|
    ensures forall k | 0 <= k < n :: s[k] <= ' '
    ensures n < |s| ==> s[n] > ' '
  {
    if s == [] || s[0] > ' ' then 0 else 1 + LeadingSpace(s[1..])
  }

  /** The length `String.trim` keeps before removing trailing characters that are at most a space. */
  function TrailingEnd(s: string): (n: nat)
    ensures n <= |s|
    ensures forall k | n <= k < |s| :: s[k] <= ' '
    ensures n > 0 ==> s[n - 1] > ' '
  {
    if s == [] || s[|s| - 1] > ' ' then |s| else TrailingEnd(s[..|s| - 1])
  }

  /** `s.trim()`: `s` without the characters up to and including the space at either end. */
  function Trim(s: string): (r: string)
    ensures r == [] || (r[0] > ' ' && r[|r| - 1] > ' ')
    ensures |r| <= |s| && forall k | 0 <= k < |r| :: r[k] in s
  {
    var a := LeadingSpace(s);
    var b := TrailingEnd(s);
    if a <= b then s[a..b] else []
  }

  /** Trimming what is already trimmed changes nothing, and what is cut off is only space. */
  lemma TrimIdempotent(s: string)
    ensures Trim(Trim(s)) == Trim(s)
    ensures exists a, b | 0 <= a <= b <= |s| ::
      && Trim(s) == s[a..b]
      && (forall k | 0 <= k < a :: s[k] <= ' ')
      && (forall k | b <= k < |s| :: s[k] <= ' ')
  {
    var t := Trim(s);
    var a, b := LeadingSpace(s), TrailingEnd(s);
    if a <= b {
      assert Trim(s) == s[a..b];
    } else {
      assert forall k | 0 <= k < |s| :: s[k] <= ' ';
      assert Trim(s) == s[0..0];
    }
    assert LeadingSpace(t) == 0;
    assert TrailingEnd(t) == |t|;
  }

  /** The parts of `s` between its commas, all of them, including empty ones. */
  function Fields(s: string): (r: seq<string>)
    ensures |r| >= 1
    ensures forall i | 0 <= i < |r| :: ',' !in r[i]
  {
    if s == [] then [[]]
    else
      var rest := Fields(s[1..]);
      if s[0] == ',' then [[]] + rest
      else [[s[0]] + rest[0]] + rest[1..]
  }

  /** The fields put back together with a comma between neighbours. */
  function Join(fields: seq<string>): string
  {
    if fields == [] then []
    else if |fields| == 1 then fields[0]
    else fields[0] + [','] + Join(fields[1..])
  }

  /** Cutting at the commas loses nothing: joining the fields again gives the line back. */
  lemma {:induction false} JoinFields(s: string)
    ensures Join(Fields(s)) == s
  {
    if s != [] {
      var rest := Fields(s[1..]);
      JoinFields(s[1..]);
      if s[0] != ',' {
        if |rest| == 1 {
          assert s == [s[0]] + rest[0];
        } else {
          assert Join(rest) == rest[0] + [','] + Join(rest[1..]);
          assert s == [s[0]] + s[1..];
        }
      }
    }
  }

  /** Comma-free fields joined and cut again are the same fields. */
  lemma {:induction false} FieldsOfJoin(fields: seq<string>)
    requires |fields| >= 1 && forall i | 0 <= i < |fields| :: ',' !in fields[i]
    ensures Fields(Join(fields)) == fields
  {
    if |fields| == 1 {
      FieldsOfCommaFree(fields[0]);
    } else {
      FieldsOfJoin(fields[1..]);
      FieldsAfterPrefix(fields[0], Join(fields[1..]));
    }
  }

  /** A comma-free string is one field. */
  lemma {:induction false} FieldsOfCommaFree(s: string)
    requires ',' !in s
    ensures Fields(s) == [s]
  {
    if s != [] {
      FieldsOfCommaFree(s[1..]);
      assert s == [s[0]] + s[1..];
    }
  }

  /** A comma-free prefix followed by a comma is the first field. */
  lemma {:induction false} FieldsAfterPrefix(p: string, rest: string)
    requires ',' !in p
    ensures Fields(p + [','] + rest) == [p] + Fields(rest)
  {
    if p != [] {
      FieldsAfterPrefix(p[1..], rest);
      assert (p + [','] + rest)[1..] == p[1..] + [','] + rest;
      assert p == [p[0]] + p[1..];
    } else {
      assert p + [','] + rest == [','] + rest;
      assert ([','] + rest)[1..] == rest;
    }
  }

  /** `fields` without its trailing empty strings. */
  function DropTrailingEmpty(fields: seq<string>): (r: seq<string>)
    ensures |r| <= |fields| && r == fields[..|r|]
    ensures r == [] || r[|r| - 1] != []
    ensures forall i | |r| <= i < |fields| :: fields[i] == []
  {
    if fields == [] || fields[|fields| - 1] != [] then fields
    else DropTrailingEmpty(fields[..|fields| - 1])
  }

  /**
   * `line.split(",")`: a line without a comma is its own only part; otherwise the parts
   * between the commas, trailing empty parts removed.
   */
  function Split(line: string): (r: seq<string>)
    ensures forall i | 0 <= i < |r| :: ',' !in r[i]
  {
    if ',' !in line then [line] else DropTrailingEmpty(Fields(line))
  }

  /** A string that neither starts nor ends with a character up to the space. */
  predicate Trimmed(s: string)
  {
    s == [] || (s[0] > ' ' && s[|s| - 1] > ' ')
  }

  /** The tokens of a data line: every part of `split(",")`, trimmed (see `TokensOfJoin`). */
  function Tokens(line: string): (r: seq<string>)
    ensures |r| == |Split(line)|
    ensures forall i | 0 <= i < |r| :: ',' !in r[i] && Trimmed(r[i])
  {
    var parts := Split(line);
    seq(|parts|, i requires 0 <= i < |parts| => Trim(parts[i]))
  }

  /** A line made of comma-free, non-empty-ended parts splits into exactly those parts. */
  lemma SplitOfJoin(parts: seq<string>)
    requires |parts| >= 2 && forall i | 0 <= i < |parts| :: ',' !in parts[i]
    requires parts[|parts| - 1] != []
    ensures Split(Join(parts)) == parts
  {
    FieldsOfJoin(parts);
    assert ',' in Join(parts) by {
      assert Join(parts) == parts[0] + [','] + Join(parts[1..]);
      assert Join(parts)[|parts[0]|] == ',';
    }
  }

  /** Trimming a trimmed string changes nothing. */
  lemma TrimOfTrimmed(s: string)
    requires Trimmed(s)
    ensures Trim(s) == s
  {
    assert LeadingSpace(s) == 0;
    assert TrailingEnd(s) == |s|;
  }

  /**
   * A data line written as trimmed, comma-free tokens separated by commas, the last one not
   * empty, is read back as exactly those tokens.
   */
  lemma TokensOfJoin(tokens: seq<string>)
    requires |tokens| >= 2 && tokens[|tokens| - 1] != []
    requires forall i | 0 <= i < |tokens| :: ',' !in tokens[i] && Trimmed(tokens[i])
    ensures Tokens(Join(tokens)) == tokens
  {
    SplitOfJoin(tokens);
    forall i | 0 <= i < |tokens| ensures Tokens(Join(tokens))[i] == tokens[i] {
      TrimOfTrimmed(tokens[i]);
    }
  }
}
