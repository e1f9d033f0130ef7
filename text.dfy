/**
 * The JavaScript string operations the components rely on: `trim`, `toLowerCase`,
 * `includes`, `split` on one character, `join`, and the JavaScript truthiness of a
 * string (`s || null`). Strings are sequences of characters.
 */
module Text {
  import opened Wrappers

  /** The characters `String.prototype.trim` removes: the WhiteSpace and
      LineTerminator code points of ECMAScript. */
  predicate IsSpace(c: char) {
    c == ' ' || c == '\t' || c == '\n' || c == '\r' || c == '\U{000B}' || c == '\U{000C}'
    || c == '\U{00A0}' || c == '\U{1680}' || ('\U{2000}' <= c <= '\U{200A}')
    || c == '\U{2028}' || c == '\U{2029}' || c == '\U{202F}' || c == '\U{205F}'
    || c == '\U{3000}' || c == '\U{FEFF}'
  }

  predicate AllSpace(s: string) {
    forall i :: 0 <= i < |s| ==> IsSpace(s[i])
  }

  /** The number of whitespace characters `s` starts with. */
  function LeadingSpaces(s: string): (k: nat)
    ensures k <= |s|
    ensures AllSpace(s[..k])
    ensures k == |s| || !IsSpace(s[k])
  {
    if s == [] || !IsSpace(s[0]) then 0
    else
      var k := 1 + LeadingSpaces(s[1..]);
      assert s[..k] == [s[0]] + s[1..][..k - 1];
      k
  }

  /** The number of whitespace characters `s` ends with. */
  function TrailingSpaces(s: string): (k: nat)
    ensures k <= |s|
    ensures AllSpace(s[|s| - k..])
    ensures k == |s| || !IsSpace(s[|s| - 1 - k])
  {
    if s == [] || !IsSpace(s[|s| - 1]) then 0
    else
      var p := s[..|s| - 1];
      var k := 1 + TrailingSpaces(p);
      assert s[|s| - k..] == p[|p| - (k - 1)..] + [s[|s| - 1]];
      k
  }

  /** `s.trim()`: `s` without the whitespace it starts and ends with. */
  function Trim(s: string): (r: string)
    ensures |r| <= |s|
  {
    var a := LeadingSpaces(s);
    var rest := s[a..];
    rest[..|rest| - TrailingSpaces(rest)]
  }

  /** Neither starts nor ends with whitespace. */
  predicate Trimmed(x: string) {
    x == [] || (!IsSpace(x[0]) && !IsSpace(x[|x| - 1]))
  }

  lemma LeadingAll(s: string)
    ensures LeadingSpaces(s) == |s| <==> AllSpace(s)
  {
    assert s[..|s|] == s;
  }

  lemma TrailingAll(s: string)
    ensures TrailingSpaces(s) == |s| <==> AllSpace(s)
  {
    assert s[0..] == s;
  }

  /** `trim` keeps the infix between the leading and the trailing whitespace. */
  lemma TrimIsInfix(s: string)
    ensures LeadingSpaces(s) + |Trim(s)| <= |s| && Trim(s) == s[LeadingSpaces(s)..LeadingSpaces(s) + |Trim(s)|]
  {
    var a := LeadingSpaces(s);
    var r := Trim(s);
    forall i | 0 <= i < |r| ensures r[i] == s[a + i] {
      assert r[i] == s[a..][i];
    }
  }

  /** What `trim` drops at the end is whitespace. */
  lemma TrimTail(s: string)
    ensures LeadingSpaces(s) + |Trim(s)| <= |s|
    ensures AllSpace(s[LeadingSpaces(s) + |Trim(s)|..])
  {
    var a := LeadingSpaces(s);
    var rest := s[a..];
    var b := TrailingSpaces(rest);
    var k := a + |rest| - b;
    assert |Trim(s)| == |rest| - b;
    var tail := rest[|rest| - b..];
    forall j | 0 <= j < |s| - k ensures IsSpace(s[k..][j]) {
      assert s[k..][j] == tail[j];
    }
  }

  lemma TrimEmptyIffAllSpace(s: string)
    ensures Trim(s) == [] <==> AllSpace(s)
  {
    var a := LeadingSpaces(s);
    var rest := s[a..];
    LeadingAll(s);
    TrailingAll(rest);
    if a < |s| {
      assert rest[0] == s[a];
    }
  }

  lemma TrimIsTrimmed(s: string)
    ensures Trimmed(Trim(s))
  {
    var a := LeadingSpaces(s);
    var rest := s[a..];
    var b := TrailingSpaces(rest);
    var r := Trim(s);
    if r != [] {
      assert r == rest[..|rest| - b];
      assert r[0] == s[a];
      assert r[|r| - 1] == rest[|rest| - 1 - b];
    }
  }

  /** What `trim` leaves: a trimmed infix of `s`, empty exactly for all-whitespace text,
      with only whitespace before and after it. */
  lemma TrimShape(s: string)
    ensures Trimmed(Trim(s))
    ensures Trim(s) == [] <==> AllSpace(s)
    ensures LeadingSpaces(s) + |Trim(s)| <= |s| && Trim(s) == s[LeadingSpaces(s)..LeadingSpaces(s) + |Trim(s)|]
    ensures AllSpace(s[LeadingSpaces(s) + |Trim(s)|..])
  {
    TrimIsInfix(s);
    TrimTail(s);
    TrimEmptyIffAllSpace(s);
    TrimIsTrimmed(s);
  }

  /** The strings `trim` leaves alone are exactly the trimmed ones. */
  lemma TrimmedFixpoint(x: string)
    ensures Trimmed(x) <==> Trim(x) == x
  {
    TrimShape(x);
    if Trimmed(x) && x != [] {
      assert LeadingSpaces(x) == 0;
      assert x[0..] == x;
      assert TrailingSpaces(x) == 0;
    }
  }

  // ---------------------------------------------------------------------------
  // length

  /** A character outside the Basic Multilingual Plane is a surrogate pair in UTF-16. */
  predicate IsAstral(c: char) {
    c as int > 0xFFFF
  }

  /** `s.length`: JavaScript counts UTF-16 code units, two for an astral character. */
  function Utf16Length(s: string): (n: nat)
    ensures |s| <= n <= 2 * |s|
    ensures n == |s| <==> forall i :: 0 <= i < |s| ==> !IsAstral(s[i])
  {
    if s == [] then 0
    else (if IsAstral(s[0]) then 2 else 1) + Utf16Length(s[1..])
  }

  /** Three emoji already make six code units. */
  lemma ThreeEmojiAreSixUnits()
    ensures |"\U{1F600}\U{1F600}\U{1F600}"| == 3
    ensures Utf16Length("\U{1F600}\U{1F600}\U{1F600}") == 6
  {
    var s := "\U{1F600}\U{1F600}\U{1F600}";
    assert s[1..][1..][1..] == [];
  }

  /** `s.trim() || null`, the normalisation every write path applies to optional text. */
  function TrimOrNull(s: string): (r: Option<string>)
    ensures r == None <==> AllSpace(s)
    ensures r.Some? ==> r.value == Trim(s) && r.value != []
  {
    TrimShape(s);
    var t := Trim(s);
    if t == [] then None else Some(t)
  }

  /** `s || null`: the empty string is falsy, any other string is kept verbatim. */
  function NullIfEmpty(s: string): (r: Option<string>)
    ensures r == None <==> s == []
    ensures r.Some? ==> r.value == s
  {
    if s == [] then None else Some(s)
  }

  /** The truthiness of a `string | null`: present and not empty. */
  predicate Filled(s: Option<string>) {
    s.Some? && s.value != []
  }

  /** `s || ''` for a `string | null`. */
  function OrEmpty(s: Option<string>): (r: string)
    ensures r == [] <==> !Filled(s)
    ensures Filled(s) ==> r == s.value
  {
    if s.Some? then s.value else []
  }

  lemma TrimIdempotent(s: string)
    ensures Trim(Trim(s)) == Trim(s)
  {
    TrimShape(s);
    TrimmedFixpoint(Trim(s));
  }

  /** A trimmed string stays itself when one space is put in front and it is trimmed. */
  lemma TrimAfterSpace(s: string)
    requires Trimmed(s)
    ensures Trim([' '] + s) == s
  {
    var t := [' '] + s;
    assert t[1..] == s;
    if s == [] {
      assert LeadingSpaces(t) == 1;
    } else {
      assert LeadingSpaces(s) == 0;
      assert LeadingSpaces(t) == 1;
      assert TrailingSpaces(s) == 0;
    }
  }

  // ---------------------------------------------------------------------------
  // toLowerCase and includes

  /** `toLowerCase` restricted to the ASCII letters (see README). */
  function LowerChar(c: char): (d: char)
    ensures !('A' <= d <= 'Z')
    ensures !('A' <= c <= 'Z') ==> d == c
  {
    if 'A' <= c <= 'Z' then (c as int - 'A' as int + 'a' as int) as char else c
  }

  function ToLower(s: string): (r: string)
    ensures |r| == |s|
    ensures forall i :: 0 <= i < |s| ==> r[i] == LowerChar(s[i])
  {
    seq(|s|, i requires 0 <= i < |s| => LowerChar(s[i]))
  }

  lemma ToLowerIdempotent(s: string)
    ensures ToLower(ToLower(s)) == ToLower(s)
  {
  }

  /** `hay.includes(needle)`: `needle` occurs in `hay` at some position. */
  predicate Contains(hay: string, needle: string)
    decreases |hay|
  {
    needle <= hay || (hay != [] && Contains(hay[1..], needle))
  }

  /** `needle` occurs in `hay` starting at position `i`. */
  predicate OccursAt(hay: string, needle: string, i: nat) {
    i + |needle| <= |hay| && hay[i..i + |needle|] == needle
  }

  /** `includes` in terms of positions: the recursive definition holds exactly when
      `needle` starts at some position of `hay`. */
  lemma {:induction false} ContainsAt(hay: string, needle: string, i: nat)
    requires OccursAt(hay, needle, i)
    ensures Contains(hay, needle)
    decreases i
  {
    if i == 0 {
      assert needle == hay[..|needle|];
    } else {
      assert hay[1..][i - 1..i - 1 + |needle|] == hay[i..i + |needle|];
      ContainsAt(hay[1..], needle, i - 1);
    }
  }

  lemma {:induction false} ContainsHasPosition(hay: string, needle: string)
    requires Contains(hay, needle)
    ensures exists i: nat :: OccursAt(hay, needle, i)
    decreases |hay|
  {
    if needle <= hay {
      assert hay[0..|needle|] == needle;
      assert OccursAt(hay, needle, 0);
    } else {
      ContainsHasPosition(hay[1..], needle);
      var i: nat :| OccursAt(hay[1..], needle, i);
      assert hay[i + 1..i + 1 + |needle|] == hay[1..][i..i + |needle|];
      assert OccursAt(hay, needle, i + 1);
    }
  }

  // ---------------------------------------------------------------------------
  // split and join

  /** `s.split(sep)` for a one-character separator: the pieces between separators,
      empty pieces included, so `"".split(",")` is `[""]`. */
  function Split(s: string, sep: char): (parts: seq<string>)
    ensures |parts| >= 1
    ensures forall i :: 0 <= i < |parts| ==> sep !in parts[i]
    ensures sep !in s ==> parts == [s]
    ensures sep in s ==> |parts| >= 2
    decreases |s|
  {
    if s == [] then [[]]
    else
      var rest := Split(s[1..], sep);
      assert s == [s[0]] + s[1..];
      if s[0] == sep then [[]] + rest
      else [[s[0]] + rest[0]] + rest[1..]
  }

  /** `parts.join(sep)` */
  function Join(parts: seq<string>, sep: string): string
    decreases |parts|
  {
    if parts == [] then []
    else if |parts| == 1 then parts[0]
    else parts[0] + sep + Join(parts[1..], sep)
  }

  /** Cutting at the first separator: the piece before it comes first. */
  lemma {:induction false} SplitAtSeparator(a: string, sep: char, b: string)
    requires sep !in a
    ensures Split(a + [sep] + b, sep) == [a] + Split(b, sep)
    decreases |a|
  {
    if a == [] {
      assert a + [sep] + b == [sep] + b;
      assert ([sep] + b)[1..] == b;
    } else {
      var s := a + [sep] + b;
      assert s[0] == a[0] && s[1..] == a[1..] + [sep] + b;
      SplitAtSeparator(a[1..], sep, b);
      assert [a[0]] + a[1..] == a;
    }
  }

  /** A string without the separator is its own single piece. */
  lemma {:induction false} SplitNoSeparator(a: string, sep: char)
    requires sep !in a
    ensures Split(a, sep) == [a]
    decreases |a|
  {
    if a != [] {
      assert a[1..] == a[1..];
      SplitNoSeparator(a[1..], sep);
      assert [a[0]] + a[1..] == a;
    }
  }

  /** Joining the pieces of a split with the same separator gives back the string:
      `s.split(c).join(c) === s`. */
  lemma {:induction false} JoinSplit(s: string, sep: char)
    ensures Join(Split(s, sep), [sep]) == s
    decreases |s|
  {
    if s != [] {
      var rest := Split(s[1..], sep);
      JoinSplit(s[1..], sep);
      if s[0] == sep {
        assert Join([[]] + rest, [sep]) == [] + [sep] + Join(rest, [sep]);
      } else {
        var parts := [[s[0]] + rest[0]] + rest[1..];
        if |rest| == 1 {
          assert Join(rest, [sep]) == rest[0];
        } else {
          assert Join(rest, [sep]) == rest[0] + [sep] + Join(rest[1..], [sep]);
          assert parts[1..] == rest[1..];
        }
      }
    }
  }

  // ---------------------------------------------------------------------------
  // comma lists: `s.split(',').map(x => x.trim()).filter(Boolean)`

  /** `parts.map(x => x.trim()).filter(Boolean)` */
  function TrimAndDropEmpty(parts: seq<string>): (r: seq<string>)
    ensures |r| <= |parts|
    decreases |parts|
  {
    if parts == [] then []
    else
      var t := Trim(parts[0]);
      var rest := TrimAndDropEmpty(parts[1..]);
      if t == [] then rest else [t] + rest
  }

  /** Trimming only removes characters. */
  lemma TrimKeepsChars(s: string)
    ensures forall c :: c in Trim(s) ==> c in s
  {
    var r, a := Trim(s), LeadingSpaces(s);
    TrimShape(s);
    forall c | c in r ensures c in s {
      var i :| 0 <= i < |r| && r[i] == c;
      assert s[a + i] == c;
    }
  }

  /** The pieces of comma-free text come out non-empty, trimmed and comma-free. */
  lemma {:induction false} TrimAndDropEmptyEntries(parts: seq<string>)
    requires forall j :: 0 <= j < |parts| ==> ',' !in parts[j]
    ensures forall i :: 0 <= i < |TrimAndDropEmpty(parts)| ==> IsListEntry(TrimAndDropEmpty(parts)[i])
    decreases |parts|
  {
    if parts != [] {
      TrimAndDropEmptyEntries(parts[1..]);
      var t := Trim(parts[0]);
      var rest := TrimAndDropEmpty(parts[1..]);
      if t != [] {
        TrimShape(parts[0]);
        TrimKeepsChars(parts[0]);
        assert IsListEntry(t);
        var r := [t] + rest;
        forall i | 0 <= i < |r| ensures IsListEntry(r[i]) {
          if i > 0 {
            assert r[i] == rest[i - 1];
          }
        }
      }
    }
  }

  /** An entry of a comma list as the parsers produce it: non-empty, trimmed, comma-free. */
  predicate IsListEntry(x: string) {
    x != [] && Trimmed(x) && ',' !in x
  }

  /** `s.split(',').map(x => x.trim()).filter(Boolean)`: the non-blank, trimmed pieces
      of `s` between commas. The result may be empty. */
  function ParseCommaList(s: string): (r: seq<string>)
    ensures forall i :: 0 <= i < |r| ==> IsListEntry(r[i])
  {
    var parts := Split(s, ',');
    TrimAndDropEmptyEntries(parts);
    TrimAndDropEmpty(parts)
  }

  /** `xs.join(', ')` split at the commas: the first entry, then each later entry behind
      the space of the separator. */
  lemma {:induction false} SplitJoined(pre: string, xs: seq<string>)
    requires ',' !in pre
    requires |xs| >= 1 && forall i :: 0 <= i < |xs| ==> ',' !in xs[i]
    ensures Split(pre + Join(xs, ", "), ',') == [pre + xs[0]] + PrefixEach(" ", xs[1..])
    decreases |xs|
  {
    if |xs| == 1 {
      SplitNoSeparator(pre + xs[0], ',');
      assert PrefixEach(" ", xs[1..]) == [];
    } else {
      var rest := Join(xs[1..], ", ");
      assert pre + Join(xs, ", ") == (pre + xs[0]) + [','] + (" " + rest);
      SplitAtSeparator(pre + xs[0], ',', " " + rest);
      SplitJoined(" ", xs[1..]);
      assert xs[1..][1..] == xs[2..];
      assert PrefixEach(" ", xs[1..]) == [" " + xs[1]] + PrefixEach(" ", xs[2..]);
    }
  }

  function PrefixEach(p: string, xs: seq<string>): (r: seq<string>)
    ensures |r| == |xs|
    ensures forall i :: 0 <= i < |xs| ==> r[i] == p + xs[i]
    decreases |xs|
  {
    if xs == [] then [] else [p + xs[0]] + PrefixEach(p, xs[1..])
  }

  lemma {:induction false} TrimAndDropEmptyOfSpaced(xs: seq<string>)
    requires forall i :: 0 <= i < |xs| ==> IsListEntry(xs[i])
    ensures TrimAndDropEmpty(PrefixEach(" ", xs)) == xs
    decreases |xs|
  {
    if xs != [] {
      TrimAfterSpace(xs[0]);
      var ps := PrefixEach(" ", xs);
      assert ps[0] == " " + xs[0] && ps[1..] == PrefixEach(" ", xs[1..]);
      TrimAndDropEmptyOfSpaced(xs[1..]);
    }
  }

  /** Parsing the `', '`-joined display string of a list of entries gives the list back. */
  lemma {:induction false} ParseJoinRoundTrip(xs: seq<string>)
    requires forall i :: 0 <= i < |xs| ==> IsListEntry(xs[i])
    ensures ParseCommaList(Join(xs, ", ")) == xs
  {
    if xs == [] {
      assert Split([], ',') == [[]];
      assert Trim([]) == [];
    } else {
      var parts := Split(Join(xs, ", "), ',');
      var spaced := PrefixEach(" ", xs[1..]);
      assert parts == [xs[0]] + spaced by { SplitOfJoined(xs); }
      assert parts[1..] == spaced;
      TrimAndDropEmptyOfSpaced(xs[1..]);
      assert TrimAndDropEmpty(parts) == [xs[0]] + TrimAndDropEmpty(spaced) by {
        TrimmedFixpoint(xs[0]);
      }
    }
  }

  lemma SplitOfJoined(xs: seq<string>)
    requires |xs| >= 1 && forall i :: 0 <= i < |xs| ==> ',' !in xs[i]
    ensures Split(Join(xs, ", "), ',') == [xs[0]] + PrefixEach(" ", xs[1..])
  {
    SplitJoined([], xs);
    assert [] + Join(xs, ", ") == Join(xs, ", ");
    assert [] + xs[0] == xs[0];
  }

  /** Joining one more part appends the separator and the part. */
  lemma {:induction false} JoinSnoc(xs: seq<string>, y: string, sep: string)
    requires |xs| >= 1
    ensures Join(xs + [y], sep) == Join(xs, sep) + sep + y
    decreases |xs|
  {
    if |xs| == 1 {
      assert (xs + [y])[1..] == [y];
    } else {
      assert (xs + [y])[1..] == xs[1..] + [y];
      JoinSnoc(xs[1..], y, sep);
    }
  }

  /** Parsing is stable: a parsed list displays and re-parses to itself. */
  lemma ParseJoinParse(s: string)
    ensures ParseCommaList(Join(ParseCommaList(s), ", ")) == ParseCommaList(s)
  {
    ParseJoinRoundTrip(ParseCommaList(s));
  }

  // ---------------------------------------------------------------------------
  // file extensions: `name.split('.').pop()`

  /** The last piece of `s.split(sep)`. */
  function LastPiece(s: string, sep: char): (r: string)
    ensures |r| <= |s| && r == s[|s| - |r|..]
    ensures sep !in r
    ensures |r| < |s| ==> s[|s| - |r| - 1] == sep
    decreases |s|
  {
    var parts := Split(s, sep);
    LastPieceIsSuffix(s, sep);
    parts[|parts| - 1]
  }

  lemma {:induction false} LastPieceIsSuffix(s: string, sep: char)
    ensures var r := Split(s, sep)[|Split(s, sep)| - 1];
      |r| <= |s| && r == s[|s| - |r|..] && (|r| < |s| ==> s[|s| - |r| - 1] == sep)
    decreases |s|
  {
    if s != [] {
      LastPieceIsSuffix(s[1..], sep);
      SplitLastStep(s, sep);
      var q := Split(s[1..], sep);
      var r := q[|q| - 1];
      if s[0] != sep && |q| == 1 {
        assert r == s[1..];
        assert [s[0]] + r == s;
      } else {
        assert s[1..][|s| - 1 - |r|..] == s[|s| - |r|..];
        if |r| < |s| - 1 {
          assert s[1..][|s| - 2 - |r|] == s[|s| - |r| - 1];
        } else {
          assert r == s[1..][0..] == s[1..];
        }
      }
    }
  }

  /** How the last piece of `split` changes when one character is put in front. */
  lemma SplitLastStep(s: string, sep: char)
    requires s != []
    ensures var p, q := Split(s, sep), Split(s[1..], sep);
      p[|p| - 1] == if s[0] != sep && |q| == 1 then [s[0]] + q[0] else q[|q| - 1]
  {
    var q := Split(s[1..], sep);
    if s[0] == sep {
      assert Split(s, sep) == [[]] + q;
    } else {
      assert Split(s, sep) == [[s[0]] + q[0]] + q[1..];
    }
  }

  /** The piece after the last separator is whatever follows it, however the part
      before it looks. */
  lemma LastPieceAfterSeparator(a: string, sep: char, b: string)
    requires sep !in b
    ensures LastPiece(a + [sep] + b, sep) == b
  {
    var s := a + [sep] + b;
    assert s[|s| - |b|..] == b;
    assert s[|s| - |b| - 1] == sep;
  }

  // ---------------------------------------------------------------------------
  // numbers in template strings

  function DigitChar(d: nat): (c: char)
    requires d < 10
    ensures '0' <= c <= '9'
  {
    ('0' as int + d) as char
  }

  /** The decimal rendering of a natural number, as `${n}` gives it. */
  function Decimal(n: nat): (r: string)
    ensures r != [] && forall i :: 0 <= i < |r| ==> '0' <= r[i] <= '9'
    ensures '.' !in r && '/' !in r
    decreases n
  {
    if n < 10 then [DigitChar(n)] else Decimal(n / 10) + [DigitChar(n % 10)]
  }
}
