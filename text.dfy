/**
 * The string primitives the pipeline relies on: Python's `str.strip()`,
 * `str.upper()`, `str.split(sep)`, `str.replace("\n", " ")` and
 * `str.endswith(...)`, on strings decoded as ISO-8859-1, together with
 * `normalize_string`, the cell normaliser built from them.
 */
module Text {

  /** Python's `str.isspace()` restricted to the ISO-8859-1 range the files are decoded in:
      tab, line feed, vertical tab, form feed, carriage return, the four separators
      0x1C-0x1F, space, next-line (0x85) and no-break space (0xA0). */
  predicate IsSpace(c: char) {
    ('\t' <= c <= '\r') || ('\U{1C}' <= c <= ' ') || c == '\U{85}' || c == '\U{A0}'
  }

  predicate IsLower(c: char) { 'a' <= c <= 'z' }

  predicate IsDigit(c: char) { '0' <= c <= '9' }

  /** Every character of `s` at an index in [lo, hi) is whitespace. */
  predicate SpacesIn(s: string, lo: int, hi: int) {
    forall k :: lo <= k < hi && 0 <= k < |s| ==> IsSpace(s[k])
  }

  /** Neither the first nor the last character is whitespace. */
  predicate NoEdgeSpace(s: string) {
    s == [] || (!IsSpace(s[0]) && !IsSpace(s[|s| - 1]))
  }

  predicate NoLower(s: string) {
    forall k :: 0 <= k < |s| ==> !IsLower(s[k])
  }

  /** Number of whitespace characters at the start of `s`. */
  function LeadingSpaces(s: string): (n: nat)
    ensures n <= |s|
    ensures SpacesIn(s, 0, n)
    ensures n < |s| ==> !IsSpace(s[n])
  {
    if |s| > 0 && IsSpace(s[0]) then
      var m := LeadingSpaces(s[1..]);
      assert forall k :: 1 <= k < m + 1 ==> s[k] == s[1..][k - 1];
      1 + m
    else 0
  }

  /** Number of whitespace characters at the end of `s`. */
  function TrailingSpaces(s: string): (n: nat)
    ensures n <= |s|
    ensures SpacesIn(s, |s| - n, |s|)
    ensures n < |s| ==> !IsSpace(s[|s| - 1 - n])
  {
    if |s| > 0 && IsSpace(s[|s| - 1]) then
      var m := TrailingSpaces(s[..|s| - 1]);
      assert forall k :: 0 <= k < |s| - 1 ==> s[k] == s[..|s| - 1][k];
      1 + m
    else 0
  }

  /** `r` is what is left of `s` once the whitespace before index `i` and the
      whitespace after `r` are cut off, and `r` has no whitespace at either edge. */
  predicate StripsTo(s: string, r: string, i: nat) {
    && i + |r| <= |s|
    && r == s[i..i + |r|]
    && SpacesIn(s, 0, i)
    && SpacesIn(s, i + |r|, |s|)
    && NoEdgeSpace(r)
  }

  /** Python's `str.strip()` with no argument. */
  function Strip(s: string): (r: string)
    ensures StripsTo(s, r, LeadingSpaces(s))
  {
    var i := LeadingSpaces(s);
    var t := s[i..];
    var j := TrailingSpaces(t);
    var r := s[i..|s| - j];
    assert SpacesIn(s, |s| - j, |s|) by {
      forall k | |s| - j <= k < |s| ensures IsSpace(s[k]) {
        assert s[k] == t[k - i];
      }
    }
    assert r != [] ==> r[|r| - 1] == t[|t| - 1 - j];
    r
  }

  /** Strip is the only way to cut whitespace margins off `s` and leave no
      whitespace at either edge. */
  lemma {:induction false} StripUnique(s: string, r: string, i: nat)
    requires StripsTo(s, r, i)
    ensures r == Strip(s)
  {
    var n := LeadingSpaces(s);
    var t := Strip(s);
    assert StripsTo(s, t, n);
    if r != [] {
      assert r[0] == s[i];
    }
  }

  /** A string that already has no edge whitespace comes out of Strip unchanged. */
  lemma StripNoEdge(s: string)
    requires NoEdgeSpace(s)
    ensures Strip(s) == s
  {
    assert StripsTo(s, s, 0);
    StripUnique(s, s, 0);
  }

  /** Python's `str.upper()` on the ASCII letters; every other character is kept. */
  function UpperChar(c: char): (u: char)
    ensures !IsLower(u)
    ensures IsSpace(u) <==> IsSpace(c)
  {
    if IsLower(c) then (c as int - 32) as char else c
  }

  function Upper(s: string): (r: string)
    ensures |r| == |s|
    ensures forall k :: 0 <= k < |s| ==> r[k] == UpperChar(s[k])
  {
    seq(|s|, k requires 0 <= k < |s| => UpperChar(s[k]))
  }

  /** `a` and `b` spell the same text once case is ignored. */
  predicate SameIgnoringCase(a: string, b: string) {
    |a| == |b| && forall k :: 0 <= k < |a| ==> UpperChar(a[k]) == UpperChar(b[k])
  }

  /** `normalize_string`: a value that strips to the sentinel `()` becomes empty;
      any other value is stripped and upper-cased. */
  function NormalizeString(val: string): (r: string)
    ensures NoEdgeSpace(r) && NoLower(r)
    ensures Strip(val) == "()" ==> r == ""
    ensures Strip(val) != "()" ==> SameIgnoringCase(r, Strip(val))
  {
    var t := Strip(val);
    if t == "()" then "" else Upper(t)
  }

  /** Normalising a normalised value changes nothing. */
  lemma {:induction false} NormalizeIdempotent(val: string)
    ensures NormalizeString(NormalizeString(val)) == NormalizeString(val)
  {
    var r := NormalizeString(val);
    StripNoEdge(r);
    assert Upper(r) == r;
  }

  lemma StripTrims()
    ensures Strip("  abc ") == "abc"
  {
    var s := "  abc ";
    assert s[2..5] == "abc";
    assert SpacesIn(s, 0, 2) && SpacesIn(s, 5, 6);
    StripUnique(s, "abc", 2);
  }

  lemma UpperLetters()
    ensures Upper("abc") == "ABC"
  {
    var u := Upper("abc");
    assert u[0] == 'A' && u[1] == 'B' && u[2] == 'C';
  }

  /** Surrounding blanks go and letters are upper-cased. */
  lemma NormalizeTrims()
    ensures NormalizeString("  abc ") == "ABC"
  {
    StripTrims();
    UpperLetters();
  }


  /** The sentinel `()` becomes empty, also when whitespace surrounds it. */
  lemma NormalizeSentinel()
    ensures NormalizeString(" () ") == ""
  {
    var s := " () ";
    assert s[1..3] == "()";
    assert SpacesIn(s, 0, 1) && SpacesIn(s, 3, 4);
    StripUnique(s, "()", 1);
  }

  /** Only the exact text `()` is the sentinel: `( )` is kept. */
  lemma NormalizeNearSentinel()
    ensures NormalizeString("( )") == "( )"
  {
    StripNoEdge("( )");
    var u := Upper("( )");
    assert u[0] == '(' && u[1] == ' ' && u[2] == ')';
  }


  /** `s.replace("\n", " ")`. */
  function ReplaceNewlines(s: string): (r: string)
    ensures |r| == |s|
    ensures '\n' !in r
    ensures forall k :: 0 <= k < |s| && s[k] != '\n' ==> r[k] == s[k]
    ensures forall k :: 0 <= k < |s| && s[k] == '\n' ==> r[k] == ' '
  {
    if s == [] then []
    else [if s[0] == '\n' then ' ' else s[0]] + ReplaceNewlines(s[1..])
  }

  /** A name without a line break is left exactly as it was. */
  lemma ReplaceNewlinesNoop(s: string)
    requires '\n' !in s
    ensures ReplaceNewlines(s) == s
  {
    var r := ReplaceNewlines(s);
    assert forall k :: 0 <= k < |s| ==> r[k] == s[k];
  }

  /** Position of the first occurrence of `x` in `s`. */
  function FirstPos<T(==)>(s: seq<T>, x: T): (i: nat)
    requires x in s
    ensures i < |s| && s[i] == x && x !in s[..i]
  {
    if s[0] == x then 0 else 1 + FirstPos(s[1..], x)
  }

  /** Python's `s.split(sep)` for a one-character separator. */
  function Split(s: string, sep: char): (parts: seq<string>)
    ensures |parts| >= 1
    ensures forall p :: p in parts ==> sep !in p
    decreases |s|
  {
    if sep !in s then [s]
    else
      var i := FirstPos(s, sep);
      [s[..i]] + Split(s[i + 1..], sep)
  }

  /** The first field of a split is the text before the first separator: a prefix
      of the string followed by the separator or by nothing. */
  lemma SplitHead(s: string, sep: char)
    ensures var h := Split(s, sep)[0];
            |h| <= |s| && s[..|h|] == h && (|h| == |s| || s[|h|] == sep)
  {
    if sep in s {
      var i := FirstPos(s, sep);
      assert Split(s, sep)[0] == s[..i];
    }
  }

  /** `sep.join(parts)`. */
  function Join(parts: seq<string>, sep: char): string
    requires |parts| >= 1
  {
    if |parts| == 1 then parts[0] else parts[0] + [sep] + Join(parts[1..], sep)
  }

  /** Splitting loses nothing: joining the fields with the separator gives back the string. */
  lemma {:induction false} SplitJoin(s: string, sep: char)
    ensures Join(Split(s, sep), sep) == s
    decreases |s|
  {
    if sep in s {
      var i := FirstPos(s, sep);
      SplitJoin(s[i + 1..], sep);
      assert s == s[..i] + [sep] + s[i + 1..];
    }
  }

  /** Joining separator-free fields and splitting again gives back the fields. */
  lemma {:induction false} JoinSplit(parts: seq<string>, sep: char)
    requires |parts| >= 1
    requires forall p :: p in parts ==> sep !in p
    ensures Split(Join(parts, sep), sep) == parts
  {
    if |parts| > 1 {
      var s := Join(parts, sep);
      var rest := Join(parts[1..], sep);
      assert s == parts[0] + [sep] + rest;
      assert s[|parts[0]|] == sep;
      assert sep !in s[..|parts[0]|] by { assert s[..|parts[0]|] == parts[0]; }
      var i := FirstPos(s, sep);
      assert i == |parts[0]|;
      assert s[..i] == parts[0];
      assert s[i + 1..] == rest;
      JoinSplit(parts[1..], sep);
    }
  }

  /** Three separator-free fields joined by the separator split back into those fields. */
  lemma SplitThree(a: string, b: string, c: string, sep: char)
    requires sep !in a && sep !in b && sep !in c
    ensures Split(a + [sep] + b + [sep] + c, sep) == [a, b, c]
  {
    var tail := b + [sep] + c;
    assert [b, c][1..] == [c];
    assert Join([b, c], sep) == tail;
    assert [a, b, c][1..] == [b, c];
    assert Join([a, b, c], sep) == a + [sep] + tail;
    assert a + [sep] + tail == a + [sep] + b + [sep] + c;
    JoinSplit([a, b, c], sep);
  }

  /** `s.endswith(suffix)`. */
  predicate EndsWith(s: string, suffix: string) {
    |suffix| <= |s| && s[|s| - |suffix|..] == suffix
  }
}
