/**
 * Latest-snapshot selection: the `csv` filter on a container listing and
 * `find_latest_csv`, which sorts the candidate names newest first by the
 * `YYYYMMDDHHmm` stamp after the first underscore and takes the head.
 */
module Snapshot {
  import opened Results
  import opened Text

  datatype SnapshotError =
    | NoCandidates                    // `res[0]` on an empty list
    | MalformedFilename(name: string) // no second `_` field, or a stamp strptime rejects

  /** The fields of a `datetime` built by `strptime(..., '%Y%m%d%H%M')`. */
  datatype DateTime = DateTime(year: nat, month: nat, day: nat, hour: nat, minute: nat)

  /** `a` is strictly later than `b` (datetime comparison, field by field). */
  predicate Later(a: DateTime, b: DateTime) {
    if a.year != b.year then a.year > b.year
    else if a.month != b.month then a.month > b.month
    else if a.day != b.day then a.day > b.day
    else if a.hour != b.hour then a.hour > b.hour
    else a.minute > b.minute
  }

  predicate IsLeapYear(y: nat) {
    y % 4 == 0 && (y % 100 != 0 || y % 400 == 0)
  }

  function DaysInMonth(y: nat, m: nat): nat
    requires 1 <= m <= 12
  {
    if m == 2 then (if IsLeapYear(y) then 29 else 28)
    else if m == 4 || m == 6 || m == 9 || m == 11 then 30
    else 31
  }

  /** The dates `datetime` accepts (year 1 to 9999, proleptic Gregorian calendar). */
  predicate ValidDateTime(d: DateTime) {
    && 1 <= d.year <= 9999
    && 1 <= d.month <= 12
    && 1 <= d.day <= DaysInMonth(d.year, d.month)
    && d.hour <= 23
    && d.minute <= 59
  }

  predicate AllDigits(s: string) {
    forall k :: 0 <= k < |s| ==> IsDigit(s[k])
  }

  lemma AllDigitsSlice(s: string, i: nat, j: nat)
    requires AllDigits(s) && i <= j <= |s|
    ensures AllDigits(s[i..j])
  {
    assert forall k :: 0 <= k < j - i ==> s[i..j][k] == s[i + k];
  }

  function Pow10(n: nat): (p: nat)
    ensures p >= 1
  {
    if n == 0 then 1 else 10 * Pow10(n - 1)
  }

  /** The decimal value of a string of digits. */
  function DigitsValue(s: string): (v: nat)
    requires AllDigits(s)
    ensures v < Pow10(|s|)
  {
    if s == [] then 0
    else DigitsValue(s[..|s| - 1]) * 10 + (s[|s| - 1] as int - '0' as int)
  }

  /** `n` written in exactly `width` digits, with leading zeros (`%04d`, `%02d`). */
  function Digits(n: nat, width: nat): (s: string)
    ensures |s| == width && AllDigits(s)
  {
    if width == 0 then ""
    else Digits(n / 10, width - 1) + [('0' as int + n % 10) as char]
  }

  lemma {:induction false} DigitsRoundTrip(n: nat, width: nat)
    requires n < Pow10(width)
    ensures DigitsValue(Digits(n, width)) == n
  {
    if width > 0 {
      var s := Digits(n, width);
      assert s[..|s| - 1] == Digits(n / 10, width - 1);
      DigitsRoundTrip(n / 10, width - 1);
    }
  }

  lemma {:induction false} ValueRoundTrip(s: string)
    requires AllDigits(s)
    ensures Digits(DigitsValue(s), |s|) == s
  {
    if s != [] {
      var init := s[..|s| - 1];
      var v := DigitsValue(init) * 10 + (s[|s| - 1] as int - '0' as int);
      assert v / 10 == DigitsValue(init);
      assert v % 10 == s[|s| - 1] as int - '0' as int;
      ValueRoundTrip(init);
      assert s == init + [s[|s| - 1]];
    }
  }

  /** The five fields `%Y%m%d%H%M` read from twelve digits. */
  function StampFields(t: string): DateTime
    requires |t| == 12 && AllDigits(t)
  {
    AllDigitsSlice(t, 0, 4);
    AllDigitsSlice(t, 4, 6);
    AllDigitsSlice(t, 6, 8);
    AllDigitsSlice(t, 8, 10);
    AllDigitsSlice(t, 10, 12);
    DateTime(DigitsValue(t[0..4]), DigitsValue(t[4..6]), DigitsValue(t[6..8]),
             DigitsValue(t[8..10]), DigitsValue(t[10..12]))
  }

  /** `datetime.strptime(t, '%Y%m%d%H%M')` on a stamp of exactly twelve digits;
      `None` where it raises. */
  function ParseStamp(t: string): (r: Option<DateTime>)
    ensures r.Some? ==> |t| == 12 && AllDigits(t) && ValidDateTime(r.value)
  {
    if |t| == 12 && AllDigits(t) then
      var d := StampFields(t);
      if ValidDateTime(d) then Some(d) else None
    else None
  }


  /** The twelve-digit text of `d`, year, month, day, hour and minute, each zero-padded. */
  function FormatStamp(d: DateTime): (t: string)
    ensures |t| == 12 && AllDigits(t)
  {
    Digits(d.year, 4) + Digits(d.month, 2) + Digits(d.day, 2) + Digits(d.hour, 2) + Digits(d.minute, 2)
  }

  /** Every valid date and time is read back from its own stamp. */
  lemma FormatThenParse(d: DateTime)
    requires ValidDateTime(d)
    ensures ParseStamp(FormatStamp(d)) == Some(d)
  {
    var t := FormatStamp(d);
    assert t[0..4] == Digits(d.year, 4);
    assert t[4..6] == Digits(d.month, 2);
    assert t[6..8] == Digits(d.day, 2);
    assert t[8..10] == Digits(d.hour, 2);
    assert t[10..12] == Digits(d.minute, 2);
    DigitsRoundTrip(d.year, 4);
    DigitsRoundTrip(d.month, 2);
    DigitsRoundTrip(d.day, 2);
    DigitsRoundTrip(d.hour, 2);
    DigitsRoundTrip(d.minute, 2);
  }



  /** Writing out the fields read from twelve digits gives the digits back. */
  lemma FieldsThenFormat(t: string)
    requires |t| == 12 && AllDigits(t)
    ensures FormatStamp(StampFields(t)) == t
  {
    var year, month, day, hour, minute := t[0..4], t[4..6], t[6..8], t[8..10], t[10..12];
    AllDigitsSlice(t, 0, 4);
    AllDigitsSlice(t, 4, 6);
    AllDigitsSlice(t, 6, 8);
    AllDigitsSlice(t, 8, 10);
    AllDigitsSlice(t, 10, 12);
    ValueRoundTrip(year);
    ValueRoundTrip(month);
    ValueRoundTrip(day);
    ValueRoundTrip(hour);
    ValueRoundTrip(minute);
    assert t == year + month + day + hour + minute;
  }

  /** Every stamp that parses is exactly the text of the date it denotes. */
  lemma ParseThenFormat(t: string)
    requires ParseStamp(t).Some?
    ensures FormatStamp(ParseStamp(t).value) == t
  {
    FieldsThenFormat(t);
  }



  /** `name` is `p + "_" + t + q`, where `p` holds no `_` and `q` is empty or starts
      with `_` or `.`: `t` is the text after the first `_` up to the next `_` or `.`. */
  predicate StampField(name: string, p: string, t: string, q: string) {
    && name == p + "_" + t + q
    && '_' !in p
    && (q == "" || q[0] == '_' || q[0] == '.')
  }

  /** `item.split('_')[1].split(".")[0]`, or `None` where indexing field 1 raises. */
  function StampText(name: string): (r: Option<string>)
    ensures r.Some? <==> '_' in name
    ensures r.Some? ==> '_' !in r.value && '.' !in r.value
  {
    var fields := Split(name, '_');
    if |fields| < 2 then None
    else
      assert fields[1] in fields;
      Some(Split(fields[1], '.')[0])
  }

  /** The stamp text is the text after the first `_` up to the next `_` or `.`. */
  lemma StampTextField(name: string)
    requires '_' in name
    ensures StampText(name).Some? && exists p, q :: StampField(name, p, StampText(name).value, q)
  {
    var i := FirstPos(name, '_');
    var rest := name[i + 1..];
    var t := StampTextAfter(name, i);
    var q := FieldTail(rest, Split(rest, '_')[0], t);
    StampFieldAt(name, i, t, q);
  }

  /** Cutting the name at its first `_` at `i` and the rest into `t + q` gives its fields. */
  lemma StampFieldAt(name: string, i: nat, t: string, q: string)
    requires i < |name| && name[i] == '_' && '_' !in name[..i]
    requires name[i + 1..] == t + q && (q == "" || q[0] == '_' || q[0] == '.')
    ensures StampField(name, name[..i], t, q)
  {
    assert name == name[..i] + "_" + t + q;
  }

  /** With `i` the first `_`, field 1 of the name is the first field of what follows it. */
  lemma StampTextAfter(name: string, i: nat) returns (t: string)
    requires '_' in name && i == FirstPos(name, '_')
    ensures t == Split(Split(name[i + 1..], '_')[0], '.')[0]
    ensures StampText(name) == Some(t)
  {
    var fields := Split(name, '_');
    assert fields == [name[..i]] + Split(name[i + 1..], '_');
    assert fields[1] == Split(name[i + 1..], '_')[0];
    t := Split(fields[1], '.')[0];
  }

  /** Within `rest`, the head `t` of its first field `f1` is followed by nothing or
      by a `_` or a `.`. */
  lemma FieldTail(rest: string, f1: string, t: string) returns (q: string)
    requires f1 == Split(rest, '_')[0] && t == Split(f1, '.')[0]
    ensures rest == t + q && (q == "" || q[0] == '_' || q[0] == '.')
  {
    SplitHead(rest, '_');
    SplitHead(f1, '.');
    assert rest[..|f1|] == f1;
    assert f1[..|t|] == t;
    q := rest[|t|..];
    if |t| < |f1| {
      assert q[0] == f1[|t|];
    }
    assert rest == rest[..|t|] + q;
  }

  /** The sort key of `find_latest_csv`; `None` where computing it raises. */
  function StampOf(name: string): Option<DateTime> {
    match StampText(name)
    case None => None
    case Some(t) => ParseStamp(t)
  }

  /** The snapshot naming convention `<prefix>_<YYYYMMDDHHmm>.<ext>`. */
  function SnapshotName(prefix: string, d: DateTime, ext: string): string {
    prefix + "_" + FormatStamp(d) + "." + ext
  }

  /** A name that follows the convention, with an underscore-free prefix and
      extension, yields its own timestamp. */
  lemma SnapshotNameStamp(prefix: string, d: DateTime, ext: string)
    requires ValidDateTime(d) && '_' !in prefix && '_' !in ext
    ensures StampOf(SnapshotName(prefix, d, ext)) == Some(d)
  {
    var t := FormatStamp(d);
    var rest := t + "." + ext;
    assert '_' !in t by { assert forall k :: 0 <= k < |t| ==> IsDigit(t[k]); }
    assert '_' !in rest;
    assert SnapshotName(prefix, d, ext) == Join([prefix, rest], '_');
    JoinSplit([prefix, rest], '_');
    assert '.' !in t by { assert forall k :: 0 <= k < |t| ==> IsDigit(t[k]); }
    assert rest == Join([t, ext], '.');
    var fs := Split(ext, '.');
    SplitJoin(ext, '.');
    assert forall p :: p in [t] + fs ==> '.' !in p;
    assert Join([t] + fs, '.') == rest by {
      assert ([t] + fs)[1..] == fs;
    }
    JoinSplit([t] + fs, '.');
    FormatThenParse(d);
  }

  /** The code takes field 1 of the underscore split, so a prefix holding an
      underscore makes a name of the documented form fail. */
  lemma UnderscoreInPrefixIsMalformed(d: DateTime)
    requires ValidDateTime(d)
    ensures StampOf(SnapshotName("ocean_feed", d, "csv")) == None
  {
    var t := FormatStamp(d);
    var rest := t + ".csv";
    assert '_' !in t by { assert forall k :: 0 <= k < |t| ==> IsDigit(t[k]); }
    assert '_' !in rest;
    assert SnapshotName("ocean_feed", d, "csv") == "ocean" + ['_'] + "feed" + ['_'] + rest;
    SplitThree("ocean", "feed", rest, '_');
    assert Split("feed", '.') == ["feed"];
  }


  /** `list_csv_blobs`: the listed names that end in `csv`, in listing order. */
  function CsvBlobNames(listing: seq<string>): (r: seq<string>)
    ensures |r| <= |listing|
    ensures forall n :: n in r <==> n in listing && EndsWith(n, "csv")
  {
    if listing == [] then []
    else (if EndsWith(listing[0], "csv") then [listing[0]] else []) + CsvBlobNames(listing[1..])
  }

  /** One listed name is kept exactly when it ends in `csv`. */
  lemma CsvBlobNamesOne(n: string)
    ensures CsvBlobNames([n]) == if EndsWith(n, "csv") then [n] else []
  {
    assert [n][1..] == [];
  }

  /** The filter keeps listing order: the names of a listing in two parts are the
      names of the first part followed by those of the second. */
  lemma {:induction false} CsvBlobNamesAppend(a: seq<string>, b: seq<string>)
    ensures CsvBlobNames(a + b) == CsvBlobNames(a) + CsvBlobNames(b)
  {
    if a == [] {
      assert a + b == b;
    } else {
      var head := if EndsWith(a[0], "csv") then [a[0]] else [];
      assert (a + b)[0] == a[0];
      assert (a + b)[1..] == a[1..] + b;
      assert CsvBlobNames(a) == head + CsvBlobNames(a[1..]);
      assert CsvBlobNames(a + b) == head + CsvBlobNames(a[1..] + b);
      CsvBlobNamesAppend(a[1..], b);
    }
  }

  /** A listed name together with its parsed key and its position in the input. */
  datatype Candidate = Candidate(pos: nat, name: string, stamp: DateTime)

  /** The order in which Python's stable `sorted(..., reverse=True)` puts two candidates:
      the later stamp first, and on equal stamps the one earlier in the input. */
  predicate Precedes(a: Candidate, b: Candidate) {
    Later(a.stamp, b.stamp) || (a.stamp == b.stamp && a.pos < b.pos)
  }

  predicate SortedNewestFirst(cs: seq<Candidate>) {
    forall i, j :: 0 <= i < j < |cs| ==> Precedes(cs[i], cs[j])
  }

  lemma LaterTotal(a: DateTime, b: DateTime)
    ensures a == b || Later(a, b) || Later(b, a)
  {
  }

  lemma LaterAsymmetric(a: DateTime, b: DateTime)
    requires Later(a, b)
    ensures !Later(b, a) && a != b
  {
  }

  lemma LaterTransitive(a: DateTime, b: DateTime, c: DateTime)
    requires Later(a, b) && Later(b, c)
    ensures Later(a, c)
  {
  }

  lemma PrecedesTransitive(a: Candidate, b: Candidate, c: Candidate)
    requires Precedes(a, b) && Precedes(b, c)
    ensures Precedes(a, c)
  {
    if Later(a.stamp, b.stamp) && Later(b.stamp, c.stamp) {
      LaterTransitive(a.stamp, b.stamp, c.stamp);
    }
  }

  /** A candidate that precedes everything in a sorted sequence can go in front of it. */
  lemma ConsSorted(h: Candidate, cs: seq<Candidate>)
    requires SortedNewestFirst(cs)
    requires forall y :: y in cs ==> Precedes(h, y)
    ensures SortedNewestFirst([h] + cs)
  {
    var r := [h] + cs;
    forall i, j | 0 <= i < j < |r| ensures Precedes(r[i], r[j]) {
      if i == 0 {
        assert r[j] == cs[j - 1];
      } else {
        assert r[i] == cs[i - 1] && r[j] == cs[j - 1];
      }
    }
  }

  /** Insert `c`, which comes earlier in the input than every element of `cs`,
      after the strictly later stamps and before the rest. */
  function Insert(c: Candidate, cs: seq<Candidate>): (r: seq<Candidate>)
    ensures |r| == |cs| + 1
    ensures forall y :: y in r <==> y == c || y in cs
    ensures multiset(r) == multiset(cs) + multiset{c}
  {
    if cs == [] || !Later(cs[0].stamp, c.stamp) then [c] + cs
    else
      assert cs == [cs[0]] + cs[1..];
      [cs[0]] + Insert(c, cs[1..])
  }

  /** The stable newest-first sort, as insertion sort from the back. */
  function SortNewestFirst(cs: seq<Candidate>): (r: seq<Candidate>)
    ensures |r| == |cs|
    ensures forall y :: y in r <==> y in cs
    ensures multiset(r) == multiset(cs)
  {
    if cs == [] then []
    else
      assert cs == [cs[0]] + cs[1..];
      Insert(cs[0], SortNewestFirst(cs[1..]))
  }

  lemma {:induction false} InsertSorted(c: Candidate, cs: seq<Candidate>)
    requires SortedNewestFirst(cs)
    requires forall x :: x in cs ==> c.pos < x.pos
    ensures SortedNewestFirst(Insert(c, cs))
  {
    if cs != [] && Later(cs[0].stamp, c.stamp) {
      var tail := Insert(c, cs[1..]);
      InsertSorted(c, cs[1..]);
      forall y | y in tail ensures Precedes(cs[0], y) {
        if y != c {
          var j :| 0 <= j < |cs[1..]| && cs[1..][j] == y;
          assert cs[j + 1] == y;
        }
      }
      ConsSorted(cs[0], tail);
    } else if cs != [] {
      assert Precedes(c, cs[0]) by { LaterTotal(c.stamp, cs[0].stamp); }
      forall y | y in cs ensures Precedes(c, y) {
        var j :| 0 <= j < |cs| && cs[j] == y;
        if j > 0 { PrecedesTransitive(c, cs[0], y); }
      }
      ConsSorted(c, cs);
    }
  }

  /** Candidates with distinct positions are sorted newest first, stably. */
  lemma {:induction false} SortSorted(cs: seq<Candidate>)
    requires forall i, j :: 0 <= i < j < |cs| ==> cs[i].pos < cs[j].pos
    ensures SortedNewestFirst(SortNewestFirst(cs))
  {
    if cs != [] {
      SortSorted(cs[1..]);
      var s := SortNewestFirst(cs[1..]);
      forall x | x in s ensures cs[0].pos < x.pos {
        var j :| 0 <= j < |cs[1..]| && cs[1..][j] == x;
        assert cs[j + 1] == x;
      }
      InsertSorted(cs[0], s);
    }
  }

  /** The candidates of `names`, in input order; requires every key to be computable. */
  function Candidates(names: seq<string>): (cs: seq<Candidate>)
    requires forall k :: 0 <= k < |names| ==> StampOf(names[k]).Some?
  {
    seq(|names|, k requires 0 <= k < |names| => Candidate(k, names[k], StampOf(names[k]).value))
  }

  /** The first name whose key raises, which is the error `sorted` propagates. */
  function FirstMalformed(names: seq<string>): (r: Option<nat>)
    ensures r.None? <==> forall k :: 0 <= k < |names| ==> StampOf(names[k]).Some?
    ensures r.Some? ==> r.value < |names| && StampOf(names[r.value]).None?
                        && forall k :: 0 <= k < r.value ==> StampOf(names[k]).Some?
  {
    if names == [] then None
    else if StampOf(names[0]).None? then Some(0)
    else
      match FirstMalformed(names[1..])
      case None => None
      case Some(i) => Some(i + 1)
  }

  /** `n` is at an index `i` of `names`, no name has a later stamp, and every
      name before index `i` has a strictly earlier one. */
  ghost predicate IsLatest(names: seq<string>, n: string)
    requires forall k :: 0 <= k < |names| ==> StampOf(names[k]).Some?
  {
    exists i :: 0 <= i < |names| && names[i] == n && LatestAt(names, i)
  }

  ghost predicate LatestAt(names: seq<string>, i: nat)
    requires i < |names|
    requires forall k :: 0 <= k < |names| ==> StampOf(names[k]).Some?
  {
    && (forall k :: 0 <= k < |names| ==> !Later(StampOf(names[k]).value, StampOf(names[i]).value))
    && (forall k :: 0 <= k < i ==> Later(StampOf(names[i]).value, StampOf(names[k]).value))
  }

  /** `find_latest_csv`: sort newest first and take the head. */
  function FindLatestCsv(names: seq<string>): (r: Result<string, SnapshotError>)
    ensures names == [] ==> r == Failure(NoCandidates)
    ensures r.Success? <==> names != [] && forall k :: 0 <= k < |names| ==> StampOf(names[k]).Some?
    ensures r.Failure? && names != [] ==>
              exists i :: 0 <= i < |names| && r.error == MalformedFilename(names[i])
                          && StampOf(names[i]).None? && forall k :: 0 <= k < i ==> StampOf(names[k]).Some?
    ensures r.Success? ==> IsLatest(names, r.value)
  {
    match FirstMalformed(names)
    case Some(i) => Failure(MalformedFilename(names[i]))
    case None =>
      var cs := Candidates(names);
      if cs == [] then Failure(NoCandidates)
      else
        var sorted := SortNewestFirst(cs);
        LatestHead(names);
        Success(sorted[0].name)
  }

  /** The head of the sorted candidates is the first name with the latest stamp. */
  lemma LatestHead(names: seq<string>)
    requires names != []
    requires forall k :: 0 <= k < |names| ==> StampOf(names[k]).Some?
    ensures IsLatest(names, SortNewestFirst(Candidates(names))[0].name)
  {
    var cs := Candidates(names);
    var sorted := SortNewestFirst(cs);
    SortSorted(cs);
    var h := sorted[0];
    assert h in cs;
    var p := h.pos;
    assert cs[p] == h;
    forall k | 0 <= k < |names|
      ensures h == cs[k] || Precedes(h, cs[k])
    {
      assert cs[k] in sorted;
      var j :| 0 <= j < |sorted| && sorted[j] == cs[k];
      if j > 0 { assert Precedes(sorted[0], sorted[j]); }
    }
    forall k | 0 <= k < |names|
      ensures !Later(StampOf(names[k]).value, StampOf(names[p]).value)
    {
      if h != cs[k] && Later(cs[k].stamp, h.stamp) {
        LaterAsymmetric(cs[k].stamp, h.stamp);
      }
    }
    forall k | 0 <= k < p
      ensures Later(StampOf(names[p]).value, StampOf(names[k]).value)
    {
      assert cs[k].pos == k;
    }
    assert LatestAt(names, p);
  }

  /** Two stamps for the same minute never change the answer: the earlier name wins. */
  lemma FirstOfTiesWins(a: string, b: string)
    requires StampOf(a).Some? && StampOf(a) == StampOf(b)
    ensures FindLatestCsv([a, b]) == Success(a)
  {
    var r := FindLatestCsv([a, b]);
    var i :| 0 <= i < 2 && [a, b][i] == r.value && LatestAt([a, b], i);
  }

  /** Of two names with computable stamps, a strictly later second one wins. */
  lemma SecondLaterWins(a: string, b: string)
    requires StampOf(a).Some? && StampOf(b).Some?
    requires Later(StampOf(b).value, StampOf(a).value)
    ensures FindLatestCsv([a, b]) == Success(b)
  {
    var r := FindLatestCsv([a, b]);
    assert !LatestAt([a, b], 0) by {
      assert Later(StampOf([a, b][1]).value, StampOf([a, b][0]).value);
    }
    var i :| 0 <= i < 2 && [a, b][i] == r.value && LatestAt([a, b], i);
  }

  lemma YearDigits()
    ensures Digits(2025, 4) == "2025"
  {
    assert Digits(2, 1) == "2";
    assert Digits(20, 2) == "20";
    assert Digits(202, 3) == "202";
  }

  lemma TwoDigits(n: nat)
    requires n < 10
    ensures Digits(n, 2) == ['0', ('0' as int + n) as char]
  {
    assert Digits(n / 10, 1) == "0";
  }

  lemma FirstExampleText()
    ensures FormatStamp(DateTime(2025, 1, 1, 9, 0)) == "202501010900"
  {
    YearDigits();
    TwoDigits(1);
    TwoDigits(9);
    TwoDigits(0);
  }

  lemma SecondExampleText()
    ensures FormatStamp(DateTime(2025, 1, 2, 9, 0)) == "202501020900"
  {
    YearDigits();
    TwoDigits(1);
    TwoDigits(2);
    TwoDigits(9);
    TwoDigits(0);
  }

  /** Of the 1 January and the 2 January 09:00 snapshots of the same feed
      (`x_202501010900.csv` and `x_202501020900.csv`), the second is the latest. */
  lemma LatestExample()
    ensures var a := SnapshotName("x", DateTime(2025, 1, 1, 9, 0), "csv");
            var b := SnapshotName("x", DateTime(2025, 1, 2, 9, 0), "csv");
            FindLatestCsv([a, b]) == Success(b)
  {
    SnapshotNameStamp("x", DateTime(2025, 1, 1, 9, 0), "csv");
    SnapshotNameStamp("x", DateTime(2025, 1, 2, 9, 0), "csv");
    SecondLaterWins(SnapshotName("x", DateTime(2025, 1, 1, 9, 0), "csv"),
                    SnapshotName("x", DateTime(2025, 1, 2, 9, 0), "csv"));
  }
}
