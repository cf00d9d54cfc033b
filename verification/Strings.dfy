/**
 The few string operations the code relies on, with the meaning Python gives them:
 code point order and `sorted`, `str.split()`, `str.strip()`, `str.join`, reading a
 file line by line, and splitting a line at its first separator.
 */
module Strings {

  // ------------------------------------------------------------ code point order

  predicate Less(a: string, b: string)
  {
    b != "" && (a == "" || a[0] < b[0] || (a[0] == b[0] && Less(a[1..], b[1..])))
  }

  lemma {:induction false} LessTransitive(a: string, b: string, c: string)
    requires Less(a, b) && Less(b, c)
    ensures Less(a, c)
  {
    if a != "" && a[0] == b[0] && b[0] == c[0] {
      LessTransitive(a[1..], b[1..], c[1..]);
    }
  }

  /** Exactly one of a < b, a == b, b < a. */
  lemma {:induction false} LessTotal(a: string, b: string)
    ensures Less(a, b) || a == b || Less(b, a)
    ensures !(Less(a, b) && Less(b, a))
    ensures a == b ==> !Less(a, b)
  {
    if a != "" && b != "" && a[0] == b[0] {
      LessTotal(a[1..], b[1..]);
      assert a == [a[0]] + a[1..] && b == [b[0]] + b[1..];
    }
  }

  /** The order of a dictionary: a beginning comes first, and else the first difference decides. */
  lemma {:induction false} LessIff(a: string, b: string)
    ensures Less(a, b) <==> a < b || exists i :: DiffersFirstAt(a, b, i) && a[i] < b[i]
  {
    if a == "" || b == "" {
    } else if a[0] != b[0] {
      assert DiffersFirstAt(a, b, 0);
      assert forall i | DiffersFirstAt(a, b, i) :: i == 0;
    } else {
      LessIff(a[1..], b[1..]);
      assert a == [a[0]] + a[1..] && b == [b[0]] + b[1..];
      assert a < b <==> a[1..] < b[1..];
      if i :| DiffersFirstAt(a[1..], b[1..], i) && a[1..][i] < b[1..][i] {
        assert a[..i + 1] == [a[0]] + a[1..][..i] && b[..i + 1] == [b[0]] + b[1..][..i];
        assert DiffersFirstAt(a, b, i + 1);
      }
      if i :| DiffersFirstAt(a, b, i) && a[i] < b[i] {
        assert i > 0 && a[1..][..i - 1] == a[..i][1..] && b[1..][..i - 1] == b[..i][1..];
        assert DiffersFirstAt(a[1..], b[1..], i - 1);
      }
    }
  }

  predicate DiffersFirstAt(a: string, b: string, i: int)
  {
    0 <= i < |a| && i < |b| && a[..i] == b[..i] && a[i] != b[i]
  }

  predicate Least(m: string, s: set<string>)
  {
    m in s && forall x | x in s :: x == m || Less(m, x)
  }

  lemma {:induction false} LeastExists(s: set<string>)
    requires s != {}
    ensures exists m :: Least(m, s)
    decreases |s|
  {
    var x :| x in s;
    if s == {x} {
      assert Least(x, s);
    } else {
      assert x in s && |s - {x}| < |s|;
      LeastExists(s - {x});
      var m :| Least(m, s - {x});
      LessTotal(x, m);
      if Less(x, m) {
        forall y | y in s ensures y == x || Less(x, y) {
          if y != x && y != m { LessTransitive(x, m, y); }
        }
        assert Least(x, s);
      } else {
        assert Least(m, s);
      }
    }
  }

  lemma LeastUnique(m: string, n: string, s: set<string>)
    requires Least(m, s) && Least(n, s)
    ensures m == n
  {
    LessTotal(m, n);
  }

  predicate Ascending(r: seq<string>)
  {
    forall i, j | 0 <= i < j < |r| :: Less(r[i], r[j])
  }

  /** Python's `sorted` on a set of strings: the one ascending listing of it. */
  function Sorted(s: set<string>): (r: seq<string>)
    ensures Ascending(r)
    ensures |r| == |s|
    ensures forall x :: x in r <==> x in s
    decreases |s|
  {
    if s == {} then [] else
      LeastExists(s);
      assert forall m, n | Least(m, s) && Least(n, s) :: m == n by {
        forall m, n | Least(m, s) && Least(n, s) ensures m == n { LeastUnique(m, n, s); }
      }
      var m :| Least(m, s);
      var rest := Sorted(s - {m});
      assert forall x :: x in [m] + rest <==> x == m || x in rest;
      assert forall j | 0 <= j < |rest| :: Less(m, rest[j]) by {
        forall j | 0 <= j < |rest| ensures Less(m, rest[j]) {
          assert rest[j] in rest && rest[j] in s - {m};
        }
      }
      [m] + rest
  }

  function SetOf(xs: seq<string>): set<string>
  {
    set x | x in xs
  }

  lemma EmptySeq(xs: seq<string>)
    ensures (forall x :: x !in xs) ==> xs == []
  {
    if xs != [] { assert xs[0] in xs; }
  }

  predicate NoRepeats(xs: seq<string>)
  {
    forall i, j | 0 <= i < j < |xs| :: xs[i] != xs[j]
  }

  lemma AscendingHasNoRepeats(xs: seq<string>)
    requires Ascending(xs)
    ensures NoRepeats(xs)
  {
    forall i, j | 0 <= i < j < |xs| ensures xs[i] != xs[j] { LessTotal(xs[i], xs[j]); }
  }

  // --------------------------------------------------------------- words of a line

  /** The characters for which Python's `str.isspace` answers true. */
  predicate IsSpace(c: char)
  {
    c in ['\t', '\n', '\U{000b}', '\U{000c}', '\r', ' ', '\U{0085}', '\U{00a0}', '\U{1680}',
          '\U{2028}', '\U{2029}', '\U{202f}', '\U{205f}', '\U{3000}']
    || '\U{001c}' <= c <= '\U{001f}' || '\U{2000}' <= c <= '\U{200a}'
  }

  predicate NoSpace(s: string)
  {
    forall i | 0 <= i < |s| :: !IsSpace(s[i])
  }

  /** Length of the run of non-space characters `s` begins with. */
  function WordLen(s: string): (n: nat)
    ensures n <= |s|
    ensures NoSpace(s[..n])
    ensures n < |s| ==> IsSpace(s[n])
  {
    if s == "" || IsSpace(s[0]) then 0 else
      var n := WordLen(s[1..]) + 1;
      assert s[..n] == [s[0]] + s[1..][..n - 1];
      n
  }

  /** `s.split()`. */
  function Words(s: string): seq<string>
    decreases |s|
  {
    if s == "" then []
    else if IsSpace(s[0]) then Words(s[1..])
    else [s[..WordLen(s)]] + Words(s[WordLen(s)..])
  }

  lemma {:induction false} WordLenOf(a: string, c: char, b: string)
    requires NoSpace(a) && IsSpace(c)
    ensures WordLen(a + [c] + b) == |a|
  {
    hide IsSpace;
    var s := a + [c] + b;
    assert forall i | 0 <= i < |a| :: s[i] == a[i];
    assert s[|a|] == c;
    assert forall i | 0 <= i < WordLen(s) :: s[..WordLen(s)][i] == s[i];
  }

  lemma {:induction false} WordsOfWord(a: string)
    requires NoSpace(a) && a != ""
    ensures Words(a) == [a]
  {
    hide IsSpace;
    assert WordLen(a) == |a|;
    assert a[..|a|] == a && a[|a|..] == "";
  }

  /** Splitting at a whitespace character splits the words. */
  lemma {:induction false} WordsAtSpace(a: string, c: char, b: string)
    requires IsSpace(c)
    ensures Words(a + [c] + b) == Words(a) + Words(b)
    decreases |a|
  {
    hide IsSpace;
    var s := a + [c] + b;
    if a == "" {
      assert s[1..] == b;
    } else if IsSpace(a[0]) {
      assert s[1..] == a[1..] + [c] + b;
      WordsAtSpace(a[1..], c, b);
    } else {
      var n := WordLen(a);
      assert a == a[..n] + a[n..];
      if n == |a| {
        WordLenOf(a, c, b);
        assert s[..n] == a && s[n..] == [c] + b && ([c] + b)[1..] == b;
        assert a[..n] == a && a[n..] == "";
      } else {
        WordLenOf(a[..n], a[n], a[n + 1..] + [c] + b);
        assert s == a[..n] + [a[n]] + (a[n + 1..] + [c] + b);
        assert s[..n] == a[..n] && s[n..] == a[n..] + [c] + b;
        WordsAtSpace(a[n..], c, b);
      }
    }
  }

  /** `sep.join(xs)` for a one-character separator. */
  function Join(sep: char, xs: seq<string>): string
  {
    if xs == [] then "" else if |xs| == 1 then xs[0] else xs[0] + [sep] + Join(sep, xs[1..])
  }

  function Strip(s: string): string
    decreases |s|
  {
    if s == "" then "" else
      if IsSpace(s[0]) then Strip(s[1..])
      else if IsSpace(s[|s| - 1]) then Strip(s[..|s| - 1])
      else s
  }

  /** A string that is one word is that word with whitespace around it. */
  lemma {:induction false} OneWordIsStripped(s: string)
    requires |Words(s)| == 1
    ensures Words(s) == [Strip(s)]
    ensures NoSpace(Strip(s)) && Strip(s) != ""
    decreases |s|
  {
    hide IsSpace;
    if IsSpace(s[0]) {
      OneWordIsStripped(s[1..]);
    } else if IsSpace(s[|s| - 1]) {
      var t := s[..|s| - 1];
      assert s == t + [s[|s| - 1]] + "";
      WordsAtSpace(t, s[|s| - 1], "");
      OneWordIsStripped(t);
    } else {
      var n := WordLen(s);
      if n == |s| {
        WordsOfWord(s);
        assert s[..n] == s;
      } else {
        // A last character that is not a space starts or continues a further word.
        LastWord(s[n..]);
      }
    }
  }

  lemma {:induction false} LastWord(s: string)
    requires s != "" && !IsSpace(s[|s| - 1])
    ensures Words(s) != []
    decreases |s|
  {
    hide IsSpace;
    if IsSpace(s[0]) {
      LastWord(s[1..]);
    }
  }

  // ------------------------------------------------------------- records in a file

  function CountBreaks(s: string): nat
  {
    if s == "" then 0 else (if s[0] == '\n' then 1 else 0) + CountBreaks(s[1..])
  }

  function LineLen(s: string): (n: nat)
    ensures n <= |s|
    ensures forall i | 0 <= i < n :: s[i] != '\n'
    ensures n < |s| ==> s[n] == '\n'
  {
    if s == "" || s[0] == '\n' then 0 else LineLen(s[1..]) + 1
  }

  /** The lines of a text file; a final newline ends the last line, it does not start one. */
  function Lines(s: string): seq<string>
    decreases |s|
  {
    if s == "" then []
    else
      var n := LineLen(s);
      if n == |s| then [s] else [s[..n]] + Lines(s[n + 1..])
  }

  function FirstIndex(c: char, s: string): (n: nat)
    ensures n <= |s|
    ensures forall i | 0 <= i < n :: s[i] != c
    ensures n < |s| ==> s[n] == c
  {
    if s == "" || s[0] == c then 0 else FirstIndex(c, s[1..]) + 1
  }

  /** A line read as `key<sep>value`, cut at the first separator. */
  function SplitOnce(sep: char, line: string): (string, string)
  {
    var n := FirstIndex(sep, line);
    if n == |line| then (line, "") else (line[..n], line[n + 1..])
  }

  /** One record per line. */
  function RecordText(sep: char, recs: seq<(string, string)>): string
  {
    if recs == [] then ""
    else recs[0].0 + [sep] + recs[0].1 + "\n" + RecordText(sep, recs[1..])
  }

  function ReadLines(sep: char, lines: seq<string>): (r: seq<(string, string)>)
    ensures |r| == |lines|
  {
    if lines == [] then [] else [SplitOnce(sep, lines[0])] + ReadLines(sep, lines[1..])
  }

  function ReadRecords(sep: char, text: string): seq<(string, string)>
  {
    ReadLines(sep, Lines(text))
  }

  predicate OneLine(s: string)
  {
    '\n' !in s
  }

  predicate OneLineRecords(recs: seq<(string, string)>)
  {
    forall i | 0 <= i < |recs| :: OneLine(recs[i].0) && OneLine(recs[i].1)
  }

  predicate KeysAvoid(sep: char, recs: seq<(string, string)>)
  {
    forall i | 0 <= i < |recs| :: sep !in recs[i].0
  }

  lemma {:induction false} LinesCons(a: string, b: string)
    requires OneLine(a)
    ensures Lines(a + "\n" + b) == [a] + Lines(b)
  {
    var s := a + "\n" + b;
    var n := LineLen(s);
    assert s[|a|] == '\n' && forall i | 0 <= i < |a| :: s[i] == a[i];
    assert s[..n] == a && s[n + 1..] == b;
  }

  lemma {:induction false} CountBreaksPlus(a: string, b: string)
    ensures CountBreaks(a + b) == CountBreaks(a) + CountBreaks(b)
  {
    if a == "" {
      assert a + b == b;
    } else {
      assert (a + b)[1..] == a[1..] + b;
      CountBreaksPlus(a[1..], b);
    }
  }

  lemma {:induction false} CountBreaksZero(s: string)
    ensures CountBreaks(s) == 0 <==> OneLine(s)
  {
    if s != "" {
      CountBreaksZero(s[1..]);
      assert s == [s[0]] + s[1..];
    }
  }

  /** A text whose last character is a newline has as many lines as newlines. */
  lemma {:induction false} LinesCounted(s: string)
    requires s != "" ==> s[|s| - 1] == '\n'
    ensures |Lines(s)| == CountBreaks(s)
    decreases |s|
  {
    if s != "" {
      var n := LineLen(s);
      assert n < |s|;
      LinesCounted(s[n + 1..]);
      BreaksAfterLine(s, n);
    }
  }

  lemma BreaksAfterLine(s: string, n: nat)
    requires n < |s| && s[n] == '\n' && forall i | 0 <= i < n :: s[i] != '\n'
    ensures CountBreaks(s) == 1 + CountBreaks(s[n + 1..])
  {
    assert CountBreaks("\n") == 1;
    CountBreaksZero(s[..n]);
    hide CountBreaks;
    assert s == s[..n] + "\n" + s[n + 1..];
    CountBreaksPlus(s[..n] + "\n", s[n + 1..]);
    CountBreaksPlus(s[..n], "\n");
  }

  function RecordBreaks(recs: seq<(string, string)>): nat
  {
    if recs == [] then 0
    else CountBreaks(recs[0].0) + CountBreaks(recs[0].1) + RecordBreaks(recs[1..])
  }

  lemma {:induction false} RecordBreaksZero(recs: seq<(string, string)>)
    ensures RecordBreaks(recs) == 0 <==> OneLineRecords(recs)
  {
    if recs != [] {
      CountBreaksZero(recs[0].0);
      CountBreaksZero(recs[0].1);
      RecordBreaksZero(recs[1..]);
      assert recs == [recs[0]] + recs[1..];
    }
  }

  lemma {:induction false} RecordTextBreaks(sep: char, recs: seq<(string, string)>)
    requires sep != '\n'
    ensures CountBreaks(RecordText(sep, recs)) == |recs| + RecordBreaks(recs)
    ensures var t := RecordText(sep, recs); t != "" ==> t[|t| - 1] == '\n'
  {
    if recs != [] {
      RecordTextBreaks(sep, recs[1..]);
      var k, v, rest := recs[0].0, recs[0].1, RecordText(sep, recs[1..]);
      CountBreaksPlus(k + [sep] + v + "\n", rest);
      CountBreaksPlus(k + [sep] + v, "\n");
      CountBreaksPlus(k + [sep], v);
      CountBreaksPlus(k, [sep]);
      assert CountBreaks("\n") == 1 && CountBreaks([sep]) == 0;
    }
  }

  lemma {:induction false} SplitOnceOf(sep: char, k: string, v: string)
    requires sep !in k
    ensures SplitOnce(sep, k + [sep] + v) == (k, v)
  {
    var line := k + [sep] + v;
    var n := FirstIndex(sep, line);
    assert line[|k|] == sep && forall i | 0 <= i < |k| :: line[i] == k[i];
    assert line[..n] == k && line[n + 1..] == v;
  }

  /**
   The file reads back as the records it was printed from exactly when no field
   spans a line. A field that does makes more lines than there are records.
   */
  lemma {:induction false} RecordsRoundTrip(sep: char, recs: seq<(string, string)>)
    requires sep != '\n' && KeysAvoid(sep, recs)
    ensures ReadRecords(sep, RecordText(sep, recs)) == recs <==> OneLineRecords(recs)
  {
    if OneLineRecords(recs) {
      RecordsReadBack(sep, recs);
    } else {
      RecordBreaksZero(recs);
      RecordTextBreaks(sep, recs);
      LinesCounted(RecordText(sep, recs));
    }
  }

  lemma {:induction false} RecordsReadBack(sep: char, recs: seq<(string, string)>)
    requires sep != '\n' && KeysAvoid(sep, recs) && OneLineRecords(recs)
    ensures ReadRecords(sep, RecordText(sep, recs)) == recs
  {
    if recs != [] {
      var k, v, rest := recs[0].0, recs[0].1, RecordText(sep, recs[1..]);
      RecordsReadBack(sep, recs[1..]);
      assert OneLine(k + [sep] + v);
      LinesCons(k + [sep] + v, rest);
      SplitOnceOf(sep, k, v);
    }
  }
}
