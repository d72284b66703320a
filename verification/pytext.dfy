/** The parts of Python's `str` the pipeline relies on: case mapping, whitespace, `in`,
    `startswith`, `strip`, `split`, `join` and decimal rendering of integers. */
module PyText {

  /** Python's `str.isspace`, which is also what `split()` and `strip()` treat as whitespace. */
  predicate IsSpace(c: char) {
    var n := c as int;
    (9 <= n <= 13) || (28 <= n <= 32) || n == 0x85 || n == 0xA0 || n == 0x1680
    || (0x2000 <= n <= 0x200A) || n == 0x2028 || n == 0x2029 || n == 0x202F
    || n == 0x205F || n == 0x3000
  }

  predicate NoSpace(s: string) {
    forall i | 0 <= i < |s| :: !IsSpace(s[i])
  }

  predicate AllSpace(s: string) {
    forall i | 0 <= i < |s| :: IsSpace(s[i])
  }

  function LowerChar(c: char): char {
    if 'A' <= c <= 'Z' then (c as int + 32) as char else c
  }

  function UpperChar(c: char): char {
    if 'a' <= c <= 'z' then (c as int - 32) as char else c
  }

  /** `s.lower()`, on ASCII letters. */
  function Lower(s: string): (r: string)
    ensures |r| == |s|
    ensures forall i | 0 <= i < |s| :: r[i] == LowerChar(s[i])
  {
    seq(|s|, i requires 0 <= i < |s| => LowerChar(s[i]))
  }

  /** `s.upper()`, on ASCII letters. */
  function Upper(s: string): (r: string)
    ensures |r| == |s|
    ensures forall i | 0 <= i < |s| :: r[i] == UpperChar(s[i])
  {
    seq(|s|, i requires 0 <= i < |s| => UpperChar(s[i]))
  }

  /** No ASCII capital letter occurs in `s`. */
  predicate NoUpper(s: string) {
    forall i | 0 <= i < |s| :: !('A' <= s[i] <= 'Z')
  }

  lemma LowerOfNoUpper(s: string)
    requires NoUpper(s)
    ensures Lower(s) == s
  {
  }

  lemma LowerAppend(a: string, b: string)
    ensures Lower(a + b) == Lower(a) + Lower(b)
  {
  }

  lemma LowerKeepsSpace(s: string)
    ensures forall i | 0 <= i < |s| :: IsSpace(Lower(s)[i]) <==> IsSpace(s[i])
  {
  }

  /** `part` starts at position `i` of `text`. */
  predicate OccursAt(text: string, part: string, i: int) {
    0 <= i && i + |part| <= |text| && text[i..i + |part|] == part
  }

  /** Python's `part in text`. */
  predicate Contains(text: string, part: string) {
    exists i | 0 <= i <= |text| - |part| :: OccursAt(text, part, i)
  }

  /** Python's `text.startswith(part)`. */
  predicate StartsWith(text: string, part: string) {
    |part| <= |text| && text[..|part|] == part
  }

  lemma {:induction false} StartsWithContains(text: string, part: string)
    requires StartsWith(text, part)
    ensures Contains(text, part)
  {
    assert OccursAt(text, part, 0);
  }

  /** A witness position proves containment. */
  lemma ContainsAt(text: string, part: string, i: int)
    requires OccursAt(text, part, i)
    ensures Contains(text, part)
  {
  }

  /** The middle of a concatenation occurs right after its head. */
  lemma {:induction false} OccursInMiddle(a: string, b: string, c: string)
    ensures OccursAt(a + b + c, b, |a|)
  {
    assert (a + b + c)[|a|..|a| + |b|] == b;
  }

  /** Refutes `part in text` by a character of `part` that `text` never uses. */
  lemma {:induction false} NotContainsByChar(text: string, part: string, p: nat)
    requires p < |part| && part[p] !in text
    ensures !Contains(text, part)
  {
    forall i ensures !OccursAt(text, part, i) {
      if 0 <= i && i + |part| <= |text| {
        assert text[i..i + |part|][p] == text[i + p];
      }
    }
  }

  /** Refutes every `w in text` for the words of a list, by one missing character of each. */
  lemma {:induction false} NoneContained(text: string, words: seq<string>, ps: seq<nat>)
    requires |ps| == |words|
    requires forall k | 0 <= k < |words| :: ps[k] < |words[k]| && words[k][ps[k]] !in text
    ensures !ContainsAny(text, words)
  {
    forall k | 0 <= k < |words| ensures !Contains(text, words[k]) {
      NotContainsByChar(text, words[k], ps[k]);
    }
  }

  /** Refutes `part in text` by two adjacent characters of `part` that never stand together in `text`. */
  lemma {:induction false} NotContainsByPair(text: string, part: string, p: nat)
    requires p + 1 < |part|
    requires forall k | 0 <= k < |text| - 1 :: !(text[k] == part[p] && text[k + 1] == part[p + 1])
    ensures !Contains(text, part)
  {
    forall i ensures !OccursAt(text, part, i) {
      if 0 <= i && i + |part| <= |text| {
        assert text[i..i + |part|][p] == text[i + p];
        assert text[i..i + |part|][p + 1] == text[i + p + 1];
      }
    }
  }

  /** Containment is transitive: a part of a part is a part. */
  lemma {:induction false} ContainsTransitive(text: string, mid: string, part: string)
    requires Contains(text, mid) && Contains(mid, part)
    ensures Contains(text, part)
  {
    var i :| 0 <= i <= |text| - |mid| && OccursAt(text, mid, i);
    var j :| 0 <= j <= |mid| - |part| && OccursAt(mid, part, j);
    forall k | 0 <= k < |part|
      ensures text[i + j + k] == part[k]
    {
      assert text[i..i + |mid|][j + k] == text[i + j + k];
      assert mid[j..j + |part|][k] == mid[j + k];
    }
    assert text[i + j..i + j + |part|] == part;
    assert OccursAt(text, part, i + j);
  }

  /** Lower-casing both sides preserves containment. */
  lemma {:induction false} ContainsLower(text: string, part: string)
    requires Contains(text, part)
    ensures Contains(Lower(text), Lower(part))
  {
    var i :| 0 <= i <= |text| - |part| && OccursAt(text, part, i);
    assert Lower(text)[i..i + |part|] == Lower(part);
    assert OccursAt(Lower(text), Lower(part), i);
  }

  /** Containment in either side of a concatenation gives containment in the whole. */
  lemma {:induction false} ContainsInConcat(a: string, b: string, part: string)
    requires Contains(a, part) || Contains(b, part)
    ensures Contains(a + b, part)
  {
    if Contains(a, part) {
      var i :| 0 <= i <= |a| - |part| && OccursAt(a, part, i);
      assert (a + b)[i..i + |part|] == a[i..i + |part|];
      assert OccursAt(a + b, part, i);
    } else {
      var i :| 0 <= i <= |b| - |part| && OccursAt(b, part, i);
      assert (a + b)[|a| + i..|a| + i + |part|] == b[i..i + |part|];
      assert OccursAt(a + b, part, |a| + i);
    }
  }

  /** Each character of an occurrence is the text's character at the same place. */
  lemma {:induction false} CharOfOccurrence(text: string, part: string, i: int, p: int)
    requires OccursAt(text, part, i)
    ensures i <= p < i + |part| ==> part[p - i] == text[p]
  {
    if i <= p < i + |part| {
      assert text[i..i + |part|][p - i] == text[p];
    }
  }

  /** A part without the separator character lies wholly on one side of it. */
  lemma {:induction false} ContainsAcrossSeparator(a: string, sep: char, b: string, part: string)
    requires forall k | 0 <= k < |part| :: part[k] != sep
    ensures Contains(a + [sep] + b, part) <==> Contains(a, part) || Contains(b, part)
  {
    var t := a + [sep] + b;
    if Contains(t, part) {
      var i :| 0 <= i <= |t| - |part| && OccursAt(t, part, i);
      CharOfOccurrence(t, part, i, |a|);
      assert t[|a|] == sep;
      assert i + |part| <= |a| || i > |a|;
      if i + |part| <= |a| {
        assert t[i..i + |part|] == a[i..i + |part|];
        assert OccursAt(a, part, i);
      } else {
        assert t[i..i + |part|] == b[i - |a| - 1..i - |a| - 1 + |part|];
        assert OccursAt(b, part, i - |a| - 1);
      }
    }
    assert t == a + ([sep] + b);
    if Contains(a, part) {
      ContainsInConcat(a, [sep] + b, part);
    } else if Contains(b, part) {
      ContainsInConcat([sep], b, part);
      ContainsInConcat(a, [sep] + b, part);
    }
  }

  /** Number of whitespace characters at the start of `s`. */
  function LeadingSpace(s: string): (n: nat)
    ensures n <= |s|
    ensures AllSpace(s[..n])
    ensures n < |s| ==> !IsSpace(s[n])
    decreases |s|
  {
    if |s| > 0 && IsSpace(s[0]) then 1 + LeadingSpace(s[1..]) else 0
  }

  /** Number of whitespace characters at the end of `s`. */
  function TrailingSpace(s: string): (n: nat)
    ensures n <= |s|
    ensures forall k | |s| - n <= k < |s| :: IsSpace(s[k])
    ensures n < |s| ==> !IsSpace(s[|s| - n - 1])
    decreases |s|
  {
    if |s| > 0 && IsSpace(s[|s| - 1]) then 1 + TrailingSpace(s[..|s| - 1]) else 0
  }

  /** Length of the run of non-whitespace characters at the start of `s`. */
  function WordLength(s: string): (n: nat)
    ensures n <= |s|
    ensures NoSpace(s[..n])
    ensures n < |s| ==> IsSpace(s[n])
    decreases |s|
  {
    if |s| > 0 && !IsSpace(s[0]) then 1 + WordLength(s[1..]) else 0
  }

  /** Python's `s.strip()`: the text between the leading and the trailing whitespace. */
  function Strip(s: string): (r: string)
    ensures r == "" <==> AllSpace(s)
    ensures r != "" ==> !IsSpace(r[0]) && !IsSpace(r[|r| - 1])
    ensures r != "" ==> r == s[LeadingSpace(s)..|s| - TrailingSpace(s)]
  {
    var a := LeadingSpace(s);
    if a == |s| then ""
    else
      var b := TrailingSpace(s);
      TrailingSpaceBound(s, a);
      s[a..|s| - b]
  }

  /** Trailing whitespace stops before any non-whitespace character. */
  lemma {:induction false} TrailingSpaceBound(s: string, a: nat)
    requires a < |s| && !IsSpace(s[a])
    ensures TrailingSpace(s) < |s| - a
    decreases |s|
  {
    if IsSpace(s[|s| - 1]) {
      var t := s[..|s| - 1];
      assert t[a] == s[a];
      TrailingSpaceBound(t, a);
    }
  }

  /** Stripping text that is already stripped changes nothing. */
  lemma {:induction false} StripIdempotent(s: string)
    ensures Strip(Strip(s)) == Strip(s)
  {
    var r := Strip(s);
    if r != "" {
      assert LeadingSpace(r) == 0;
      assert TrailingSpace(r) == 0;
    }
  }

  /** Python's `s.split()`: the maximal runs of non-whitespace characters, in order. */
  function Words(s: string): (ws: seq<string>)
    ensures forall k | 0 <= k < |ws| :: ws[k] != "" && NoSpace(ws[k])
    decreases |s|
  {
    var a := LeadingSpace(s);
    if a == |s| then []
    else
      var rest := s[a..];
      var n := WordLength(rest);
      [rest[..n]] + Words(rest[n..])
  }

  /** `s` with every whitespace character removed. */
  function RemoveSpace(s: string): string
    decreases |s|
  {
    if s == [] then [] else (if IsSpace(s[0]) then [] else [s[0]]) + RemoveSpace(s[1..])
  }

  function Concat(ws: seq<string>): string
    decreases |ws|
  {
    if ws == [] then "" else ws[0] + Concat(ws[1..])
  }

  lemma {:induction false} RemoveSpaceAppend(a: string, b: string)
    ensures RemoveSpace(a + b) == RemoveSpace(a) + RemoveSpace(b)
    decreases |a|
  {
    if a == [] {
      assert a + b == b;
    } else {
      assert (a + b)[1..] == a[1..] + b;
      RemoveSpaceAppend(a[1..], b);
    }
  }

  lemma {:induction false} RemoveSpaceOfSpace(s: string)
    requires AllSpace(s)
    ensures RemoveSpace(s) == ""
    decreases |s|
  {
    if s != [] {
      RemoveSpaceOfSpace(s[1..]);
    }
  }

  lemma {:induction false} RemoveSpaceOfWord(s: string)
    requires NoSpace(s)
    ensures RemoveSpace(s) == s
    decreases |s|
  {
    if s != [] {
      RemoveSpaceOfWord(s[1..]);
      assert [s[0]] + s[1..] == s;
    }
  }

  /** Splitting loses exactly the whitespace: the words, glued together, are `s` without its spaces. */
  lemma {:induction false} WordsCoverText(s: string)
    ensures Concat(Words(s)) == RemoveSpace(s)
    decreases |s|
  {
    var a := LeadingSpace(s);
    DropLeadingSpace(s, a);
    if a < |s| {
      var rest := s[a..];
      var n := WordLength(rest);
      WordsCoverText(rest[n..]);
      SplitAtWord(rest, n);
      var ws := Words(s);
      assert ws == [rest[..n]] + Words(rest[n..]);
      assert ws[1..] == Words(rest[n..]);
    }
  }

  lemma {:induction false} DropLeadingSpace(s: string, a: nat)
    requires a <= |s| && AllSpace(s[..a])
    ensures RemoveSpace(s) == RemoveSpace(s[a..])
  {
    assert s == s[..a] + s[a..];
    RemoveSpaceAppend(s[..a], s[a..]);
    RemoveSpaceOfSpace(s[..a]);
  }

  lemma {:induction false} SplitAtWord(s: string, n: nat)
    requires n <= |s| && NoSpace(s[..n])
    ensures RemoveSpace(s) == s[..n] + RemoveSpace(s[n..])
  {
    assert s == s[..n] + s[n..];
    RemoveSpaceAppend(s[..n], s[n..]);
    RemoveSpaceOfWord(s[..n]);
  }

  /** Python's `sep.join(parts)`. */
  function Join(sep: string, parts: seq<string>): string
    decreases |parts|
  {
    if parts == [] then ""
    else if |parts| == 1 then parts[0]
    else parts[0] + sep + Join(sep, parts[1..])
  }

  lemma {:induction false} JoinCons(sep: string, p: string, rest: seq<string>)
    requires rest != []
    ensures Join(sep, [p] + rest) == p + sep + Join(sep, rest)
  {
    assert ([p] + rest)[1..] == rest;
  }

  /** Lower-casing a joined text lower-cases each piece. */
  lemma {:induction false} LowerJoin(sep: string, parts: seq<string>, lowered: seq<string>)
    requires |lowered| == |parts|
    requires forall k | 0 <= k < |parts| :: lowered[k] == Lower(parts[k])
    ensures Lower(Join(sep, parts)) == Join(Lower(sep), lowered)
    decreases |parts|
  {
    if |parts| > 1 {
      LowerJoin(sep, parts[1..], lowered[1..]);
      LowerAppend(parts[0] + sep, Join(sep, parts[1..]));
      LowerAppend(parts[0], sep);
    }
  }

  /** Python's `any(w in text for w in words)`. */
  predicate ContainsAny(text: string, words: seq<string>) {
    exists k | 0 <= k < |words| :: Contains(text, words[k])
  }

  /** Python's `any(text.startswith(w) for w in words)`. */
  predicate StartsWithAny(text: string, words: seq<string>) {
    exists k | 0 <= k < |words| :: StartsWith(text, words[k])
  }

  /** A join begins with its first part. */
  lemma JoinStartsWithFirst(sep: string, parts: seq<string>)
    requires parts != []
    ensures StartsWith(Join(sep, parts), parts[0])
  {
  }

  /** A part free of the one-character separator occurs in a joined text iff it occurs in a piece. */
  lemma {:induction false} ContainsInJoin(sep: char, parts: seq<string>, part: string)
    requires forall k | 0 <= k < |part| :: part[k] != sep
    ensures Contains(Join([sep], parts), part) <==>
            (Contains("", part) && parts == []) || exists k | 0 <= k < |parts| :: Contains(parts[k], part)
    decreases |parts|
  {
    if parts == [] {
    } else if |parts| == 1 {
    } else {
      ContainsInJoin(sep, parts[1..], part);
      ContainsAcrossSeparator(parts[0], sep, Join([sep], parts[1..]), part);
      assert parts[0] + [sep] + Join([sep], parts[1..]) == Join([sep], parts);
      if exists k | 0 <= k < |parts| :: Contains(parts[k], part) {
        var k :| 0 <= k < |parts| && Contains(parts[k], part);
        if k > 0 {
          assert parts[1..][k - 1] == parts[k];
        }
      }
      if exists k | 0 <= k < |parts| - 1 :: Contains(parts[1..][k], part) {
        var k :| 0 <= k < |parts| - 1 && Contains(parts[1..][k], part);
        assert parts[k + 1] == parts[1..][k];
      }
    }
  }

  function DigitChar(d: nat): char
    requires d < 10
  {
    ('0' as int + d) as char
  }

  /** Python's `str(n)` for a natural number. */
  function NatToString(n: nat): (r: string)
    ensures |r| >= 1
    ensures forall k | 0 <= k < |r| :: '0' <= r[k] <= '9'
    decreases n
  {
    if n < 10 then [DigitChar(n)] else NatToString(n / 10) + [DigitChar(n % 10)]
  }

  /** Python's `str(i)` for any integer. */
  function IntToString(i: int): string {
    if i < 0 then "-" + NatToString(-i) else NatToString(i)
  }

  /** The value of a string of decimal digits: the inverse of `NatToString`. */
  function DecimalValue(s: string): nat
    decreases |s|
  {
    if s == [] then 0
    else
      var c := s[|s| - 1];
      DecimalValue(s[..|s| - 1]) * 10 + (if '0' <= c <= '9' then c as int - '0' as int else 0)
  }

  /** Reading back the decimal text of `n` gives `n`. */
  lemma {:induction false} DecimalRoundTrip(n: nat)
    ensures DecimalValue(NatToString(n)) == n
    decreases n
  {
    if n >= 10 {
      DecimalRoundTrip(n / 10);
      var s := NatToString(n);
      var d := n % 10;
      assert s[..|s| - 1] == NatToString(n / 10);
      assert s[|s| - 1] == DigitChar(d);
      assert DecimalValue(s) == (n / 10) * 10 + d;
    }
  }
}
