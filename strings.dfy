/**
 * The string operations of the JavaScript runtime that the application uses:
 * `trim`, `split` on one character, `join`, `startsWith`, `includes`,
 * `toLowerCase` (ASCII only) and the decimal rendering of a number.
 */
module Strings {

  /**
   * White space as JavaScript's `trim` and the `\s` of its regular
   * expressions see it: the ASCII blanks, the no-break and byte-order
   * spaces, the line and paragraph separators and the Unicode space
   * separators.
   */
  predicate IsSpace(c: char) {
    c == ' ' || c == '\t' || c == '\n' || c == '\r' || c == '\U{0B}' || c == '\U{0C}'
    || c == '\U{A0}' || c == '\U{1680}' || ('\U{2000}' <= c <= '\U{200A}')
    || c == '\U{2028}' || c == '\U{2029}' || c == '\U{202F}' || c == '\U{205F}'
    || c == '\U{3000}' || c == '\U{FEFF}'
  }

  predicate AllSpace(s: string) {
    forall i :: 0 <= i < |s| ==> IsSpace(s[i])
  }

  /** `s` with its leading white space removed. */
  function TrimStart(s: string): (r: string)
    ensures |r| <= |s| && r == s[|s| - |r|..]
    ensures r == [] || !IsSpace(r[0])
    ensures AllSpace(s[..|s| - |r|])
  {
    if |s| > 0 && IsSpace(s[0]) then
      var r := TrimStart(s[1..]);
      assert s[1..][..|s[1..]| - |r|] == s[1..|s| - |r|];
      r
    else s
  }

  /** `s` with its trailing white space removed. */
  function TrimEnd(s: string): (r: string)
    ensures |r| <= |s| && r == s[..|r|]
    ensures r == [] || !IsSpace(r[|r| - 1])
    ensures AllSpace(s[|r|..])
  {
    if |s| > 0 && IsSpace(s[|s| - 1]) then
      var r := TrimEnd(s[..|s| - 1]);
      assert s[|r|..] == s[..|s| - 1][|r|..] + [s[|s| - 1]];
      r
    else s
  }

  /** JavaScript's `s.trim()`: no white space is left at either end. */
  function Trim(s: string): (r: string)
    ensures IsTrimmed(r)
  {
    var t := TrimStart(s);
    var r := TrimEnd(t);
    assert r != [] ==> r[0] == t[0];
    r
  }

  /** A trimmed string neither starts nor ends with white space. */
  predicate IsTrimmed(s: string) {
    s == [] || (!IsSpace(s[0]) && !IsSpace(s[|s| - 1]))
  }

  /** `s.trim()` is falsy exactly when `s` is all white space. */
  lemma {:induction false} TrimEmptyIffAllSpace(s: string)
    ensures Trim(s) == [] <==> AllSpace(s)
  {
    var t := TrimStart(s);
    if t == [] {
      assert s[..|s| - |t|] == s;
    } else {
      assert !IsSpace(s[|s| - |t|]);
    }
  }

  /** `trim` removes only the white space at the two ends: what is left is a slice of `s` with only white space around it. */
  lemma TrimRemovesOnlyEnds(s: string)
    ensures exists i ::
      0 <= i <= |s| - |Trim(s)| && s[i..i + |Trim(s)|] == Trim(s) && AllSpace(s[..i]) && AllSpace(s[i + |Trim(s)|..])
  {
    var t := TrimStart(s);
    var r := TrimEnd(t);
    var i := |s| - |t|;
    TrimEnds(s, t, r, i);
    assert Trim(s) == r;
  }

  /** A prefix `r` of the suffix `t` of `s` from `i` is the slice of `s` there, with blanks around it. */
  lemma TrimEnds(s: string, t: string, r: string, i: nat)
    requires i <= |s| && t == s[i..] && AllSpace(s[..i])
    requires |r| <= |t| && r == t[..|r|] && AllSpace(t[|r|..])
    ensures i <= |s| - |r| && s[i..i + |r|] == r && AllSpace(s[..i]) && AllSpace(s[i + |r|..])
  {
    assert t[|r|..] == s[i + |r|..];
  }

  /** Trimming an already trimmed string changes nothing. */
  lemma TrimOfTrimmed(s: string)
    requires IsTrimmed(s)
    ensures Trim(s) == s
  {
  }

  /** Trimming a string that is its trimmed core with leading blanks gives the core back. */
  lemma {:induction false} TrimLeadingBlanks(pad: string, s: string)
    requires AllSpace(pad) && IsTrimmed(s)
    ensures Trim(pad + s) == s
  {
    if pad != [] {
      assert (pad + s)[1..] == pad[1..] + s;
      TrimLeadingBlanks(pad[1..], s);
    }
  }

  /** `s.indexOf(c)` when `c` occurs in `s`. */
  function IndexOf(s: string, c: char): (i: nat)
    requires c in s
    ensures i < |s| && s[i] == c && c !in s[..i]
  {
    if s[0] == c then 0 else
      var i := IndexOf(s[1..], c);
      assert s[1..][..i] == s[1..i + 1];
      i + 1
  }

  /** JavaScript's `s.split(c)` for a one-character separator `c`. */
  function Split(s: string, c: char): (parts: seq<string>)
    ensures |parts| >= 1
    ensures forall k :: 0 <= k < |parts| ==> c !in parts[k]
    decreases |s|
  {
    if c !in s then [s]
    else
      var i := IndexOf(s, c);
      [s[..i]] + Split(s[i + 1..], c)
  }

  /** JavaScript's `parts.join(sep)`. */
  function Join(parts: seq<string>, sep: string): (r: string)
    ensures |parts| > 0 ==> StartsWith(r, parts[0])
  {
    if |parts| == 0 then []
    else if |parts| == 1 then parts[0]
    else parts[0] + sep + Join(parts[1..], sep)
  }

  /** Joining the pieces of a split with the separator restores the input. */
  lemma {:induction false} JoinSplit(s: string, c: char)
    ensures Join(Split(s, c), [c]) == s
    decreases |s|
  {
    if c in s {
      var i := IndexOf(s, c);
      var rest := Split(s[i + 1..], c);
      JoinSplit(s[i + 1..], c);
      assert Split(s, c) == [s[..i]] + rest;
      assert (Split(s, c))[1..] == rest;
      assert s == s[..i] + [c] + s[i + 1..];
    }
  }

  /** The first separator of `a + [c] + b` is the one after `a` when `a` has none. */
  lemma {:induction false} IndexOfAfter(a: string, c: char, b: string)
    requires c !in a
    ensures c in a + [c] + b && IndexOf(a + [c] + b, c) == |a|
  {
    var s := a + [c] + b;
    assert s[|a|] == c;
    assert s[..|a|] == a;
  }

  /** Splitting a join of pieces free of the separator gives back the pieces. */
  lemma {:induction false} SplitJoin(parts: seq<string>, c: char)
    requires |parts| >= 1
    requires forall k :: 0 <= k < |parts| ==> c !in parts[k]
    ensures Split(Join(parts, [c]), c) == parts
  {
    if |parts| > 1 {
      var tail := Join(parts[1..], [c]);
      var s := parts[0] + [c] + tail;
      assert Join(parts, [c]) == s;
      IndexOfAfter(parts[0], c, tail);
      assert s[..|parts[0]|] == parts[0];
      assert s[|parts[0]| + 1..] == tail;
      SplitJoin(parts[1..], c);
      assert Split(s, c) == [parts[0]] + parts[1..];
    }
  }

  /** `parts.map(p => p.trim())`. */
  function TrimAll(parts: seq<string>): (r: seq<string>)
    ensures |r| == |parts| && forall k :: 0 <= k < |r| ==> r[k] == Trim(parts[k])
  {
    seq(|parts|, k requires 0 <= k < |parts| => Trim(parts[k]))
  }

  /** `parts.filter(p => p)`: the non-empty strings, in order. */
  function NonEmptyOnly(parts: seq<string>): (r: seq<string>)
    ensures |r| <= |parts|
    ensures forall k :: 0 <= k < |r| ==> r[k] != "" && r[k] in parts
  {
    if parts == [] then []
    else if parts[0] != "" then [parts[0]] + NonEmptyOnly(parts[1..])
    else NonEmptyOnly(parts[1..])
  }

  /** Each non-empty string is kept as often as it occurs; `""` is dropped. */
  lemma {:induction false} NonEmptyOnlyCounts(parts: seq<string>, p: string)
    ensures multiset(NonEmptyOnly(parts))[p] == if p == "" then 0 else multiset(parts)[p]
  {
    if parts != [] {
      assert parts == [parts[0]] + parts[1..];
      NonEmptyOnlyCounts(parts[1..], p);
    }
  }

  /** Filtering a concatenation filters each part, in order. */
  lemma {:induction false} NonEmptyOnlyAppend(a: seq<string>, b: seq<string>)
    ensures NonEmptyOnly(a + b) == NonEmptyOnly(a) + NonEmptyOnly(b)
  {
    if a == [] {
      assert a + b == b;
    } else {
      assert (a + b)[1..] == a[1..] + b;
      NonEmptyOnlyAppend(a[1..], b);
    }
  }

  /** `s.split(c).map(p => p.trim()).filter(p => p)`: a separated list of items. */
  function ParseList(s: string, c: char): (r: seq<string>)
    ensures forall k :: 0 <= k < |r| ==> r[k] != "" && r[k] in TrimAll(Split(s, c))
  {
    NonEmptyOnly(TrimAll(Split(s, c)))
  }

  /** A slice holds no character its string does not hold. */
  lemma NotInSlice(s: string, c: char, i: nat, j: nat)
    requires c !in s && i <= j <= |s|
    ensures c !in s[i..j]
  {
    forall k | 0 <= k < j - i ensures s[i..j][k] != c {
      assert s[i..j][k] == s[i + k];
    }
  }

  /** Trimming keeps a character out if it was out. */
  lemma TrimKeepsOut(s: string, c: char)
    requires c !in s
    ensures c !in Trim(s)
  {
    var t := TrimStart(s);
    NotInSlice(s, c, |s| - |t|, |s|);
    var r := TrimEnd(t);
    NotInSlice(t, c, 0, |r|);
  }

  /** Parsed items are non-empty, trimmed and free of the separator. */
  lemma ParseListItems(s: string, c: char)
    ensures forall k :: 0 <= k < |ParseList(s, c)| ==>
      var x := ParseList(s, c)[k]; x != "" && IsTrimmed(x) && c !in x
  {
    var parts := Split(s, c);
    var r := ParseList(s, c);
    forall k | 0 <= k < |r| ensures IsTrimmed(r[k]) && c !in r[k] {
      var j :| 0 <= j < |parts| && r[k] == Trim(parts[j]);
      TrimKeepsOut(parts[j], c);
    }
  }

  lemma {:induction false} NonEmptyOnlyKeepsAll(parts: seq<string>)
    requires forall k :: 0 <= k < |parts| ==> parts[k] != ""
    ensures NonEmptyOnly(parts) == parts
  {
    if parts != [] {
      NonEmptyOnlyKeepsAll(parts[1..]);
    }
  }

  /** The items joined with `", "`, rewritten as pieces joined with a bare comma. */
  function Padded(items: seq<string>): (r: seq<string>)
    ensures |r| == |items|
  {
    if |items| <= 1 then items
    else [items[0]] + seq(|items| - 1, k requires 0 <= k < |items| - 1 => " " + items[k + 1])
  }

  /** Each item but the first, with a space in front. */
  function Spaced(xs: seq<string>): (r: seq<string>)
    ensures |r| == |xs|
    ensures forall k :: 0 <= k < |xs| ==> r[k] == " " + xs[k]
  {
    seq(|xs|, k requires 0 <= k < |xs| => " " + xs[k])
  }

  lemma {:induction false} JoinSpaced(xs: seq<string>)
    requires |xs| >= 1
    ensures Join(Spaced(xs), [',']) == " " + Join(xs, ", ")
  {
    if |xs| > 1 {
      JoinSpaced(xs[1..]);
      assert Spaced(xs)[1..] == Spaced(xs[1..]);
    }
  }

  lemma JoinPadded(items: seq<string>)
    ensures Join(items, ", ") == Join(Padded(items), [','])
  {
    if |items| > 1 {
      var rest := items[1..];
      assert Padded(items) == [items[0]] + Spaced(rest);
      assert ([items[0]] + Spaced(rest))[1..] == Spaced(rest);
      JoinSpaced(rest);
    }
  }

  lemma PaddedNoSeparator(items: seq<string>)
    requires forall k :: 0 <= k < |items| ==> ',' !in items[k]
    ensures forall k :: 0 <= k < |Padded(items)| ==> ',' !in Padded(items)[k]
  {
    var p := Padded(items);
    forall k | 0 <= k < |p| ensures ',' !in p[k] {
      if |items| > 1 && k > 0 { assert p[k] == " " + items[k]; }
    }
  }

  lemma TrimOneBlank(x: string)
    requires IsTrimmed(x)
    ensures Trim(" " + x) == x
  {
    TrimLeadingBlanks(" ", x);
  }

  lemma TrimPaddedAt(items: seq<string>, k: nat)
    requires k < |items| && IsTrimmed(items[k])
    ensures Trim(Padded(items)[k]) == items[k]
  {
    if |items| > 1 && k > 0 {
      assert Padded(items)[k] == " " + items[k];
      TrimOneBlank(items[k]);
    } else {
      assert Padded(items)[k] == items[k];
      TrimOfTrimmed(items[k]);
    }
  }

  lemma TrimPadded(items: seq<string>)
    requires forall k :: 0 <= k < |items| ==> IsTrimmed(items[k])
    ensures TrimAll(Padded(items)) == items
  {
    forall k | 0 <= k < |items| ensures Trim(Padded(items)[k]) == items[k] {
      TrimPaddedAt(items, k);
    }
  }

  /** Showing a list joined with `", "` and parsing it back gives the list again. */
  lemma ParseListOfJoin(items: seq<string>)
    requires forall k :: 0 <= k < |items| ==> items[k] != "" && IsTrimmed(items[k]) && ',' !in items[k]
    ensures ParseList(Join(items, ", "), ',') == items
  {
    if items == [] {
      ParseEmpty(',');
    } else {
      var j := Join(items, ", ");
      SplitPadded(items);
      TrimPadded(items);
      assert TrimAll(Split(j, ',')) == items;
      NonEmptyOnlyKeepsAll(items);
    }
  }

  /** An empty field parses to no items. */
  lemma ParseEmpty(c: char)
    ensures ParseList([], c) == []
  {
    assert Split([], c) == [[]];
    assert TrimStart([]) == [] && TrimEnd([]) == [];
    assert TrimAll([[]]) == [[]];
    assert NonEmptyOnly([[]]) == NonEmptyOnly([]);
  }

  /** Splitting a list joined with `", "` at the commas gives the padded items. */
  lemma SplitPadded(items: seq<string>)
    requires |items| >= 1
    requires forall k :: 0 <= k < |items| ==> ',' !in items[k]
    ensures Split(Join(items, ", "), ',') == Padded(items)
  {
    JoinPadded(items);
    PaddedNoSeparator(items);
    SplitJoin(Padded(items), ',');
  }

  /** Parsing what a parsed list shows gives the same list: the materials field is stable. */
  lemma ParseListStable(s: string)
    ensures ParseList(Join(ParseList(s, ','), ", "), ',') == ParseList(s, ',')
  {
    ParseListItems(s, ',');
    ParseListOfJoin(ParseList(s, ','));
  }

  /** `lines.filter(line => line.trim())`: the lines that are not blank, untrimmed, in order. */
  function NonBlank(lines: seq<string>): (r: seq<string>)
    ensures |r| <= |lines|
    ensures forall k :: 0 <= k < |r| ==> Trim(r[k]) != "" && r[k] in lines
  {
    if lines == [] then []
    else if Trim(lines[0]) != "" then [lines[0]] + NonBlank(lines[1..])
    else NonBlank(lines[1..])
  }

  /** Each line that is not blank is kept as often as it occurs; blank ones are dropped. */
  lemma {:induction false} NonBlankCounts(lines: seq<string>, l: string)
    ensures multiset(NonBlank(lines))[l] == if Trim(l) == "" then 0 else multiset(lines)[l]
  {
    if lines != [] {
      assert lines == [lines[0]] + lines[1..];
      NonBlankCounts(lines[1..], l);
      if Trim(lines[0]) != "" {
        assert NonBlank(lines) == [lines[0]] + NonBlank(lines[1..]);
      } else {
        assert NonBlank(lines) == NonBlank(lines[1..]);
      }
    }
  }

  /** Filtering a concatenation filters each part, in order. */
  lemma {:induction false} NonBlankAppend(a: seq<string>, b: seq<string>)
    ensures NonBlank(a + b) == NonBlank(a) + NonBlank(b)
  {
    if a == [] {
      assert a + b == b;
    } else {
      assert (a + b)[1..] == a[1..] + b;
      NonBlankAppend(a[1..], b);
    }
  }

  lemma {:induction false} NonBlankEmptyAllBlank(lines: seq<string>)
    requires NonBlank(lines) == []
    ensures forall k :: 0 <= k < |lines| ==> AllSpace(lines[k])
  {
    if lines != [] {
      assert Trim(lines[0]) == [];
      assert NonBlank(lines[1..]) == [];
      NonBlankEmptyAllBlank(lines[1..]);
      forall k | 0 <= k < |lines| ensures AllSpace(lines[k]) {
        if k == 0 {
          TrimEmptyIffAllSpace(lines[0]);
        } else {
          assert lines[k] == lines[1..][k - 1];
        }
      }
    }
  }

  lemma {:induction false} AllSpaceJoin(parts: seq<string>, sep: string)
    requires AllSpace(sep) && forall k :: 0 <= k < |parts| ==> AllSpace(parts[k])
    ensures AllSpace(Join(parts, sep))
  {
    if |parts| > 1 {
      AllSpaceJoin(parts[1..], sep);
      var j := Join(parts[1..], sep);
      assert parts[0] == parts[0];
      var t := parts[0] + sep + j;
      forall i | 0 <= i < |t| ensures IsSpace(t[i]) {
        if i < |parts[0]| { assert t[i] == parts[0][i]; }
        else if i < |parts[0]| + |sep| { assert t[i] == sep[i - |parts[0]|]; }
        else { assert t[i] == j[i - |parts[0]| - |sep|]; }
      }
    }
  }

  /** A text that is not blank has at least one line that is not blank. */
  lemma NonBlankLinesOfText(s: string)
    ensures NonBlank(Split(s, '\n')) == [] ==> Trim(s) == ""
  {
    if NonBlank(Split(s, '\n')) == [] {
      NonBlankEmptyAllBlank(Split(s, '\n'));
      AllSpaceJoin(Split(s, '\n'), ['\n']);
      JoinSplit(s, '\n');
      TrimEmptyIffAllSpace(s);
    }
  }

  /** JavaScript's `s.startsWith(p)`. */
  predicate StartsWith(s: string, p: string) {
    |p| <= |s| && s[..|p|] == p
  }

  /** `s.includes(t)`, computed position by position. */
  predicate Includes(s: string, t: string)
    ensures t == [] ==> Includes(s, t)
    ensures Includes(s, t) ==> |t| <= |s|
    decreases |s|
  {
    StartsWith(s, t) || (|s| > 0 && Includes(s[1..], t))
  }

  /** `t` occurs in `s` at some position. */
  ghost predicate OccursAt(s: string, t: string, i: nat) {
    i + |t| <= |s| && s[i..i + |t|] == t
  }

  /** An occurrence found by `Includes` is an occurrence. */
  lemma {:induction false} IncludesOccurs(s: string, t: string) returns (i: nat)
    requires Includes(s, t)
    ensures OccursAt(s, t, i)
    decreases |s|
  {
    if StartsWith(s, t) {
      i := 0;
    } else {
      var j := IncludesOccurs(s[1..], t);
      assert s[1..][j..j + |t|] == s[j + 1..j + 1 + |t|];
      i := j + 1;
    }
  }

  /** Every occurrence of `t` in `s` is found by `Includes`. */
  lemma {:induction false} OccursIncludes(s: string, t: string, i: nat)
    requires OccursAt(s, t, i)
    ensures Includes(s, t)
    decreases i
  {
    if i > 0 {
      assert s[1..][i - 1..i - 1 + |t|] == s[i..i + |t|];
      OccursIncludes(s[1..], t, i - 1);
    }
  }

  /** `Includes` holds exactly when `t` occurs somewhere in `s`. */
  lemma IncludesIffOccurs(s: string, t: string)
    ensures Includes(s, t) <==> exists i: nat :: OccursAt(s, t, i)
  {
    if Includes(s, t) {
      var i := IncludesOccurs(s, t);
    }
    forall i: nat | OccursAt(s, t, i) ensures Includes(s, t) {
      OccursIncludes(s, t, i);
    }
  }

  /** Every string includes the empty string. */
  lemma IncludesEmpty(s: string)
    ensures Includes(s, [])
  {
  }

  /** `toLowerCase` on one character, restricted to ASCII letters. */
  function LowerChar(c: char): (d: char)
    ensures 'A' <= c <= 'Z' ==> 'a' <= d <= 'z'
    ensures !('A' <= c <= 'Z') ==> d == c
  {
    if 'A' <= c <= 'Z' then (c as int + 32) as char else c
  }

  /** `s.toLowerCase()`, restricted to ASCII letters. */
  function ToLower(s: string): (r: string)
    ensures |r| == |s|
    ensures forall i :: 0 <= i < |s| ==> r[i] == LowerChar(s[i])
  {
    if s == [] then [] else [LowerChar(s[0])] + ToLower(s[1..])
  }

  function DigitChar(d: nat): (c: char)
    requires d < 10
    ensures '0' <= c <= '9' && c as int - '0' as int == d
  {
    ('0' as int + d) as char
  }

  /** The number a string of decimal digits denotes, most significant digit first. */
  function DecimalValue(r: string): int {
    if r == [] then 0 else DecimalValue(r[..|r| - 1]) * 10 + (r[|r| - 1] as int - '0' as int)
  }

  /** The decimal rendering of a natural number, as in a template literal: digits denoting `n`, no leading zero. */
  function NatToString(n: nat): (r: string)
    ensures |r| >= 1
    ensures forall i :: 0 <= i < |r| ==> '0' <= r[i] <= '9'
    ensures DecimalValue(r) == n
    ensures n > 0 ==> r[0] != '0'
  {
    if n < 10 then
      assert [DigitChar(n)][..0] == [];
      [DigitChar(n)]
    else
      var r := NatToString(n / 10) + [DigitChar(n % 10)];
      assert r[..|r| - 1] == NatToString(n / 10);
      r
  }

  /** `String(n)` for an integer: a minus sign for a negative one, then the digits of its magnitude. */
  function IntToString(n: int): (r: string)
    ensures |r| >= 1
    ensures n < 0 <==> r[0] == '-'
    ensures n >= 0 ==> (forall i :: 0 <= i < |r| ==> '0' <= r[i] <= '9') && DecimalValue(r) == n
    ensures n < 0 ==> |r| >= 2 && (forall i :: 1 <= i < |r| ==> '0' <= r[i] <= '9') && DecimalValue(r[1..]) == -n
    ensures n != 0 ==> r[if n < 0 then 1 else 0] != '0'
  {
    if n < 0 then
      var r := "-" + NatToString(-n);
      assert r[1..] == NatToString(-n);
      r
    else NatToString(n)
  }

  /** `s.split(c).pop()`: the text after the last separator, or all of `s`. */
  function LastSegment(s: string, c: char): (r: string)
    ensures c !in r
  {
    var parts := Split(s, c);
    parts[|parts| - 1]
  }

  /**
   * The last segment is the suffix of `s` after its last separator: it holds
   * no separator and, when shorter than `s`, a separator comes right before it.
   */
  lemma {:induction false} LastSegmentIsSuffix(s: string, c: char)
    ensures |LastSegment(s, c)| <= |s| && s[|s| - |LastSegment(s, c)|..] == LastSegment(s, c)
    ensures c !in s ==> LastSegment(s, c) == s
    ensures c in s ==> |LastSegment(s, c)| < |s| && s[|s| - |LastSegment(s, c)| - 1] == c
    decreases |s|
  {
    if c in s {
      var i := IndexOf(s, c);
      var t := s[i + 1..];
      LastSegmentAfterFirst(s, c, i);
      LastSegmentIsSuffix(t, c);
      SuffixOfTail(s, c, i, LastSegment(t, c));
    }
  }

  /** Past the first separator, the last segment is that of the rest. */
  lemma LastSegmentAfterFirst(s: string, c: char, i: nat)
    requires c in s && i == IndexOf(s, c)
    ensures LastSegment(s, c) == LastSegment(s[i + 1..], c)
  {
    var rest := Split(s[i + 1..], c);
    var parts := Split(s, c);
    assert parts == [s[..i]] + rest;
    assert parts[|parts| - 1] == rest[|rest| - 1];
  }

  /** A suffix of the text after a separator at `i` is a suffix of `s` preceded by a separator. */
  lemma SuffixOfTail(s: string, c: char, i: nat, r: string)
    requires i < |s| && s[i] == c
    requires |r| <= |s[i + 1..]| && s[i + 1..][|s[i + 1..]| - |r|..] == r
    requires c in s[i + 1..] ==> |r| < |s[i + 1..]| && s[i + 1..][|s[i + 1..]| - |r| - 1] == c
    requires c !in s[i + 1..] ==> r == s[i + 1..]
    ensures |r| < |s| && s[|s| - |r|..] == r && s[|s| - |r| - 1] == c
  {
    var t := s[i + 1..];
    assert |s| - |r| == i + 1 + (|t| - |r|);
    assert s[|s| - |r|..] == t[|t| - |r|..];
    if c in t {
      assert s[|s| - |r| - 1] == t[|t| - |r| - 1];
    } else {
      assert |s| - |r| - 1 == i;
    }
  }

  /** Lexicographic order on strings by character code, the order used for keys sorted ascending. */
  predicate LexLe(a: string, b: string)
    decreases |a|
  {
    a == [] || (b != [] && (a[0] < b[0] || (a[0] == b[0] && LexLe(a[1..], b[1..]))))
  }

  lemma {:induction false} LexLeTotal(a: string, b: string)
    ensures LexLe(a, b) || LexLe(b, a)
    decreases |a|
  {
    if a != [] && b != [] && a[0] == b[0] {
      LexLeTotal(a[1..], b[1..]);
    }
  }

  lemma {:induction false} LexLeTransitive(a: string, b: string, c: string)
    requires LexLe(a, b) && LexLe(b, c)
    ensures LexLe(a, c)
    decreases |a|
  {
    if a != [] && b[0] == a[0] && c[0] == b[0] {
      LexLeTransitive(a[1..], b[1..], c[1..]);
    }
  }

  lemma {:induction false} LexLeAntisymmetric(a: string, b: string)
    requires LexLe(a, b) && LexLe(b, a)
    ensures a == b
    decreases |a|
  {
    if a != [] {
      LexLeAntisymmetric(a[1..], b[1..]);
      assert a == [a[0]] + a[1..];
      assert b == [b[0]] + b[1..];
    }
  }
}
