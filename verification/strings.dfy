/** The JavaScript string primitives the application uses, on `seq<char>`:
    `includes`, `toLowerCase` (ASCII letters only), `trim`, `split(',')`, `join`,
    `replace(/[^\d]/g, '')` with `parseInt`, the UTF-16 code units that `length` counts,
    and the relational `<` on strings. */
module Strings {
  import opened Seqs

  /** JavaScript's WhiteSpace and LineTerminator characters: the set matched by `\s`
      and removed by `trim`. */
  predicate IsSpace(c: char) {
    || c == ' ' || c == '\t' || c == '\n' || c == '\U{000B}' || c == '\U{000C}' || c == '\r'
    || c == '\U{00A0}' || c == '\U{1680}' || ('\U{2000}' <= c <= '\U{200A}')
    || c == '\U{2028}' || c == '\U{2029}' || c == '\U{202F}' || c == '\U{205F}'
    || c == '\U{3000}' || c == '\U{FEFF}'
  }

  /** Every character of `s` is white space (the empty string included). */
  predicate IsBlank(s: string) {
    forall k :: 0 <= k < |s| ==> IsSpace(s[k])
  }

  function LowerChar(c: char): char {
    if 'A' <= c <= 'Z' then (c as int + 32) as char else c
  }

  /** `s.toLowerCase()`, restricted to the ASCII letters. */
  function Lower(s: string): (r: string)
    ensures |r| == |s|
    ensures forall k :: 0 <= k < |s| ==> r[k] == LowerChar(s[k])
  {
    seq(|s|, k requires 0 <= k < |s| => LowerChar(s[k]))
  }

  /** Lowercasing twice changes nothing more. */
  lemma LowerIdempotent(s: string)
    ensures Lower(Lower(s)) == Lower(s)
  {
  }

  /** `needle` occurs in `hay` starting at offset `i`. */
  predicate OccursAt(hay: string, needle: string, i: int) {
    0 <= i && i + |needle| <= |hay| && hay[i..i + |needle|] == needle
  }

  /** `hay.includes(needle)`: `needle` occurs in `hay` at some offset. */
  predicate Contains(hay: string, needle: string) {
    exists i | 0 <= i <= |hay| - |needle| :: OccursAt(hay, needle, i)
  }

  /** Every string contains the empty string and itself; the empty string contains only
      the empty string. */
  lemma ContainsBasics(s: string)
    ensures Contains(s, "")
    ensures Contains(s, s)
    ensures Contains("", s) <==> s == ""
  {
    assert OccursAt(s, "", 0);
    assert OccursAt(s, s, 0);
  }

  /** A prefix of a string occurs in it. */
  lemma ContainsPrefix(s: string, n: nat)
    requires n <= |s|
    ensures Contains(s, s[..n])
  {
    assert OccursAt(s, s[..n], 0);
  }

  /** A needle found in `hay` is also found in anything that has `hay` as a piece. */
  lemma ContainsInExtension(pre: string, hay: string, post: string, needle: string)
    requires Contains(hay, needle)
    ensures Contains(pre + hay + post, needle)
  {
    var i :| 0 <= i <= |hay| - |needle| && OccursAt(hay, needle, i);
    var big := pre + hay + post;
    assert big[|pre| + i..|pre| + i + |needle|] == hay[i..i + |needle|];
    assert OccursAt(big, needle, |pre| + i);
  }

  /** An occurrence of an occurrence is an occurrence. */
  lemma ContainsTransitive(a: string, b: string, c: string)
    requires Contains(a, b) && Contains(b, c)
    ensures Contains(a, c)
  {
    var i :| 0 <= i <= |a| - |b| && OccursAt(a, b, i);
    var j :| 0 <= j <= |b| - |c| && OccursAt(b, c, j);
    forall k | 0 <= k < |c| ensures a[i + j + k] == c[k] {
      assert c[k] == b[j..j + |c|][k] == b[j + k];
      assert b[j + k] == a[i..i + |b|][j + k];
    }
    assert a[i + j..i + j + |c|] == c;
    assert OccursAt(a, c, i + j);
  }

  /** Lowercasing preserves an occurrence. */
  lemma ContainsLower(hay: string, needle: string)
    requires Contains(hay, needle)
    ensures Contains(Lower(hay), Lower(needle))
  {
    var i :| 0 <= i <= |hay| - |needle| && OccursAt(hay, needle, i);
    assert Lower(hay)[i..i + |needle|] == Lower(needle);
    assert OccursAt(Lower(hay), Lower(needle), i);
  }

  // ---------------------------------------------------------------- trim

  function TrimStart(s: string): (r: string)
    ensures |r| <= |s| && r == s[|s| - |r|..]
    ensures IsBlank(s[..|s| - |r|])
    ensures r == "" || !IsSpace(r[0])
  {
    if |s| > 0 && IsSpace(s[0]) then
      var r := TrimStart(s[1..]);
      TrimStartStep(s, r);
      r
    else s
  }

  /** A suffix of `s[1..]` behind a blank prefix of it, when `s[0]` is white space, is a
      suffix of `s` behind a blank prefix of `s`. */
  lemma TrimStartStep(s: string, r: string)
    requires |s| > 0 && IsSpace(s[0]) && |r| < |s|
    requires r == s[1..][|s| - 1 - |r|..] && IsBlank(s[1..][..|s| - 1 - |r|])
    ensures r == s[|s| - |r|..] && IsBlank(s[..|s| - |r|])
  {
    assert s[1..][|s| - 1 - |r|..] == s[|s| - |r|..];
    BlankCons(s, |s| - 1 - |r|);
  }

  /** A blank prefix of `s[1..]` behind a white-space `s[0]` makes a blank prefix of `s`. */
  lemma BlankCons(s: string, n: nat)
    requires |s| > 0 && IsSpace(s[0]) && n < |s| && IsBlank(s[1..][..n])
    ensures IsBlank(s[..n + 1])
  {
    var p, q := s[..n + 1], s[1..][..n];
    forall k | 0 <= k < |p| ensures IsSpace(p[k]) {
      if k > 0 {
        assert p[k] == q[k - 1];
      }
    }
  }

  function TrimEnd(s: string): (r: string)
    ensures |r| <= |s| && r == s[..|r|]
    ensures IsBlank(s[|r|..])
    ensures r == "" || !IsSpace(r[|r| - 1])
  {
    if |s| > 0 && IsSpace(s[|s| - 1]) then
      var r := TrimEnd(s[..|s| - 1]);
      TrimEndStep(s, r);
      r
    else s
  }

  /** A prefix of `s` without its last character ahead of a blank tail of it, when the
      last character is white space, is a prefix of `s` ahead of a blank tail of `s`. */
  lemma TrimEndStep(s: string, r: string)
    requires |s| > 0 && IsSpace(s[|s| - 1]) && |r| < |s|
    requires r == s[..|s| - 1][..|r|] && IsBlank(s[..|s| - 1][|r|..])
    ensures r == s[..|r|] && IsBlank(s[|r|..])
  {
    assert s[..|s| - 1][..|r|] == s[..|r|];
    BlankSnoc(s, |r|);
  }

  /** A blank tail of `s` without its last character, followed by a white-space last
      character, is a blank tail of `s`. */
  lemma BlankSnoc(s: string, n: nat)
    requires |s| > 0 && IsSpace(s[|s| - 1]) && n < |s| && IsBlank(s[..|s| - 1][n..])
    ensures IsBlank(s[n..])
  {
    var p, q := s[n..], s[..|s| - 1][n..];
    forall k | 0 <= k < |p| ensures IsSpace(p[k]) {
      if k < |q| {
        assert p[k] == q[k];
      }
    }
  }

  /** Free of white space at both ends. */
  predicate Trimmed(s: string) {
    s == "" || (!IsSpace(s[0]) && !IsSpace(s[|s| - 1]))
  }

  /** `s.trim()`: `s` without its leading and trailing white space. The result is
      itself trimmed, is the piece of `s` between a blank head and a blank tail, holds no
      character `s` lacks, and is empty exactly when `s` is blank; `TrimUnique` shows the
      first two facts leave no other choice. */
  function Trim(s: string): (r: string)
    ensures Trimmed(r)
    ensures exists i :: BetweenBlanks(s, r, i)
    ensures forall c :: c in r ==> c in s
    ensures r == "" <==> IsBlank(s)
  {
    var t := TrimStart(s);
    var r := TrimEnd(t);
    var i := |s| - |t|;
    TrimPiece(s, i, t, r);
    r
  }

  /** `r` occurs in `s` at `i` with only white space before and after it. */
  predicate BetweenBlanks(s: string, r: string, i: int) {
    OccursAt(s, r, i) && IsBlank(s[..i]) && IsBlank(s[i + |r|..])
  }

  /** The prefix `r` of the suffix `t` of `s`, with blank text before `t` and after `r`
      and no white space at the outer ends, is a trimmed piece of `s` at `i`. */
  lemma TrimPiece(s: string, i: nat, t: string, r: string)
    requires i <= |s| && t == s[i..] && IsBlank(s[..i]) && (t == "" || !IsSpace(t[0]))
    requires |r| <= |t| && r == t[..|r|] && IsBlank(t[|r|..]) && (r == "" || !IsSpace(r[|r| - 1]))
    ensures Trimmed(r)
    ensures BetweenBlanks(s, r, i)
    ensures forall c :: c in r ==> c in s
    ensures r == "" <==> IsBlank(s)
  {
    PrefixOfSuffixSlices(s, i, t, r);
    BlankEdges(s, i, r);
  }

  /** A prefix `r` of the suffix `t` of `s` from `i` occurs in `s` at `i`, and what
      follows it in `t` is what follows it in `s`. */
  lemma PrefixOfSuffixSlices(s: string, i: nat, t: string, r: string)
    requires i <= |s| && t == s[i..] && |r| <= |t| && r == t[..|r|]
    ensures OccursAt(s, r, i) && s[i + |r|..] == t[|r|..]
  {
    assert s[i..i + |r|] == r;
  }

  /** A non-empty trimmed piece of `s` with only white space around it is `s.trim()`. */
  lemma TrimUnique(s: string, r: string, i: int)
    requires BetweenBlanks(s, r, i) && Trimmed(r) && r != ""
    ensures r == Trim(s)
  {
    var t := Trim(s);
    var j :| BetweenBlanks(s, t, j);
    if t == "" {
      SpaceInBlank(s, 0, |s|, i);
      assert false;
    } else {
      SameTrimmedPiece(s, r, i, t, j);
    }
  }

  /** A character inside a blank slice is white space. */
  lemma SpaceInBlank(s: string, lo: int, hi: int, k: int)
    requires 0 <= lo <= k < hi <= |s| && IsBlank(s[lo..hi])
    ensures IsSpace(s[k])
  {
    assert s[lo..hi][k - lo] == s[k];
  }

  /** Two non-empty trimmed pieces of `s`, each with only white space around it, are
      the same piece. */
  lemma SameTrimmedPiece(s: string, r: string, i: int, t: string, j: int)
    requires BetweenBlanks(s, r, i) && Trimmed(r) && r != ""
    requires BetweenBlanks(s, t, j) && Trimmed(t) && t != ""
    ensures r == t
  {
    assert s[i] == r[0] && s[j] == t[0];
    assert s[i + |r| - 1] == r[|r| - 1] && s[j + |t| - 1] == t[|t| - 1];
    assert s[..i] == s[0..i] && s[..j] == s[0..j];
    if i < j {
      SpaceInBlank(s, 0, j, i);
    } else if j < i {
      SpaceInBlank(s, 0, i, j);
    }
    if i + |r| < j + |t| {
      SpaceInBlank(s, i + |r|, |s|, j + |t| - 1);
    } else if j + |t| < i + |r| {
      SpaceInBlank(s, j + |t|, |s|, i + |r| - 1);
    }
  }

  /** The trimmed string occurs in the original, after the leading white space. */
  lemma TrimIsPiece(s: string)
    ensures Contains(s, Trim(s))
  {
    var t := TrimStart(s);
    var i := |s| - |t|;
    PrefixOfSuffix(s, i, |Trim(s)|);
    assert OccursAt(s, Trim(s), i);
  }

  lemma PrefixOfSuffix(s: string, i: nat, n: nat)
    requires i + n <= |s|
    ensures s[i..][..n] == s[i..i + n]
  {
  }

  /** A string that is blank apart from a piece `r` at offset `i` is blank iff `r` is empty,
      given that a non-empty `r` starts with a non-space. */
  lemma BlankEdges(s: string, i: int, r: string)
    requires OccursAt(s, r, i)
    requires IsBlank(s[..i]) && IsBlank(s[i + |r|..])
    requires r == "" || !IsSpace(r[0])
    ensures r == "" <==> IsBlank(s)
  {
    if r == "" {
      forall k | 0 <= k < |s| ensures IsSpace(s[k]) {
        if k < i { assert s[k] == s[..i][k]; } else { assert s[k] == s[i..][k - i]; }
      }
    } else {
      assert s[i] == r[0];
    }
  }

  /** Trimming a string that is already trimmed changes nothing. */
  lemma {:induction false} TrimOfTrimmed(s: string)
    requires Trimmed(s)
    ensures Trim(s) == s
  {
  }

  /** White space in front of a non-empty trimmed string is removed by `trim`. */
  lemma {:induction false} TrimDropsPadding(pad: string, s: string)
    requires IsBlank(pad) && Trimmed(s) && s != ""
    ensures Trim(pad + s) == s
    decreases |pad|
  {
    if |pad| == 0 {
      assert pad + s == s;
      TrimOfTrimmed(s);
    } else {
      assert (pad + s)[1..] == pad[1..] + s;
      TrimDropsPadding(pad[1..], s);
    }
  }

  // ---------------------------------------------------------------- split / join

  /** Position of the first `c` in `s`, or `|s|` when there is none. */
  function IndexOf(s: string, c: char): (r: nat)
    ensures r <= |s|
    ensures r < |s| ==> s[r] == c
    ensures forall k :: 0 <= k < r ==> s[k] != c
  {
    if |s| == 0 then 0
    else if s[0] == c then 0
    else 1 + IndexOf(s[1..], c)
  }

  /** `s.split(sep)` for a one-character separator: at least one piece, no piece contains
      the separator, and joining the pieces with it gives `s` back. */
  function Split(s: string, sep: char): (r: seq<string>)
    ensures |r| >= 1
    ensures forall k :: 0 <= k < |r| ==> sep !in r[k]
    ensures Join(r, [sep]) == s
    decreases |s|
  {
    var k := IndexOf(s, sep);
    if k == |s| then [s]
    else
      var rest := Split(s[k + 1..], sep);
      assert s == s[..k] + [sep] + s[k + 1..];
      [s[..k]] + rest
  }

  /** `xs.join(sep)`. */
  function Join(xs: seq<string>, sep: string): string {
    if |xs| == 0 then ""
    else if |xs| == 1 then xs[0]
    else xs[0] + sep + Join(xs[1..], sep)
  }

  /** A string free of the separator splits into itself. */
  lemma SplitWithoutSeparator(s: string, sep: char)
    requires sep !in s
    ensures Split(s, sep) == [s]
  {
  }

  /** The first separator ends the first piece. */
  lemma SplitAtSeparator(a: string, sep: char, rest: string)
    requires sep !in a
    ensures Split(a + [sep] + rest, sep) == [a] + Split(rest, sep)
  {
    var s := a + [sep] + rest;
    assert s[|a|] == sep;
    assert forall k :: 0 <= k < |a| ==> s[k] == a[k] && s[k] != sep;
    assert IndexOf(s, sep) == |a|;
    assert s[..|a|] == a;
    assert s[|a| + 1..] == rest;
  }

  /** Text before the first `sep`: `s.split(sep)[0]`. */
  function Before(s: string, sep: char): (r: string)
    ensures sep !in r
    ensures |r| <= |s| && r == s[..|r|]
  {
    s[..IndexOf(s, sep)]
  }

  // ---------------------------------------------------------------- digits

  predicate IsDigit(c: char) {
    '0' <= c <= '9'
  }

  predicate AllDigits(s: string) {
    forall k :: 0 <= k < |s| ==> IsDigit(s[k])
  }

  /** `s.replace(/[^\d]/g, '')`: the digits of `s` in order. */
  function DigitsOf(s: string): (r: string)
    ensures AllDigits(r)
    ensures |r| <= |s|
    ensures r == "" <==> forall k :: 0 <= k < |s| ==> !IsDigit(s[k])
  {
    if |s| == 0 then ""
    else if IsDigit(s[0]) then [s[0]] + DigitsOf(s[1..])
    else
      var r := DigitsOf(s[1..]);
      assert forall k :: 1 <= k < |s| ==> s[k] == s[1..][k - 1];
      r
  }

  /** Removing every non-digit is filtering for the digits. */
  lemma {:induction false} DigitsOfIsFilter(s: string)
    ensures DigitsOf(s) == Filter(s, IsDigit)
  {
    if |s| > 0 {
      DigitsOfIsFilter(s[1..]);
    }
  }

  /** Keeping the digits commutes with concatenation. */
  lemma {:induction false} DigitsOfAppend(a: string, b: string)
    ensures DigitsOf(a + b) == DigitsOf(a) + DigitsOf(b)
  {
    if |a| == 0 {
      assert a + b == b;
    } else {
      assert (a + b)[1..] == a[1..] + b;
      DigitsOfAppend(a[1..], b);
    }
  }

  /** A string of digits keeps all of itself. */
  lemma {:induction false} DigitsOfDigits(s: string)
    requires AllDigits(s)
    ensures DigitsOf(s) == s
  {
    if |s| > 0 {
      DigitsOfDigits(s[1..]);
    }
  }

  function DigitValue(c: char): nat
    requires IsDigit(c)
  {
    c as int - '0' as int
  }

  /** The number a string of decimal digits denotes, as `parseInt` reads it. */
  function DecimalValue(d: string): (r: nat)
    requires AllDigits(d)
  {
    if |d| == 0 then 0 else DecimalValue(d[..|d| - 1]) * 10 + DigitValue(d[|d| - 1])
  }

  function Pow10(n: nat): (r: nat)
    ensures r >= 1
  {
    if n == 0 then 1 else 10 * Pow10(n - 1)
  }

  /** Concatenating digit strings shifts the first by the width of the second. */
  lemma {:induction false} DecimalValueAppend(a: string, b: string)
    requires AllDigits(a) && AllDigits(b)
    ensures AllDigits(a + b)
    ensures DecimalValue(a + b) == DecimalValue(a) * Pow10(|b|) + DecimalValue(b)
    decreases |b|
  {
    if |b| == 0 {
      assert a + b == a;
    } else {
      var ab := a + b;
      var b' := b[..|b| - 1];
      assert ab[..|ab| - 1] == a + b';
      assert ab[|ab| - 1] == b[|b| - 1];
      DecimalValueAppend(a, b');
      ShiftByOneDigit(DecimalValue(a), Pow10(|b'|), DecimalValue(b'), DigitValue(b[|b| - 1]));
    }
  }

  lemma ShiftByOneDigit(x: int, p: int, y: int, d: int)
    ensures (x * p + y) * 10 + d == x * (10 * p) + (y * 10 + d)
  {
  }

  /** A digit string with a non-zero leading digit is at least ten to its width minus one. */
  lemma {:induction false} DecimalValueLowerBound(d: string)
    requires AllDigits(d) && |d| >= 1 && d[0] != '0'
    ensures DecimalValue(d) >= Pow10(|d| - 1)
    decreases |d|
  {
    if |d| > 1 {
      DecimalValueLowerBound(d[..|d| - 1]);
    }
  }

  // ---------------------------------------------------------------- UTF-16

  /** A UTF-16 code unit: what a JavaScript string is a sequence of, and what its
      `length`, `substring` and `<` count and compare. */
  type CodeUnit = x: int | 0 <= x < 0x10000

  /** The UTF-16 encoding of one character: the character itself below U+10000, else a
      high surrogate followed by a low surrogate. */
  function Units(c: char): (r: seq<CodeUnit>)
    ensures |r| == if c as int < 0x10000 then 1 else 2
  {
    if c as int < 0x10000 then [c as int]
    else [0xD800 + (c as int - 0x10000) / 0x400, 0xDC00 + (c as int - 0x10000) % 0x400]
  }

  /** Every character lies in the Basic Multilingual Plane, i.e. takes one code unit. */
  predicate InBmp(s: string) {
    forall k :: 0 <= k < |s| ==> s[k] as int < 0x10000
  }

  /** The code units of `s`: one per character in the Basic Multilingual Plane, two per
      character beyond it. */
  function Utf16(s: string): (r: seq<CodeUnit>)
    ensures |s| <= |r| <= 2 * |s|
    ensures InBmp(s) ==> |r| == |s|
  {
    if |s| == 0 then [] else Units(s[0]) + Utf16(s[1..])
  }

  /** `s.length`. */
  function Utf16Length(s: string): (n: nat)
    ensures |s| <= n <= 2 * |s|
  {
    |Utf16(s)|
  }

  /** Encoding distributes over concatenation. */
  lemma {:induction false} Utf16Append(a: string, b: string)
    ensures Utf16(a + b) == Utf16(a) + Utf16(b)
  {
    if |a| == 0 {
      assert a + b == b;
    } else {
      assert (a + b)[1..] == a[1..] + b;
      Utf16Append(a[1..], b);
    }
  }

  /** On text inside the Basic Multilingual Plane the code units are the characters. */
  lemma {:induction false} Utf16OfBmp(s: string)
    requires InBmp(s)
    ensures |Utf16(s)| == |s|
    ensures forall k :: 0 <= k < |s| ==> Utf16(s)[k] == s[k] as int
  {
    if |s| > 0 {
      Utf16OfBmp(s[1..]);
      assert forall k :: 1 <= k < |s| ==> s[k] == s[1..][k - 1];
    }
  }

  /** On text in the Basic Multilingual Plane, the first `n` code units encode the
      first `n` characters. */
  lemma Utf16BmpPrefix(s: string, n: nat)
    requires InBmp(s) && n <= |s|
    ensures InBmp(s[..n]) && |Utf16(s)| == |s|
    ensures Utf16(s[..n]) == Utf16(s)[..n]
  {
    assert s[..n] + s[n..] == s;
    Utf16Append(s[..n], s[n..]);
    assert forall k :: 0 <= k < n ==> s[..n][k] == s[k];
  }

  /** Characters beyond the Basic Multilingual Plane count twice in `length`. */
  lemma AstralLength()
    ensures Utf16Length("\U{1F600}") == 2
    ensures Utf16Length("a\U{1F600}b") == 4
  {
    assert "a\U{1F600}b"[1..] == "\U{1F600}b";
    assert "\U{1F600}b"[1..] == "b";
  }

  // ---------------------------------------------------------------- ordering

  /** JavaScript's `<` on strings: lexicographic on code units, a proper prefix first. */
  predicate UnitLess(x: seq<CodeUnit>, y: seq<CodeUnit>)
    decreases |x|
  {
    if |x| == 0 then |y| > 0
    else if |y| == 0 then false
    else if x[0] != y[0] then x[0] < y[0]
    else UnitLess(x[1..], y[1..])
  }

  /** The rank of a character in code-unit order: the characters from U+E000 to U+FFFF
      sort after every surrogate pair, so they are lifted above U+10FFFF. */
  function Utf16Key(c: char): (k: int)
    ensures c as int < 0xD800 ==> k == c as int
    ensures 0xE000 <= c as int < 0x10000 ==> k > 0x10FFFF
    ensures 0x10000 <= c as int ==> 0x10000 <= k <= 0x10FFFF
  {
    if c as int < 0xD800 then c as int
    else if c as int < 0x10000 then c as int + 0x110000
    else c as int
  }

  /** `a < b` on JavaScript strings, read character by character: the first differing
      characters decide by their rank in code-unit order, a proper prefix comes first.
      `StrLessIsUnitOrder` shows this is the code-unit comparison itself. */
  predicate StrLess(a: string, b: string)
    decreases |a|
  {
    if |a| == 0 then |b| > 0
    else if |b| == 0 then false
    else if a[0] != b[0] then Utf16Key(a[0]) < Utf16Key(b[0])
    else StrLess(a[1..], b[1..])
  }

  /** A shared prefix does not change the code-unit comparison. */
  lemma {:induction false} UnitLessCommonPrefix(p: seq<CodeUnit>, x: seq<CodeUnit>, y: seq<CodeUnit>)
    ensures UnitLess(p + x, p + y) <==> UnitLess(x, y)
  {
    if |p| > 0 {
      assert (p + x)[1..] == p[1..] + x;
      assert (p + y)[1..] == p[1..] + y;
      UnitLessCommonPrefix(p[1..], x, y);
    } else {
      assert p + x == x && p + y == y;
    }
  }

  /** Division by 0x400 splits an offset into a high and a low part that order it. */
  lemma HighLowOrder(u: int, v: int)
    requires 0 <= u && 0 <= v
    ensures u / 0x400 < v / 0x400 ==> u < v
    ensures u / 0x400 == v / 0x400 ==> (u % 0x400 < v % 0x400 <==> u < v)
  {
    var qu, ru, qv, rv := u / 0x400, u % 0x400, v / 0x400, v % 0x400;
    assert u == 0x400 * qu + ru && v == 0x400 * qv + rv;
    if qu < qv {
      assert 0x400 * qu + 0x400 <= 0x400 * qv;
    }
  }

  /** Two different characters compare in code-unit order as their ranks do, whatever
      follows them. */
  lemma CharUnitOrder(c: char, d: char, x: seq<CodeUnit>, y: seq<CodeUnit>)
    requires c != d
    ensures UnitLess(Units(c) + x, Units(d) + y) <==> Utf16Key(c) < Utf16Key(d)
  {
    var u, v := Units(c) + x, Units(d) + y;
    assert u[0] == Units(c)[0] && v[0] == Units(d)[0];
    if c as int >= 0x10000 && d as int >= 0x10000 {
      HighLowOrder(c as int - 0x10000, d as int - 0x10000);
      HighLowOrder(d as int - 0x10000, c as int - 0x10000);
      if u[0] == v[0] {
        assert u[1..] == [Units(c)[1]] + x;
        assert v[1..] == [Units(d)[1]] + y;
      }
    }
  }

  /** The character-wise comparison is JavaScript's code-unit comparison. */
  lemma {:induction false} StrLessIsUnitOrder(a: string, b: string)
    ensures StrLess(a, b) <==> UnitLess(Utf16(a), Utf16(b))
    decreases |a|
  {
    if |a| > 0 && |b| > 0 {
      if a[0] == b[0] {
        StrLessIsUnitOrder(a[1..], b[1..]);
        UnitLessCommonPrefix(Units(a[0]), Utf16(a[1..]), Utf16(b[1..]));
      } else {
        CharUnitOrder(a[0], b[0], Utf16(a[1..]), Utf16(b[1..]));
      }
    }
  }

  /** A character beyond U+FFFF sorts before U+E000, though its code point is larger. */
  lemma AstralSortsBeforePrivateUse()
    ensures StrLess("\U{10000}", "\U{E000}")
    ensures StrLess("a", "b") && !StrLess("b", "a")
  {
  }

  lemma {:induction false} StrLessIrreflexive(a: string)
    ensures !StrLess(a, a)
  {
    if |a| > 0 {
      StrLessIrreflexive(a[1..]);
    }
  }

  lemma {:induction false} StrLessAsymmetric(a: string, b: string)
    requires StrLess(a, b)
    ensures !StrLess(b, a)
    decreases |a|
  {
    if |a| > 0 && |b| > 0 && a[0] == b[0] {
      StrLessAsymmetric(a[1..], b[1..]);
    }
  }

  lemma {:induction false} StrLessTransitive(a: string, b: string, c: string)
    requires StrLess(a, b) && StrLess(b, c)
    ensures StrLess(a, c)
    decreases |a|
  {
    if |a| > 0 && |b| > 0 && |c| > 0 && a[0] == b[0] && b[0] == c[0] {
      StrLessTransitive(a[1..], b[1..], c[1..]);
    }
  }

  lemma {:induction false} StrLessTotal(a: string, b: string)
    requires a != b
    ensures StrLess(a, b) || StrLess(b, a)
    decreases |a|
  {
    if |a| > 0 && |b| > 0 && a[0] == b[0] {
      assert a == [a[0]] + a[1..] && b == [b[0]] + b[1..];
      StrLessTotal(a[1..], b[1..]);
    }
  }

  // ---------------------------------------------------------------- digits and order

  /** A digit string is below ten to its width. */
  lemma {:induction false} DecimalValueUpperBound(d: string)
    requires AllDigits(d)
    ensures DecimalValue(d) < Pow10(|d|)
    decreases |d|
  {
    if |d| > 0 {
      DecimalValueUpperBound(d[..|d| - 1]);
    }
  }

  /** The leading digit of a digit string weighs ten to the width of the rest. */
  lemma DecimalValueHead(d: string)
    requires AllDigits(d) && |d| > 0
    ensures DecimalValue(d) == DigitValue(d[0]) * Pow10(|d| - 1) + DecimalValue(d[1..])
  {
    DecimalValueAppend([d[0]], d[1..]);
    assert [d[0]] + d[1..] == d;
    assert DecimalValue([d[0]]) == DigitValue(d[0]) by { assert [d[0]][..0] == ""; }
  }

  /** On digit strings of one width, string order is numeric order. */
  lemma {:induction false} DigitsLess(x: string, y: string)
    requires AllDigits(x) && AllDigits(y) && |x| == |y|
    ensures StrLess(x, y) <==> DecimalValue(x) < DecimalValue(y)
    decreases |x|
  {
    if |x| > 0 {
      DecimalValueHead(x);
      DecimalValueHead(y);
      var p := Pow10(|x| - 1);
      DecimalValueUpperBound(x[1..]);
      DecimalValueUpperBound(y[1..]);
      if x[0] == y[0] {
        DigitsLess(x[1..], y[1..]);
      } else {
        LeadingDigitDecides(DigitValue(x[0]), DigitValue(y[0]), p, DecimalValue(x[1..]), DecimalValue(y[1..]));
      }
    }
  }

  /** A larger leading digit outweighs any rest below the weight. */
  lemma LeadingDigitDecides(a: nat, b: nat, p: nat, u: nat, v: nat)
    requires a != b && u < p && v < p
    ensures a * p + u < b * p + v <==> a < b
  {
    if a < b {
      assert (a + 1) * p <= b * p;
    } else {
      assert (b + 1) * p <= a * p;
    }
  }

  /** Two strings of one shape: same length, digits at the same places, and the same
      character wherever there is no digit. */
  predicate SameShape(a: string, b: string) {
    && |a| == |b|
    && (forall k :: 0 <= k < |a| ==> (IsDigit(a[k]) <==> IsDigit(b[k])))
    && (forall k :: 0 <= k < |a| && !IsDigit(a[k]) ==> a[k] == b[k])
  }

  /** Strings of one shape compare as their digits do. */
  lemma {:induction false} SameShapeLess(a: string, b: string)
    requires SameShape(a, b)
    ensures StrLess(a, b) <==> StrLess(DigitsOf(a), DigitsOf(b))
    decreases |a|
  {
    if |a| > 0 {
      assert forall k :: 0 <= k < |a| - 1 ==> a[1..][k] == a[k + 1] && b[1..][k] == b[k + 1];
      assert SameShape(a[1..], b[1..]);
      SameShapeLess(a[1..], b[1..]);
    } else {
      assert DigitsOf(a) == "" && DigitsOf(b) == "";
    }
  }
}
