/**
 * The handful of Python string operations the bot relies on, over `string`
 * (a sequence of Unicode scalar values, as Python's `str` is a sequence of
 * code points): `str.split(':')`, `str(int)`, `int(str)`, `str.strip()`,
 * `str.isdigit()`, slicing and the substring test behind `LIKE '%q%'`.
 */
module Text {
  import opened Wrappers

  // ---------------------------------------------------------------------
  // str.split(sep) for a one-character separator
  // ---------------------------------------------------------------------

  /** Position of the first `c` in `s`. */
  function IndexOf(s: string, c: char): (i: nat)
    requires c in s
    ensures i < |s| && s[i] == c
    ensures c !in s[..i]
  {
    if s[0] == c then 0
    else
      var j := IndexOf(s[1..], c);
      assert s[..j + 1] == [s[0]] + s[1..][..j];
      j + 1
  }

  /**
   * Python's `s.split(sep)`: the pieces between separators, in order, with
   * empty pieces kept; a string without `sep` gives the one-piece list `[s]`.
   */
  function Split(s: string, sep: char): (parts: seq<string>)
    ensures |parts| >= 1
    ensures forall k :: 0 <= k < |parts| ==> sep !in parts[k]
    decreases |s|
  {
    if sep !in s then [s]
    else
      var i := IndexOf(s, sep);
      [s[..i]] + Split(s[i + 1..], sep)
  }

  /** Python's `sep.join(parts)`. */
  function Join(parts: seq<string>, sep: char): string
    requires |parts| >= 1
  {
    if |parts| == 1 then parts[0] else parts[0] + [sep] + Join(parts[1..], sep)
  }

  /** The first separator of `head + [sep] + rest` is the one after `head`. */
  lemma {:induction false} IndexOfAfter(head: string, sep: char, rest: string)
    requires sep !in head
    ensures IndexOf(head + [sep] + rest, sep) == |head|
  {
    if head != [] {
      IndexOfAfter(head[1..], sep, rest);
      assert (head + [sep] + rest)[1..] == head[1..] + [sep] + rest;
    }
  }

  /** Splitting at the first separator peels off the text before it. */
  lemma SplitCons(head: string, sep: char, rest: string)
    requires sep !in head
    ensures Split(head + [sep] + rest, sep) == [head] + Split(rest, sep)
  {
    var s := head + [sep] + rest;
    assert s[|head|] == sep;
    IndexOfAfter(head, sep, rest);
    assert s[..|head|] == head;
    assert s[|head| + 1..] == rest;
  }

  /** `split` undoes `join` when no piece holds the separator. */
  lemma {:induction false} SplitJoin(parts: seq<string>, sep: char)
    requires |parts| >= 1
    requires forall k :: 0 <= k < |parts| ==> sep !in parts[k]
    ensures Split(Join(parts, sep), sep) == parts
  {
    if |parts| > 1 {
      var rest := Join(parts[1..], sep);
      assert Join(parts, sep) == parts[0] + [sep] + rest;
      SplitJoin(parts[1..], sep);
      SplitCons(parts[0], sep, rest);
      assert [parts[0]] + parts[1..] == parts;
    }
  }

  /** `join` undoes `split`: no character of the text is lost or added. */
  lemma {:induction false} JoinSplit(s: string, sep: char)
    ensures Join(Split(s, sep), sep) == s
    decreases |s|
  {
    if sep in s {
      var i := IndexOf(s, sep);
      var tail := Split(s[i + 1..], sep);
      var parts := Split(s, sep);
      assert parts == [s[..i]] + tail;
      assert parts[1..] == tail;
      JoinSplit(s[i + 1..], sep);
      assert Join(parts, sep) == s[..i] + [sep] + Join(tail, sep);
      assert s == s[..i] + [sep] + s[i + 1..];
    }
  }

  // ---------------------------------------------------------------------
  // str(int) and int(str)
  // ---------------------------------------------------------------------

  predicate IsDigit(c: char) { '0' <= c <= '9' }

  /** Python's `s.isdigit()` restricted to ASCII digits; false on "". */
  predicate IsDigits(s: string)
  {
    |s| > 0 && forall k :: 0 <= k < |s| ==> IsDigit(s[k])
  }

  function DigitChar(d: nat): (c: char)
    requires d < 10
    ensures IsDigit(c) && c as int - '0' as int == d
  {
    ('0' as int + d) as char
  }

  /** Python's `str(n)` for `n >= 0`: decimal digits, no leading zero. */
  function NatToString(n: nat): (s: string)
    ensures IsDigits(s)
    ensures |s| > 1 ==> s[0] != '0'
    decreases n
  {
    if n < 10 then [DigitChar(n)] else NatToString(n / 10) + [DigitChar(n % 10)]
  }

  /** Python's `str(n)`: a minus sign before the digits of a negative number. */
  function IntToString(n: int): (s: string)
    ensures |s| > 0 && ':' !in s
  {
    if n < 0 then "-" + NatToString(-n) else NatToString(n)
  }

  function DigitValue(c: char): nat
    requires IsDigit(c)
  {
    c as int - '0' as int
  }

  /** The number a string of decimal digits denotes (leading zeros allowed). */
  function DigitsValue(s: string): nat
    requires forall k :: 0 <= k < |s| ==> IsDigit(s[k])
  {
    if s == [] then 0 else DigitsValue(s[..|s| - 1]) * 10 + DigitValue(s[|s| - 1])
  }

  /**
   * Python's `int(s)` on an optional minus sign followed by ASCII digits;
   * `None` stands for the `ValueError` any other text raises.
   */
  function ParseInt(s: string): (r: Option<int>)
    ensures r.Some? <==> IsDigits(s) || (|s| > 1 && s[0] == '-' && IsDigits(s[1..]))
  {
    if IsDigits(s) then Some(DigitsValue(s))
    else if |s| > 1 && s[0] == '-' && IsDigits(s[1..]) then Some(-(DigitsValue(s[1..]) as int))
    else None
  }

  lemma {:induction false} DigitsValueOfNatToString(n: nat)
    ensures DigitsValue(NatToString(n)) == n
    decreases n
  {
    var s := NatToString(n);
    if n >= 10 {
      DigitsValueOfNatToString(n / 10);
      assert s[..|s| - 1] == NatToString(n / 10);
    }
  }

  /** `int(str(n)) == n` for every integer. */
  lemma ParseIntToString(n: int)
    ensures ParseInt(IntToString(n)) == Some(n)
  {
    if n < 0 {
      var s := IntToString(n);
      assert s[1..] == NatToString(-n);
      assert !IsDigit(s[0]);
      DigitsValueOfNatToString(-n);
    } else {
      DigitsValueOfNatToString(n);
    }
  }

  // ---------------------------------------------------------------------
  // str.strip(), slicing, substring search
  // ---------------------------------------------------------------------

  /** The characters Python's `str.isspace()` accepts. */
  predicate IsSpace(c: char)
  {
    c == ' ' || ('\t' <= c <= '\r') || ('\U{1C}' <= c <= '\U{1F}') || c == '\U{85}' ||
    c == '\U{A0}' || c == '\U{1680}' || ('\U{2000}' <= c <= '\U{200A}') ||
    c == '\U{2028}' || c == '\U{2029}' || c == '\U{202F}' || c == '\U{205F}' || c == '\U{3000}'
  }

  /** `s.lstrip()`: drops the leading whitespace and nothing else. */
  function TrimStart(s: string): (r: string)
    ensures |r| <= |s| && r == s[|s| - |r|..]
    ensures forall k :: 0 <= k < |s| - |r| ==> IsSpace(s[k])
    ensures r == [] || !IsSpace(r[0])
  {
    if |s| > 0 && IsSpace(s[0]) then TrimStart(s[1..]) else s
  }

  /** `s.rstrip()`: drops the trailing whitespace and nothing else. */
  function TrimEnd(s: string): (r: string)
    ensures |r| <= |s| && r == s[..|r|]
    ensures forall k :: |r| <= k < |s| ==> IsSpace(s[k])
    ensures r == [] || !IsSpace(r[|r| - 1])
  {
    if |s| > 0 && IsSpace(s[|s| - 1]) then TrimEnd(s[..|s| - 1]) else s
  }

  /**
   * `s.strip()`: `lstrip` then `rstrip`, so never longer than `s` and
   * neither starting nor ending with whitespace.
   */
  function Strip(s: string): (r: string)
    ensures |r| <= |s|
    ensures r == [] || (!IsSpace(r[0]) && !IsSpace(r[|r| - 1]))
  {
    var t := TrimStart(s);
    var r := TrimEnd(t);
    assert r == [] || r[0] == t[0];
    r
  }

  /** A string strips to "" exactly when it is made of whitespace only. */
  lemma StripEmpty(s: string)
    ensures Strip(s) == "" <==> forall k :: 0 <= k < |s| ==> IsSpace(s[k])
  {
    var t := TrimStart(s);
    if forall k :: 0 <= k < |s| ==> IsSpace(s[k]) {
      assert t == [];
    } else {
      var k :| 0 <= k < |s| && !IsSpace(s[k]);
      assert t != [];  // otherwise every character of s is whitespace
      assert Strip(s) != [];  // TrimEnd stops at t[0], which is not whitespace
    }
  }

  /** The leading run of non-whitespace characters of `t`. */
  function TakeWord(t: string): (w: string)
    ensures |w| <= |t| && w == t[..|w|]
    ensures forall k :: 0 <= k < |w| ==> !IsSpace(w[k])
    ensures |w| < |t| ==> IsSpace(t[|w|])
  {
    if t == [] || IsSpace(t[0]) then [] else [t[0]] + TakeWord(t[1..])
  }

  /**
   * The first word of `s.split()` (and "" when `s` is all whitespace):
   * leading whitespace skipped, then everything up to the next whitespace.
   */
  function FirstWord(s: string): (w: string)
    ensures forall k :: 0 <= k < |w| ==> !IsSpace(w[k])
    ensures w == [] <==> forall k :: 0 <= k < |s| ==> IsSpace(s[k])
  {
    var t := TrimStart(s);
    assert t != [] ==> t[0] == s[|s| - |t|];
    TakeWord(t)
  }

  /** `lstrip` drops exactly a leading run of whitespace that ends at a non-whitespace character. */
  lemma {:induction false} TrimStartAfter(lead: string, u: string)
    requires forall k :: 0 <= k < |lead| ==> IsSpace(lead[k])
    requires u != [] && !IsSpace(u[0])
    ensures TrimStart(lead + u) == u
  {
    if lead == [] {
      assert lead + u == u;
    } else {
      assert (lead + u)[0] == lead[0];
      assert (lead + u)[1..] == lead[1..] + u;
      TrimStartAfter(lead[1..], u);
    }
  }

  /** A word followed by whitespace or the end of the text is read whole. */
  lemma {:induction false} TakeWordBefore(w: string, rest: string)
    requires forall k :: 0 <= k < |w| ==> !IsSpace(w[k])
    requires rest == [] || IsSpace(rest[0])
    ensures TakeWord(w + rest) == w
  {
    if w == [] {
      assert w + rest == rest;
    } else {
      assert (w + rest)[0] == w[0];
      assert (w + rest)[1..] == w[1..] + rest;
      TakeWordBefore(w[1..], rest);
    }
  }

  /** The first word of whitespace, then a word, then whitespace or the end, is that word. */
  lemma FirstWordIs(lead: string, w: string, rest: string)
    requires forall k :: 0 <= k < |lead| ==> IsSpace(lead[k])
    requires w != [] && forall k :: 0 <= k < |w| ==> !IsSpace(w[k])
    requires rest == [] || IsSpace(rest[0])
    ensures FirstWord(lead + w + rest) == w
  {
    assert lead + w + rest == lead + (w + rest);
    TrimStartAfter(lead, w + rest);
    TakeWordBefore(w, rest);
  }

  /** Python's `s[:n]` for `n >= 0`. */
  function Take(s: string, n: nat): (r: string)
    ensures |r| == if |s| <= n then |s| else n
    ensures r == s[..|r|]
  {
    if |s| <= n then s else s[..n]
  }

  predicate StartsWith(s: string, prefix: string)
  {
    |prefix| <= |s| && s[..|prefix|] == prefix
  }

  /** A string starting with a non-empty prefix starts with that prefix's first character. */
  lemma StartsWithHead(s: string, prefix: string)
    requires |prefix| > 0
    ensures StartsWith(s, prefix) ==> |s| > 0 && s[0] == prefix[0]
  {
    if |prefix| <= |s| {
      assert s[..|prefix|][0] == s[0];
    }
  }

  /** Any text starts with itself glued before anything. */
  lemma StartsWithConcat(prefix: string, rest: string)
    ensures StartsWith(prefix + rest, prefix)
  {
    assert (prefix + rest)[..|prefix|] == prefix;
  }

  /** `needle` occurs somewhere in `hay` as a contiguous piece. */
  predicate Contains(hay: string, needle: string)
  {
    exists i :: 0 <= i <= |hay| - |needle| && OccursAt(hay, needle, i)
  }

  predicate OccursAt(hay: string, needle: string, i: nat)
    requires i + |needle| <= |hay|
  {
    hay[i..i + |needle|] == needle
  }

  /** Python's `c * n`. */
  function Repeat(c: char, n: nat): (r: string)
    ensures |r| == n && forall k :: 0 <= k < n ==> r[k] == c
  {
    seq(n, _ => c)
  }
}
