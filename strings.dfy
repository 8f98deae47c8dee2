/** The Python string operations the pruner relies on, over `string` = `seq<char>`:
    substring search (`needle in hay`), `str.split(sep)` with indexing,
    `str.replace("_", "-")`, `int(text)` and `str(n)`. */
module Strings {
  import opened Base

  // ---------------------------------------------------------------------------
  // Substring search: Python's `needle in hay` and `hay.find(needle)`.

  /** `needle` starts at position `j` of `hay`. */
  predicate OccursAt(needle: string, hay: string, j: nat)
  {
    j <= |hay| && needle <= hay[j..]
  }

  /** Moving one character into the haystack moves every occurrence one place. */
  lemma OccursAtTail(needle: string, hay: string, j: nat)
    requires hay != [] && j >= 1
    ensures OccursAt(needle, hay, j) <==> OccursAt(needle, hay[1..], j - 1)
  {
    if j <= |hay| {
      assert hay[j..] == hay[1..][j - 1..];
    }
  }

  /** The first position at which `needle` occurs in `hay` (None when it does not). */
  function IndexOf(hay: string, needle: string): (r: Option<nat>)
    decreases |hay|
    ensures r.Some? ==> OccursAt(needle, hay, r.value)
    ensures r.Some? ==> forall j: nat :: j < r.value ==> !OccursAt(needle, hay, j)
    ensures r.None? ==> forall j: nat :: !OccursAt(needle, hay, j)
  {
    assert hay[0..] == hay;
    if needle <= hay then Some(0)
    else if hay == [] then None
    else
      var tail := hay[1..];
      assert forall j: nat :: j >= 1 ==> (OccursAt(needle, hay, j) <==> OccursAt(needle, tail, j - 1)) by {
        forall j: nat | j >= 1
          ensures OccursAt(needle, hay, j) <==> OccursAt(needle, tail, j - 1)
        {
          OccursAtTail(needle, hay, j);
        }
      }
      match IndexOf(tail, needle)
      case None => None
      case Some(i) => Some(i + 1)
  }

  /** Python's `needle in hay` for strings. */
  predicate Contains(needle: string, hay: string)
  {
    IndexOf(hay, needle).Some?
  }

  /** `needle in hay` holds exactly when `needle` starts at some position of `hay`. */
  lemma ContainsIffOccurs(needle: string, hay: string)
    ensures Contains(needle, hay) <==> exists i :: 0 <= i <= |hay| && needle <= hay[i..]
  {
    if i :| 0 <= i <= |hay| && needle <= hay[i..] {
      assert OccursAt(needle, hay, i);
    }
  }

  /** A prefix of a string is contained in it (so a path extending a directory path contains it). */
  lemma PrefixContained(needle: string, hay: string)
    requires needle <= hay
    ensures Contains(needle, hay)
  {
    assert hay[0..] == hay;
    assert OccursAt(needle, hay, 0);
  }

  /** Every character of a contained needle occurs in the haystack. */
  lemma ContainedChars(needle: string, hay: string)
    requires Contains(needle, hay)
    ensures forall k :: 0 <= k < |needle| ==> needle[k] in hay
  {
    var i := IndexOf(hay, needle).value;
    forall k | 0 <= k < |needle|
      ensures needle[k] in hay
    {
      assert hay[i + k] == needle[k];
    }
  }

  /** A needle with a character the haystack lacks is not contained in it. */
  lemma MissingCharNotContained(needle: string, hay: string, k: nat)
    requires k < |needle| && needle[k] !in hay
    ensures !Contains(needle, hay)
  {
    if Contains(needle, hay) {
      ContainedChars(needle, hay);
    }
  }

  /** A one-character needle is contained exactly when the character occurs. */
  lemma {:induction false} ContainsChar(c: char, s: string)
    ensures Contains([c], s) <==> c in s
  {
    if c in s {
      var i :| 0 <= i < |s| && s[i] == c;
      assert OccursAt([c], s, i);
    }
    if Contains([c], s) {
      var i := IndexOf(s, [c]).value;
      assert s[i] == c;
    }
  }

  // ---------------------------------------------------------------------------
  // Splitting: Python's `s.split(sep)` for a non-empty separator.

  /** The pieces of `s` between the leftmost non-overlapping occurrences of `sep`. */
  function Split(s: string, sep: string): (parts: seq<string>)
    requires sep != []
    decreases |s|
    ensures |parts| >= 1
  {
    match IndexOf(s, sep)
    case None => [s]
    case Some(i) => [s[..i]] + Split(s[i + |sep|..], sep)
  }

  /** Python's `s.split(sep)[k]`; None stands for the IndexError raised when there
      are at most `k` pieces. */
  function Part(s: string, sep: string, k: nat): (r: Option<string>)
    requires sep != []
  {
    var parts := Split(s, sep);
    if k < |parts| then Some(parts[k]) else None
  }

  /** Python's `sep.join(parts)`. */
  function Join(parts: seq<string>, sep: string): (s: string)
    requires |parts| >= 1
    decreases |parts|
  {
    if |parts| == 1 then parts[0] else parts[0] + sep + Join(parts[1..], sep)
  }

  /** Splitting loses nothing: joining the pieces with the separator gives `s` back. */
  lemma {:induction false} JoinSplit(s: string, sep: string)
    requires sep != []
    ensures Join(Split(s, sep), sep) == s
    decreases |s|
  {
    var found := IndexOf(s, sep);
    if found.Some? {
      var i := found.value;
      var rest := s[i + |sep|..];
      var tail := Split(rest, sep);
      JoinSplit(rest, sep);
      var parts := Split(s, sep);
      assert parts == [s[..i]] + tail;
      assert parts[1..] == tail;
      assert Join(parts, sep) == s[..i] + sep + Join(tail, sep);
      assert s[i..i + |sep|] == sep;
      assert s == s[..i] + s[i..i + |sep|] + rest;
    }
  }

  /** `s.split(sep)` cuts at the leftmost occurrence of `sep`: the first piece is
      everything before it, and the remaining pieces are those of the text after it. */
  lemma SplitAtFirstOccurrence(s: string, sep: string)
    requires sep != [] && Contains(sep, s)
    ensures var i := IndexOf(s, sep).value;
      OccursAt(sep, s, i) && (forall j: nat :: j < i ==> !OccursAt(sep, s, j)) &&
      Split(s, sep) == [s[..i]] + Split(s[i + |sep|..], sep)
  {
  }

  /** The text before the first occurrence of the separator does not contain it. */
  lemma BeforeFirstFree(s: string, sep: string, i: nat)
    requires sep != [] && IndexOf(s, sep) == Some(i)
    ensures !Contains(sep, s[..i])
  {
    var head := s[..i];
    forall j: nat
      ensures !OccursAt(sep, head, j)
    {
      if j + |sep| <= i {
        assert head[j..][..|sep|] == s[j..][..|sep|];
        assert !OccursAt(sep, s, j);
      }
    }
  }

  /** No piece of a split contains the separator. */
  lemma {:induction false} SplitPiecesFree(s: string, sep: string)
    requires sep != []
    ensures forall k :: 0 <= k < |Split(s, sep)| ==> !Contains(sep, Split(s, sep)[k])
    decreases |s|
  {
    match IndexOf(s, sep)
    case None =>
    case Some(i) =>
      var rest := s[i + |sep|..];
      SplitPiecesFree(rest, sep);
      BeforeFirstFree(s, sep, i);
      var parts, tail := Split(s, sep), Split(rest, sep);
      assert parts == [s[..i]] + tail;
      forall k | 0 <= k < |parts|
        ensures !Contains(sep, parts[k])
      {
        if k > 0 {
          assert parts[k] == tail[k - 1];
        }
      }
  }

  /** There is a piece after position 0 exactly when the separator occurs. */
  lemma SplitHasSecondPart(s: string, sep: string)
    requires sep != []
    ensures |Split(s, sep)| >= 2 <==> Contains(sep, s)
  {
  }

  /** A string without the separator splits into itself alone. */
  lemma SplitWithout(s: string, sep: string)
    requires sep != []
    requires !Contains(sep, s)
    ensures Split(s, sep) == [s]
  {
  }

  /** A string that starts with the separator splits into "" and the pieces of the rest. */
  lemma SplitLeading(sep: string, rest: string)
    requires sep != []
    ensures Split(sep + rest, sep) == [""] + Split(rest, sep)
  {
    assert sep <= sep + rest;
    assert (sep + rest)[|sep|..] == rest;
  }

  /** A one-character separator: the first piece runs up to its first occurrence. */
  lemma SplitAtChar(head: string, c: char, rest: string)
    requires c !in head
    ensures Split(head + [c] + rest, [c]) == [head] + Split(rest, [c])
  {
    var s := head + [c] + rest;
    assert OccursAt([c], s, |head|);
    forall j: nat | j < |head|
      ensures !OccursAt([c], s, j)
    {
      assert s[j] == head[j];
    }
    assert IndexOf(s, [c]) == Some(|head|);
    assert s[..|head|] == head;
    assert s[|head| + 1..] == rest;
  }

  // ---------------------------------------------------------------------------
  // Python's `s.replace("_", "-")`.

  /** `s` with every underscore replaced by a hyphen. */
  function Hyphenate(s: string): (r: string)
    decreases |s|
    ensures |r| == |s|
    ensures forall i :: 0 <= i < |s| ==> r[i] == (if s[i] == '_' then '-' else s[i])
  {
    if s == [] then []
    else Hyphenate(s[..|s| - 1]) + [if s[|s| - 1] == '_' then '-' else s[|s| - 1]]
  }

  /** The hyphenated form holds no underscore, and hyphenating it again changes nothing. */
  lemma HyphenateIdempotent(s: string)
    ensures '_' !in Hyphenate(s)
    ensures Hyphenate(Hyphenate(s)) == Hyphenate(s)
  {
  }

  // ---------------------------------------------------------------------------
  // Python's `int(text)` and `str(n)` for base-10 integers.

  /** The characters Python's `int()` strips around its argument: the ASCII space and
      `\t` to `\r` (the C-locale test applied after conversion), and the Unicode
      whitespace above U+007F, which is turned into a space first. The ASCII
      separators U+001C to U+001F are not stripped. */
  predicate IsSpace(c: char)
  {
    var n := c as int;
    n == 32 || 9 <= n <= 13 || n == 0x85 || n == 0xA0 || n == 0x1680 ||
    0x2000 <= n <= 0x200A || n == 0x2028 || n == 0x2029 || n == 0x202F || n == 0x205F ||
    n == 0x3000
  }

  predicate IsDigit(c: char)
  {
    '0' <= c <= '9'
  }

  function StripStart(s: string): (r: string)
    decreases |s|
  {
    if s != [] && IsSpace(s[0]) then StripStart(s[1..]) else s
  }

  function StripEnd(s: string): (r: string)
    decreases |s|
  {
    if s != [] && IsSpace(s[|s| - 1]) then StripEnd(s[..|s| - 1]) else s
  }

  /** A run of ASCII digits in which single underscores may separate digits ("1_000"). */
  predicate IsDigitRun(b: string)
  {
    |b| > 0 && IsDigit(b[0]) && IsDigit(b[|b| - 1]) &&
    (forall i :: 0 <= i < |b| ==> IsDigit(b[i]) || b[i] == '_') &&
    (forall i :: 0 <= i < |b| - 1 ==> b[i] == '_' ==> b[i + 1] != '_')
  }

  function DropUnderscores(b: string): (r: string)
    decreases |b|
  {
    if b == [] then []
    else DropUnderscores(b[..|b| - 1]) + (if b[|b| - 1] == '_' then [] else [b[|b| - 1]])
  }

  /** The value of a string of decimal digits, most significant first. */
  function DigitsValue(d: string): (v: nat)
    decreases |d|
  {
    if d == [] then 0
    else
      var c := d[|d| - 1];
      DigitsValue(d[..|d| - 1]) * 10 + (if IsDigit(c) then (c as int) - ('0' as int) else 0)
  }

  /** The most decimal digits `int()` and `str()` convert (CPython's default
      `int_max_str_digits`); underscores do not count, leading zeros do. */
  const MaxIntDigits: nat := 4300

  /** Python's `int(text)`; None stands for the ValueError it raises, also for a
      digit run longer than MaxIntDigits. Non-ASCII decimal digits, which Python also
      accepts, are not modelled. */
  function ParseInt(text: string): (r: Option<int>)
  {
    var t := StripEnd(StripStart(text));
    if t != [] && (t[0] == '+' || t[0] == '-') then
      var body := t[1..];
      if IsDigitRun(body) && |DropUnderscores(body)| <= MaxIntDigits then
        var n: int := DigitsValue(DropUnderscores(body));
        Some(if t[0] == '-' then -n else n)
      else None
    else if IsDigitRun(t) && |DropUnderscores(t)| <= MaxIntDigits then Some(DigitsValue(DropUnderscores(t)))
    else None
  }

  function DigitChar(d: nat): (c: char)
    requires d < 10
  {
    (('0' as int) + d) as char
  }

  /** Python's `str(n)` for a natural number. */
  function NatToString(n: nat): (r: string)
    decreases n
  {
    if n < 10 then [DigitChar(n)] else NatToString(n / 10) + [DigitChar(n % 10)]
  }

  /** Python's `str(n)`. */
  function IntToString(n: int): (r: string)
  {
    if n < 0 then "-" + NatToString(-n) else NatToString(n)
  }

  /** The number of decimal digits of `n`, its sign not counted. */
  function DigitCount(n: int): (d: nat)
  {
    |NatToString(if n < 0 then -n else n)|
  }

  lemma {:induction false} NatToStringDigits(n: nat)
    ensures |NatToString(n)| > 0
    ensures forall i :: 0 <= i < |NatToString(n)| ==> IsDigit(NatToString(n)[i])
    ensures DropUnderscores(NatToString(n)) == NatToString(n)
    ensures DigitsValue(NatToString(n)) == n
    decreases n
  {
    var s := NatToString(n);
    if n >= 10 {
      NatToStringDigits(n / 10);
      assert s[..|s| - 1] == NatToString(n / 10);
    }
  }

  /** The characters of `str(n)`: digits, after a minus sign when `n` is negative. */
  lemma IntToStringChars(n: int)
    ensures forall i :: 0 <= i < |IntToString(n)| ==> IsDigit(IntToString(n)[i]) || IntToString(n)[i] == '-'
  {
    NatToStringDigits(if n < 0 then -n else n);
  }

  /** `str(n)` of a natural number is a digit run whose value is `n`. */
  lemma NatToStringRun(m: nat)
    ensures IsDigitRun(NatToString(m))
    ensures DigitsValue(DropUnderscores(NatToString(m))) == m
  {
    NatToStringDigits(m);
  }

  /** Stripping a string that starts and ends with a non-space changes nothing. */
  lemma StripUnspaced(s: string)
    requires s != [] && !IsSpace(s[0]) && !IsSpace(s[|s| - 1])
    ensures StripEnd(StripStart(s)) == s
  {
  }

  /** `int(str(m)) == m` for a natural number of at most MaxIntDigits digits; a longer
      one is rejected. */
  lemma ParseNatString(m: nat)
    ensures ParseInt(NatToString(m)) == if |NatToString(m)| <= MaxIntDigits then Some(m) else None
  {
    var d := NatToString(m);
    NatToStringRun(m);
    NatToStringDigits(m);
    assert IsDigit(d[0]) && IsDigit(d[|d| - 1]);
    StripUnspaced(d);
    assert d[0] != '+' && d[0] != '-';
    assert DropUnderscores(d) == d;
  }

  /** `int("-" + str(m)) == -m`, within the digit limit. */
  lemma ParseNegatedString(m: nat)
    ensures ParseInt("-" + NatToString(m)) == if |NatToString(m)| <= MaxIntDigits then Some(-(m as int)) else None
  {
    var d := NatToString(m);
    NatToStringRun(m);
    NatToStringDigits(m);
    var s := "-" + d;
    assert s[|s| - 1] == d[|d| - 1] && IsDigit(d[|d| - 1]);
    StripUnspaced(s);
    assert StripEnd(StripStart(s)) == s;
    assert s[1..] == d;
  }

  /** An ASCII record separator before the digits is not whitespace to `int()`: the
      text is rejected (ValueError). */
  lemma ParseIntRejectsSeparator()
    ensures ParseInt("\U{1C}5") == None
  {
    assert !IsDigit('\U{1C}');
  }

  /** `int(str(n)) == n` for every integer of at most MaxIntDigits digits, and a
      ValueError for a longer one: an identifier written out by the exporter parses
      back to itself. */
  lemma ParseIntToString(n: int)
    ensures ParseInt(IntToString(n)) == if DigitCount(n) <= MaxIntDigits then Some(n) else None
  {
    if n < 0 {
      ParseNegatedString(-n);
    } else {
      ParseNatString(n);
    }
  }
}
