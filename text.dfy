// String helpers shared by the parsers, sprites and the compositor. Strings
// are sequences of Unicode scalar values, as Rust's `str::chars` sees them;
// `ByteLen` gives the UTF-8 length that `str::len` reports.
module Text {
  import opened Wrappers

  /// Number of bytes `c` takes in UTF-8.
  function Utf8Len(c: char): (n: nat)
    ensures 1 <= n <= 4
    ensures n == 1 <==> c as int < 0x80
  {
    if c as int < 0x80 then 1
    else if c as int < 0x800 then 2
    else if c as int < 0x1_0000 then 3
    else 4
  }

  /// `str::len`: the UTF-8 length of `s`.
  function ByteLen(s: string): (n: nat)
    ensures n >= |s|
    ensures n == 0 <==> s == []
  {
    if s == [] then 0 else Utf8Len(s[0]) + ByteLen(s[1..])
  }

  predicate IsAscii(c: char)
  {
    c as int < 0x80
  }

  /// `char::is_whitespace`: the Unicode White_Space property.
  predicate IsWhiteSpace(c: char)
  {
    ('\t' <= c <= '\r') || c == ' ' || c == '\U{0085}' || c == '\U{00A0}'
    || c == '\U{1680}' || ('\U{2000}' <= c <= '\U{200A}') || c == '\U{2028}'
    || c == '\U{2029}' || c == '\U{202F}' || c == '\U{205F}' || c == '\U{3000}'
  }

  function TrimStart(s: string): (r: string)
    ensures |r| <= |s| && r == s[|s| - |r|..]
    ensures r == [] || !IsWhiteSpace(r[0])
    ensures forall i :: 0 <= i < |s| - |r| ==> IsWhiteSpace(s[i])
  {
    if s != [] && IsWhiteSpace(s[0]) then TrimStart(s[1..]) else s
  }

  function TrimEnd(s: string): (r: string)
    ensures |r| <= |s| && r == s[..|r|]
    ensures r == [] || !IsWhiteSpace(r[|r| - 1])
    ensures forall i :: |r| <= i < |s| ==> IsWhiteSpace(s[i])
  {
    if s != [] && IsWhiteSpace(s[|s| - 1]) then TrimEnd(s[..|s| - 1]) else s
  }

  /// `str::trim`: `s` without its leading and trailing white space.
  function Trim(s: string): string
  {
    TrimEnd(TrimStart(s))
  }

  /// A string that neither starts nor ends with white space trims to itself.
  lemma TrimUnchanged(s: string)
    requires s != [] ==> !IsWhiteSpace(s[0]) && !IsWhiteSpace(s[|s| - 1])
    ensures Trim(s) == s
  {
  }

  /// The lower-case form of one character; only ASCII letters are mapped.
  function LowerChar(c: char): (l: char)
    ensures IsAscii(c) <==> IsAscii(l)
  {
    if 'A' <= c <= 'Z' then (c as int + 32) as char else c
  }

  /// `str::to_lowercase`, restricted to the ASCII case mapping.
  function Lower(s: string): (r: string)
    ensures |r| == |s|
    ensures forall i :: 0 <= i < |s| ==> r[i] == LowerChar(s[i])
  {
    if s == [] then [] else [LowerChar(s[0])] + Lower(s[1..])
  }

  /// `str::split(sep)`: the pieces between separators; never empty.
  function Split(s: string, sep: char): (r: seq<string>)
    ensures |r| >= 1
    ensures forall i :: 0 <= i < |r| ==> sep !in r[i]
  {
    if s == [] then [[]]
    else if s[0] == sep then [[]] + Split(s[1..], sep)
    else
      var rest := Split(s[1..], sep);
      [[s[0]] + rest[0]] + rest[1..]
  }

  /// `join(sep)` over a list of strings.
  function Join(parts: seq<string>, sep: string): string
  {
    if |parts| == 0 then []
    else if |parts| == 1 then parts[0]
    else parts[0] + sep + Join(parts[1..], sep)
  }

  lemma {:induction false} JoinSplit(s: string, sep: char)
    ensures Join(Split(s, sep), [sep]) == s
  {
    if s == [] {
    } else {
      JoinSplit(s[1..], sep);
      var rest := Split(s[1..], sep);
      if s[0] != sep {
        if |rest| > 1 {
          assert Join([[s[0]] + rest[0]] + rest[1..], [sep])
              == [s[0]] + rest[0] + [sep] + Join(rest[1..], [sep]);
        }
      }
    }
  }

  /// `s` with every occurrence of `c` removed (`replace(c, "")`, or the
  /// pieces of `split(c)` collected back together).
  function Remove(s: string, c: char): (r: string)
    ensures c !in r
    ensures |r| <= |s|
    ensures forall x :: x != c ==> (x in r <==> x in s)
  {
    if s == [] then []
    else if s[0] == c then Remove(s[1..], c)
    else [s[0]] + Remove(s[1..], c)
  }

  /// The concatenation of a sequence of strings (`collect::<String>()`).
  function Concat(parts: seq<string>): string
  {
    if |parts| == 0 then "" else parts[0] + Concat(parts[1..])
  }

  /// Collecting the pieces of `split(sep)` is removing the separator.
  lemma {:induction false} RemoveIsConcatOfSplit(s: string, sep: char)
    ensures Remove(s, sep) == Concat(Split(s, sep))
  {
    if s != [] {
      RemoveIsConcatOfSplit(s[1..], sep);
      var rest := Split(s[1..], sep);
      if s[0] == sep {
        assert Split(s, sep)[1..] == rest;
      } else {
        var parts := Split(s, sep);
        assert parts[0] == [s[0]] + rest[0] && parts[1..] == rest[1..];
        assert Concat(rest) == rest[0] + Concat(rest[1..]);
      }
    }
  }

  /// `replace(from, to)` for single characters.
  function ReplaceChar(s: string, from: char, to: char): string
  {
    seq(|s|, i requires 0 <= i < |s| => if s[i] == from then to else s[i])
  }

  /// The positions at which `c` occurs in `s`, in ascending order.
  function IndicesOf(s: string, c: char): (r: seq<nat>)
    ensures forall k :: 0 <= k < |r| ==> r[k] < |s| && s[r[k]] == c
    ensures forall i :: 0 <= i < |s| && s[i] == c ==> i in r
    ensures forall k, l :: 0 <= k < l < |r| ==> r[k] < r[l]
    decreases |s|
  {
    if s == [] then []
    else
      var rest := IndicesOf(s[..|s| - 1], c);
      if s[|s| - 1] == c then rest + [|s| - 1] else rest
  }

  /// The list of every position of `c` in `s`, in ascending order.
  predicate IsIndexList(s: string, c: char, r: seq<nat>)
  {
    (forall k :: 0 <= k < |r| ==> r[k] < |s| && s[r[k]] == c)
    && (forall i :: 0 <= i < |s| && s[i] == c ==> i in r)
    && (forall k, l :: 0 <= k < l < |r| ==> r[k] < r[l])
  }

  /// The three properties of `IndicesOf` determine it.
  lemma {:induction false} IndicesOfUnique(s: string, c: char, r: seq<nat>)
    requires IsIndexList(s, c, r)
    ensures IndicesOf(s, c) == r
    decreases |s|
  {
    if s != [] {
      var n := |s| - 1;
      var p := s[..n];
      if s[n] == c {
        IndexListDropLast(s, c, r);
        IndicesOfUnique(p, c, r[..|r| - 1]);
        assert r == r[..|r| - 1] + [n];
      } else {
        IndexListDropOther(s, c, r);
        IndicesOfUnique(p, c, r);
      }
    }
  }

  lemma IndexListDropLast(s: string, c: char, r: seq<nat>)
    requires IsIndexList(s, c, r) && s != [] && s[|s| - 1] == c
    ensures |r| > 0 && r[|r| - 1] == |s| - 1
    ensures IsIndexList(s[..|s| - 1], c, r[..|r| - 1])
  {
    var n := |s| - 1;
    assert n in r;
    var q := r[..|r| - 1];
    var p := s[..n];
    forall i | 0 <= i < |p| && p[i] == c
      ensures i in q
    {
      assert s[i] == c;
      var j :| 0 <= j < |r| && r[j] == i;
      assert j != |r| - 1;
      assert q[j] == i;
    }
    forall k | 0 <= k < |q|
      ensures q[k] < |p| && p[q[k]] == c
    {
      assert q[k] == r[k] < r[|r| - 1];
    }
  }

  lemma IndexListDropOther(s: string, c: char, r: seq<nat>)
    requires IsIndexList(s, c, r) && s != [] && s[|s| - 1] != c
    ensures IsIndexList(s[..|s| - 1], c, r)
  {
    var p := s[..|s| - 1];
    forall k | 0 <= k < |r|
      ensures r[k] < |p| && p[r[k]] == c
    {
      assert s[r[k]] == c;
    }
  }

  /// A string without the separator is a single piece.
  lemma SplitWithoutSeparator(s: string, sep: char)
    requires sep !in s
    ensures Split(s, sep) == [s]
  {
    if s != [] {
      SplitWithoutSeparator(s[1..], sep);
      assert [s[0]] + s[1..] == s;
    }
  }

  /// The first piece ends at the first separator.
  lemma {:induction false} SplitAtSeparator(a: string, sep: char, b: string)
    requires sep !in a
    ensures Split(a + [sep] + b, sep) == [a] + Split(b, sep)
  {
    var s := a + [sep] + b;
    if a == [] {
      assert s[0] == sep && s[1..] == b;
    } else {
      assert s[0] == a[0] && s[1..] == a[1..] + [sep] + b;
      SplitAtSeparator(a[1..], sep, b);
      assert [a[0]] + a[1..] == a;
    }
  }

  /// `Remove` distributes over concatenation.
  lemma {:induction false} RemoveAppend(a: string, b: string, c: char)
    ensures Remove(a + b, c) == Remove(a, c) + Remove(b, c)
  {
    if a == [] {
      assert a + b == b;
    } else {
      assert (a + b)[0] == a[0] && (a + b)[1..] == a[1..] + b;
      RemoveAppend(a[1..], b, c);
    }
  }

  /// Removing the one separator between two pieces joins them.
  lemma RemoveSeparator(a: string, c: char, b: string)
    requires c !in a && c !in b
    ensures Remove(a + [c] + b, c) == a + b
  {
    RemoveAppend(a + [c], b, c);
    RemoveAfter(a, c);
    RemoveAbsent(a, c);
    RemoveAbsent(b, c);
  }

  lemma RemoveAfter(a: string, c: char)
    ensures Remove(a + [c], c) == Remove(a, c)
  {
    var t: string := [c];
    RemoveAppend(a, t, c);
    assert t[1..] == [];
  }

  /// Removing an absent character changes nothing.
  lemma RemoveAbsent(s: string, c: char)
    requires c !in s
    ensures Remove(s, c) == s
  {
    if s != [] {
      RemoveAbsent(s[1..], c);
    }
  }

  /// `chars().position(|x| x == c)`: the first index of `c`, if any.
  function FirstIndexOf(s: string, c: char): (r: Option<nat>)
    ensures r.None? <==> c !in s
    ensures r.Some? ==> r.value < |s| && s[r.value] == c && c !in s[..r.value]
  {
    if s == [] then None
    else if s[0] == c then Some(0)
    else match FirstIndexOf(s[1..], c)
      case None => None
      case Some(i) => assert s[1..][..i] == s[1..i + 1]; Some(i + 1)
  }

  /// `str::contains(pat)` for a string pattern.
  predicate Contains(s: string, pat: string)
  {
    (|pat| <= |s| && s[..|pat|] == pat) || (s != [] && Contains(s[1..], pat))
  }

  /// `str::split_once(c)`: the text before and after the first `c`.
  function SplitOnce(s: string, c: char): (r: Option<(string, string)>)
    ensures r.None? <==> c !in s
    ensures r.Some? ==> s == r.value.0 + [c] + r.value.1 && c !in r.value.0
  {
    match FirstIndexOf(s, c)
    case None => None
    case Some(i) => assert s == s[..i] + [c] + s[i + 1..]; Some((s[..i], s[i + 1..]))
  }

  /// The first `c` of `a + [c] + b` is the one after `a` when `a` has none.
  lemma SplitOnceAt(a: string, c: char, b: string)
    requires c !in a
    ensures SplitOnce(a + [c] + b, c) == Some((a, b))
  {
    var s := a + [c] + b;
    FirstIndexOfAfter(a, c, b);
    assert s[..|a|] == a && s[|a| + 1..] == b;
  }

  lemma {:induction false} FirstIndexOfAfter(a: string, c: char, b: string)
    requires c !in a
    ensures FirstIndexOf(a + [c] + b, c) == Some(|a|)
  {
    if a != [] {
      assert (a + [c] + b)[1..] == a[1..] + [c] + b;
      FirstIndexOfAfter(a[1..], c, b);
    }
  }

  /// `split(c).nth(1)`: the text after the first `c` up to the next one (or
  /// to the end), when `c` occurs at all.
  function SecondPiece(s: string, c: char): (r: Option<string>)
    ensures r.None? <==> c !in s
    ensures r.Some? ==> c !in r.value
  {
    var pieces := Split(s, c);
    SplitSingleIff(s, c);
    if |pieces| > 1 then Some(pieces[1]) else None
  }

  lemma SplitSingleIff(s: string, c: char)
    ensures |Split(s, c)| == 1 <==> c !in s
  {
    if s != [] {
      SplitSingleIff(s[1..], c);
    }
  }

  predicate IsDigit(c: char)
  {
    '0' <= c <= '9'
  }

  predicate AllDigits(s: string)
  {
    forall i :: 0 <= i < |s| ==> IsDigit(s[i])
  }

  /// The value of a string of decimal digits.
  function DigitsValue(s: string): nat
    requires AllDigits(s)
  {
    if s == [] then 0
    else
      assert IsDigit(s[|s| - 1]);
      DigitsValue(s[..|s| - 1]) * 10 + (s[|s| - 1] as int - '0' as int)
  }

  /// `str::parse::<usize>()` on a 64-bit target: an optional `+`, then one or
  /// more decimal digits whose value fits in 64 bits.
  function ParseUsize(s: string): (r: Option<nat>)
    ensures r.Some? ==> r.value < 0x1_0000_0000_0000_0000
  {
    var digits := if s != [] && s[0] == '+' then s[1..] else s;
    if digits != [] && AllDigits(digits) && DigitsValue(digits) < 0x1_0000_0000_0000_0000
    then Some(DigitsValue(digits))
    else None
  }

  /// A string starting with something other than a sign or a digit is not a
  /// number.
  lemma ParseUsizeRejects(s: string)
    requires s != [] && s[0] != '+' && !IsDigit(s[0])
    ensures ParseUsize(s) == None
  {
    assert !AllDigits(s);
  }

  /// A string of digits without a sign is read as its value, when that fits.
  lemma ParseUsizeDigits(s: string)
    requires s != [] && AllDigits(s) && DigitsValue(s) < 0x1_0000_0000_0000_0000
    ensures ParseUsize(s) == Some(DigitsValue(s))
  {
    assert IsDigit(s[0]);
  }
}
