// String and list helpers with the semantics of the JavaScript and Java
// library calls the repository uses: trimming, case mapping, splitting and
// joining on a separator, decimal integers, substring search and
// de-duplication.  Case mapping covers ASCII letters only.
module Strings {
  import opened Wrappers

  // ---------------------------------------------------------------- chars

  predicate IsDigit(c: char) { '0' <= c <= '9' }
  predicate IsLower(c: char) { 'a' <= c <= 'z' }
  predicate IsUpper(c: char) { 'A' <= c <= 'Z' }
  predicate IsAlnum(c: char) { IsDigit(c) || IsLower(c) || IsUpper(c) }

  /** `\w` in a JavaScript or Java regular expression. */
  predicate IsWordChar(c: char) { IsAlnum(c) || c == '_' }

  /** `\s` in a JavaScript regular expression; also the set that
    * `String.prototype.trim` removes (WhiteSpace and LineTerminator). */
  predicate IsJsSpace(c: char)
  {
    c == '\t' || c == '\n' || c == '\U{B}' || c == '\U{C}' || c == '\r' || c == ' '
    || c == '\U{A0}' || c == '\U{1680}' || ('\U{2000}' <= c <= '\U{200A}')
    || c == '\U{2028}' || c == '\U{2029}' || c == '\U{202F}' || c == '\U{205F}'
    || c == '\U{3000}' || c == '\U{FEFF}'
  }

  /** A line terminator, which `.` in a JavaScript regular expression does not match. */
  predicate IsJsLineTerminator(c: char)
  {
    c == '\n' || c == '\r' || c == '\U{2028}' || c == '\U{2029}'
  }

  /** Java's `Character.isWhitespace`, used by `String.isBlank`. */
  predicate IsJavaWhitespace(c: char)
  {
    ('\t' <= c <= '\r') || ('\U{1C}' <= c <= '\U{1F}') || c == ' '
    || c == '\U{1680}' || ('\U{2000}' <= c <= '\U{2006}') || ('\U{2008}' <= c <= '\U{200A}')
    || c == '\U{2028}' || c == '\U{2029}' || c == '\U{205F}' || c == '\U{3000}'
  }

  /** The characters Java's `String.trim` removes. */
  predicate IsJavaTrimmable(c: char) { c <= ' ' }

  function LowerChar(c: char): (r: char)
    ensures IsUpper(c) ==> IsLower(r)
    ensures !IsUpper(c) ==> r == c
  {
    if IsUpper(c) then (c as int + 32) as char else c
  }

  function UpperChar(c: char): (r: char)
    ensures IsLower(c) ==> IsUpper(r)
    ensures !IsLower(c) ==> r == c
  {
    if IsLower(c) then (c as int - 32) as char else c
  }

  // ---------------------------------------------------------------- case

  /** `toLowerCase()`, ASCII letters only. */
  function ToLower(s: string): (r: string)
    ensures |r| == |s|
    ensures forall i :: 0 <= i < |s| ==> r[i] == LowerChar(s[i])
  {
    seq(|s|, i requires 0 <= i < |s| => LowerChar(s[i]))
  }

  /** `toUpperCase()`, ASCII letters only. */
  function ToUpper(s: string): (r: string)
    ensures |r| == |s|
    ensures forall i :: 0 <= i < |s| ==> r[i] == UpperChar(s[i])
  {
    seq(|s|, i requires 0 <= i < |s| => UpperChar(s[i]))
  }

  /** Java's `equalsIgnoreCase`, ASCII letters only. */
  predicate EqualsIgnoreCase(a: string, b: string)
  {
    ToLower(a) == ToLower(b)
  }

  // ---------------------------------------------------------------- trim

  /** Removes the leading characters satisfying `ws`. */
  function TrimStart(s: string, ws: char -> bool): (r: string)
    ensures |r| <= |s| && r == s[|s| - |r|..]
    ensures r == [] || !ws(r[0])
    ensures forall i :: 0 <= i < |s| - |r| ==> ws(s[i])
  {
    if |s| > 0 && ws(s[0]) then
      var r := TrimStart(s[1..], ws);
      assert forall i :: 1 <= i < |s| ==> s[i] == s[1..][i - 1];
      r
    else s
  }

  /** Removes the trailing characters satisfying `ws`. */
  function TrimEnd(s: string, ws: char -> bool): (r: string)
    ensures |r| <= |s| && r == s[..|r|]
    ensures r == [] || !ws(r[|r| - 1])
    ensures forall i :: |r| <= i < |s| ==> ws(s[i])
  {
    if |s| > 0 && ws(s[|s| - 1]) then
      var r := TrimEnd(s[..|s| - 1], ws);
      assert forall i :: 0 <= i < |s| - 1 ==> s[i] == s[..|s| - 1][i];
      r
    else s
  }

  function Trim(s: string, ws: char -> bool): string
  {
    TrimEnd(TrimStart(s, ws), ws)
  }

  /** JavaScript `trim()`. */
  function JsTrim(s: string): string { Trim(s, IsJsSpace) }

  /** JavaScript `trimEnd()`. */
  function JsTrimEnd(s: string): string { TrimEnd(s, IsJsSpace) }

  /** Java `trim()`. */
  function JavaTrim(s: string): string { Trim(s, IsJavaTrimmable) }

  /** Java `isBlank()`. */
  predicate JavaIsBlank(s: string)
  {
    forall i :: 0 <= i < |s| ==> IsJavaWhitespace(s[i])
  }

  /** Neither end of `s` is a character satisfying `ws`. */
  predicate IsTrimmed(s: string, ws: char -> bool)
  {
    s == [] || (!ws(s[0]) && !ws(s[|s| - 1]))
  }

  /** A string trims to nothing exactly when every character is trimmable. */
  lemma TrimEmptyIff(s: string, ws: char -> bool)
    ensures Trim(s, ws) == [] <==> forall i :: 0 <= i < |s| ==> ws(s[i])
  {
    var t := TrimStart(s, ws);
    var u := TrimEnd(t, ws);
    if t != [] {
      assert !ws(t[0]);
      assert t[0] == s[|s| - |t|];
      assert u != [];
    }
  }

  lemma TrimOfTrimmed(s: string, ws: char -> bool)
    requires IsTrimmed(s, ws)
    ensures Trim(s, ws) == s
  {
  }

  /** Trimming removes a leading pad of trimmable characters. */
  lemma {:induction false} TrimPadded(pad: string, s: string, ws: char -> bool)
    requires forall i :: 0 <= i < |pad| ==> ws(pad[i])
    requires IsTrimmed(s, ws) && s != []
    ensures Trim(pad + s, ws) == s
  {
    if pad == [] {
      assert pad + s == s;
    } else {
      assert (pad + s)[1..] == pad[1..] + s;
      TrimPadded(pad[1..], s, ws);
    }
  }

  // ---------------------------------------------------------------- search

  predicate IsPrefix(p: string, s: string) { |p| <= |s| && s[..|p|] == p }

  predicate IsSuffix(p: string, s: string) { |p| <= |s| && s[|s| - |p|..] == p }

  /** JavaScript `includes` / Java `contains` on strings. */
  predicate Contains(s: string, sub: string)
  {
    exists i :: 0 <= i <= |s| && IsPrefix(sub, s[i..])
  }

  lemma ContainsAt(s: string, sub: string, i: nat)
    requires i + |sub| <= |s| && s[i..i + |sub|] == sub
    ensures Contains(s, sub)
  {
    assert IsPrefix(sub, s[i..]);
  }

  lemma ContainsEmpty(s: string)
    ensures Contains(s, "")
  {
    assert IsPrefix("", s[0..]);
  }

  /** Every character of `s` satisfies `p`. */
  predicate All(s: string, p: char -> bool)
  {
    forall i :: 0 <= i < |s| ==> p(s[i])
  }

  /** The characters of `s` that satisfy `keep`, in order. */
  function FilterChars(s: string, keep: char -> bool): string
  {
    if s == [] then []
    else (if keep(s[0]) then [s[0]] else []) + FilterChars(s[1..], keep)
  }

  /** Every occurrence of character `c` replaced by the string `repl`. */
  function ReplaceChar(s: string, c: char, repl: string): string
  {
    if s == [] then []
    else (if s[0] == c then repl else [s[0]]) + ReplaceChar(s[1..], c, repl)
  }

  /** Java `String.replace(target, repl)`: non-overlapping occurrences, left to right. */
  function ReplaceAll(s: string, t: string, repl: string): string
    requires |t| > 0
    decreases |s|
  {
    if |s| < |t| then s
    else if s[..|t|] == t then repl + ReplaceAll(s[|t|..], t, repl)
    else [s[0]] + ReplaceAll(s[1..], t, repl)
  }

  /** A string lacking the target's last character has no occurrence to replace. */
  lemma {:induction false} ReplaceAbsent(s: string, t: string, repl: string)
    requires |t| > 0 && t[|t| - 1] !in s
    ensures ReplaceAll(s, t, repl) == s
  {
    if |s| >= |t| {
      assert s[|t| - 1] in s;
      assert s[..|t|] != t;
      ReplaceAbsent(s[1..], t, repl);
      assert [s[0]] + s[1..] == s;
    }
  }

  // q + "/**" with no star in q: the only occurrence of the target is the final one.
  lemma {:induction false} ReplaceStarSuffix(q: string)
    requires '*' !in q
    ensures ReplaceAll(q + "/**", "/**", "/") == q + "/"
  {
    var s := q + "/**";
    if q == [] {
      assert s[..3] == "/**";
      assert s[3..] == [];
    } else {
      assert s[1] == if |q| > 1 then q[1] else '/';
      assert s[..3] != "/**";
      assert s[1..] == q[1..] + "/**";
      ReplaceStarSuffix(q[1..]);
      assert [q[0]] + (q[1..] + "/") == q + "/";
    }
  }

  // ---------------------------------------------------------------- split/join

  /** JavaScript `split(sep)` with a one-character separator: every part, empty ones included. */
  function Split(s: string, sep: char): (r: seq<string>)
    ensures |r| >= 1
    ensures forall i :: 0 <= i < |r| ==> sep !in r[i]
  {
    if |s| == 0 then [""]
    else
      var rest := Split(s[1..], sep);
      if s[0] == sep then [""] + rest else [[s[0]] + rest[0]] + rest[1..]
  }

  /** `join(sep)`: JavaScript `Array.prototype.join`, Java `String.join`. */
  function Join(xs: seq<string>, sep: string): string
  {
    if |xs| == 0 then "" else if |xs| == 1 then xs[0] else xs[0] + sep + Join(xs[1..], sep)
  }

  /** A string without the separator splits into itself alone. */
  lemma {:induction false} SplitNoSep(s: string, sep: char)
    requires sep !in s
    ensures Split(s, sep) == [s]
  {
    if |s| > 0 {
      SplitNoSep(s[1..], sep);
      assert [s[0]] + s[1..] == s;
    }
  }

  lemma {:induction false} SplitPrefix(x: string, t: string, sep: char)
    requires sep !in x
    ensures Split(x + t, sep) == [x + Split(t, sep)[0]] + Split(t, sep)[1..]
  {
    if x == [] {
      assert x + t == t;
      assert x + Split(t, sep)[0] == Split(t, sep)[0];
      assert [Split(t, sep)[0]] + Split(t, sep)[1..] == Split(t, sep);
    } else {
      assert (x + t)[1..] == x[1..] + t;
      assert (x + t)[0] == x[0];
      SplitPrefix(x[1..], t, sep);
      assert [x[0]] + (x[1..] + Split(t, sep)[0]) == x + Split(t, sep)[0];
    }
  }

  /** Joining the parts with the separator gives the input back. */
  lemma {:induction false} JoinSplit(s: string, sep: char)
    ensures Join(Split(s, sep), [sep]) == s
  {
    if |s| > 0 {
      var rest := Split(s[1..], sep);
      JoinSplit(s[1..], sep);
      if s[0] == sep {
        assert Split(s, sep) == [""] + rest;
        assert ([""] + rest)[1..] == rest;
        assert s == [sep] + s[1..];
      } else {
        var r := Split(s, sep);
        assert r == [[s[0]] + rest[0]] + rest[1..];
        if |rest| == 1 {
          assert s == [s[0]] + s[1..];
        } else {
          assert r[1..] == rest[1..];
          assert Join(rest, [sep]) == rest[0] + [sep] + Join(rest[1..], [sep]);
          assert s == [s[0]] + s[1..];
        }
      }
    }
  }

  /** Splitting the join of separator-free parts gives the parts back. */
  lemma {:induction false} SplitJoin(xs: seq<string>, sep: char)
    requires |xs| >= 1
    requires forall i :: 0 <= i < |xs| ==> sep !in xs[i]
    ensures Split(Join(xs, [sep]), sep) == xs
  {
    if |xs| == 1 {
      SplitNoSep(xs[0], sep);
    } else {
      SplitJoin(xs[1..], sep);
      var t := [sep] + Join(xs[1..], [sep]);
      assert Join(xs, [sep]) == xs[0] + t;
      SplitPrefix(xs[0], t, sep);
      assert t[1..] == Join(xs[1..], [sep]);
      assert Split(t, sep) == [""] + xs[1..];
      assert xs[0] + "" == xs[0];
      assert [xs[0]] + xs[1..] == xs;
    }
  }

  /** `xs` with the string `pad` put in front of every element but the first. */
  function PadTail(xs: seq<string>, pad: string): (r: seq<string>)
    requires |xs| >= 1
    ensures |r| == |xs| && r[0] == xs[0]
    ensures forall i :: 1 <= i < |xs| ==> r[i] == pad + xs[i]
  {
    [xs[0]] + seq(|xs| - 1, i requires 0 <= i < |xs| - 1 => pad + xs[i + 1])
  }

  /** Splitting parts joined by the separator followed by a pad. */
  lemma {:induction false} SplitJoinPadded(xs: seq<string>, sep: char, pad: string)
    requires |xs| >= 1
    requires sep !in pad
    requires forall i :: 0 <= i < |xs| ==> sep !in xs[i]
    ensures Split(Join(xs, [sep] + pad), sep) == PadTail(xs, pad)
  {
    if |xs| == 1 {
      SplitNoSep(xs[0], sep);
    } else {
      var tail := Join(xs[1..], [sep] + pad);
      SplitJoinPadded(xs[1..], sep, pad);
      var st := Split(tail, sep);
      assert st == PadTail(xs[1..], pad);
      SplitPrefix(pad, tail, sep);
      var t := [sep] + (pad + tail);
      assert Join(xs, [sep] + pad) == xs[0] + t;
      SplitPrefix(xs[0], t, sep);
      assert t[1..] == pad + tail;
      assert Split(t, sep) == [""] + Split(pad + tail, sep);
      assert Split(t, sep)[0] == "" && Split(t, sep)[1..] == Split(pad + tail, sep);
      assert xs[0] + "" == xs[0];
      var r := Split(Join(xs, [sep] + pad), sep);
      assert r == [xs[0]] + Split(pad + tail, sep);
      assert r == PadTail(xs, pad);
    }
  }

  // ---------------------------------------------------------------- Java split

  /** `xs` without its trailing empty strings. */
  function DropTrailingEmpty(xs: seq<string>): (r: seq<string>)
    ensures |r| <= |xs| && r == xs[..|r|]
    ensures r == [] || r[|r| - 1] != ""
    ensures forall i :: |r| <= i < |xs| ==> xs[i] == ""
  {
    if |xs| > 0 && xs[|xs| - 1] == "" then DropTrailingEmpty(xs[..|xs| - 1]) else xs
  }

  /** Java `String.split` on a one-character literal: the input itself when the
    * separator does not occur, otherwise the parts without trailing empty ones. */
  function JavaSplit(s: string, sep: char): seq<string>
  {
    if sep !in s then [s] else DropTrailingEmpty(Split(s, sep))
  }

  /** Joining a list with one more part at the end. */
  lemma {:induction false} JoinSnoc(xs: seq<string>, t: string, sep: string)
    ensures Join(xs + [t], sep) == if |xs| == 0 then t else Join(xs, sep) + sep + t
  {
    if |xs| == 1 {
      assert xs + [t] == [xs[0], t];
    } else if |xs| > 1 {
      assert (xs + [t])[1..] == xs[1..] + [t];
      JoinSnoc(xs[1..], t, sep);
    }
  }

  /** Java's split gives back the separator-free parts it was joined from,
    * provided the last part is not empty. */
  lemma JavaSplitJoin(xs: seq<string>, sep: char)
    requires |xs| >= 1 && xs[|xs| - 1] != ""
    requires forall i :: 0 <= i < |xs| ==> sep !in xs[i]
    ensures JavaSplit(Join(xs, [sep]), sep) == xs
  {
    var s := Join(xs, [sep]);
    if |xs| > 1 {
      assert s == xs[0] + [sep] + Join(xs[1..], [sep]);
      assert s[|xs[0]|] == sep;
    }
    SplitJoin(xs, sep);
  }

  /** Two separator-free parts around one separator split back into the two,
    * provided the second is not empty. */
  lemma JavaSplitPair(a: string, b: string, sep: char)
    requires sep !in a && sep !in b && b != ""
    ensures JavaSplit(a + [sep] + b, sep) == [a, b]
  {
    assert Join([a, b], [sep]) == a + [sep] + b;
    JavaSplitJoin([a, b], sep);
  }

  /** When a string does not end with the separator, its last part is not
    * empty and ends with the string's last character. */
  lemma {:induction false} SplitLast(s: string, sep: char)
    requires |s| > 0 && s[|s| - 1] != sep
    ensures var p := Split(s, sep); |p[|p| - 1]| > 0 && p[|p| - 1][|p[|p| - 1]| - 1] == s[|s| - 1]
  {
    if |s| > 1 {
      SplitLast(s[1..], sep);
    }
  }

  lemma JavaSplitLast(s: string, sep: char)
    requires |s| > 0 && s[|s| - 1] != sep
    ensures var p := JavaSplit(s, sep); |p| > 0 && |p[|p| - 1]| > 0 && p[|p| - 1][|p[|p| - 1]| - 1] == s[|s| - 1]
  {
    SplitLast(s, sep);
  }

  // ---------------------------------------------------------------- lists

  /** `filter(Boolean)` on a list of strings: the non-empty ones, in order. */
  function NonEmpty(xs: seq<string>): (r: seq<string>)
    ensures |r| <= |xs|
    ensures forall i :: 0 <= i < |r| ==> r[i] != ""
    ensures forall x :: x in r <==> x in xs && x != ""
  {
    if xs == [] then []
    else (if xs[0] != "" then [xs[0]] else []) + NonEmpty(xs[1..])
  }

  lemma {:induction false} NonEmptyOfNonEmpty(xs: seq<string>)
    requires forall i :: 0 <= i < |xs| ==> xs[i] != ""
    ensures NonEmpty(xs) == xs
  {
    if xs != [] {
      NonEmptyOfNonEmpty(xs[1..]);
      assert [xs[0]] + xs[1..] == xs;
    }
  }

  /** `map(s => s.trim())` with the given whitespace set. */
  function TrimAll(xs: seq<string>, ws: char -> bool): (r: seq<string>)
    ensures |r| == |xs|
    ensures forall i :: 0 <= i < |xs| ==> r[i] == Trim(xs[i], ws)
  {
    seq(|xs|, i requires 0 <= i < |xs| => Trim(xs[i], ws))
  }

  /** `s.split(',').map(x => x.trim()).filter(Boolean)` in JavaScript. */
  function CsvValues(s: string): seq<string>
  {
    NonEmpty(TrimAll(Split(s, ','), IsJsSpace))
  }

  /** An element of a list read by `CsvValues`: non-empty, comma-free, trimmed. */
  predicate IsCsvValue(x: string)
  {
    x != "" && ',' !in x && IsTrimmed(x, IsJsSpace)
  }

  lemma TrimSubstring(s: string, ws: char -> bool, c: char)
    requires c !in s
    ensures c !in Trim(s, ws)
  {
    var t := TrimStart(s, ws);
    var u := TrimEnd(t, ws);
    assert forall i :: 0 <= i < |u| ==> u[i] == s[|s| - |t| + i];
  }

  lemma TrimIsTrimmed(s: string, ws: char -> bool)
    ensures IsTrimmed(Trim(s, ws), ws)
  {
    var t := TrimStart(s, ws);
    var u := TrimEnd(t, ws);
    if u != [] {
      assert u[0] == t[0];
    }
  }

  /** Every value `CsvValues` reads is non-empty, comma-free and trimmed. */
  lemma CsvValuesWellFormed(s: string)
    ensures forall x :: x in CsvValues(s) ==> IsCsvValue(x)
  {
    var parts := Split(s, ',');
    var trimmed := TrimAll(parts, IsJsSpace);
    forall x | x in CsvValues(s) ensures IsCsvValue(x) {
      assert x in trimmed && x != "";
      var i :| 0 <= i < |trimmed| && trimmed[i] == x;
      TrimSubstring(parts[i], IsJsSpace, ',');
      TrimIsTrimmed(parts[i], IsJsSpace);
    }
  }

  lemma SplitCommaSpace(xs: seq<string>)
    requires |xs| >= 1
    requires forall i :: 0 <= i < |xs| ==> IsCsvValue(xs[i])
    ensures Split(Join(xs, ", "), ',') == PadTail(xs, " ")
  {
    assert ", " == [','] + " ";
    assert forall i :: 0 <= i < |xs| ==> ',' !in xs[i];
    SplitJoinPadded(xs, ',', " ");
  }

  lemma TrimPaddedAt(x: string, first: bool)
    requires IsCsvValue(x)
    ensures Trim(if first then x else " " + x, IsJsSpace) == x
  {
    if first {
      TrimOfTrimmed(x, IsJsSpace);
    } else {
      TrimPadded(" ", x, IsJsSpace);
    }
  }

  lemma TrimAllPadded(xs: seq<string>)
    requires |xs| >= 1
    requires forall i :: 0 <= i < |xs| ==> IsCsvValue(xs[i])
    ensures TrimAll(PadTail(xs, " "), IsJsSpace) == xs
  {
    var parts := PadTail(xs, " ");
    var trimmed := TrimAll(parts, IsJsSpace);
    forall i | 0 <= i < |xs| ensures trimmed[i] == xs[i] {
      assert parts[i] == if i == 0 then xs[i] else " " + xs[i];
      TrimPaddedAt(xs[i], i == 0);
    }
  }

  lemma CsvValuesEmpty()
    ensures CsvValues("") == []
  {
    assert Split("", ',') == [""];
    assert TrimAll([""], IsJsSpace) == [""] by { assert Trim("", IsJsSpace) == ""; }
    assert NonEmpty([""]) == [];
  }

  /** A well-formed value list survives being shown joined by ", " and read back. */
  lemma CsvRoundTrip(xs: seq<string>)
    requires forall i :: 0 <= i < |xs| ==> IsCsvValue(xs[i])
    ensures CsvValues(Join(xs, ", ")) == xs
  {
    if xs == [] {
      CsvValuesEmpty();
    } else {
      SplitCommaSpace(xs);
      TrimAllPadded(xs);
      NonEmptyOfNonEmpty(xs);
    }
  }

  // ---------------------------------------------------------------- distinct

  predicate Distinct<T(==)>(xs: seq<T>)
  {
    forall i, j :: 0 <= i < j < |xs| ==> xs[i] != xs[j]
  }

  /** The first occurrence of every element, in order (a `LinkedHashSet` or
    * JavaScript `Set` filled from `xs`). */
  function Dedupe<T(==,!new)>(xs: seq<T>): (r: seq<T>)
    ensures Distinct(r)
    ensures forall x :: x in r <==> x in xs
    ensures |r| <= |xs|
  {
    if xs == [] then []
    else
      var d := Dedupe(xs[..|xs| - 1]);
      var last := xs[|xs| - 1];
      assert xs == xs[..|xs| - 1] + [last];
      if last in d then d else d + [last]
  }

  lemma {:induction false} DedupeOfDistinct<T(!new)>(xs: seq<T>)
    requires Distinct(xs)
    ensures Dedupe(xs) == xs
  {
    if xs != [] {
      var init := xs[..|xs| - 1];
      assert Distinct(init);
      DedupeOfDistinct(init);
      assert xs[|xs| - 1] !in init;
      assert init + [xs[|xs| - 1]] == xs;
    }
  }

  // ---------------------------------------------------------------- decimal

  function DigitValue(c: char): nat
    requires IsDigit(c)
  {
    c as int - '0' as int
  }

  function DigitChar(d: nat): (c: char)
    requires d < 10
    ensures IsDigit(c) && DigitValue(c) == d
  {
    ('0' as int + d) as char
  }

  /** The value of a string of decimal digits (empty is 0). */
  function DigitsValue(s: string): nat
    requires All(s, IsDigit)
  {
    if |s| == 0 then 0 else DigitsValue(s[..|s| - 1]) * 10 + DigitValue(s[|s| - 1])
  }

  /** Decimal text of a natural number, without leading zeros. */
  function NatToString(n: nat): (r: string)
    ensures |r| >= 1 && All(r, IsDigit)
    ensures DigitsValue(r) == n
    ensures |r| > 1 ==> r[0] != '0'
  {
    if n < 10 then [DigitChar(n)]
    else
      var init := NatToString(n / 10);
      var r := init + [DigitChar(n % 10)];
      assert r[..|r| - 1] == init;
      r
  }

  function Pow10(k: nat): (p: nat)
    ensures p >= 1
  {
    if k == 0 then 1 else 10 * Pow10(k - 1)
  }

  /** A number below 10^k has at most k digits. */
  lemma {:induction false} NatToStringLength(n: nat, k: nat)
    requires k >= 1 && n < Pow10(k)
    ensures |NatToString(n)| <= k
  {
    if n >= 10 {
      assert Pow10(1) == 10;
      NatToStringLength(n / 10, k - 1);
    }
  }

  function Zeros(k: nat): (r: string)
    ensures |r| == k && All(r, IsDigit)
    ensures forall i :: 0 <= i < k ==> r[i] == '0'
  {
    seq(k, i => '0')
  }

  lemma {:induction false} ZerosValue(k: nat)
    ensures DigitsValue(Zeros(k)) == 0
  {
    if k > 0 {
      assert Zeros(k)[..k - 1] == Zeros(k - 1);
      ZerosValue(k - 1);
    }
  }

  /** Leading zeros do not change the value of a digit string. */
  lemma {:induction false} ZerosPrefixValue(k: nat, s: string)
    requires All(s, IsDigit)
    ensures All(Zeros(k) + s, IsDigit)
    ensures DigitsValue(Zeros(k) + s) == DigitsValue(s)
  {
    var t := Zeros(k) + s;
    if s == [] {
      assert t == Zeros(k);
      ZerosValue(k);
    } else {
      assert t[..|t| - 1] == Zeros(k) + s[..|s| - 1];
      ZerosPrefixValue(k, s[..|s| - 1]);
    }
  }

  /** Java `String.format("%0<width>d", n)` for n >= 0. */
  function ZeroPadded(n: nat, width: nat): (r: string)
    ensures All(r, IsDigit) && DigitsValue(r) == n
    ensures |r| >= width
    ensures width >= 1 && n < Pow10(width) ==> |r| == width
  {
    var d := NatToString(n);
    assert width >= 1 && n < Pow10(width) ==> |d| <= width by {
      if width >= 1 && n < Pow10(width) {
        NatToStringLength(n, width);
      }
    }
    if |d| >= width then
      d
    else
      ZerosPrefixValue(width - |d|, d);
      Zeros(width - |d|) + d
  }

  /** Java `Integer.toString` / JavaScript `String(n)` for an integer. */
  function IntToString(i: int): string
  {
    if i < 0 then "-" + NatToString(-i) else NatToString(i)
  }

  const INT_MIN: int := -0x8000_0000
  const INT_MAX: int := 0x7FFF_FFFF

  predicate IsInt32(i: int) { INT_MIN <= i <= INT_MAX }

  /** Java `Integer.parseInt`: an optional sign then at least one decimal
    * digit, with a value that fits in 32 bits; `None` stands for the
    * NumberFormatException. */
  function ParseJavaInt(s: string): (r: Option<int>)
    ensures r.Some? ==> IsInt32(r.value)
  {
    if |s| == 0 then None
    else
      var signed := s[0] == '-' || s[0] == '+';
      var digits := if signed then s[1..] else s;
      if |digits| == 0 || !All(digits, IsDigit) then None
      else
        var n: int := DigitsValue(digits);
        var v := if s[0] == '-' then -n else n;
        if IsInt32(v) then Some(v) else None
  }

  /** The text Java prints for a 32-bit integer parses back to it. */
  lemma ParsePrintedInt(i: int)
    requires IsInt32(i)
    ensures ParseJavaInt(IntToString(i)) == Some(i)
  {
    var t := IntToString(i);
    if i < 0 {
      var d := NatToString(-i);
      assert t == "-" + d && t[1..] == d;
    } else {
      var d := NatToString(i);
      assert d[0] != '-' && d[0] != '+' by { assert IsDigit(d[0]); }
    }
  }
}
