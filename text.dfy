// The JavaScript string built-ins the core relies on: `split(',')`,
// `join(',')`, `trim()`, `parseInt` and number-to-string, on `seq<char>`.

module Text {
  import opened Types

  /** `s.split(',')`: the pieces between commas, always at least one. */
  function Split(s: string): (r: seq<string>)
    ensures |r| >= 1
    ensures forall i :: 0 <= i < |r| ==> ',' !in r[i]
  {
    if s == [] then [""]
    else
      var rest := Split(s[1..]);
      if s[0] == ',' then [""] + rest
      else [[s[0]] + rest[0]] + rest[1..]
  }

  /** `parts.join(',')`. */
  function Join(parts: seq<string>): string
  {
    if |parts| == 0 then ""
    else if |parts| == 1 then parts[0]
    else parts[0] + "," + Join(parts[1..])
  }

  /** Over comma-free parts, the joined text holds a comma exactly when there
      are two parts or more. */
  lemma {:induction false} JoinHasComma(parts: seq<string>)
    requires forall i :: 0 <= i < |parts| ==> ',' !in parts[i]
    ensures ',' in Join(parts) <==> |parts| >= 2
    decreases |parts|
  {
    if |parts| >= 2 {
      var r := Join(parts);
      assert r == parts[0] + "," + Join(parts[1..]);
      assert r[|parts[0]|] == ',';
    } else if |parts| == 1 {
      assert Join(parts) == parts[0];
    }
  }

  /** Joining a last part that holds a comma gives the same text as
      joining its two halves as separate parts. */
  lemma {:induction false} JoinLastSplits(parts: seq<string>, h: string, t: string)
    ensures Join(parts + [h + "," + t]) == Join(parts + [h, t])
    decreases |parts|
  {
    if parts == [] {
      assert [] + [h + "," + t] == [h + "," + t];
      assert [] + [h, t] == [h, t];
      assert [h, t][1..] == [t];
    } else {
      var a := parts + [h + "," + t];
      var b := parts + [h, t];
      assert a[0] == parts[0] && b[0] == parts[0];
      assert a[1..] == parts[1..] + [h + "," + t];
      assert b[1..] == parts[1..] + [h, t];
      JoinLastSplits(parts[1..], h, t);
    }
  }

  /** A piece with no comma absorbs the first piece of what follows it. */
  lemma {:induction false} SplitPrefix(a: string, t: string)
    requires ',' !in a
    ensures Split(a + t) == [a + Split(t)[0]] + Split(t)[1..]
  {
    if a != [] {
      assert (a + t)[1..] == a[1..] + t;
      SplitPrefix(a[1..], t);
      assert [a[0]] + (a[1..] + Split(t)[0]) == a + Split(t)[0];
    } else {
      assert a + t == t;
      assert a + Split(t)[0] == Split(t)[0];
      assert Split(t) == [Split(t)[0]] + Split(t)[1..];
    }
  }

  /** Text with no comma is a single piece. */
  lemma SplitNoComma(a: string)
    requires ',' !in a
    ensures Split(a) == [a]
  {
    SplitPrefix(a, "");
    assert a + "" == a;
  }

  /** A comma after a comma-free piece ends that piece. */
  lemma SplitAtComma(a: string, t: string)
    requires ',' !in a
    ensures Split(a + "," + t) == [a] + Split(t)
  {
    SplitPrefix(a, "," + t);
    assert ("," + t)[1..] == t;
    assert Split("," + t) == [""] + Split(t);
    assert a + "" == a;
    assert a + "," + t == a + ("," + t);
  }

  /** Joining the pieces of a split gives the string back, for every string. */
  lemma {:induction false} JoinSplit(s: string)
    ensures Join(Split(s)) == s
  {
    if s != [] {
      JoinSplit(s[1..]);
      var rest := Split(s[1..]);
      if s[0] == ',' {
        assert Split(s) == [""] + rest;
        assert Join(Split(s)) == "" + "," + Join(rest);
        assert s == [','] + s[1..];
      } else {
        var r := Split(s);
        assert r == [[s[0]] + rest[0]] + rest[1..];
        if |rest| == 1 {
          assert Join(r) == [s[0]] + rest[0];
          assert s == [s[0]] + s[1..];
        } else {
          assert Join(rest) == rest[0] + "," + Join(rest[1..]);
          assert r[1..] == rest[1..];
          assert Join(r) == ([s[0]] + rest[0]) + "," + Join(rest[1..]);
          assert s == [s[0]] + s[1..];
        }
      }
    }
  }

  /** Splitting a join recovers the list exactly when no piece holds a comma
      (a non-empty list is needed: the empty list joins to "", which splits
      to [""]). */
  lemma {:induction false} SplitJoin(parts: seq<string>)
    requires |parts| >= 1
    requires forall i :: 0 <= i < |parts| ==> ',' !in parts[i]
    ensures Split(Join(parts)) == parts
  {
    if |parts| == 1 {
      SplitPrefix(parts[0], "");
      assert parts[0] + "" == parts[0];
      assert Split("") == [""];
    } else {
      SplitJoin(parts[1..]);
      var t := "," + Join(parts[1..]);
      SplitPrefix(parts[0], t);
      assert t[1..] == Join(parts[1..]);
      assert Split(t) == [""] + parts[1..];
      assert parts[0] + t == Join(parts);
      assert parts[0] + "" == parts[0];
      assert parts == [parts[0]] + parts[1..];
    }
  }

  /** The characters `String.prototype.trim` removes: white space and line
      terminators of ECMAScript. */
  predicate IsWhite(c: char)
  {
    c == '\t' || c == '\n' || c == '\U{000B}' || c == '\U{000C}' || c == '\r'
    || c == ' ' || c == '\U{00A0}' || c == '\U{1680}'
    || ('\U{2000}' <= c <= '\U{200A}')
    || c == '\U{2028}' || c == '\U{2029}' || c == '\U{202F}' || c == '\U{205F}'
    || c == '\U{3000}' || c == '\U{FEFF}'
  }

  /** `s.trim().length == 0`. */
  predicate IsBlank(s: string)
  {
    forall i :: 0 <= i < |s| ==> IsWhite(s[i])
  }

  /** `parts.filter(p => p.trim())`: the entries that are not blank, in order. */
  function NonBlank(parts: seq<string>): (r: seq<string>)
    ensures |r| <= |parts|
    ensures forall i :: 0 <= i < |r| ==> !IsBlank(r[i])
    ensures forall p :: p in r <==> p in parts && !IsBlank(p)
  {
    if parts == [] then []
    else (if IsBlank(parts[0]) then [] else [parts[0]]) + NonBlank(parts[1..])
  }

  /** `parts.filter(Boolean)`: the entries that are not the empty string. */
  function NonEmpty(parts: seq<string>): (r: seq<string>)
    ensures |r| <= |parts|
    ensures forall p :: p in r <==> p in parts && p != ""
  {
    if parts == [] then []
    else (if parts[0] == "" then [] else [parts[0]]) + NonEmpty(parts[1..])
  }

  /** The blank filter works entry by entry: on a concatenation it filters
      each part, so the kept entries stay in order with their repeats. */
  lemma {:induction false} NonBlankAppend(a: seq<string>, b: seq<string>)
    ensures NonBlank(a + b) == NonBlank(a) + NonBlank(b)
  {
    if a != [] {
      assert (a + b)[0] == a[0];
      assert (a + b)[1..] == a[1..] + b;
      NonBlankAppend(a[1..], b);
    } else {
      assert a + b == b;
    }
  }

  /** One entry is kept exactly when it is not blank. */
  lemma NonBlankOne(p: string)
    ensures NonBlank([p]) == (if IsBlank(p) then [] else [p])
  {
    assert [p][1..] == [];
  }

  /** The empty-string filter works entry by entry as well. */
  lemma {:induction false} NonEmptyAppend(a: seq<string>, b: seq<string>)
    ensures NonEmpty(a + b) == NonEmpty(a) + NonEmpty(b)
  {
    if a != [] {
      assert (a + b)[0] == a[0];
      assert (a + b)[1..] == a[1..] + b;
      NonEmptyAppend(a[1..], b);
    } else {
      assert a + b == b;
    }
  }

  /** One entry is kept exactly when it is not the empty string. */
  lemma NonEmptyOne(p: string)
    ensures NonEmpty([p]) == (if p == "" then [] else [p])
  {
    assert [p][1..] == [];
  }

  /** The positions of the entries that are not the empty string. */
  function NonEmptyPositions(parts: seq<string>): set<nat>
  {
    set i: nat | i < |parts| && parts[i] != ""
  }

  /** The filter keeps one entry per position holding a non-empty string. */
  lemma {:induction false} NonEmptyCount(parts: seq<string>)
    ensures |NonEmpty(parts)| == |NonEmptyPositions(parts)|
    decreases |parts|
  {
    if parts != [] {
      var n := |parts| - 1;
      var init := parts[..n];
      assert parts == init + [parts[n]];
      NonEmptyAppend(init, [parts[n]]);
      NonEmptyOne(parts[n]);
      NonEmptyCount(init);
      if parts[n] == "" {
        assert NonEmptyPositions(parts) == NonEmptyPositions(init);
      } else {
        assert NonEmptyPositions(parts) == NonEmptyPositions(init) + {n};
        assert n !in NonEmptyPositions(init);
      }
    } else {
      assert NonEmptyPositions(parts) == {};
    }
  }

  // ---- numbers as decimal text ----

  predicate IsDigit(c: char)
  {
    '0' <= c <= '9'
  }

  function DigitChar(d: nat): (c: char)
    requires d < 10
    ensures IsDigit(c) && c as int - '0' as int == d
  {
    (d + '0' as int) as char
  }

  /** The decimal digits of `n`, most significant first. */
  function NatToString(n: nat): (s: string)
    ensures |s| >= 1
    ensures forall i :: 0 <= i < |s| ==> IsDigit(s[i])
  {
    if n < 10 then [DigitChar(n)] else NatToString(n / 10) + [DigitChar(n % 10)]
  }

  /** `String(n)` for an integer `n`: a minus sign exactly for a negative
      number, then at least one decimal digit. */
  function IntToString(n: int): (r: string)
    ensures |r| >= 1 && (r[0] == '-' <==> n < 0)
    ensures forall i :: (if n < 0 then 1 else 0) <= i < |r| ==> IsDigit(r[i])
    ensures n < 0 ==> |r| >= 2
  {
    if n < 0 then "-" + NatToString(-n) else NatToString(n)
  }

  /** The value of one decimal digit. */
  function DigitValue(c: char): (d: nat)
    requires IsDigit(c)
    ensures d < 10
  {
    c as int - '0' as int
  }

  /** The value of a run of decimal digits. */
  function DigitsValue(s: string): nat
    requires forall i :: 0 <= i < |s| ==> IsDigit(s[i])
  {
    if s == [] then 0
    else DigitsValue(s[..|s| - 1]) * 10 + DigitValue(s[|s| - 1])
  }

  /** The length of the run of digits at the head of `s`. */
  function DigitRun(s: string): (k: nat)
    ensures k <= |s|
    ensures forall i :: 0 <= i < k ==> IsDigit(s[i])
    ensures k < |s| ==> !IsDigit(s[k])
  {
    if s == [] || !IsDigit(s[0]) then 0 else 1 + DigitRun(s[1..])
  }

  /** `s` with its leading white space removed. */
  function TrimStart(s: string): (r: string)
    ensures |r| <= |s| && r == s[|s| - |r|..]
    ensures r != [] ==> !IsWhite(r[0])
  {
    if s != [] && IsWhite(s[0]) then TrimStart(s[1..]) else s
  }

  /** The digits at the head of `s`, or None (NaN) when there are none. */
  function ParseDigits(s: string): Option<nat>
  {
    var k := DigitRun(s);
    if k == 0 then None else Some(DigitsValue(s[..k]))
  }

  /** `parseInt(s)` in base ten: leading white space, an optional sign, then
      the longest run of digits; None stands for NaN. */
  function ParseInt(s: string): Option<int>
  {
    var t := TrimStart(s);
    if t != [] && (t[0] == '-' || t[0] == '+') then
      match ParseDigits(t[1..])
      case None => None
      case Some(v) => Some(if t[0] == '-' then -(v as int) else v as int)
    else
      match ParseDigits(t)
      case None => None
      case Some(v) => Some(v as int)
  }

  /** Blank text is NaN; text whose first non-blank character is a digit
      reads as a non-negative number; one that is neither a digit nor a sign
      is NaN. */
  lemma ParseIntLeading(s: string)
    ensures TrimStart(s) == [] ==> ParseInt(s).None?
    ensures TrimStart(s) != [] && IsDigit(TrimStart(s)[0]) ==>
              ParseInt(s).Some? && ParseInt(s).value >= 0
    ensures (TrimStart(s) != [] && !IsDigit(TrimStart(s)[0])
             && TrimStart(s)[0] != '-' && TrimStart(s)[0] != '+') ==> ParseInt(s).None?
  {
  }

  lemma {:induction false} DigitsValueOfNat(n: nat)
    ensures DigitsValue(NatToString(n)) == n
  {
    var s := NatToString(n);
    if n >= 10 {
      DigitsValueOfNat(n / 10);
      assert s[..|s| - 1] == NatToString(n / 10);
    }
  }

  lemma {:induction false} DigitRunAll(s: string)
    requires forall i :: 0 <= i < |s| ==> IsDigit(s[i])
    ensures DigitRun(s) == |s|
  {
    if s != [] {
      DigitRunAll(s[1..]);
    }
  }

  /** The decimal text of a natural number parses as that number. */
  lemma {:induction false} ParseDigitsOfNat(n: nat)
    ensures ParseDigits(NatToString(n)) == Some(n)
  {
    var digits := NatToString(n);
    DigitRunAll(digits);
    DigitsValueOfNat(n);
    assert digits[..|digits|] == digits;
  }

  /** Reading back the decimal text of an integer gives the integer: a range
      slider's value string parses to the number it shows. */
  lemma {:induction false} ParseIntToString(n: int)
    ensures ParseInt(IntToString(n)) == Some(n)
  {
    var m: nat := if n < 0 then -n else n;
    var digits := NatToString(m);
    ParseDigitsOfNat(m);
    if n < 0 {
      var t := IntToString(n);
      assert t == "-" + digits;
      assert !IsWhite(t[0]);
      assert TrimStart(t) == t;
      assert t[1..] == digits;
    } else {
      assert !IsWhite(digits[0]);
      assert TrimStart(digits) == digits;
    }
  }
}
