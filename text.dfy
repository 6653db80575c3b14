/**
 * The string primitives the code relies on: `str.split`, `str(int)`,
 * `int(str)`, `os.path.splitext` and `os.path.join`.
 */
module Text {
  import opened Wrappers

  /** `s.split(sep)`: every occurrence of `sep` cuts, empty fields are kept. */
  function Split(s: string, sep: char): (parts: seq<string>)
    ensures |parts| >= 1
    ensures forall i :: 0 <= i < |parts| ==> sep !in parts[i]
    decreases |s|
  {
    if s == [] then [""]
    else
      var rest := Split(s[1..], sep);
      if s[0] == sep then [""] + rest
      else [[s[0]] + rest[0]] + rest[1..]
  }

  /** `sep.join(parts)`, the inverse of `Split`. */
  function Join(parts: seq<string>, sep: char): string
  {
    if parts == [] then ""
    else if |parts| == 1 then parts[0]
    else parts[0] + [sep] + Join(parts[1..], sep)
  }

  lemma {:induction false} JoinSplit(s: string, sep: char)
    ensures Join(Split(s, sep), sep) == s
    decreases |s|
  {
    if s != [] {
      var rest := Split(s[1..], sep);
      JoinSplit(s[1..], sep);
      if s[0] == sep {
        assert Split(s, sep) == [""] + rest;
        assert s == [sep] + s[1..];
      } else {
        var parts := Split(s, sep);
        assert parts == [[s[0]] + rest[0]] + rest[1..];
        if |rest| == 1 {
          assert s == [s[0]] + rest[0];
        } else {
          assert parts[1..] == rest[1..];
          assert Join(rest, sep) == rest[0] + [sep] + Join(rest[1..], sep);
          assert s == [s[0]] + s[1..];
        }
      }
    }
  }

  /** A field free of `sep` followed by `sep` splits off as one field. */
  lemma {:induction false} SplitCons(w: string, sep: char, t: string)
    requires sep !in w
    ensures Split(w + [sep] + t, sep) == [w] + Split(t, sep)
    decreases |w|
  {
    if w == [] {
      assert w + [sep] + t == [sep] + t;
      assert ([sep] + t)[1..] == t;
    } else {
      assert (w + [sep] + t)[1..] == w[1..] + [sep] + t;
      SplitCons(w[1..], sep, t);
      assert [w[0]] + w[1..] == w;
    }
  }

  lemma {:induction false} SplitField(w: string, sep: char)
    requires sep !in w
    ensures Split(w, sep) == [w]
    decreases |w|
  {
    if w != [] {
      SplitField(w[1..], sep);
      assert [w[0]] + w[1..] == w;
    }
  }

  /** Splitting `a + sep + b` splits `a` and `b` apart at that separator. */
  lemma {:induction false} SplitConcat(a: string, sep: char, b: string)
    ensures Split(a + [sep] + b, sep) == Split(a, sep) + Split(b, sep)
    decreases |a|
  {
    var s := a + [sep] + b;
    if a == [] {
      assert s == [sep] + b;
      assert s[1..] == b;
    } else {
      assert s[0] == a[0];
      assert s[1..] == a[1..] + [sep] + b;
      SplitConcat(a[1..], sep, b);
    }
  }

  /** `Split` undoes `Join` when no field contains the separator. */
  lemma {:induction false} SplitJoin(parts: seq<string>, sep: char)
    requires |parts| >= 1
    requires forall i :: 0 <= i < |parts| ==> sep !in parts[i]
    ensures Split(Join(parts, sep), sep) == parts
    decreases |parts|
  {
    if |parts| == 1 {
      SplitField(parts[0], sep);
    } else {
      SplitJoin(parts[1..], sep);
      SplitCons(parts[0], sep, Join(parts[1..], sep));
      assert [parts[0]] + parts[1..] == parts;
    }
  }

  predicate IsDigit(c: char) {
    '0' <= c <= '9'
  }

  predicate IsDigits(s: string) {
    forall i :: 0 <= i < |s| ==> IsDigit(s[i])
  }

  function DigitChar(d: nat): (c: char)
    requires d < 10
    ensures IsDigit(c) && c as int - '0' as int == d
  {
    "0123456789"[d]
  }

  /** The value of a run of decimal digits. */
  function DigitsValue(s: string): nat
    requires IsDigits(s)
  {
    if s == [] then 0
    else DigitsValue(s[..|s| - 1]) * 10 + (s[|s| - 1] as int - '0' as int)
  }

  /** `str(n)` for a natural number. */
  function NatToString(n: nat): (s: string)
    ensures |s| >= 1 && IsDigits(s)
  {
    if n < 10 then [DigitChar(n)] else NatToString(n / 10) + [DigitChar(n % 10)]
  }

  /** `str(i)` for an integer. */
  function IntToString(i: int): string
  {
    if i < 0 then "-" + NatToString(-i) else NatToString(i)
  }

  /** `str(i)` is a digit string, after a minus sign exactly when `i` is negative. */
  lemma IntToStringDigits(i: int)
    ensures var s := IntToString(i);
      |s| >= 1 && (s[0] == '-' <==> i < 0) && IsDigits(s[1..]) && (i >= 0 ==> IsDigits(s))
  {
    var s := IntToString(i);
    if i < 0 {
      assert s[1..] == NatToString(-i);
    } else {
      assert IsDigit(s[0]);
    }
  }

  /**
   * `int(s)` on an ASCII literal: an optional sign and at least one digit;
   * anything else is `None` (Python raises ValueError).
   */
  function ParseInt(s: string): (r: Option<int>)
    ensures r.Some? <==> (|s| > 0 && IsDigits(s)) || (|s| > 1 && (s[0] == '-' || s[0] == '+') && IsDigits(s[1..]))
    ensures r.Some? && r.value < 0 ==> s[0] == '-'
  {
    if |s| > 0 && (s[0] == '-' || s[0] == '+') then
      if |s| > 1 && IsDigits(s[1..]) then
        var v: int := DigitsValue(s[1..]);
        Some(if s[0] == '-' then -v else v)
      else None
    else if |s| > 0 && IsDigits(s) then Some(DigitsValue(s))
    else None
  }

  lemma {:induction false} DigitsOfNat(n: nat)
    ensures DigitsValue(NatToString(n)) == n
    decreases n
  {
    var s := NatToString(n);
    if n >= 10 {
      DigitsOfNat(n / 10);
      assert s[..|s| - 1] == NatToString(n / 10);
    }
  }

  /** `int(str(i)) == i`. */
  lemma ParseIntToString(i: int)
    ensures ParseInt(IntToString(i)) == Some(i)
  {
    var t := NatToString(if i < 0 then -i else i);
    DigitsOfNat(if i < 0 then -i else i);
    if i < 0 {
      var s := "-" + t;
      assert s[0] == '-' && |s| > 1;
      assert s[1..] == t;
    } else {
      assert IsDigit(t[0]);
    }
  }

  /** A string with a character that is neither a digit nor a leading sign is not an integer. */
  lemma ParseIntRejects(s: string, j: int)
    requires 0 <= j < |s| && !IsDigit(s[j])
    requires j > 0 || (s[0] != '-' && s[0] != '+')
    ensures ParseInt(s) == None
  {
    if |s| > 0 && (s[0] == '-' || s[0] == '+') {
      assert s[1..][j - 1] == s[j];
    }
  }

  /** The position of the last `c` in `s`, or -1. */
  function LastIndexOf(s: string, c: char): (d: int)
    ensures -1 <= d < |s|
    ensures d >= 0 ==> s[d] == c
    ensures forall j :: d < j < |s| ==> s[j] != c
  {
    if s == [] then -1
    else if s[|s| - 1] == c then |s| - 1
    else LastIndexOf(s[..|s| - 1], c)
  }

  /**
   * `os.path.splitext(name)` for a name without a directory separator:
   * the extension runs from the last dot, unless every character before
   * that dot is a dot too (as in ".profile"), in which case it is empty.
   */
  function SplitExt(name: string): (r: (string, string))
    ensures r.0 + r.1 == name
    ensures r.1 != "" ==> r.1[0] == '.' && '.' !in r.1[1..]
    ensures r.1 != "" ==> exists j :: 0 <= j < |r.0| && r.0[j] != '.'
    ensures r.1 == "" <==> forall i, j :: 0 <= j < i < |name| && name[i] == '.' ==> name[j] == '.'
  {
    var d := LastIndexOf(name, '.');
    if d >= 0 && exists j :: 0 <= j < d && name[j] != '.' then
      assert name[..d] + name[d..] == name;
      assert forall j :: 0 <= j < |name[d..]| - 1 ==> name[d..][1..][j] == name[d + 1 + j];
      (name[..d], name[d..])
    else
      (name, "")
  }

  /** `os.path.join(dir, name)` for POSIX paths. */
  function JoinPath(dir: string, name: string): (p: string)
    ensures |name| > 0 && name[0] == '/' ==> p == name
    ensures dir != "" && dir[|dir| - 1] != '/' && (name == "" || name[0] != '/') ==> p == dir + "/" + name
    ensures (dir == "" || dir[|dir| - 1] == '/') && (name == "" || name[0] != '/') ==> p == dir + name
  {
    if |name| > 0 && name[0] == '/' then name
    else if dir == "" || dir[|dir| - 1] == '/' then dir + name
    else dir + "/" + name
  }
}
