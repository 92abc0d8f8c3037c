/**
 * String helpers the query builders rely on: joining and splitting on a
 * separator (Python's `sep.join` and `str.split`) and decimal rendering of
 * integers (Python's `str(n)`), each with the inverse that proves it loses
 * nothing.
 */
module Text {
  import opened Wrappers

  /**
   * `sep.join(parts)`: the parts in order with one separator between each two,
   * so the text is as long as the parts plus one separator fewer than parts.
   */
  function Join(sep: string, parts: seq<string>): (r: string)
    ensures parts == [] ==> r == ""
    ensures parts != [] ==> |r| == |Concat(parts)| + (|parts| - 1) * |sep|
    decreases |parts|
  {
    if parts == [] then ""
    else if |parts| == 1 then parts[0]
    else parts[0] + sep + Join(sep, parts[1..])
  }

  /** `s.split(c)`: the pieces between the occurrences of `c`, in order. */
  function Split(c: char, s: string): (pieces: seq<string>)
    ensures |pieces| > 0
    ensures forall i :: 0 <= i < |pieces| ==> c !in pieces[i]
    ensures |pieces| - 1 == |s| - |Concat(pieces)|
  {
    if s == [] then [""]
    else
      var rest := Split(c, s[1..]);
      if s[0] == c then [""] + rest
      else [[s[0]] + rest[0]] + rest[1..]
  }

  /** The pieces glued back together with nothing between them. */
  function Concat(pieces: seq<string>): string {
    if pieces == [] then "" else pieces[0] + Concat(pieces[1..])
  }

  /** Splitting at a piece without `c` leaves that piece at the head of the first piece. */
  lemma {:induction false} SplitPrefix(c: char, x: string, y: string)
    requires c !in x
    ensures Split(c, x + y) == [x + Split(c, y)[0]] + Split(c, y)[1..]
    decreases |x|
  {
    if x != [] {
      assert (x + y)[0] == x[0];
      assert (x + y)[1..] == x[1..] + y;
      SplitPrefix(c, x[1..], y);
      assert [x[0]] + (x[1..] + Split(c, y)[0]) == x + Split(c, y)[0];
    } else {
      var pieces := Split(c, y);
      assert x + y == y;
      assert x + pieces[0] == pieces[0];
      assert [pieces[0]] + pieces[1..] == pieces;
    }
  }

  /** Joining with `c` and splitting at `c` gives the parts back, when no part holds `c`. */
  lemma {:induction false} SplitJoin(c: char, parts: seq<string>)
    requires |parts| > 0
    requires forall i :: 0 <= i < |parts| ==> c !in parts[i]
    ensures Split(c, Join([c], parts)) == parts
    decreases |parts|
  {
    if |parts| == 1 {
      SplitPrefix(c, parts[0], "");
      assert parts[0] + "" == parts[0];
      assert Split(c, "") == [""];
    } else {
      var tail := Join([c], parts[1..]);
      SplitJoin(c, parts[1..]);
      assert Join([c], parts) == parts[0] + ([c] + tail);
      SplitPrefix(c, parts[0], [c] + tail);
      assert ([c] + tail)[0] == c;
      assert ([c] + tail)[1..] == tail;
      assert Split(c, [c] + tail) == [""] + parts[1..];
      assert parts[0] + "" == parts[0];
      assert [parts[0]] + parts[1..] == parts;
    }
  }

  /** `s` does not start or end with `c` and never has `c` twice in a row. */
  predicate NoEmptyPiece(c: char, s: string) {
    && s != []
    && s[0] != c
    && s[|s| - 1] != c
    && forall i :: 0 <= i < |s| - 1 && s[i] == c ==> s[i + 1] != c
  }

  /** Joining non-empty parts that do not hold the separator yields no empty piece. */
  lemma {:induction false} JoinNoEmptyPiece(c: char, parts: seq<string>)
    requires |parts| > 0
    requires forall i :: 0 <= i < |parts| ==> parts[i] != [] && c !in parts[i]
    ensures NoEmptyPiece(c, Join([c], parts))
    decreases |parts|
  {
    if |parts| > 1 {
      var p := parts[0];
      var t := Join([c], parts[1..]);
      JoinNoEmptyPiece(c, parts[1..]);
      var s := Join([c], parts);
      assert s == p + [c] + t;
      forall i | 0 <= i < |s| - 1 && s[i] == c
        ensures s[i + 1] != c
      {
        if i == |p| {
          assert s[i + 1] == t[0];
        } else if i > |p| {
          assert s[i] == t[i - |p| - 1];
          assert s[i + 1] == t[i - |p|];
        }
      }
    }
  }

  predicate IsDigit(ch: char) {
    '0' <= ch <= '9'
  }

  function DigitChar(d: nat): (ch: char)
    requires d < 10
    ensures IsDigit(ch) && ch as int - '0' as int == d
  {
    ('0' as int + d) as char
  }

  /** Decimal text of `n`, most significant digit first, without leading zeros. */
  function NatToString(n: nat): (s: string)
    ensures |s| > 0
    ensures forall i :: 0 <= i < |s| ==> IsDigit(s[i])
    ensures |s| > 1 ==> s[0] != '0'
  {
    if n < 10 then [DigitChar(n)] else NatToString(n / 10) + [DigitChar(n % 10)]
  }

  /** `str(i)` for a Python int: an optional minus sign, then the decimal digits. */
  function IntToString(i: int): (s: string)
    ensures s != [] && s[|s| - 1] != '?'
    ensures '&' !in s && '=' !in s && '?' !in s && ',' !in s
  {
    if i < 0 then "-" + NatToString(-i) else NatToString(i)
  }

  /** The number written by a string of decimal digits. */
  function DigitsValue(s: string): nat
    requires forall i :: 0 <= i < |s| ==> IsDigit(s[i])
  {
    if s == [] then 0
    else
      assert IsDigit(s[|s| - 1]);
      10 * DigitsValue(s[..|s| - 1]) + (s[|s| - 1] as int - '0' as int)
  }

  predicate AllDigits(s: string) {
    s != [] && forall i :: 0 <= i < |s| ==> IsDigit(s[i])
  }

  /** `int(s)` restricted to what `str` produces: an optional `-` and at least one digit. */
  function ParseInt(s: string): Option<int> {
    if s != [] && s[0] == '-' then
      if AllDigits(s[1..]) then Some(-(DigitsValue(s[1..]) as int)) else None
    else if AllDigits(s) then Some(DigitsValue(s))
    else None
  }

  lemma {:induction false} DigitsValueOfNatToString(n: nat)
    ensures DigitsValue(NatToString(n)) == n
  {
    if n >= 10 {
      var s := NatToString(n);
      var prefix := NatToString(n / 10);
      assert s[..|s| - 1] == prefix;
      DigitsValueOfNatToString(n / 10);
    }
  }

  /** Reading back the decimal text of an integer gives the integer. */
  lemma IntToStringRoundTrip(i: int)
    ensures ParseInt(IntToString(i)) == Some(i)
  {
    if i < 0 {
      var s := IntToString(i);
      assert s[1..] == NatToString(-i);
      DigitsValueOfNatToString(-i);
    } else {
      DigitsValueOfNatToString(i);
    }
  }
}
