/**
 * The string operations the outline tool relies on: JavaScript's
 * `split('\n')` and `join('\n')`, `String(n)` for a natural number, and
 * `repeat`. Each is defined once here, with the facts that connect them.
 */
module TextLines {

  const NEWLINE: char := '\n'

  /** True iff the string holds no line break. */
  predicate NoNewline(s: string) {
    forall i :: 0 <= i < |s| ==> s[i] != NEWLINE
  }

  /** The number of line breaks in s. */
  function CountNewlines(s: string): nat {
    if |s| == 0 then 0 else (if s[0] == NEWLINE then 1 else 0) + CountNewlines(s[1..])
  }

  /**
   * `s.split('\n')`: the pieces between line breaks, always at least one
   * (the empty string splits into one empty piece).
   */
  function Split(s: string): (lines: seq<string>)
    ensures |lines| >= 1
  {
    if |s| == 0 then [""]
    else
      var rest := Split(s[1..]);
      if s[0] == NEWLINE then [""] + rest
      else [[s[0]] + rest[0]] + rest[1..]
  }

  /** `parts.join('\n')`. */
  function Join(parts: seq<string>): string {
    if |parts| == 0 then ""
    else if |parts| == 1 then parts[0]
    else parts[0] + [NEWLINE] + Join(parts[1..])
  }

  /** Splitting yields one more piece than there are line breaks, none holding a break. */
  lemma {:induction false} SplitShape(s: string)
    ensures |Split(s)| == CountNewlines(s) + 1
    ensures forall k :: 0 <= k < |Split(s)| ==> NoNewline(Split(s)[k])
  {
    if |s| > 0 {
      SplitShape(s[1..]);
      var rest := Split(s[1..]);
      if s[0] != NEWLINE {
        var first := [s[0]] + rest[0];
        assert forall i :: 1 <= i < |first| ==> first[i] == rest[0][i - 1];
        assert NoNewline(first);
        var lines := [first] + rest[1..];
        assert forall k :: 1 <= k < |lines| ==> lines[k] == rest[k];
      } else {
        var lines := [""] + rest;
        assert forall k :: 1 <= k < |lines| ==> lines[k] == rest[k - 1];
      }
    }
  }

  /** Joining the pieces of a split gives the string back. */
  lemma {:induction false} JoinSplit(s: string)
    ensures Join(Split(s)) == s
  {
    if |s| > 0 {
      JoinSplit(s[1..]);
      var rest := Split(s[1..]);
      if s[0] == NEWLINE {
        assert Split(s) == [""] + rest;
        assert ([""] + rest)[1..] == rest;
      } else {
        JoinHead(rest, s[0]);
      }
    }
  }

  /** Prepending a character to the first piece prepends it to the joined string. */
  lemma {:induction false} JoinHead(parts: seq<string>, c: char)
    requires |parts| >= 1
    ensures Join([[c] + parts[0]] + parts[1..]) == [c] + Join(parts)
  {
    var q := [[c] + parts[0]] + parts[1..];
    if |parts| > 1 {
      assert q[1..] == parts[1..];
      var tail := [NEWLINE] + Join(parts[1..]);
      assert Join(q) == ([c] + parts[0]) + tail;
      assert Join(parts) == parts[0] + tail;
    }
  }

  /** Splitting a join of break-free pieces gives the pieces back. */
  lemma {:induction false} SplitJoin(parts: seq<string>)
    requires |parts| >= 1
    requires forall k :: 0 <= k < |parts| ==> NoNewline(parts[k])
    ensures Split(Join(parts)) == parts
    decreases |parts|, |parts[0]|
  {
    var p := parts[0];
    if |p| == 0 {
      if |parts| == 1 {
        assert Join(parts) == "";
      } else {
        SplitJoin(parts[1..]);
        assert Join(parts) == [NEWLINE] + Join(parts[1..]);
        assert Join(parts)[1..] == Join(parts[1..]);
      }
    } else {
      var shorter := [p[1..]] + parts[1..];
      assert forall k :: 1 <= k < |shorter| ==> shorter[k] == parts[k];
      assert NoNewline(p[1..]) by {
        assert forall i :: 0 <= i < |p[1..]| ==> p[1..][i] == p[i + 1];
      }
      SplitJoin(shorter);
      JoinHead(shorter, p[0]);
      assert [p[0]] + p[1..] == p;
      assert [[p[0]] + shorter[0]] + shorter[1..] == parts;
      assert Join(parts)[1..] == Join(shorter);
      assert shorter[1..] == parts[1..];
    }
  }

  /** Joining two non-empty lists puts one break between them. */
  lemma {:induction false} JoinAppend(a: seq<string>, b: seq<string>)
    requires |a| >= 1 && |b| >= 1
    ensures Join(a + b) == Join(a) + [NEWLINE] + Join(b)
    decreases |a|
  {
    if |a| == 1 {
      assert (a + b)[1..] == b;
    } else {
      JoinAppend(a[1..], b);
      assert (a + b)[1..] == a[1..] + b;
    }
  }

  /** A break-free first line followed by a break splits off as the first piece. */
  lemma {:induction false} SplitAfterLine(a: string, b: string)
    requires NoNewline(a)
    ensures Split(a + [NEWLINE] + b) == [a] + Split(b)
  {
    if |a| == 0 {
      assert a + [NEWLINE] + b == [NEWLINE] + b;
      assert ([NEWLINE] + b)[1..] == b;
    } else {
      var t := a[1..];
      assert NoNewline(t) by {
        assert forall i :: 0 <= i < |t| ==> t[i] == a[i + 1];
      }
      SplitAfterLine(t, b);
      var s := a + [NEWLINE] + b;
      assert s[0] == a[0] && s[1..] == t + [NEWLINE] + b;
      assert [a[0]] + t == a;
      var rest := Split(s[1..]);
      assert rest == [t] + Split(b);
      assert ([t] + Split(b))[1..] == Split(b);
    }
  }

  /** `s.repeat(n)` for a one-character s. */
  function Repeat(c: char, n: nat): (r: string)
    ensures |r| == n && forall i :: 0 <= i < n ==> r[i] == c
  {
    seq(n, _ => c)
  }

  function DigitChar(d: nat): char
    requires d < 10
  {
    "0123456789"[d]
  }

  function DigitValue(c: char): int {
    if '0' <= c <= '9' then c as int - '0' as int else -1
  }

  lemma DigitValueOfChar(d: nat)
    requires d < 10
    ensures DigitValue(DigitChar(d)) == d
  {
  }

  /** `String(n)` for a natural number: its decimal digits, most significant first. */
  function DecimalString(n: nat): (s: string)
    ensures |s| >= 1
    ensures forall i :: 0 <= i < |s| ==> '0' <= s[i] <= '9'
    ensures NoNewline(s)
  {
    if n < 10 then [DigitChar(n)] else DecimalString(n / 10) + [DigitChar(n % 10)]
  }

  /** The value of a string of decimal digits. */
  function ParseDecimal(s: string): int {
    if |s| == 0 then 0 else ParseDecimal(s[..|s| - 1]) * 10 + DigitValue(s[|s| - 1])
  }

  /** Reading the digits back gives the number. */
  lemma {:induction false} DecimalRoundTrip(n: nat)
    ensures ParseDecimal(DecimalString(n)) == n
  {
    if n < 10 {
      DigitValueOfChar(n);
      var s := DecimalString(n);
      assert s[..0] == "";
    } else {
      DecimalRoundTrip(n / 10);
      DigitValueOfChar(n % 10);
      var s := DecimalString(n);
      assert s[..|s| - 1] == DecimalString(n / 10);
      assert ParseDecimal(s) == (n / 10) * 10 + n % 10;
    }
  }
}
