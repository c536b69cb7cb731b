module Wrappers {

  /** A value that may be absent, as when a line does not parse. */
  datatype Option<+T> = None | Some(value: T)
}

/** The small pieces of Python string handling the task tracker relies on:
    `str(n)` for an integer ID, and `" ".join(words)` for the description
    typed on the command line. Each comes with an independent inverse
    (`int(s)`, `s.split(" ")`) and round-trip lemmas tying the two together. */
module Text {
  import opened Wrappers

  predicate IsDigit(c: char) {
    '0' <= c <= '9'
  }

  /** A non-empty run of decimal digits. */
  predicate IsDecimal(s: string) {
    |s| > 0 && forall i :: 0 <= i < |s| ==> IsDigit(s[i])
  }

  function DigitValue(c: char): nat
    requires IsDigit(c)
  {
    c as int - '0' as int
  }

  function DigitChar(d: nat): (c: char)
    requires d < 10
    ensures IsDigit(c) && DigitValue(c) == d
  {
    (d + '0' as int) as char
  }

  /** Decimal digits of `n`, most significant first, without leading zeros. */
  function NatToDigits(n: nat): (s: string)
    ensures IsDecimal(s)
    ensures s[0] == '0' ==> s == "0"
    ensures s == "0" <==> n == 0
    decreases n
  {
    if n < 10 then [DigitChar(n)] else NatToDigits(n / 10) + [DigitChar(n % 10)]
  }

  /** The value of a string of decimal digits (the empty string reads as 0). */
  function DigitsToNat(s: string): nat
    requires forall i :: 0 <= i < |s| ==> IsDigit(s[i])
    decreases |s|
  {
    if |s| == 0 then 0 else DigitsToNat(s[..|s| - 1]) * 10 + DigitValue(s[|s| - 1])
  }

  lemma {:induction false} DigitsRoundTrip(n: nat)
    ensures DigitsToNat(NatToDigits(n)) == n
    decreases n
  {
    if n >= 10 {
      var s := NatToDigits(n);
      DigitsRoundTrip(n / 10);
      assert s[..|s| - 1] == NatToDigits(n / 10);
    }
  }

  /** Python's `str(i)` for an `int`: an optional minus sign, then digits. */
  function IntToString(i: int): (s: string)
    ensures |s| > 0
    ensures s[0] == '-' <==> i < 0
    ensures i >= 0 ==> IsDecimal(s)
    ensures i < 0 ==> IsDecimal(s[1..])
    ensures i >= 0 && s[0] == '0' ==> s == "0"
    ensures i < 0 ==> s[1] != '0'
    ensures forall k :: 0 <= k < |s| ==> s[k] != ']' && s[k] != ' '
  {
    if i < 0 then "-" + NatToDigits(-i) else NatToDigits(i)
  }

  /** Python's `int(s)` restricted to plain decimal text: an optional minus
      sign followed by at least one digit; anything else is rejected. */
  function ParseInt(s: string): (r: Option<int>)
    ensures r.Some? <==> IsDecimal(s) || (|s| > 0 && s[0] == '-' && IsDecimal(s[1..]))
  {
    if |s| > 0 && s[0] == '-' then
      if IsDecimal(s[1..]) then Some(-(DigitsToNat(s[1..]) as int)) else None
    else if IsDecimal(s) then Some(DigitsToNat(s))
    else None
  }

  /** Reading back a printed integer gives the integer. */
  lemma IntToStringRoundTrip(i: int)
    ensures ParseInt(IntToString(i)) == Some(i)
  {
    if i < 0 {
      DigitsRoundTrip(-i);
      assert IntToString(i)[1..] == NatToDigits(-i);
    } else {
      DigitsRoundTrip(i);
    }
  }

  /** Position of the first occurrence of `c` in `s`. */
  function IndexOf(s: string, c: char): (k: nat)
    requires c in s
    ensures k < |s| && s[k] == c
    ensures forall j :: 0 <= j < k ==> s[j] != c
    decreases |s|
  {
    if s[0] == c then 0 else 1 + IndexOf(s[1..], c)
  }

  /** Total number of characters in the words. */
  function TotalLength(ws: seq<string>): nat
    decreases |ws|
  {
    if |ws| == 0 then 0 else |ws[0]| + TotalLength(ws[1..])
  }

  /** Python's `" ".join(ws)`: the words with a single space between
      neighbours, and the empty string for no words. */
  function JoinWords(ws: seq<string>): (s: string)
    ensures |ws| == 0 ==> s == ""
    ensures |ws| > 0 ==> |s| == TotalLength(ws) + |ws| - 1
    ensures |ws| > 0 ==> s[..|ws[0]|] == ws[0]
    ensures |ws| > 0 ==> |ws[|ws| - 1]| <= |s| && s[|s| - |ws[|ws| - 1]|..] == ws[|ws| - 1]
    decreases |ws|
  {
    if |ws| == 0 then ""
    else if |ws| == 1 then ws[0]
    else
      var rest := JoinWords(ws[1..]);
      var s := ws[0] + " " + rest;
      assert ws[1..][|ws| - 2] == ws[|ws| - 1];
      assert s[|s| - |ws[|ws| - 1]|..] == rest[|rest| - |ws[|ws| - 1]|..];
      s
  }

  /** Python's `s.split(" ")`: the pieces between single spaces, keeping
      empty pieces, so there is always at least one piece. */
  function SplitOnSpace(s: string): (ws: seq<string>)
    ensures |ws| > 0
    ensures forall i :: 0 <= i < |ws| ==> ' ' !in ws[i]
    decreases |s|
  {
    if ' ' in s then
      var k := IndexOf(s, ' ');
      [s[..k]] + SplitOnSpace(s[k + 1..])
    else [s]
  }

  /** Splitting text that starts with a space-free word and a space peels
      that word off. */
  lemma SplitAfterWord(w: string, rest: string)
    requires ' ' !in w
    ensures SplitOnSpace(w + " " + rest) == [w] + SplitOnSpace(rest)
  {
    var s := w + " " + rest;
    assert s[|w|] == ' ';
    assert forall j :: 0 <= j < |w| ==> s[j] == w[j];
    var k := IndexOf(s, ' ');
    assert k == |w|;
    assert s[..k] == w;
    assert s[k + 1..] == rest;
  }

  /** Joining and then splitting recovers the words, provided none of them
      holds a space itself. */
  lemma {:induction false} SplitJoinRoundTrip(ws: seq<string>)
    requires |ws| > 0
    requires forall i :: 0 <= i < |ws| ==> ' ' !in ws[i]
    ensures SplitOnSpace(JoinWords(ws)) == ws
    decreases |ws|
  {
    if |ws| > 1 {
      assert ws == [ws[0]] + ws[1..];
      JoinCons(ws[0], ws[1..]);
      SplitAfterWord(ws[0], JoinWords(ws[1..]));
      SplitJoinRoundTrip(ws[1..]);
    }
  }

  /** Joining a word in front of a non-empty list of words puts one space
      between it and the rest. */
  lemma JoinCons(w: string, ws: seq<string>)
    requires |ws| > 0
    ensures JoinWords([w] + ws) == w + " " + JoinWords(ws)
  {
    assert ([w] + ws)[1..] == ws;
  }

  /** Text with a space at position `k` is the part before it, the space
      and the part after it. */
  lemma AroundSpace(s: string, k: nat)
    requires k < |s| && s[k] == ' '
    ensures s == s[..k] + " " + s[k + 1..]
  {
    assert s[..k] + " " + s[k + 1..] == s[..k] + s[k..k + 1] + s[k + 1..];
    assert s[..k] + s[k..k + 1] == s[..k + 1];
  }

  /** Splitting and then joining gives back the original text. */
  lemma {:induction false} JoinSplitRoundTrip(s: string)
    ensures JoinWords(SplitOnSpace(s)) == s
    decreases |s|
  {
    if ' ' in s {
      var k := IndexOf(s, ' ');
      JoinSplitRoundTrip(s[k + 1..]);
      var tail := SplitOnSpace(s[k + 1..]);
      assert SplitOnSpace(s) == [s[..k]] + tail;
      JoinCons(s[..k], tail);
      AroundSpace(s, k);
    }
  }
}
