/** Python's text operations that several parts use: `str.find` and decimal numbers. */
module Text {
  /** Position of the first occurrence of `c`, or the length of the text. */
  function IndexOf(s: string, c: char): (i: nat)
    ensures i <= |s| && c !in s[..i] && (i < |s| ==> s[i] == c)
  {
    if s == "" || s[0] == c then 0 else 1 + IndexOf(s[1..], c)
  }

  lemma {:induction false} IndexAfter(head: string, tail: string, c: char)
    requires c !in head && (tail != "" ==> tail[0] == c)
    ensures IndexOf(head + tail, c) == |head|
  {
    if head != "" {
      assert (head + tail)[1..] == head[1..] + tail;
      IndexAfter(head[1..], tail, c);
    } else {
      assert head + tail == tail;
    }
  }

  predicate IsDigits(s: string) { s != "" && forall i :: 0 <= i < |s| ==> '0' <= s[i] <= '9' }

  function Digit(d: nat): char
    requires d < 10
  { '0' + d as char }

  function Decimal(n: nat): (text: string)
    ensures IsDigits(text)
  {
    if n < 10 then [Digit(n)] else Decimal(n / 10) + [Digit(n % 10)]
  }
}
