/** The C string functions the firmware builds its texts with. */
module CStrings {
  import opened Decimals
  import opened Wrappers
  import opened JsonPrinter
  import opened Json

  /** The buffer holds exactly this C string. */
  ghost predicate Holds(buf: array<char>, s: string)
    reads buf
  {
    && |s| < buf.Length && buf[|s|] == NUL
    && forall k :: 0 <= k < |s| ==> buf[k] == s[k] != NUL
  }

  method StrLen(buf: array<char>, ghost s: string) returns (n: nat)
    requires Holds(buf, s)
    ensures n == |s|
  {
    n := 0;
    while buf[n] != NUL
      invariant 0 <= n <= |s|
      decreases |s| - n
    {
      n := n + 1;
    }
  }

  method StrCpy(buf: array<char>, src: string)
    requires NUL !in src && |src| < buf.Length
    modifies buf
    ensures Holds(buf, src)
    ensures forall k :: |src| < k < buf.Length ==> buf[k] == old(buf[k])
  {
    Copy(buf, 0, src + [NUL]);
    Terminated(buf, src);
  }

  method StrCat(buf: array<char>, src: string, ghost s: string)
    requires Holds(buf, s) && NUL !in src && |s| + |src| < buf.Length
    modifies buf
    ensures Holds(buf, s + src)
    ensures forall k :: |s + src| < k < buf.Length ==> buf[k] == old(buf[k])
  {
    var n := StrLen(buf, s);
    Copy(buf, n, src + [NUL]);
    assert buf[..n + |src| + 1] == (s + src) + [NUL];
    Terminated(buf, s + src);
  }

  lemma Terminated(buf: array<char>, s: string)
    requires NUL !in s && |s| < buf.Length
    requires buf[..|s| + 1] == s + [NUL]
    ensures Holds(buf, s)
  {
    assert buf[..|s|] == buf[..|s| + 1][..|s|];
    assert buf[|s|] == buf[..|s| + 1][|s|];
  }

  /** snprintf: what fits below the size, the NUL included. */
  function Truncated(text: string, size: nat): (t: string)
    requires size > 0
    ensures t <= text && (|text| < size <==> t == text)
    ensures |text| >= size ==> |t| == size - 1
  {
    if |text| < size then text else text[..size - 1]
  }

  /** json_print_string appended to what the buffer already holds. */
  method AppendQuoted(buf: array<char>, text: seq<char>, ghost s: string)
    requires Holds(buf, s) && NUL in text
    requires |s| + |Quoted(CString(text))| < buf.Length
    modifies buf
    ensures Holds(buf, s + Quoted(CString(text)))
    ensures forall k :: |s + Quoted(CString(text))| < k < buf.Length ==> buf[k] == old(buf[k])
  {
    hide Quoted, CString;
    var n := StrLen(buf, s);
    QuotedHasNoNul(CString(text));
    assert buf[..n] == s;
    var ok := PrintString(Some(text), buf, n);
    Joined(buf, s, Quoted(CString(text)));
  }

  lemma Joined(buf: array<char>, s: string, t: string)
    requires NUL !in s && NUL !in t && |s| + |t| < buf.Length
    requires buf[..|s| + |t|] == s + t && buf[|s| + |t|] == NUL
    ensures Holds(buf, s + t)
  {
    forall k | 0 <= k < |s + t| ensures buf[k] == (s + t)[k] != NUL {
      assert buf[k] == buf[..|s| + |t|][k];
    }
  }

  lemma {:induction false} EscapedHasNoNul(s: string)
    requires NUL !in s
    ensures NUL !in EscapeAll(s)
  {
    if s != "" {
      EscapeHasNoNul(s[0]);
      EscapedHasNoNul(s[1..]);
    }
  }

  lemma EscapeHasNoNul(c: char)
    requires c != NUL
    ensures NUL !in Escape(c)
  {
    if EscapeTail(c) != "" && |EscapeTail(c)| > 1 {
      assert forall d :: 0 <= d < 16 ==> HEX[d] != NUL;
    }
  }

  lemma QuotedHasNoNul(s: string)
    requires NUL !in s
    ensures NUL !in Quoted(s)
  {
    EscapedHasNoNul(s);
  }

  /** The digits of the numbers that fit a byte. */
  lemma NaturalLength(n: nat)
    requires n < 1000
    ensures |Natural(n)| == if n < 10 then 1 else if n < 100 then 2 else 3
  {
    if n >= 10 {
      assert |Natural(n)| == |Natural(n / 10)| + 1;
      assert n >= 100 ==> |Natural(n / 10)| == |Natural(n / 10 / 10)| + 1;
    }
  }

  lemma DecimalHasNoNul(n: int)
    ensures NUL !in Decimal(n)
  {
  }
}
