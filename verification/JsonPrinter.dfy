/** json_print_string: the two-pass escaper that prints straight into the caller's buffer. */
module JsonPrinter {
  import opened Decimals
  import opened Wrappers
  import opened Json

  const NUL := '\0'

  /** The C string at the start of a buffer. */
  function CString(buf: seq<char>): (s: string)
    ensures |s| <= |buf| && buf[..|s|] == s
    ensures forall k :: 0 <= k < |s| ==> s[k] == buf[k] != NUL
    ensures NUL in buf ==> |s| < |buf| && buf[|s|] == NUL
  {
    if buf == [] || buf[0] == NUL then "" else [buf[0]] + CString(buf[1..])
  }

  lemma {:induction false} CStringOf(s: string, rest: seq<char>)
    requires NUL !in s
    ensures CString(s + [NUL] + rest) == s
  {
    var buf := s + [NUL] + rest;
    if s != "" {
      CStringOf(s[1..], rest);
      assert buf[1..] == s[1..] + [NUL] + rest;
    }
  }

  /** What the length pass adds for one character. */
  function Extra(c: char): nat
  {
    if c in "\"\\\U{8}\U{c}\n\r\t" then 1 else if c < ' ' then 5 else 0
  }

  function EscapeCount(s: string): nat
  {
    if s == "" then 0 else EscapeCount(s[..|s| - 1]) + Extra(s[|s| - 1])
  }

  /** Two characters for the seven that have a short escape. */
  lemma ShortEscapes()
    ensures Escape('\"') == "\\\"" && Escape('\\') == "\\\\" && Escape('\U{8}') == "\\b"
    ensures Escape('\U{c}') == "\\f" && Escape('\n') == "\\n" && Escape('\r') == "\\r" && Escape('\t') == "\\t"
  {
  }

  /** Six for every other one below the blank, in lower-case hexadecimal, and one for the rest. */
  lemma OtherEscapes(c: char)
    requires c !in "\"\\\U{8}\U{c}\n\r\t"
    ensures Escape(c)
         == if c < '\U{10}' then "\\u000" + ["0123456789abcdef"[c as int]]
            else if c < ' ' then "\\u001" + ["0123456789abcdef"[c as int - 16]]
            else [c]
  {
    if c < ' ' {
      HexExactly(c as int);
      hide Hex4;
    }
  }

  lemma HexExactly(code: nat)
    requires code < 32
    ensures Hex4(code) == if code < 16 then "000" + [HEX[code]] else "001" + [HEX[code - 16]]
  {
  }

  lemma ExtraIsTail(c: char)
    ensures |Escape(c)| == 1 + Extra(c)
  {
  }

  lemma {:induction false} EscapeAllSnoc(s: string, c: char)
    ensures EscapeAll(s + [c]) == EscapeAll(s) + Escape(c)
  {
    if s == "" {
      assert "" + [c] == [c];
      assert EscapeAll([c]) == Escape(c) + EscapeAll([c][1..]);
      EmptyRight(Escape(c));
    } else {
      EscapeAllSnoc(s[1..], c);
      assert (s + [c])[1..] == s[1..] + [c];
      Nest(Escape(s[0]), EscapeAll(s[1..]), Escape(c));
    }
  }

  lemma EmptyRight(a: string)
    ensures a + "" == a && "" + a == a
  {
  }

  lemma Nest(a: string, b: string, c: string)
    ensures a + (b + c) == (a + b) + c
  {
  }

  lemma EscapeCountSnoc(s: string, c: char)
    ensures EscapeCount(s + [c]) == EscapeCount(s) + Extra(c)
  {
    hide Extra;
    assert (s + [c])[..|s|] == s;
  }

  lemma {:induction false} EscapeAllLength(s: string)
    ensures |EscapeAll(s)| == |s| + EscapeCount(s)
  {
    if s != "" {
      hide Escape, EscapeAll, Extra, EscapeCount;
      var front, last := s[..|s| - 1], s[|s| - 1];
      assert s == front + [last];
      EscapeAllLength(front);
      EscapeAllSnoc(front, last);
      EscapeCountSnoc(front, last);
      ExtraIsTail(last);
    }
  }

  /** The two passes agree: the printed length is the input length plus the escape count. */
  lemma EscapedLength(s: string)
    ensures |EscapeAll(s)| == |s| + EscapeCount(s)
    ensures |Quoted(s)| == |s| + EscapeCount(s) + 2
  {
    hide EscapeAll, EscapeCount;
    EscapeAllLength(s);
  }

  lemma {:induction false} EscapesAtMostFive(s: string)
    ensures EscapeCount(s) <= 5 * |s|
  {
    if s != "" {
      EscapesAtMostFive(s[..|s| - 1]);
    }
  }

  /** Without escapes the text is printed as it is. */
  lemma {:induction false} NothingToEscape(s: string)
    requires EscapeCount(s) == 0
    ensures EscapeAll(s) == s
  {
    if s != "" {
      var n := |s| - 1;
      NothingToEscape(s[..n]);
      EscapeAllSnoc(s[..n], s[n]);
      ExtraIsTail(s[n]);
      assert s == s[..n] + [s[n]];
    }
  }

  lemma {:induction false} AllQuotes(s: string)
    requires forall k :: 0 <= k < |s| ==> s[k] == '\"'
    ensures EscapeCount(s) == |s|
  {
    if s != "" {
      AllQuotes(s[..|s| - 1]);
    }
  }

  predicate Plain(c: char)
  {
    c > '\U{1F}' && c != '\"' && c != '\\'
  }

  lemma PlainEscape(c: char)
    requires Plain(c)
    ensures Escape(c) == [c]
  {
  }

  lemma {:induction false} PlainText(s: string)
    requires forall k :: 0 <= k < |s| ==> Plain(s[k])
    ensures EscapeAll(s) == s
  {
    if s != "" {
      PlainText(s[1..]);
      PlainEscape(s[0]);
    }
  }

  /** A text without characters to escape is printed between quotes. */
  lemma PlainPrints(text: string, quoted: string)
    requires forall k :: 0 <= k < |text| ==> Plain(text[k])
    requires quoted == "\"" + text + "\""
    ensures Quoted(text) == quoted
  {
    PlainText(text);
  }

  /** One object member and what follows it. */
  lemma MemberText(ms: seq<Member>, i: nat)
    requires i < |ms|
    ensures PrintMembers(ms[i..])
         == Quoted(ms[i].name) + (":" + (Print(ms[i].value)
            + if i + 1 == |ms| then "" else "," + PrintMembers(ms[i + 1..])))
  {
    assert ms[i..][1..] == ms[i + 1..];
  }

  /** memcpy of a text into a buffer. */
  method Copy(dst: array<char>, pos: nat, src: string)
    requires pos + |src| <= dst.Length
    modifies dst
    ensures dst[..pos + |src|] == old(dst[..pos]) + src
    ensures forall k :: pos + |src| <= k < dst.Length ==> dst[k] == old(dst[k])
  {
    var i := 0;
    while i < |src|
      invariant 0 <= i <= |src|
      invariant dst[..pos + i] == old(dst[..pos]) + src[..i]
      invariant forall k :: pos + i <= k < dst.Length ==> dst[k] == old(dst[k])
    {
      dst[pos + i] := src[i];
      i := i + 1;
    }
    assert src[..i] == src;
  }

  /** One turn of the write pass; a "\u" escape also leaves the NUL of its sprintf behind. */
  method WriteEscaped(out: array<char>, pos: nat, c: char) returns (next: nat)
    requires c != NUL && pos + |Escape(c)| < out.Length
    modifies out
    ensures next == pos + |Escape(c)|
    ensures out[..next] == old(out[..pos]) + Escape(c)
    ensures forall k :: next < k < out.Length ==> out[k] == old(out[k])
  {
    if Plain(c) {
      PlainEscape(c);
      Copy(out, pos, [c]);
      next := pos + 1;
    } else {
      var tail: string;
      match c {
        case '\\' => tail := "\\";
        case '\"' => tail := "\"";
        case '\U{8}' => tail := "b";
        case '\U{c}' => tail := "f";
        case '\n' => tail := "n";
        case '\r' => tail := "r";
        case '\t' => tail := "t";
        case _ => tail := "u" + Hex4(c as int);
      }
      assert tail == EscapeTail(c);
      next := WriteTail(out, pos, tail);
    }
  }

  /** The backslash and what follows it; sprintf ends its output with a NUL. */
  method WriteTail(out: array<char>, pos: nat, tail: string) returns (next: nat)
    requires tail != "" && pos + 1 + |tail| < out.Length
    modifies out
    ensures next == pos + 1 + |tail|
    ensures out[..next] == old(out[..pos]) + ("\\" + tail)
    ensures forall k :: next < k < out.Length ==> out[k] == old(out[k])
  {
    next := pos + 1 + |tail|;
    Copy(out, pos, "\\");
    Copy(out, pos + 1, tail);
    if |tail| > 1 {
      out[next] := NUL;
    }
  }

  /** First pass: the length of the input and the length of its escaped text. */
  method LengthPass(s: seq<char>) returns (n: nat, length: nat)
    requires NUL in s
    ensures n == |CString(s)| && length == n + EscapeCount(CString(s))
  {
    ghost var text := CString(s);
    var escapes := 0;
    n := 0;
    while s[n] != NUL
      invariant 0 <= n <= |text|
      invariant escapes == EscapeCount(text[..n])
      decreases |text| - n
    {
      assert text[..n + 1][..n] == text[..n];
      if s[n] in "\"\\\U{8}\U{c}\n\r\t" {
        escapes := escapes + 1;
      } else if s[n] < ' ' {
        escapes := escapes + 5;
      }
      n := n + 1;
    }
    assert text[..n] == text;
    length := n + escapes;
  }

  /** The output after each turn of the write pass. */
  lemma {:induction false} Turns(text: string) returns (parts: seq<string>)
    ensures |parts| == |text| + 1 && parts[0] == "" && parts[|text|] == EscapeAll(text)
    ensures forall k :: 0 <= k < |text| ==> parts[k + 1] == parts[k] + Escape(text[k])
    ensures forall k :: 0 <= k <= |text| ==> |parts[k]| <= |parts[|text|]|
  {
    hide Escape, EscapeTail;
    if text == "" {
      parts := [""];
    } else {
      var n := |text| - 1;
      var front := Turns(text[..n]);
      EscapeAllSnoc(text[..n], text[n]);
      assert text == text[..n] + [text[n]];
      parts := front + [front[n] + Escape(text[n])];
    }
  }

  /** Second pass: the escaped text, written from start on. */
  method WritePass(s: seq<char>, out: array<char>, start: nat, ghost parts: seq<string>)
    requires NUL in s && |parts| == |CString(s)| + 1 && parts[0] == ""
    requires forall k :: 0 <= k < |parts| - 1 ==> parts[k + 1] == parts[k] + Escape(s[k])
    requires forall k :: 0 <= k < |parts| ==> start + |parts[k]| <= start + |parts[|parts| - 1]| < out.Length
    modifies out
    ensures var end := start + |parts[|parts| - 1]|;
            && out[..end] == old(out[..start]) + parts[|parts| - 1]
            && forall k :: end < k < out.Length ==> out[k] == old(out[k])
  {
    ghost var n := |parts| - 1;
    ghost var end := start + |parts[n]|;
    var pos := start;
    var i := 0;
    while s[i] != NUL
      invariant 0 <= i <= n
      invariant pos == start + |parts[i]|
      invariant out[..pos] == old(out[..start]) + parts[i]
      invariant forall k :: end < k < out.Length ==> out[k] == old(out[k])
      decreases n - i
    {
      Nest(old(out[..start]), parts[i], Escape(s[i]));
      assert start + |parts[i + 1]| <= end;
      pos := WriteEscaped(out, pos, s[i]);
      i := i + 1;
    }
  }

  /**
   * Prints input as a JSON string at position start of the buffer. A missing input or output is
   * refused. The closing quote goes where the length pass says, which is where the write pass
   * ended.
   */
  method PrintString(input: Option<seq<char>>, output: array?<char>, start: nat) returns (ok: bool)
    requires input.Some? && output != null ==>
               && NUL in input.value
               && start + |Quoted(CString(input.value))| < output.Length
    modifies output
    ensures ok == (input.Some? && output != null)
    ensures !ok && output != null ==> output[..] == old(output[..])
    ensures ok ==> var end := start + |Quoted(CString(input.value))|;
                   && output[..end] == old(output[..start]) + Quoted(CString(input.value))
                   && output[end] == NUL
                   && forall k :: end < k < output.Length ==> output[k] == old(output[k])
  {
    hide Quoted, CString, EscapeAll, EscapeCount;
    if output == null || input.None? {
      return false;
    }
    EscapedLength(CString(input.value));
    PrintQuoted(input.value, output, start, EscapeAll(CString(input.value)));
    QuotedIs(CString(input.value));
    ok := true;
  }

  lemma QuotedIs(s: string)
    ensures Quoted(s) == "\"" + EscapeAll(s) + "\""
  {
    hide EscapeAll;
  }

  /** The printing itself: the whole input at once when the length pass found nothing to escape. */
  method PrintQuoted(s: seq<char>, output: array<char>, start: nat, ghost body: string)
    requires NUL in s && start + |body| + 2 < output.Length
    requires body == EscapeAll(CString(s)) && |body| == |CString(s)| + EscapeCount(CString(s))
    modifies output
    ensures var end := start + |body| + 2;
            && output[..end] == old(output[..start]) + ("\"" + body + "\"")
            && output[end] == NUL
            && forall k :: end < k < output.Length ==> output[k] == old(output[k])
  {
    hide CString, EscapeAll, EscapeCount, Escape;
    ghost var before := output[..start];
    var n, length := LengthPass(s);
    Copy(output, start, "\"");
    if length == n {
      NothingToEscape(CString(s));
      assert s[..n] == body;
      Copy(output, start + 1, s[..n]);
    } else {
      ghost var parts := Turns(CString(s));
      WritePass(s, output, start + 1, parts);
    }
    var end := start + length + 1;
    assert output[..end] == (before + "\"") + body;
    Copy(output, end, "\"" + [NUL]);
    Enclosed(before, body);
    assert output[..end + 2] == before + ("\"" + body + "\"") + [NUL];
    assert output[..end + 1] == output[..end + 2][..end + 1];
    assert output[end + 1] == output[..end + 2][end + 1];
  }

  lemma Enclosed(before: string, body: string)
    ensures ((before + "\"") + body) + ("\"" + [NUL]) == before + ("\"" + body + "\"") + [NUL]
  {
  }
}
