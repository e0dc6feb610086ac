/**
 * The line buffer that `getline` fills in `commands` (bshell.c:92-121).
 * A buffer is the whole allocation of `len` cells: the text read, its
 * line terminator, the NUL that ends the C string, and whatever follows.
 */
module LineBuffer {

  /** The buffer after every '\n' in it has been overwritten with '\0'. */
  function NulForNewline(buf: seq<char>): (r: seq<char>)
    ensures |r| == |buf|
    ensures forall i :: 0 <= i < |r| ==> r[i] != '\n'
    ensures forall i :: 0 <= i < |buf| && buf[i] != '\n' ==> r[i] == buf[i]
    ensures forall i :: 0 <= i < |buf| && buf[i] == '\n' ==> r[i] == '\0'
  {
    seq(|buf|, i requires 0 <= i < |buf| => if buf[i] == '\n' then '\0' else buf[i])
  }

  /**
   * The newline-stripping loop of `commands`: walks the buffer from its
   * last cell down to its first and overwrites each '\n' with '\0'.
   */
  method StripNewlines(line: array<char>)
    modifies line
    ensures line[..] == NulForNewline(old(line[..]))
  {
    ghost var before := line[..];
    var i := line.Length - 1;
    while i >= 0
      invariant -1 <= i < line.Length
      invariant forall j :: i < j < line.Length ==> line[j] == NulForNewline(before)[j]
      invariant forall j :: 0 <= j <= i ==> line[j] == before[j]
    {
      if line[i] == '\n' {
        line[i] := '\0';
      }
      i := i - 1;
    }
  }

  /** The C string a buffer holds: every character before its first '\0'. */
  function CString(buf: seq<char>): (s: seq<char>)
    ensures |s| <= |buf| && s == buf[..|s|]
    ensures forall k :: 0 <= k < |s| ==> s[k] != '\0'
    ensures |s| < |buf| ==> buf[|s|] == '\0'
  {
    if buf == [] || buf[0] == '\0' then [] else [buf[0]] + CString(buf[1..])
  }

  /**
   * The text of one line as `getline` returns it: no '\n' before the
   * terminator. It may hold NUL bytes, since `getline` reports a length.
   */
  predicate IsLineText(text: seq<char>)
  {
    forall k :: 0 <= k < |text| ==> text[k] != '\n'
  }

  /** A line's text with no NUL byte in it. */
  predicate IsNulFree(text: seq<char>)
  {
    forall k :: 0 <= k < |text| ==> text[k] != '\0'
  }

  /**
   * What `getline` leaves in a buffer of `len` cells after reading `text`:
   * the text, its '\n' when the line was `terminated` (the last line of
   * the input may lack one), the NUL, then the rest of the allocation.
   */
  function GetlineBuffer(text: seq<char>, terminated: bool, junk: seq<char>): (buf: seq<char>)
    ensures |buf| == |text| + (if terminated then 2 else 1) + |junk|
    ensures buf[..|text|] == text
  {
    text + (if terminated then ['\n'] else []) + ['\0'] + junk
  }

  /**
   * Stripping the newlines of a buffer that `getline` filled with one
   * line and reading it back as a C string gives the line's text up to its
   * first NUL byte, whatever lies in the rest of the buffer.
   */
  lemma {:induction false} StrippedLineCString(text: seq<char>, terminated: bool, junk: seq<char>)
    requires IsLineText(text)
    ensures CString(NulForNewline(GetlineBuffer(text, terminated, junk))) == CString(text + ['\0'])
    decreases |text|
  {
    var r := NulForNewline(GetlineBuffer(text, terminated, junk));
    if text == [] || text[0] == '\0' {
      assert r[0] == '\0';
      assert (text + ['\0'])[0] == '\0';
    } else {
      assert r[0] == text[0];
      assert r[1..] == NulForNewline(GetlineBuffer(text[1..], terminated, junk));
      assert (text + ['\0'])[1..] == text[1..] + ['\0'];
      StrippedLineCString(text[1..], terminated, junk);
    }
  }

  /** For a line with no NUL byte, the C string is exactly the line's text. */
  lemma StrippedLineText(text: seq<char>, terminated: bool, junk: seq<char>)
    requires IsLineText(text) && IsNulFree(text)
    ensures CString(NulForNewline(GetlineBuffer(text, terminated, junk))) == text
  {
    StrippedLineCString(text, terminated, junk);
    var t := text + ['\0'];
    var s := CString(t);
    assert t[|text|] == '\0';
    assert |s| == |text|;
    assert s == t[..|text|] == text;
  }

  /** On a line holding a NUL byte, `strtok` sees only the part before it. */
  lemma StrippedLineStopsAtNul(before: seq<char>, after: seq<char>, terminated: bool, junk: seq<char>)
    requires IsLineText(before) && IsNulFree(before) && IsLineText(after)
    ensures CString(NulForNewline(GetlineBuffer(before + ['\0'] + after, terminated, junk))) == before
  {
    var text := before + ['\0'] + after;
    StrippedLineCString(text, terminated, junk);
    var t := text + ['\0'];
    var s := CString(t);
    assert t[|before|] == '\0';
    assert forall k :: 0 <= k < |before| ==> t[k] == before[k];
    assert |s| == |before|;
    assert s == t[..|before|] == before;
  }
}
