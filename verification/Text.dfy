/** White space, trimming and lines, as Rust's `str` methods define them. */
module Text {

  /** `char::is_whitespace`: the Unicode White_Space characters. */
  predicate IsSpace(c: char) {
    || '\t' <= c <= '\r' || c == ' ' || c == '\U{0085}' || c == '\U{00A0}' || c == '\U{1680}'
    || '\U{2000}' <= c <= '\U{200A}' || c == '\U{2028}' || c == '\U{2029}' || c == '\U{202F}'
    || c == '\U{205F}' || c == '\U{3000}'
  }

  /** How many bytes a character takes in UTF-8. */
  function Utf8Width(c: char): nat {
    if c as int < 0x80 then 1 else if c as int < 0x800 then 2 else if c as int < 0x1_0000 then 3 else 4
  }

  /** `str::len`. */
  function Utf8Length(s: string): (n: nat)
    ensures |s| <= n <= 4 * |s|
  {
    if s == "" then 0 else Utf8Width(s[0]) + Utf8Length(s[1..])
  }

  function TrimFront(s: string): (t: string)
    ensures t != "" ==> !IsSpace(t[0])
    ensures |t| <= |s| && t == s[|s| - |t|..]
  {
    if s != "" && IsSpace(s[0]) then TrimFront(s[1..]) else s
  }

  function TrimBack(s: string): (t: string)
    ensures t != "" ==> !IsSpace(t[|t| - 1])
    ensures t <= s
  {
    if s != "" && IsSpace(s[|s| - 1]) then TrimBack(s[..|s| - 1]) else s
  }

  function Trim(s: string): string { TrimBack(TrimFront(s)) }

  /** Trimming leaves nothing more to trim. */
  lemma TrimIsTrimmed(s: string)
    ensures Trim(Trim(s)) == Trim(s)
  {
    assert Trim(s) != "" ==> Trim(s)[0] == TrimFront(s)[0];
  }

  predicate Blank(s: string) { forall i :: 0 <= i < |s| ==> IsSpace(s[i]) }

  lemma {:induction false} TrimFrontOfBlank(front: string, s: string)
    requires Blank(front)
    ensures TrimFront(front + s) == TrimFront(s)
  {
    if front == "" {
      assert front + s == s;
    } else {
      assert (front + s)[0] == front[0] && (front + s)[1..] == front[1..] + s;
      TrimFrontOfBlank(front[1..], s);
    }
  }

  lemma {:induction false} TrimBackOfBlank(s: string, back: string)
    requires Blank(back)
    ensures TrimBack(s + back) == TrimBack(s)
  {
    if back == "" {
      assert s + back == s;
    } else {
      var whole := s + back;
      assert whole[..|whole| - 1] == s + back[..|back| - 1];
      TrimBackOfBlank(s, back[..|back| - 1]);
    }
  }

  lemma {:induction false} TrimFrontStops(s: string, back: string)
    requires Blank(back)
    ensures TrimFront(s) != "" ==> TrimFront(s + back) == TrimFront(s) + back
    ensures TrimFront(s) == "" ==> TrimFront(s + back) == ""
  {
    if s == "" {
      assert s + back == back;
      TrimFrontOfBlank(back, "");
      assert back + "" == back;
    } else if IsSpace(s[0]) {
      assert (s + back)[1..] == s[1..] + back;
      TrimFrontStops(s[1..], back);
    } else {
      assert (s + back)[0] == s[0];
    }
  }

  lemma TrimOfPaddedBack(s: string, back: string)
    requires Blank(back)
    ensures Trim(s + back) == Trim(s)
  {
    TrimFrontStops(s, back);
    TrimBackOfBlank(TrimFront(s), back);
  }

  /** White space around a text does not show through trimming. */
  lemma TrimOfPadded(front: string, s: string, back: string)
    requires Blank(front) && Blank(back)
    ensures Trim(front + s + back) == Trim(s)
  {
    TrimOfPaddedBack(front + s, back);
    TrimFrontOfBlank(front, s);
  }

  /** The 25 characters that Unicode calls white space. */
  const SPACES: seq<char> :=
    ['\t', '\n', '\U{000B}', '\U{000C}', '\r', ' ', '\U{0085}', '\U{00A0}', '\U{1680}', '\U{2000}', '\U{2001}',
     '\U{2002}', '\U{2003}', '\U{2004}', '\U{2005}', '\U{2006}', '\U{2007}', '\U{2008}', '\U{2009}', '\U{200A}',
     '\U{2028}', '\U{2029}', '\U{202F}', '\U{205F}', '\U{3000}']

  lemma SpacesAre(c: char)
    ensures IsSpace(c) <==> c in SPACES
  {
  }

  /** Where the line that starts at `start` ends, its newline included. */
  function LineEnd(s: string, start: nat): (end: nat)
    requires start <= |s|
    ensures start <= end <= |s| && (start < |s| ==> start < end)
    decreases |s| - start
  {
    if start == |s| then start else if s[start] == '\n' then start + 1 else LineEnd(s, start + 1)
  }

  /** Where the text of the line `s[start..end]` ends, its line ending excluded. */
  function TextEnd(s: string, start: nat, end: nat): (stop: nat)
    requires start <= end <= |s|
    ensures start <= stop <= end
  {
    if start < end && (s[end - 1] == '\n' || s[end - 1] == '\r') then TextEnd(s, start, end - 1) else end
  }

  predicate BlankBetween(s: string, start: nat, end: nat)
    requires start <= end <= |s|
  {
    forall i :: start <= i < end ==> IsSpace(s[i])
  }

  // ---- Line endings ---------------------------------------------------------

  /** `replace("\r\n", "\n")`: one pass, from the front. */
  function UnixLines(s: string): (t: string)
    ensures |t| <= |s|
  {
    if s == "" then ""
    else if 1 < |s| && s[0] == '\r' && s[1] == '\n' then "\n" + UnixLines(s[2..])
    else [s[0]] + UnixLines(s[1..])
  }

  predicate HasCrlf(s: string) {
    exists i :: 0 <= i < |s| - 1 && s[i] == '\r' && s[i + 1] == '\n'
  }

  /** Only a carriage return before a newline is dropped. */
  lemma {:induction false} UnixLinesChanges(s: string)
    ensures HasCrlf(s) <==> UnixLines(s) != s
    ensures HasCrlf(s) ==> |UnixLines(s)| < |s|
  {
    if s != "" {
      UnixLinesChanges(s[1..]);
      if 1 < |s| && s[0] == '\r' && s[1] == '\n' {
        assert s[0] == '\r' && s[0 + 1] == '\n';
      } else if HasCrlf(s) {
        var i :| 0 <= i < |s| - 1 && s[i] == '\r' && s[i + 1] == '\n';
        assert s[1..][i - 1] == '\r' && s[1..][i - 1 + 1] == '\n';
      }
    }
  }

  predicate StartsWithCrlf(s: string) {
    1 < |s| && s[0] == '\r' && s[1] == '\n'
  }

  lemma UnixStep(s: string)
    requires s != ""
    ensures UnixLines(s) == if StartsWithCrlf(s) then "\n" + UnixLines(s[2..]) else [s[0]] + UnixLines(s[1..])
  {
  }

  lemma NoUnixLines()
    ensures UnixLines("") == ""
  {
  }

  /** Where no pair is cut apart, the two parts are converted apart. */
  lemma {:induction false} UnixLinesOfParts(a: string, b: string)
    requires a == "" || b == "" || a[|a| - 1] != '\r' || b[0] != '\n'
    ensures UnixLines(a + b) == UnixLines(a) + UnixLines(b)
  {
    hide UnixLines;
    if a == "" {
      assert a + b == b;
      NoUnixLines();
    } else {
      UnixStep(a);
      UnixStep(a + b);
      var n := if StartsWithCrlf(a) then 2 else 1;
      assert StartsWithCrlf(a + b) == StartsWithCrlf(a);
      assert (a + b)[n..] == a[n..] + b;
      UnixLinesOfParts(a[n..], b);
    }
  }

  lemma {:induction false} UnixLinesOfBlank(s: string)
    requires Blank(s)
    ensures Blank(UnixLines(s))
  {
    if s != "" {
      if 1 < |s| && s[0] == '\r' && s[1] == '\n' { UnixLinesOfBlank(s[2..]); } else { UnixLinesOfBlank(s[1..]); }
    }
  }

  /** A text that is already trimmed stays trimmed. */
  lemma {:induction false} UnixLinesKeepsEnds(s: string)
    requires s != "" && !IsSpace(s[|s| - 1])
    ensures var t := UnixLines(s);
            t != "" && t[|t| - 1] == s[|s| - 1] && (!IsSpace(s[0]) ==> t[0] == s[0])
  {
    if 1 < |s| {
      if s[0] == '\r' && s[1] == '\n' {
        UnixLinesKeepsEnds(s[2..]);
      } else {
        UnixLinesKeepsEnds(s[1..]);
      }
    }
  }

  /** Every text is its trimmed text between white space. */
  lemma TrimSplits(s: string) returns (front: string, back: string)
    ensures s == front + Trim(s) + back && Blank(front) && Blank(back)
  {
    hide TrimFront, TrimBack, Blank;
    TrimFrontSplits(s);
    TrimBackSplits(TrimFront(s));
    var rest := TrimFront(s);
    front, back := s[..|s| - |rest|], rest[|Trim(s)|..];
    assert rest == Trim(s) + back;
    assert s == front + rest;
    assert front + (Trim(s) + back) == front + Trim(s) + back;
  }

  lemma {:induction false} TrimFrontSplits(s: string)
    ensures Blank(s[..|s| - |TrimFront(s)|])
  {
    if s != "" && IsSpace(s[0]) {
      TrimFrontSplits(s[1..]);
      var n := |s| - |TrimFront(s)|;
      assert forall i :: 0 < i < n ==> s[..n][i] == s[1..][..n - 1][i - 1];
    }
  }

  lemma {:induction false} TrimBackSplits(s: string)
    ensures Blank(s[|TrimBack(s)|..])
  {
    if s != "" && IsSpace(s[|s| - 1]) {
      var front := s[..|s| - 1];
      TrimBackSplits(front);
      var n := |TrimBack(s)|;
      assert forall i :: 0 <= i < |s| - 1 - n ==> s[n..][i] == front[n..][i];
    }
  }

  /** Converting line endings and trimming commute. */
  lemma TrimOfUnixLines(s: string)
    ensures Trim(UnixLines(s)) == UnixLines(Trim(s))
  {
    hide UnixLines, Trim, TrimFront, TrimBack, IsSpace;
    var front, back := TrimSplits(s);
    var t := Trim(s);
    TrimEnds(s);
    UnixLinesOfBlank(front);
    UnixLinesOfBlank(back);
    if t == "" {
      UnixLinesOfBlank(s);
      BlankTrims(UnixLines(s));
    } else {
      UnixLinesOfParts(front + t, back);
      UnixLinesOfParts(front, t);
      TrimOfPadded(UnixLines(front), UnixLines(t), UnixLines(back));
      UnixLinesKeepsEnds(t);
      AlreadyTrimmed(UnixLines(t));
    }
  }

  lemma TrimEnds(s: string)
    ensures Trim(s) != "" ==> !IsSpace(Trim(s)[0]) && !IsSpace(Trim(s)[|Trim(s)| - 1])
    ensures Trim(s) != "" ==> Trim(s)[0] != '\n' && Trim(s)[|Trim(s)| - 1] != '\r'
    ensures UnixLines("") == ""
  {
    assert Trim(s) != "" ==> Trim(s)[0] == TrimFront(s)[0];
  }

  lemma BlankTrims(s: string)
    requires Blank(s)
    ensures Trim(s) == ""
  {
    TrimFrontOfBlank(s, "");
    assert s + "" == s;
  }

  /** Trimming leaves nothing exactly of what is blank. */
  lemma TrimOfBlank(s: string)
    ensures Trim(s) == "" <==> Blank(s)
  {
    hide Trim, IsSpace;
    if Blank(s) {
      BlankTrims(s);
    }
    var front, back := TrimSplits(s);
    assert Trim(s) == "" ==> s == front + back;
  }

  lemma AlreadyTrimmed(s: string)
    requires s == "" || (!IsSpace(s[0]) && !IsSpace(s[|s| - 1]))
    ensures Trim(s) == s
  {
  }

  lemma {:induction false} UnixLinesEndsLine(s: string)
    requires s != "" && s[|s| - 1] == '\n'
    ensures UnixLines(s) != "" && UnixLines(s)[|UnixLines(s)| - 1] == '\n'
  {
    if 2 < |s| && s[0] == '\r' && s[1] == '\n' {
      UnixLinesEndsLine(s[2..]);
    } else if 1 < |s| && !(s[0] == '\r' && s[1] == '\n') {
      UnixLinesEndsLine(s[1..]);
    }
  }

  lemma UnixLinesWithoutReturns(s: string)
    requires '\r' !in s
    ensures UnixLines(s) == s
  {
    UnixLinesChanges(s);
  }
}
