/** Line framing of the MCP transport (`mcp.rs`): requests are newline-ended lines of UTF-8
    of bounded length, whatever pieces the input arrives in. */
module Framing {
  import opened Basics
  import opened Utf8
  import Text

  const NEWLINE: Byte := 10
  const RETURN: Byte := 13
  const MAX_REQUEST: nat := 131_072

  /** What is held of one line: never more than the limit. */
  type Held = bytes: seq<Byte> | |bytes| <= MAX_REQUEST

  /** Input not yet consumed. Each look at it shows some of what is left, and nothing only
      at the end. */
  class Reader {
    var rest: seq<Byte>

    constructor (input: seq<Byte>)
      ensures rest == input
    {
      rest := input;
    }

    method FillBuf() returns (chunk: seq<Byte>)
      ensures chunk <= rest && (chunk == [] <==> rest == [])
    {
      if rest == [] {
        return [];
      }
      var n: nat :| 1 <= n <= |rest|;
      return rest[..n];
    }

    method Consume(n: nat)
      requires n <= |rest|
      modifies this
      ensures rest == old(rest)[n..]
    {
      rest := rest[n..];
    }
  }

  /** Where the first line ends, its newline included. */
  function LineEnd(s: seq<Byte>): (end: nat)
    ensures end <= |s| && (s != [] ==> 0 < end)
    ensures NEWLINE !in s[..if end == 0 then 0 else end - 1]
    ensures end < |s| ==> s[end - 1] == NEWLINE
  {
    if s == [] then 0
    else if s[0] == NEWLINE then 1
    else
      var end := 1 + LineEnd(s[1..]);
      assert end == 1 || s[..end - 1] == [s[0]] + s[1..][..end - 2];
      end
  }

  /** A line without its ending. */
  function Chomped(line: seq<Byte>): seq<Byte> {
    if line == [] || line[|line| - 1] != NEWLINE then line
    else
      var text := line[..|line| - 1];
      if text != [] && text[|text| - 1] == RETURN then text[..|text| - 1] else text
  }

  /** What one read of a line gives: nothing at the end, a refusal of a line that is too
      long with its newline or is not UTF-8, or its text. */
  function LineRead(s: seq<Byte>): Result<Option<string>> {
    if s == [] then Success(None)
    else if LineEnd(s) > MAX_REQUEST then Failure(Invalid)
    else TextOf(Chomped(s[..LineEnd(s)]))
  }

  function TextOf(line: seq<Byte>): Result<Option<string>> {
    match Decode(line)
    case None => Failure(Invalid)
    case text => Success(text)
  }

  /** A first line is refused exactly when it is too long or is no text's UTF-8, and else is
      the text whose UTF-8 it is. */
  lemma LineReadIs(s: seq<Byte>, text: string)
    requires s != []
    ensures LineRead(s) == Success(Some(text)) <==>
            LineEnd(s) <= 131_072 && Chomped(s[..LineEnd(s)]) == Encode(text)
    ensures LineRead(s).Failure? <==>
            LineEnd(s) > 131_072 || forall t: string :: Chomped(s[..LineEnd(s)]) != Encode(t)
    ensures LineRead(s) != Success(None)
  {
    hide LineEnd, Chomped, Decode, Encode;
    var line := Chomped(s[..LineEnd(s)]);
    DecodeIff(line, text);
    forall t: string | Decode(line).None? ensures line != Encode(t) {
      DecodeIff(line, t);
    }
    if Decode(line).Some? {
      DecodeIff(line, Decode(line).value);
    }
  }

  /** The first newline in a chunk. */
  method Position(chunk: seq<Byte>) returns (newline: Option<nat>)
    ensures newline.None? ==> NEWLINE !in chunk
    ensures newline.Some? ==> newline.value < |chunk| && chunk[newline.value] == NEWLINE
                              && NEWLINE !in chunk[..newline.value]
  {
    for i := 0 to |chunk|
      invariant NEWLINE !in chunk[..i]
    {
      if chunk[i] == NEWLINE {
        return Some(i);
      }
    }
    assert chunk[..|chunk|] == chunk;
    return None;
  }

  /** The first line's end, from any place before it. */
  lemma {:induction false} LineEndIs(s: seq<Byte>, n: nat, end: nat)
    requires n <= end <= |s| && NEWLINE !in s[..n]
    requires if n < |s| && end < |s| + 1 && n < end then end == n + 1 && s[n] == NEWLINE else n == end == |s|
    ensures LineEnd(s) == end
  {
    if n > 0 {
      assert s[0] == s[..n][0];
      assert s[1..][..n - 1] == s[..n][1..];
      LineEndIs(s[1..], n - 1, end - 1);
    }
  }

  function Limited(n: nat): (m: nat)
    ensures m <= n && m <= MAX_REQUEST
  {
    if n <= MAX_REQUEST then n else MAX_REQUEST
  }

  lemma LimitedIs()
    ensures Limited(0) == 0 && forall n: nat :: n <= MAX_REQUEST ==> Limited(n) == n
  {
  }

  /** What is held after taking more of a chunk: the input's first bytes, up to the limit. */
  lemma Taken(input: seq<Byte>, seen: nat, chunk: seq<Byte>, take: nat)
    requires seen <= |input| && chunk <= input[seen..] && take <= |chunk|
    ensures seen + take <= |input| && input[seen..][take..] == input[seen + take..]
    ensures var held, room := input[..Limited(seen)], MAX_REQUEST - Limited(seen);
            && input[..Limited(seen + take)] == held + chunk[..if take > room then room else take]
            && (0 < take ==> (seen + take > MAX_REQUEST <==> seen > MAX_REQUEST || take > room))
    ensures forall n :: 0 <= n <= take ==> input[..seen + n] == input[..seen] + chunk[..n]
  {
    assert forall i :: 0 <= i < |chunk| ==> chunk[i] == input[seen..][i];
  }

  /** How far one line's loop is: `seen` bytes of the input consumed, `bytes` of them held. */
  ghost predicate Reading(input: seq<Byte>, seen: nat, bytes: Held, oversized: bool, ended: bool) {
    && seen <= |input|
    && (oversized <==> seen > MAX_REQUEST)
    && bytes == input[..Limited(seen)]
    && (if ended then seen == LineEnd(input) && input != [] else NEWLINE !in input[..seen])
  }

  /** One more chunk is taken up to its newline, or whole when it has none. */
  lemma ReadingStep(input: seq<Byte>, seen: nat, bytes: Held, oversized: bool, chunk: seq<Byte>, newline: Option<nat>)
    requires Reading(input, seen, bytes, oversized, false)
    requires chunk <= input[seen..] && chunk != []
    requires newline.None? ==> NEWLINE !in chunk
    requires newline.Some? ==> newline.value < |chunk| && chunk[newline.value] == NEWLINE
                               && NEWLINE !in chunk[..newline.value]
    ensures var take := if newline.Some? then newline.value + 1 else |chunk|;
            var room := MAX_REQUEST - |bytes|;
            && seen + take <= |input| && input[seen..][take..] == input[seen + take..]
            && Reading(input, seen + take, bytes + chunk[..if take > room then room else take],
                       oversized || take > room, newline.Some?)
  {
    hide LineEnd, Limited;
    LimitedIs();
    var take := if newline.Some? then newline.value + 1 else |chunk|;
    Taken(input, seen, chunk, take);
    if newline.Some? {
      LineEndIs(input, seen + newline.value, seen + take);
    }
  }

  /** The input ends here, so its first line does. */
  lemma ReadingEnds(input: seq<Byte>, seen: nat, bytes: Held, oversized: bool)
    requires Reading(input, seen, bytes, oversized, false) && seen == |input| && input != []
    ensures Reading(input, seen, bytes, oversized, true)
  {
    hide LineEnd, Limited;
    LineEndIs(input, seen, seen);
  }

  lemma ReadingStarts(input: seq<Byte>)
    ensures Reading(input, 0, [], false, false)
  {
    hide LineEnd;
  }

  lemma NothingHeld(input: seq<Byte>, seen: nat, bytes: Held, oversized: bool)
    requires Reading(input, seen, bytes, oversized, false)
    ensures bytes == [] && !oversized <==> seen == 0
  {
    hide LineEnd;
  }

  lemma LineIsRead(input: seq<Byte>, seen: nat, bytes: Held, oversized: bool)
    requires Reading(input, seen, bytes, oversized, true)
    ensures seen == LineEnd(input) && input != [] && (oversized <==> LineEnd(input) > MAX_REQUEST)
    ensures !oversized ==> bytes == input[..LineEnd(input)]
  {
    hide LineEnd;
  }

  /** `bounded_line`: the result and what is consumed depend only on the bytes, not on how
      they arrive, and no more than the limit is ever held. */
  method BoundedLine(reader: Reader) returns (line: Result<Option<string>>)
    modifies reader
    ensures line == LineRead(old(reader.rest))
    ensures reader.rest == old(reader.rest)[LineEnd(old(reader.rest))..]
  {
    hide LineEnd, Chomped, Decode, Reading;
    var bytes: Held := [];
    var oversized := false;
    ghost var input := reader.rest;
    ghost var seen: nat := 0;
    ReadingStarts(input);
    var ended := false;
    while !ended
      invariant seen <= |input| && reader.rest == input[seen..]
      invariant Reading(input, seen, bytes, oversized, ended)
      decreases !ended, |input| - seen
    {
      var chunk := reader.FillBuf();
      if chunk == [] {
        NothingHeld(input, seen, bytes, oversized);
        if bytes == [] && !oversized {
          NothingLeft();
          return Success(None);
        }
        ReadingEnds(input, seen, bytes, oversized);
        ended := true;
      } else {
        var newline := Position(chunk);
        var take := if newline.Some? then newline.value + 1 else |chunk|;
        var room := MAX_REQUEST - |bytes|;
        ReadingStep(input, seen, bytes, oversized, chunk, newline);
        if take > room {
          oversized := true;
          bytes := bytes + chunk[..room];
        } else {
          bytes := bytes + chunk[..take];
        }
        reader.Consume(take);
        ended := newline.Some?;
        seen := seen + take;
      }
    }
    LineIsRead(input, seen, bytes, oversized);
    if oversized {
      return Failure(Invalid);
    }
    var text := Chomp(bytes);
    return TextOf(text);
  }

  method Chomp(line: seq<Byte>) returns (text: seq<Byte>)
    ensures text == Chomped(line)
  {
    text := line;
    if text != [] && text[|text| - 1] == NEWLINE {
      text := text[..|text| - 1];
      if text != [] && text[|text| - 1] == RETURN {
        text := text[..|text| - 1];
      }
    }
  }

  // ---- A whole session ------------------------------------------------------

  /** The requests of an input, in order, and whether all of them could be read. */
  function Requests(s: seq<Byte>): (seq<string>, bool)
    decreases |s|
  {
    match LineRead(s)
    case Failure(_) => ([], false)
    case Success(None) => ([], true)
    case Success(Some(line)) =>
      var (more, ok) := Requests(s[LineEnd(s)..]);
      ([line] + more, ok)
  }

  /** The server's loop: it ends at the end of input or at the first line that is refused. */
  method ServeLines(reader: Reader) returns (requests: seq<string>, ok: bool)
    modifies reader
    ensures requests == Requests(old(reader.rest)).0 && ok == Requests(old(reader.rest)).1
  {
    hide LineRead, LineEnd;
    requests := [];
    ghost var input := reader.rest;
    assert [] + Requests(input).0 == Requests(input).0;
    while true
      invariant requests + Requests(reader.rest).0 == Requests(input).0
      invariant Requests(reader.rest).1 == Requests(input).1
      decreases |reader.rest|
    {
      ghost var rest := reader.rest;
      var line := BoundedLine(reader);
      if line.Failure? {
        return requests, false;
      }
      if line.value.None? {
        return requests, true;
      }
      LineShortens(rest);
      assert requests + Requests(rest).0 == (requests + [line.value.value]) + Requests(reader.rest).0;
      requests := requests + [line.value.value];
    }
  }

  lemma LineShortens(s: seq<Byte>)
    ensures LineRead(s).Success? && LineRead(s).value.Some? ==> |s[LineEnd(s)..]| < |s|
  {
    hide Decode;
  }

  /** What a client sends for some lines, each ended as `carriages` says: by a carriage return
      and a newline, or by a newline alone. */
  function Sent(lines: seq<string>, carriages: seq<bool>): seq<Byte>
    requires |lines| == |carriages|
  {
    if lines == [] then [] else Encode(lines[0]) + Ending(carriages[0]) + Sent(lines[1..], carriages[1..])
  }

  function Ending(carriage: bool): seq<Byte> {
    if carriage then [RETURN, NEWLINE] else [NEWLINE]
  }

  /** The line fits with its ending; before a bare newline it does not end in a carriage
      return, which would be taken for a part of the ending. */
  predicate Sendable(line: string, carriage: bool) {
    && '\n' !in line && Text.Utf8Length(line) + |Ending(carriage)| <= MAX_REQUEST
    && (carriage || line == "" || line[|line| - 1] != '\r')
  }

  /** Only an ASCII character has its own code among its bytes. */
  lemma {:induction false} EncodedHolds(line: string, b: Byte)
    requires b < 0x80 && b in Encode(line)
    ensures (b as char) in line
  {
    hide EncodeChar;
    CharHolds(line[0], b);
    if b in Encode(line[1..]) {
      EncodedHolds(line[1..], b);
    }
  }

  lemma CharHolds(c: char, b: Byte)
    requires b < 0x80
    ensures b in EncodeChar(c) <==> c as int == b as int
  {
    var bytes := EncodeChar(c);
    if c as int == b as int { assert bytes[0] == b; }
    assert 0x80 <= c as int ==> forall i :: 0 <= i < |bytes| ==> 0x80 <= bytes[i];
  }

  lemma {:induction false} EncodedEnds(line: string)
    requires line != "" && Encode(line)[|Encode(line)| - 1] == RETURN
    ensures line[|line| - 1] == '\r'
  {
    if |line| > 1 {
      assert Encode(line)[|Encode(line)| - 1] == Encode(line[1..])[|Encode(line[1..])| - 1];
      EncodedEnds(line[1..]);
    }
  }

  lemma LineArrives(line: string, carriage: bool, more: seq<Byte>)
    requires Sendable(line, carriage)
    ensures var s := Encode(line) + Ending(carriage) + more;
            LineRead(s) == Success(Some(line)) && s[LineEnd(s)..] == more
  {
    hide LineEnd, Encode, Decode;
    var bytes := Encode(line) + if carriage then [RETURN] else [];
    var s := Encode(line) + Ending(carriage) + more;
    assert s == bytes + [NEWLINE] + more;
    assert s[..|bytes|] == bytes;
    if NEWLINE in Encode(line) { EncodedHolds(line, NEWLINE); }
    if line != "" && Encode(line)[|Encode(line)| - 1] == RETURN { EncodedEnds(line); }
    LineEndIs(s, |bytes|, |bytes| + 1);
    assert s[..|bytes| + 1] == bytes + [NEWLINE];
    ChompedIs(Encode(line), carriage);
    LineReadIs(s, line);
  }

  lemma ChompedIs(text: seq<Byte>, carriage: bool)
    requires carriage || text == [] || text[|text| - 1] != RETURN
    ensures Chomped(text + (if carriage then [RETURN] else []) + [NEWLINE]) == text
  {
    var line := text + (if carriage then [RETURN] else []) + [NEWLINE];
    assert line[..|line| - 1] == text + if carriage then [RETURN] else [];
    assert carriage ==> line[..|line| - 1][..|text|] == text;
  }

  /** Every list of texts that fit on a line arrives as it was sent, whichever way each of
      its lines is ended. */
  lemma {:induction false} SentArrives(lines: seq<string>, carriages: seq<bool>)
    requires |lines| == |carriages| && forall i :: 0 <= i < |lines| ==> Sendable(lines[i], carriages[i])
    ensures Requests(Sent(lines, carriages)).0 == lines && Requests(Sent(lines, carriages)).1
  {
    hide LineRead, LineEnd;
    if lines != [] {
      LineArrives(lines[0], carriages[0], Sent(lines[1..], carriages[1..]));
      SentArrives(lines[1..], carriages[1..]);
    } else {
      NothingLeft();
    }
  }

  /** A last line needs no newline. */
  lemma LastLineArrives(line: string)
    requires line != "" && '\n' !in line && Text.Utf8Length(line) <= MAX_REQUEST
    ensures Requests(Encode(line)) == ([line], true)
  {
    hide LineEnd, Encode, Decode;
    var bytes := Encode(line);
    if NEWLINE in bytes { EncodedHolds(line, NEWLINE); }
    assert bytes[..|bytes|] == bytes && bytes != [];
    LineEndIs(bytes, |bytes|, |bytes|);
    LineReadIs(bytes, line);
    assert bytes[..LineEnd(bytes)] == bytes && Chomped(bytes) == bytes;
    assert LineRead(bytes) == Success(Some(line));
    NothingLeft();
    var none: seq<Byte> := [];
    assert bytes[LineEnd(bytes)..] == none;
    assert Requests(none) == ([], true);
    assert [line] + Requests(none).0 == [line];
  }

  lemma NothingLeft()
    ensures LineRead([]) == Success(None) && LineEnd([]) == 0
  {
  }
}
