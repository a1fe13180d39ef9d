/** Record files as text (`record.rs`): YAML between two `---` lines, then the body. */
module Frontmatter {
  import opened Basics
  import Text

  /** The YAML printer and reader. */
  datatype Yaml<!M> = Yaml(write: M -> string, read: string -> Option<M>)

  const OPEN := "---\n"
  const CLOSE := "\n---\n"

  predicate At(s: string, pattern: string, i: nat) {
    i + |pattern| <= |s| && s[i..i + |pattern|] == pattern
  }

  /** The first place at or after `from` where `pattern` begins, or `|s|`. */
  function Find(s: string, pattern: string, from: nat): (i: nat)
    requires from <= |s| && pattern != ""
    ensures from <= i <= |s|
    ensures i < |s| ==> At(s, pattern, i)
    ensures forall j :: from <= j < i ==> !At(s, pattern, j)
    decreases |s| - from
  {
    if from == |s| || At(s, pattern, from) then from else Find(s, pattern, from + 1)
  }

  function SplitOnce(s: string, pattern: string): Option<(string, string)>
    requires pattern != ""
  {
    var i := Find(s, pattern, 0);
    if i == |s| then None else Some((s[..i], s[i + |pattern|..]))
  }

  /** `render`: `raw` is kept byte for byte. */
  function Render<M>(yaml: Yaml<M>, meta: M, raw: string): string {
    OPEN + yaml.write(meta) + OPEN + raw
  }

  /** `parse`: line endings are converted first. */
  function Parse<M>(yaml: Yaml<M>, text: string): Option<(M, string)> {
    var lines := Text.UnixLines(text);
    if !At(lines, OPEN, 0) then None
    else match SplitOnce(lines[|OPEN|..], CLOSE)
         case None => None
         case Some((front, body)) =>
           match yaml.read(front)
           case None => None
           case Some(meta) => Some((meta, body))
  }

  /** What is asked of the printer for one value: whole lines without carriage returns, none
      of them a bare `---`, that read back without their last newline. */
  predicate Prints<M(==)>(yaml: Yaml<M>, meta: M) {
    var text := yaml.write(meta);
    && text != "" && text[|text| - 1] == '\n'
    && !Text.HasCrlf(text)
    && (forall i: nat | i < |text| :: !At(text, CLOSE, i))
    && yaml.read(text[..|text| - 1]) == Some(meta)
  }

  /** The closing line `render` writes is the first one `parse` finds. */
  lemma CloseIsFirst(front: string, body: string)
    requires front != "" && front[|front| - 1] == '\n'
    requires forall i: nat | i < |front| :: !At(front, CLOSE, i)
    ensures Find(front + OPEN + body, CLOSE, 0) == |front| - 1
  {
    var s := front + OPEN + body;
    assert At(s, CLOSE, |front| - 1) by {
      assert s[|front| - 1..|front| + 4] == CLOSE;
    }
    forall j: nat | j < |front| - 1 ensures !At(s, CLOSE, j) {
      assert front + OPEN + body == front + (OPEN + body);
      NotBefore(front, OPEN + body, j);
    }
  }

  /** A line that ends in `front` cannot run on into a closing line. */
  lemma NotBefore(front: string, tail: string, j: nat)
    requires j < |front| - 1 && front[|front| - 1] == '\n' && !At(front, CLOSE, j)
    ensures !At(front + tail, CLOSE, j)
  {
    var s := front + tail;
    if j + |CLOSE| <= |front| {
      assert s[j..j + |CLOSE|] == front[j..j + |CLOSE|];
    } else {
      assert s[|front| - 1] == '\n';
    }
  }

  lemma RenderedLines(front: string, raw: string)
    requires front != "" && front[|front| - 1] == '\n' && !Text.HasCrlf(front)
    ensures Text.UnixLines(OPEN + front + OPEN + raw) == OPEN + front + OPEN + Text.UnixLines(raw)
  {
    var head := OPEN + front + OPEN;
    assert head[|head| - 1] == '\n';
    Text.UnixLinesOfParts(head, raw);
    assert !Text.HasCrlf(head) by {
      forall i | 0 <= i < |head| - 1 ensures !(head[i] == '\r' && head[i + 1] == '\n') {
        if |OPEN| <= i < |OPEN| + |front| - 1 {
          assert head[i] == front[i - 4] && head[i + 1] == front[i - 4 + 1];
        } else if i == |OPEN| + |front| - 1 {
          assert head[i] == '\n';
        }
      }
    }
    Text.UnixLinesChanges(head);
  }

  lemma SplitIs(front: string, body: string)
    requires Find(front + CLOSE + body, CLOSE, 0) == |front|
    ensures SplitOnce(front + CLOSE + body, CLOSE) == Some((front, body))
  {
    hide Find;
    var s := front + CLOSE + body;
    assert s[..|front|] == front && s[|front| + |CLOSE|..] == body;
  }

  lemma SplitGives(s: string, front: string, body: string)
    requires SplitOnce(s, CLOSE) == Some((front, body))
    ensures s == front + CLOSE + body && Find(s, CLOSE, 0) == |front|
  {
    hide Find;
    var i := Find(s, CLOSE, 0);
    assert s == s[..i] + s[i..i + |CLOSE|] + s[i + |CLOSE|..];
  }

  lemma OpenStrips(rest: string)
    ensures At(OPEN + rest, OPEN, 0) && (OPEN + rest)[|OPEN|..] == rest
  {
  }

  lemma OpenGives(lines: string)
    requires At(lines, OPEN, 0)
    ensures lines == OPEN + lines[|OPEN|..]
  {
  }

  /** A file's lines are an opening line, YAML that reads, the first closing line, and the body. */
  ghost predicate Framed<M>(yaml: Yaml<M>, lines: string, meta: M, body: string) {
    exists front ::
      && lines == OPEN + (front + CLOSE + body)
      && Find(front + CLOSE + body, CLOSE, 0) == |front|
      && yaml.read(front) == Some(meta)
  }

  /** Nothing else parses. */
  lemma ParsedIsFramed<M>(yaml: Yaml<M>, text: string, meta: M, body: string)
    ensures Parse(yaml, text) == Some((meta, body)) <==> Framed(yaml, Text.UnixLines(text), meta, body)
  {
    hide Find, Text.UnixLines, SplitOnce, At;
    var lines := Text.UnixLines(text);
    if Parse(yaml, text) == Some((meta, body)) {
      OpenGives(lines);
      var split := SplitOnce(lines[|OPEN|..], CLOSE);
      SplitGives(lines[|OPEN|..], split.value.0, body);
    }
    if Framed(yaml, lines, meta, body) {
      var front :| && lines == OPEN + (front + CLOSE + body)
                   && Find(front + CLOSE + body, CLOSE, 0) == |front|
                   && yaml.read(front) == Some(meta);
      OpenStrips(front + CLOSE + body);
      SplitIs(front, body);
    }
  }

  /** What a printed value's lines are, without its last newline. */
  function Front<M>(yaml: Yaml<M>, meta: M): string
    requires Prints(yaml, meta)
  {
    yaml.write(meta)[..|yaml.write(meta)| - 1]
  }

  lemma RenderedIsFramed<M>(yaml: Yaml<M>, meta: M, raw: string)
    requires Prints(yaml, meta)
    ensures Framed(yaml, Text.UnixLines(Render(yaml, meta, raw)), meta, Text.UnixLines(raw))
  {
    hide Find, Text.UnixLines, At, Text.HasCrlf;
    var front, body := yaml.write(meta), Text.UnixLines(raw);
    RenderedLines(front, raw);
    CloseIsFirst(front, body);
    FrontCloses(front, body);
    assert OPEN + front + OPEN + body == OPEN + (front + OPEN + body);
    assert yaml.read(Front(yaml, meta)) == Some(meta);
  }

  lemma FrontCloses(front: string, body: string)
    requires front != "" && front[|front| - 1] == '\n'
    ensures front + OPEN + body == front[..|front| - 1] + CLOSE + body
  {
    assert front == front[..|front| - 1] + ['\n'] && CLOSE == ['\n'] + OPEN;
  }

  /** Parsing undoes rendering: the same value, and the body with its line endings
      converted, which is the body itself exactly when it has no carriage return to drop. */
  lemma ParseOfRender<M>(yaml: Yaml<M>, meta: M, raw: string)
    requires Prints(yaml, meta)
    ensures Render(yaml, meta, raw) == "---\n" + yaml.write(meta) + "---\n" + raw
    ensures Parse(yaml, Render(yaml, meta, raw)) == Some((meta, Text.UnixLines(raw)))
    ensures Parse(yaml, Render(yaml, meta, raw)) == Some((meta, raw)) <==> !Text.HasCrlf(raw)
  {
    hide Prints, Parse, Framed, Text.UnixLines, Text.HasCrlf;
    RenderedIsFramed(yaml, meta, raw);
    ParsedIsFramed(yaml, Render(yaml, meta, raw), meta, Text.UnixLines(raw));
    Text.UnixLinesChanges(raw);
  }
}
