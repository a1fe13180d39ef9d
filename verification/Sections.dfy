/** README sections as the delivery gate reads them (`delivery.rs`), and why a reserved
    stub never passes. */
module Sections {
  import opened Basics
  import opened Naming
  import Lifecycle
  import Records
  import Scaffold
  import Text

  // ---- Lines ----------------------------------------------------------------

  /** A line without its ending. */
  function Chomp(line: string): string {
    if line != "" && line[|line| - 1] == '\r' then line[..|line| - 1] else line
  }

  /** `str::lines`. */
  function Lines(s: string): seq<string> {
    if s == "" then []
    else
      var n := FirstIndex(s, '\n');
      if n == |s| then [s] else [Chomp(s[..n])] + Lines(s[n + 1..])
  }

  lemma LinesStep(s: string, n: nat)
    requires n < |s| && FirstIndex(s, '\n') == n
    ensures Lines(s) == [Chomp(s[..n])] + Lines(s[n + 1..])
  {
    hide Chomp, FirstIndex;
  }

  lemma {:induction false} LinesOfParts(a: string, b: string)
    requires a == "" || a[|a| - 1] == '\n'
    ensures Lines(a + b) == Lines(a) + Lines(b)
  {
    hide Chomp, FirstIndex, Lines;
    if a == "" {
      assert a + b == b;
      NoLines();
    } else {
      var n := FirstIndex(a, '\n');
      assert a[..|a|] == a && '\n' in a;
      FirstIndexIs(a + b, '\n', n);
      assert (a + b)[..n] == a[..n] && (a + b)[n + 1..] == a[n + 1..] + b;
      LinesStep(a, n);
      LinesStep(a + b, n);
      LinesOfParts(a[n + 1..], b);
    }
  }

  lemma NoLines()
    ensures Lines("") == []
  {
  }

  lemma {:induction false} FirstIndexIs(s: string, c: char, n: nat)
    requires n < |s| && s[n] == c && c !in s[..n]
    ensures FirstIndex(s, c) == n
  {
    assert forall i :: n < i <= |s| ==> s[..i][n] == c;
  }

  /** A plain line and a newline are that line. */
  lemma LineOf(line: string)
    requires '\n' !in line && (line == "" || line[|line| - 1] != '\r')
    ensures Lines(line + "\n") == [line]
  {
    var s := line + "\n";
    assert s[..|line|] == line && s[|line| + 1..] == "";
    FirstIndexIs(s, '\n', |line|);
  }

  // ---- Sections -------------------------------------------------------------

  datatype Section = Section(name: string, text: string)

  const MARK := "##"

  /** `## Name`: the mark, white space, and a name. */
  function Heading(line: string): Option<string> {
    if |line| > 2 && line[..2] == MARK && Text.IsSpace(line[2]) && Text.Trim(line[2..]) != "" then
      Some(Text.Trim(line[2..]))
    else
      None
  }

  function AddLine(sections: seq<Section>, line: string): seq<Section> {
    match Heading(line)
    case Some(name) => sections + [Section(name, "")]
    case None =>
      if sections == [] then []
      else
        var last := sections[|sections| - 1];
        sections[..|sections| - 1] + [last.(text := last.text + line + "\n")]
  }

  function SectionsOf(lines: seq<string>): seq<Section> {
    if lines == [] then [] else AddLine(SectionsOf(lines[..|lines| - 1]), lines[|lines| - 1])
  }

  method ReadSections(body: string) returns (sections: seq<Section>)
    ensures sections == SectionsOf(Lines(body))
  {
    hide Lines, Heading;
    var lines := Lines(body);
    sections := [];
    for i := 0 to |lines|
      invariant sections == SectionsOf(lines[..i])
    {
      assert lines[..i + 1][..i] == lines[..i];
      match Heading(lines[i])
      case Some(name) => sections := sections + [Section(name, "")];
      case None =>
        if sections != [] {
          var last := sections[|sections| - 1];
          sections := sections[..|sections| - 1] + [last.(text := last.text + lines[i] + "\n")];
        }
    }
    assert lines[..|lines|] == lines;
  }

  /** From a heading on, sections do not depend on what came before. */
  lemma {:induction false} HeadingSplits(a: seq<string>, b: seq<string>)
    requires b != [] && Heading(b[0]).Some?
    ensures SectionsOf(a + b) == SectionsOf(a) + SectionsOf(b)
    ensures SectionsOf(b) != []
    decreases |b|
  {
    hide Heading, AddLine;
    var whole, last := a + b, b[|b| - 1];
    assert whole[|whole| - 1] == last && whole[..|whole| - 1] == a + b[..|b| - 1];
    if |b| == 1 {
      assert a + b[..0] == a && b[..0] == [];
      HeadingAdds(SectionsOf(a), last);
      HeadingAdds([], last);
    } else {
      HeadingSplits(a, b[..|b| - 1]);
      AddLineSplits(SectionsOf(a), SectionsOf(b[..|b| - 1]), last);
    }
  }

  lemma HeadingAdds(sections: seq<Section>, line: string)
    requires Heading(line).Some?
    ensures AddLine(sections, line) == sections + AddLine([], line) && AddLine([], line) != []
  {
    hide Heading;
  }

  lemma AddLineSplits(a: seq<Section>, b: seq<Section>, line: string)
    requires b != []
    ensures AddLine(a + b, line) == a + AddLine(b, line) && AddLine(b, line) != []
  {
    hide Heading;
  }

  predicate EqualIgnoringCase(a: string, b: string) {
    |a| == |b| && forall i :: 0 <= i < |a| ==> Lower(a[i]) == Lower(b[i])
  }

  function Lower(c: char): char {
    if IsUpper(c) then c - 'A' + 'a' else c
  }

  /** Nothing, or what a stub starts with. */
  predicate IsPlaceholder(text: string) {
    || Text.Trim(text) == ""
    || exists i :: 0 <= i < |Scaffold.STUB| && EqualIgnoringCase(Text.Trim(text), Scaffold.STUB[i].1)
  }

  /** Exactly the wanted headings, in order, each with text of its own. */
  predicate Written(wanted: seq<string>, body: string) {
    var sections := SectionsOf(Lines(body));
    && Names(sections, wanted) == wanted
    && forall i :: 0 <= i < |sections| && sections[i].name in wanted ==> !IsPlaceholder(sections[i].text)
  }

  /** The headings that are wanted, in the order they occur. */
  function Names(sections: seq<Section>, wanted: seq<string>): seq<string> {
    if sections == [] then []
    else
      var front := Names(sections[..|sections| - 1], wanted);
      var name := sections[|sections| - 1].name;
      if name in wanted then front + [name] else front
  }

  function Occurrences(sections: seq<Section>, name: string): nat {
    if sections == [] then 0
    else Occurrences(sections[..|sections| - 1], name) + if sections[|sections| - 1].name == name then 1 else 0
  }

  lemma {:induction false} NamesCount(sections: seq<Section>, wanted: seq<string>, name: string)
    requires name in wanted
    ensures multiset(Names(sections, wanted))[name] == Occurrences(sections, name)
  {
    if sections != [] {
      NamesCount(sections[..|sections| - 1], wanted, name);
    }
  }

  lemma {:induction false} CountOfDistinct(names: seq<string>, name: string)
    requires forall i, j :: 0 <= i < j < |names| ==> names[i] != names[j]
    ensures multiset(names)[name] == if name in names then 1 else 0
  {
    if names != [] {
      var front := names[..|names| - 1];
      assert names == front + [names[|names| - 1]];
      CountOfDistinct(front, name);
    }
  }

  /** In a written body each wanted section occurs exactly once. */
  lemma WantedOccurOnce(wanted: seq<string>, body: string, name: string)
    requires Written(wanted, body) && name in wanted
    requires forall i, j :: 0 <= i < j < |wanted| ==> wanted[i] != wanted[j]
    ensures Occurrences(SectionsOf(Lines(body)), name) == 1
  {
    hide SectionsOf, Lines, IsPlaceholder;
    NamesCount(SectionsOf(Lines(body)), wanted, name);
    CountOfDistinct(wanted, name);
  }

  // ---- The reserved stub ----------------------------------------------------

  /** A name or text that is one trimmed line. */
  predicate OneLine(s: string) {
    s != "" && '\n' !in s && '\r' !in s && !Text.IsSpace(s[0]) && !Text.IsSpace(s[|s| - 1])
  }

  /** A section whose name and text are single lines, the text no heading. */
  predicate Simple(section: (string, string)) {
    OneLine(section.0) && OneLine(section.1) && section.1[0] != '#'
  }

  function HeadingLine(name: string): string {
    "## " + name
  }

  lemma HeadingOfName(name: string)
    requires OneLine(name)
    ensures Heading(HeadingLine(name)) == Some(name)
  {
    var line := HeadingLine(name);
    assert line[..2] == MARK && line[2] == ' ' && line[2..] == " " + name + "";
    Text.TrimOfPadded(" ", name, "");
    Text.AlreadyTrimmed(name);
  }

  lemma BlockLines(section: (string, string))
    requires Simple(section)
    ensures Lines(Scaffold.Block(section.0, section.1)) == [HeadingLine(section.0), "", section.1]
  {
    hide Lines, Text.IsSpace;
    var (name, text) := section;
    LineOf(HeadingLine(name));
    LineOf("");
    assert "" + "\n" == "\n";
    LineOf(text);
    LinesOfParts(HeadingLine(name) + "\n", "\n" + (text + "\n"));
    LinesOfParts("\n", text + "\n");
  }

  function LinesOfBlocks(sections: seq<(string, string)>): (lines: seq<string>)
    requires sections != []
    ensures lines != [] && lines[0] == HeadingLine(sections[0].0)
  {
    var lines := [HeadingLine(sections[0].0), "", sections[0].1];
    if |sections| == 1 then lines else lines + ([""] + LinesOfBlocks(sections[1..]))
  }

  lemma {:induction false} BlocksLines(sections: seq<(string, string)>)
    requires sections != [] && forall i :: 0 <= i < |sections| ==> Simple(sections[i])
    ensures Lines(Scaffold.Blocks(sections)) == LinesOfBlocks(sections)
    ensures '\r' !in Scaffold.Blocks(sections)
  {
    hide Lines, Text.IsSpace;
    BlockLines(sections[0]);
    if |sections| > 1 {
      BlocksLines(sections[1..]);
      var block := Scaffold.Block(sections[0].0, sections[0].1);
      LineOf("");
      assert "" + "\n" == "\n";
      LinesOfParts(block, "\n" + Scaffold.Blocks(sections[1..]));
      LinesOfParts("\n", Scaffold.Blocks(sections[1..]));
    }
  }

  function BlockText(text: string, spaced: bool): string {
    if spaced then "\n" + text + "\n" + "\n" else "\n" + text + "\n"
  }

  function BlockOf(section: (string, string), spaced: bool): seq<string> {
    if spaced then [HeadingLine(section.0), "", section.1, ""] else [HeadingLine(section.0), "", section.1]
  }

  /** A heading, a blank line and a text line make a section. */
  lemma BlockSection(section: (string, string), spaced: bool)
    requires Simple(section)
    ensures SectionsOf(BlockOf(section, spaced)) == [Section(section.0, BlockText(section.1, spaced))]
  {
    hide Heading, SectionsOf, HeadingLine, Text.IsSpace;
    HeadingOfName(section.0);
    TextIsNoHeading(section.1);
    TextLine(HeadingLine(section.0), section.0, section.1);
    if spaced {
      BlankAfter(HeadingLine(section.0), section.0, section.1);
    }
  }

  lemma TextIsNoHeading(text: string)
    requires text != "" && text[0] != '#'
    ensures Heading(text).None?
  {
    hide Text.Trim, Text.IsSpace;
    assert |text| > 2 ==> text[..2][0] != MARK[0];
  }

  lemma TextLine(head: string, name: string, text: string)
    requires Heading(head) == Some(name) && Heading(text).None?
    ensures SectionsOf([head, "", text]) == [Section(name, "\n" + text + "\n")]
  {
    hide Heading, SectionsOf, AddLine;
    BlankLine(head, name);
    NextLine([head, ""], text);
    assert [head, ""] + [text] == [head, "", text];
    AddText(name, "\n", text);
  }

  lemma BlankLine(head: string, name: string)
    requires Heading(head) == Some(name)
    ensures SectionsOf([head, ""]) == [Section(name, "\n")]
  {
    hide Heading, SectionsOf, AddLine;
    NoSections();
    NextLine([], head);
    assert [] + [head] == [head];
    AddHeading(head, name);
    NextLine([head], "");
    assert [head] + [""] == [head, ""];
    AddBlank(name, "");
  }

  lemma BlankAfter(head: string, name: string, text: string)
    requires SectionsOf([head, "", text]) == [Section(name, "\n" + text + "\n")]
    ensures SectionsOf([head, "", text, ""]) == [Section(name, "\n" + text + "\n" + "\n")]
  {
    hide Heading, SectionsOf, AddLine;
    NextLine([head, "", text], "");
    assert [head, "", text] + [""] == [head, "", text, ""];
    AddBlank(name, "\n" + text + "\n");
  }

  lemma AddHeading(line: string, name: string)
    requires Heading(line) == Some(name)
    ensures AddLine([], line) == [Section(name, "")]
  {
    hide Heading;
  }

  lemma AddText(name: string, text: string, line: string)
    requires Heading(line).None?
    ensures AddLine([Section(name, text)], line) == [Section(name, text + line + "\n")]
  {
    hide Heading;
  }

  lemma AddBlank(name: string, text: string)
    ensures AddLine([Section(name, text)], "") == [Section(name, if text == "" then "\n" else text + "\n")]
  {
    assert text + "" + "\n" == text + "\n" && "" + "\n" == "\n";
  }

  lemma NoSections()
    ensures SectionsOf([]) == []
  {
  }

  lemma NextLine(lines: seq<string>, line: string)
    ensures SectionsOf(lines + [line]) == AddLine(SectionsOf(lines), line)
  {
    hide AddLine;
    assert (lines + [line])[..|lines|] == lines;
  }

  /** The first stub section after `before`, alone or with more after it. */
  lemma FirstIsSection(before: seq<string>, section: (string, string), more: seq<string>)
    requires Simple(section) && (more == [] || Heading(more[0]).Some?)
    ensures exists read ::
              && read in SectionsOf(before + BlockOf(section, more != []) + more)
              && read.name == section.0 && Text.Trim(read.text) == section.1
  {
    hide SectionsOf, Heading, Text.Trim;
    var spaced := more != [];
    var block := BlockOf(section, spaced);
    var read := Section(section.0, BlockText(section.1, spaced));
    HeadingOfName(section.0);
    BlockSection(section, spaced);
    PaddedText(section.1, spaced);
    HeadingSplits(before, block);
    assert read in SectionsOf(before + block);
    if spaced {
      HeadingSplits(before + block, more);
    } else {
      assert before + block + more == before + block;
    }
  }

  /** Every stub section is read back with the text it was given. */
  lemma {:induction false} BlocksAreSections(before: seq<string>, sections: seq<(string, string)>, k: nat)
    requires k < |sections| && forall i :: 0 <= i < |sections| ==> Simple(sections[i])
    ensures exists read ::
              && read in SectionsOf(before + LinesOfBlocks(sections))
              && read.name == sections[k].0 && Text.Trim(read.text) == sections[k].1
    decreases |sections|
  {
    hide SectionsOf, Heading, Text.Trim, OneLine;
    var more := if |sections| == 1 then [] else LinesOfBlocks(sections[1..]);
    var block := BlockOf(sections[0], more != []);
    assert before + LinesOfBlocks(sections) == before + block + more;
    if k == 0 {
      if |sections| > 1 { HeadingOfName(sections[1].0); }
      FirstIsSection(before, sections[0], more);
    } else {
      BlocksAreSections(before + block, sections[1..], k - 1);
    }
  }

  lemma PaddedText(text: string, spaced: bool)
    requires OneLine(text)
    ensures Text.Trim(BlockText(text, spaced)) == text
  {
    hide Text.Trim, Text.TrimFront, Text.TrimBack, Text.IsSpace, Text.Blank;
    OneLineIsTrimmed(text);
    var tail := if spaced then "\n" else "";
    BlankLines(tail);
    Text.TrimOfPadded("\n", text, "\n" + tail);
    assert "\n" + text + ("\n" + tail) == BlockText(text, spaced);
  }

  lemma OneLineIsTrimmed(text: string)
    requires OneLine(text)
    ensures Text.Trim(text) == text
  {
    hide Text.IsSpace;
    Text.AlreadyTrimmed(text);
  }

  lemma BlankLines(tail: string)
    requires tail == "" || tail == "\n"
    ensures Text.Blank("\n") && Text.Blank("\n" + tail)
  {
  }

  lemma StubIsSimple()
    ensures forall i :: 0 <= i < |Scaffold.STUB| ==> Simple(Scaffold.STUB[i])
  {
  }

  /** A fresh research stub, read back from its file, holds every section it was given
      unwritten, whatever its title and question say. */
  lemma StubSectionIsPlaceholder(id: RecordId, title: string, body: string, k: nat)
    requires id.kind == Research && id.number < 1000 && k < |Scaffold.STUB|
    ensures exists section ::
              && section in SectionsOf(Lines(Text.UnixLines(Scaffold.NewBody(id, title, body))))
              && section.name == Scaffold.STUB[k].0 && IsPlaceholder(section.text)
  {
    hide Lines, SectionsOf, Heading, Text.UnixLines, Text.Trim, Lifecycle.Heading, LinesOfBlocks, Scaffold.Blocks;
    var front := "\n" + Lifecycle.Heading(id, title) + "\n" + ("\n## Question\n\n" + body + "\n");
    var stub := Scaffold.Blocks(Scaffold.STUB);
    assert Scaffold.NewBody(id, title, body) == front + ("\n" + stub);
    StubIsSimple();
    BlocksLines(Scaffold.STUB);
    Text.UnixLinesOfParts(front, "\n" + stub);
    Text.UnixLinesWithoutReturns("\n" + stub);
    Text.UnixLinesEndsLine(front);
    var lines := Text.UnixLines(front);
    LinesOfParts(lines, "\n" + stub);
    LinesOfParts("\n", stub);
    var before := Lines(lines) + Lines("\n");
    assert Lines(lines + ("\n" + stub)) == before + LinesOfBlocks(Scaffold.STUB);
    BlocksAreSections(before, Scaffold.STUB, k);
    EqualsItself(Scaffold.STUB[k].1);
  }

  lemma EqualsItself(s: string)
    ensures EqualIgnoringCase(s, s)
  {
  }

  /** So no stub is delivered as it was reserved, when any of its own sections is wanted. */
  lemma StubIsNotWritten(id: RecordId, title: string, body: string, wanted: seq<string>, k: nat)
    requires id.kind == Research && id.number < 1000
    requires k < |Scaffold.STUB| && Scaffold.STUB[k].0 in wanted
    ensures !Written(wanted, Text.UnixLines(Scaffold.NewBody(id, title, body)))
  {
    hide Lines, SectionsOf, IsPlaceholder, Scaffold.NewBody, Text.UnixLines;
    StubSectionIsPlaceholder(id, title, body, k);
  }

  // ---- The lines of a new record --------------------------------------------

  /** A new record's body is its heading line, and the request's lines right after its kind's
      first section heading, before its later sections. */
  lemma NewRecordLines(id: RecordId, slug: string, title: string, body: string, tags: seq<string>,
                       derivedFrom: seq<RecordId>, today: string, content: Records.Content)
    requires id.number < 1000 && Scaffold.StartsAs(id, slug, title, body, tags, derivedFrom, today, content)
    ensures Lines(content.raw)
         == [""] + Lines("# " + IdText(id) + " \U{2014} " + title + "\n") + ["", Scaffold.FirstSection(id.kind), ""]
            + Lines(body + "\n") + Lines(Scaffold.Appended(Scaffold.LaterSections(id.kind)))
  {
    hide *;
    var first := Scaffold.FirstSection(id.kind);
    var later := Scaffold.Appended(Scaffold.LaterSections(id.kind));
    var heading := "# " + IdText(id) + " \U{2014} " + title + "\n";
    RawOf(id, slug, title, body, tags, derivedFrom, today, content);
    HeadingParts(IdText(id), title);
    OpeningParts(IdText(id) + " \U{2014} " + title, first, body, later);
    FirstSectionIsLine(id.kind);
    LinesOfOpening(heading, first, body + "\n", later);
  }

  lemma RawOf(id: RecordId, slug: string, title: string, body: string, tags: seq<string>,
              derivedFrom: seq<RecordId>, today: string, content: Records.Content)
    requires id.number < 1000 && Scaffold.StartsAs(id, slug, title, body, tags, derivedFrom, today, content)
    ensures content.Document?
    ensures content.raw == "\n# " + (IdText(id) + " \U{2014} " + title) + "\n\n" + Scaffold.FirstSection(id.kind)
                           + "\n\n" + body + "\n" + Scaffold.Appended(Scaffold.LaterSections(id.kind))
  {
    hide IdText, Scaffold.Appended, Scaffold.LaterSections, Scaffold.FirstSection, Kebab;
    assert "\n# " + (IdText(id) + " \U{2014} " + title) == "\n# " + IdText(id) + " \U{2014} " + title;
  }

  lemma HeadingParts(text: string, title: string)
    ensures "# " + text + " \U{2014} " + title + "\n" == "# " + (text + " \U{2014} " + title) + "\n"
    ensures var heading := "# " + text + " \U{2014} " + title + "\n"; heading != "" && heading[|heading| - 1] == '\n'
  {
  }

  lemma LinesOfOpening(heading: string, first: string, body: string, later: string)
    requires heading != "" && heading[|heading| - 1] == '\n' && body != "" && body[|body| - 1] == '\n'
    requires '\n' !in first && first != "" && first[|first| - 1] != '\r'
    ensures Lines("\n" + (heading + ("\n" + ((first + "\n") + ("\n" + (body + later))))))
         == [""] + Lines(heading) + ["", first, ""] + Lines(body) + Lines(later)
  {
    hide Lines;
    BlankFirst(body + later);
    LinesOfParts(body, later);
    LineOf(first);
    LinesOfParts(first + "\n", "\n" + (body + later));
    BlankFirst((first + "\n") + ("\n" + (body + later)));
    LinesOfParts(heading, "\n" + ((first + "\n") + ("\n" + (body + later))));
    BlankFirst(heading + ("\n" + ((first + "\n") + ("\n" + (body + later)))));
  }

  lemma BlankFirst(s: string)
    ensures Lines("\n" + s) == [""] + Lines(s)
  {
    hide Lines;
    LineOf("");
    assert "" + "\n" == "\n";
    LinesOfParts("\n", s);
  }

  lemma OpeningParts(name: string, first: string, body: string, later: string)
    ensures "\n# " + name + "\n\n" + first + "\n\n" + body + "\n" + later
         == "\n" + (("# " + name + "\n") + ("\n" + ((first + "\n") + ("\n" + ((body + "\n") + later)))))
  {
    assert "\n# " == "\n" + "# " && "\n\n" == "\n" + "\n";
  }

  lemma FirstSectionIsLine(kind: Kind)
    ensures var first := Scaffold.FirstSection(kind); '\n' !in first && first != "" && first[|first| - 1] != '\r'
  {
  }

  /** A heading of one line is that line, which names the record. */
  lemma HeadingIsLine(id: RecordId, title: string)
    requires id.number < 1000 && Lifecycle.OneLineTitle(title)
    ensures Lines("# " + IdText(id) + " \U{2014} " + title + "\n") == ["# " + IdText(id) + " \U{2014} " + title]
  {
    hide Lines, IdText;
    var heading := "# " + IdText(id) + " \U{2014} " + title;
    assert heading == Lifecycle.Heading(id, title);
    Lifecycle.HeadingIsALine(id, title);
    LineOf(heading);
  }
}
