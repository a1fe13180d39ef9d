/** What a reading of a body's lines and sections means, on the text itself. */
module Markup {
  import opened Basics
  import opened Naming
  import opened Sections
  import Scaffold
  import Text

  // ---- Lines ----------------------------------------------------------------

  /** Lines, each ended by a newline, some of them after a carriage return. */
  function Ended(lines: seq<string>, carriages: seq<bool>): string
    requires |lines| == |carriages|
  {
    if lines == [] then ""
    else lines[0] + (if carriages[0] then "\r\n" else "\n") + Ended(lines[1..], carriages[1..])
  }

  /** Lines are read as they are, however each is ended, and so is a last one without an end. */
  lemma {:induction false} EndedAreLines(lines: seq<string>, carriages: seq<bool>, last: string)
    requires |lines| == |carriages| && '\n' !in last
    requires forall i :: 0 <= i < |lines| ==>
               '\n' !in lines[i] && (carriages[i] || lines[i] == "" || lines[i][|lines[i]| - 1] != '\r')
    ensures Lines(Ended(lines, carriages) + last) == lines + (if last == "" then [] else [last])
  {
    hide Lines;
    if lines == [] {
      assert Ended(lines, carriages) + last == last;
      LastLine(last);
    } else {
      var more := Ended(lines[1..], carriages[1..]) + last;
      var ending := if carriages[0] then "\r\n" else "\n";
      assert Ended(lines, carriages) + last == lines[0] + ending + more;
      EndedLine(lines[0], carriages[0], more);
      EndedAreLines(lines[1..], carriages[1..], last);
    }
  }

  lemma LastLine(last: string)
    requires '\n' !in last
    ensures Lines(last) == if last == "" then [] else [last]
  {
    hide Chomp;
  }

  lemma EndedLine(line: string, carriage: bool, more: string)
    requires '\n' !in line && (carriage || line == "" || line[|line| - 1] != '\r')
    ensures Lines(line + (if carriage then "\r\n" else "\n") + more) == [line] + Lines(more)
  {
    hide Lines, FirstIndex;
    var text := if carriage then line + "\r" else line;
    var s := line + (if carriage then "\r\n" else "\n") + more;
    assert s == text + "\n" + more && s[..|text|] == text && s[|text| + 1..] == more;
    assert Chomp(text) == line;
    FirstIndexIs(s, '\n', |text|);
    LinesStep(s, |text|);
  }

  // ---- Headings -------------------------------------------------------------

  ghost predicate IsHeading(line: string, front: string, name: string, back: string) {
    && line == "##" + front + name + back
    && front != "" && Text.Blank(front) && Text.Blank(back)
  }

  /** A heading is a name that neither starts nor ends with white space, with white space
      before it, right after two signs at the start of the line. */
  lemma HeadingIff(line: string, name: string)
    ensures Heading(line) == Some(name) <==>
            && name != "" && !Text.IsSpace(name[0]) && !Text.IsSpace(name[|name| - 1])
            && exists front, back :: IsHeading(line, front, name, back)
  {
    hide Text.IsSpace, Heading;
    if Heading(line) == Some(name) {
      HeadingSplitsUp(line, name);
    }
    if name != "" && !Text.IsSpace(name[0]) && !Text.IsSpace(name[|name| - 1]) {
      forall front, back | IsHeading(line, front, name, back) ensures Heading(line) == Some(name) {
        NameIsRead(line, front, name, back);
      }
    }
  }

  lemma HeadingSplitsUp(line: string, name: string)
    requires Heading(line) == Some(name)
    ensures name != "" && !Text.IsSpace(name[0]) && !Text.IsSpace(name[|name| - 1])
    ensures exists front, back :: IsHeading(line, front, name, back)
  {
    hide Text.IsSpace, Text.Blank, Text.Trim;
    var front, back := Text.TrimSplits(line[2..]);
    Text.TrimEnds(line[2..]);
    SpaceIsBefore(line[2..], front, name, back);
    assert line == MARK + line[2..];
    assert MARK + (front + name + back) == MARK + front + name + back;
    assert IsHeading(line, front, name, back);
  }

  lemma SpaceIsBefore(text: string, front: string, name: string, back: string)
    requires text == front + name + back && name != ""
    ensures front != "" || text[0] == name[0]
  {
  }

  lemma NameIsRead(line: string, front: string, name: string, back: string)
    requires IsHeading(line, front, name, back)
    requires name != "" && !Text.IsSpace(name[0]) && !Text.IsSpace(name[|name| - 1])
    ensures Heading(line) == Some(name)
  {
    hide Text.IsSpace, Text.Trim;
    assert line[..2] == MARK && line[2..] == front + name + back;
    assert line[2] == front[0];
    Text.TrimOfPadded(front, name, back);
    Text.AlreadyTrimmed(name);
  }

  // ---- Sections -------------------------------------------------------------

  /** Headings, each with the lines under it. */
  function Laid(parts: seq<(string, seq<string>)>): seq<string> {
    if parts == [] then [] else [parts[0].0] + parts[0].1 + Laid(parts[1..])
  }

  function Joined(lines: seq<string>): string {
    if lines == [] then "" else Joined(lines[..|lines| - 1]) + lines[|lines| - 1] + "\n"
  }

  predicate NoHeading(lines: seq<string>) {
    forall i :: 0 <= i < |lines| ==> Heading(lines[i]).None?
  }

  /** Each heading starts a section that holds all lines up to the next one; lines before the
      first are in none. */
  lemma {:induction false} LaidAreSections(before: seq<string>, parts: seq<(string, seq<string>)>)
    requires NoHeading(before)
    requires forall i :: 0 <= i < |parts| ==> Heading(parts[i].0).Some? && NoHeading(parts[i].1)
    ensures SectionsOf(before + Laid(parts))
         == seq(|parts|, i requires 0 <= i < |parts| => Section(Heading(parts[i].0).value, Joined(parts[i].1)))
    decreases |parts|
  {
    hide Heading, SectionsOf;
    if parts == [] {
      assert before + Laid(parts) == before;
      NothingYet(before);
    } else {
      var (head, lines) := parts[0];
      NothingYet(before);
      HeadingSplits(before, Laid(parts));
      UnderHeading(head, lines);
      LaidAreSections([], parts[1..]);
      assert [] + Laid(parts[1..]) == Laid(parts[1..]);
      if |parts| > 1 {
        HeadingSplits([head] + lines, Laid(parts[1..]));
      } else {
        assert Laid(parts) == [head] + lines;
      }
    }
  }

  lemma {:induction false} NothingYet(before: seq<string>)
    requires NoHeading(before)
    ensures SectionsOf(before) == []
  {
    hide Heading;
    if before != [] {
      NothingYet(before[..|before| - 1]);
    }
  }

  lemma {:induction false} UnderHeading(head: string, lines: seq<string>)
    requires Heading(head).Some? && NoHeading(lines)
    ensures SectionsOf([head] + lines) == [Section(Heading(head).value, Joined(lines))]
  {
    hide Heading, SectionsOf, AddLine;
    var name := Heading(head).value;
    if lines == [] {
      assert [head] + lines == [] + [head];
      NoSections();
      NextLine([], head);
      AddHeading(head, name);
    } else {
      var front, last := lines[..|lines| - 1], lines[|lines| - 1];
      assert [head] + lines == ([head] + front) + [last];
      UnderHeading(head, front);
      NextLine([head] + front, last);
      AddText(name, Joined(front), last);
    }
  }

  // ---- What counts as written -----------------------------------------------

  predicate SameLetter(a: char, b: char) {
    a == b || ('a' <= a <= 'z' && a as int == b as int + 32) || ('a' <= b <= 'z' && b as int == a as int + 32)
  }

  /** Only the case of ASCII letters is ignored. */
  lemma EqualIgnoringCaseIff(a: string, b: string)
    ensures EqualIgnoringCase(a, b) <==> |a| == |b| && forall i :: 0 <= i < |a| ==> SameLetter(a[i], b[i])
  {
    assert forall x: char, y: char :: Lower(x) == Lower(y) <==> SameLetter(x, y);
    hide Lower, SameLetter;
  }

  /** What is blank, or is one of the three texts a stub starts with but for letter case, is
      a placeholder. */
  lemma IsPlaceholderIff(text: string)
    ensures IsPlaceholder(text) <==>
            || Text.Blank(text)
            || EqualIgnoringCase(Text.Trim(text), "Pending.")
            || EqualIgnoringCase(Text.Trim(text), "Not yet run.")
            || EqualIgnoringCase(Text.Trim(text), "Await dispatch.")
  {
    hide EqualIgnoringCase;
    Text.TrimOfBlank(text);
    hide Text.Trim, Text.Blank;
    var stub := Scaffold.STUB;
    assert stub[0].1 == stub[1].1 == "Pending." && stub[2].1 == "Not yet run." && stub[3].1 == "Await dispatch.";
  }

  /** `names` are those of the sections at these places, in order, and no other section has a
      wanted name. */
  predicate Placed(sections: seq<Section>, wanted: seq<string>, places: seq<nat>, names: seq<string>) {
    && |places| == |names|
    && (forall k :: 0 <= k < |places| ==>
          places[k] < |sections| && sections[places[k]].name == names[k] && names[k] in wanted)
    && (forall k, m :: 0 <= k < m < |places| ==> places[k] < places[m])
    && (forall i: nat :: i < |sections| && sections[i].name in wanted ==> i in places)
  }

  lemma {:induction false} NamesArePlaced(sections: seq<Section>, wanted: seq<string>) returns (places: seq<nat>)
    ensures Placed(sections, wanted, places, Names(sections, wanted))
  {
    if sections == [] {
      places := [];
    } else {
      var n := |sections| - 1;
      places := NamesArePlaced(sections[..n], wanted);
      PlacedMore(sections, wanted, places, Names(sections[..n], wanted));
      if sections[n].name in wanted {
        places := places + [n];
      }
    }
  }

  lemma PlacedMore(sections: seq<Section>, wanted: seq<string>, places: seq<nat>, names: seq<string>)
    requires sections != [] && Placed(sections[..|sections| - 1], wanted, places, names)
    ensures var n := |sections| - 1;
            if sections[n].name in wanted then Placed(sections, wanted, places + [n], names + [sections[n].name])
            else Placed(sections, wanted, places, names)
  {
    var n := |sections| - 1;
    assert (places + [n])[|places|] == n;
    assert forall i :: i in places ==> i in places + [n];
  }

  lemma FirstPlace(sections: seq<Section>, wanted: seq<string>, places: seq<nat>, names: seq<string>)
    requires Placed(sections, wanted, places, names)
    ensures names != [] ==> places[0] < |sections|
  {
  }

  lemma {:induction false} PlacedAreNames(sections: seq<Section>, wanted: seq<string>, places: seq<nat>,
                                          names: seq<string>)
    requires Placed(sections, wanted, places, names)
    ensures Names(sections, wanted) == names
  {
    FirstPlace(sections, wanted, places, names);
    if sections != [] {
      var n := |sections| - 1;
      if sections[n].name in wanted {
        var last := |places| - 1;
        assert n in places && places[last] == n;
        assert forall i :: i in places && i != n ==> i in places[..last];
        PlacedAreNames(sections[..n], wanted, places[..last], names[..last]);
        assert names == names[..last] + [names[last]];
      } else {
        assert forall k :: 0 <= k < |places| ==> places[k] != n;
        PlacedAreNames(sections[..n], wanted, places, names);
      }
    }
  }

  ghost predicate HasPlaces(sections: seq<Section>, wanted: seq<string>) {
    exists places :: Placed(sections, wanted, places, wanted)
  }

  /** A body is written exactly when the wanted sections occur in their order, none of them
      again, and no one of them is a placeholder. */
  lemma WrittenIff(wanted: seq<string>, body: string)
    ensures var sections := SectionsOf(Lines(body));
            Written(wanted, body) <==>
            && HasPlaces(sections, wanted)
            && forall section | section in sections && section.name in wanted :: !IsPlaceholder(section.text)
  {
    hide IsPlaceholder, Lines, SectionsOf, Names, Placed;
    var sections := SectionsOf(Lines(body));
    var places := NamesArePlaced(sections, wanted);
    forall places | Placed(sections, wanted, places, wanted) ensures Names(sections, wanted) == wanted {
      PlacedAreNames(sections, wanted, places, wanted);
    }
    assert Names(sections, wanted) == wanted ==> HasPlaces(sections, wanted);
  }
}
