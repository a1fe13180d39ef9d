/** New records as `record.rs` scaffolds them. */
module Scaffold {
  import opened Basics
  import opened Naming
  import opened Records
  import Lifecycle

  function InitialStatus(kind: Kind): string {
    match kind
    case Research => "planned"
    case Theory => "active"
    case _ => Lifecycle.OPEN
  }

  /** The sections of a research stub after its question, and the text each starts with. */
  const STUB := [("Method", "Pending."), ("Result", "Pending."),
                 ("Limitations", "Not yet run."), ("Next", "Await dispatch.")]

  /** The section of a hypothesis after its claim, and that of a theory after what it says. */
  const REFUTATION := [("What would refute it", "To be specified before testing.")]
  const LIMITS := [("Where it stops", "Scope and limitations remain to be specified.")]

  function Block(name: string, text: string): string {
    "## " + name + "\n" + ("\n" + (text + "\n"))
  }

  /** Sections with a blank line between them. */
  function Blocks(sections: seq<(string, string)>): string
    requires sections != []
  {
    var block := Block(sections[0].0, sections[0].1);
    if |sections| == 1 then block else block + ("\n" + Blocks(sections[1..]))
  }

  /** What follows the heading. */
  function NewSections(kind: Kind, body: string): string {
    match kind
    case Question => "\n## The question\n\n" + body + "\n"
    case Hypothesis => "\n## The claim\n\n" + body + "\n" + ("\n" + Blocks(REFUTATION))
    case Theory => "\n## What it says\n\n" + body + "\n" + ("\n" + Blocks(LIMITS))
    case Research => "\n## Question\n\n" + body + "\n" + ("\n" + Blocks(STUB))
  }

  function NewBody(id: RecordId, title: string, body: string): string
    requires id.number < 1000
  {
    "\n" + Lifecycle.Heading(id, title) + "\n" + NewSections(id.kind, body)
  }

  /** A new record's heading follows a change of its title, and nothing else of it moves. */
  lemma NewBodyFollowsTitle(id: RecordId, title: string, next: string, body: string)
    requires id.number < 1000 && Lifecycle.OneLineTitle(title)
    ensures Lifecycle.Retitled(NewBody(id, title, body), Lifecycle.Heading(id, title), Lifecycle.Heading(id, next))
         == NewBody(id, next, body)
  {
    hide Lifecycle.Retitled, Lifecycle.Heading, NewSections;
    Lifecycle.HeadingFollowsTitle(id, title, next, NewSections(id.kind, body));
  }

  /** `ascii` is the transliterated title. */
  function NewMetadata(id: RecordId, title: string, ascii: string, tags: seq<string>,
                       derivedFrom: seq<RecordId>, today: string): Metadata
  {
    Metadata(id, title, DeclaredSlug(title, NewSlug(ascii)), InitialStatus(id.kind), tags,
             derivedFrom, [], [], [], [],
             if id.kind == Hypothesis then Some(1) else None, [], None, today, today)
  }

  function NewPath(id: RecordId, ascii: string): Path {
    RecordFile(id, NewSlug(ascii))
  }

  /** The path of a new record splits back into its id and a slug of at most 60 characters. */
  lemma NewPathParses(id: RecordId, ascii: string)
    requires id.number < 1000
    ensures var slug := NewPath(id, ascii).slug;
            && ParseRecordName(id.kind, RecordName(id, slug, IsDirectory(id.kind)), IsDirectory(id.kind))
               == Some((id, slug))
            && ValidSlug(slug) && |slug| <= MAX_SLUG
  {
    hide ParseRecordName, RecordName;
    NewSlugIsAccepted("", ascii);
    RecordNameParses(id, NewSlug(ascii), IsDirectory(id.kind));
  }

  function NewRecord(id: RecordId, title: string, ascii: string, body: string, tags: seq<string>,
                     derivedFrom: seq<RecordId>, today: string): Content
    requires id.number < 1000
  {
    Rendered(NewMetadata(id, title, ascii, tags, derivedFrom, today), NewBody(id, title, body))
  }

  /** Whatever its title, a new record decodes under its own name, starts a good history
      and refers only to the records it derives from. */
  lemma NewRecordIsGood(id: RecordId, title: string, ascii: string, body: string, tags: seq<string>,
                        derivedFrom: seq<RecordId>, today: string)
    requires id.number < 1000
    ensures var path := NewPath(id, ascii);
            var content := NewRecord(id, title, ascii, body, tags, derivedFrom, today);
            && Decodes(path, content) && Lifecycle.GoodRecord(RecordAt(path, content))
            && content.meta.derivedFrom == derivedFrom && content.meta.assessments == []
            && content.meta.answeredBy == content.meta.tests == content.meta.claims == content.meta.supersedes == []
  {
    NewSlugIsAccepted(title, ascii);
  }

  // ---- What a new record says, in full --------------------------------------

  /** A new record of a kind: what its request says, on the day it was made, in the text of
      that kind. */
  predicate StartsAs(id: RecordId, slug: string, title: string, body: string, tags: seq<string>,
                     derivedFrom: seq<RecordId>, today: string, content: Content)
    requires id.number < 1000
  {
    && content.Document? && content.form == CANONICAL
    && content.meta.(slug := None)
       == Metadata(id, title, None,
                   match id.kind { case Research => "planned" case Theory => "active" case _ => "open" },
                   tags, derivedFrom, [], [], [], [],
                   match id.kind { case Hypothesis => Some(1) case _ => None }, [], None, today, today)
    && content.meta.slug == (if Kebab(title) == slug then None else Some(slug))
    && content.raw == "\n# " + IdText(id) + " \U{2014} " + title + "\n\n" + FirstSection(id.kind) + "\n\n" + body + "\n"
                      + Appended(LaterSections(id.kind))
  }

  function FirstSection(kind: Kind): string {
    match kind
    case Question => "## The question"
    case Hypothesis => "## The claim"
    case Theory => "## What it says"
    case Research => "## Question"
  }

  function LaterSections(kind: Kind): seq<(string, string)> {
    match kind
    case Question => []
    case Hypothesis => [("What would refute it", "To be specified before testing.")]
    case Theory => [("Where it stops", "Scope and limitations remain to be specified.")]
    case Research => [("Method", "Pending."), ("Result", "Pending."),
                      ("Limitations", "Not yet run."), ("Next", "Await dispatch.")]
  }

  /** Each section after a blank line: its heading, a blank line and its text. */
  function Appended(sections: seq<(string, string)>): string {
    if sections == [] then ""
    else "\n## " + sections[0].0 + "\n\n" + sections[0].1 + "\n" + Appended(sections[1..])
  }

  lemma {:induction false} BlocksAreAppended(sections: seq<(string, string)>)
    requires sections != []
    ensures "\n" + Blocks(sections) == Appended(sections)
  {
    hide Block;
    var (name, text) := sections[0];
    BlockIs(name, text);
    if |sections| > 1 {
      BlocksAreAppended(sections[1..]);
      assert "\n" + (Block(name, text) + ("\n" + Blocks(sections[1..])))
          == "\n" + Block(name, text) + Appended(sections[1..]);
    } else {
      assert sections[1..] == [] && Appended([]) == "";
    }
  }

  lemma BlockIs(name: string, text: string)
    ensures "\n" + Block(name, text) == "\n## " + name + "\n\n" + text + "\n"
  {
    assert "\n" + "## " == "\n## " && "\n" + "\n" == "\n\n";
  }

  lemma NewSectionsAre(kind: Kind, body: string)
    ensures NewSections(kind, body)
         == "\n" + FirstSection(kind) + "\n\n" + body + "\n" + Appended(LaterSections(kind))
  {
    hide Blocks, Appended;
    FirstSectionOpens(kind);
    NothingAppended();
    BlocksAreAppended(REFUTATION);
    BlocksAreAppended(LIMITS);
    BlocksAreAppended(STUB);
  }

  lemma NothingAppended()
    ensures Appended([]) == ""
  {
  }

  lemma FirstSectionOpens(kind: Kind)
    ensures "\n" + FirstSection(kind) + "\n\n" ==
            match kind
            case Question => "\n## The question\n\n"
            case Hypothesis => "\n## The claim\n\n"
            case Theory => "\n## What it says\n\n"
            case Research => "\n## Question\n\n"
  {
  }

  lemma NewBodyIs(id: RecordId, title: string, body: string)
    requires id.number < 1000
    ensures NewBody(id, title, body)
         == "\n# " + IdText(id) + " \U{2014} " + title + "\n\n" + FirstSection(id.kind) + "\n\n" + body + "\n"
            + Appended(LaterSections(id.kind))
  {
    hide IdText, NewSections, FirstSection, LaterSections, Appended;
    NewSectionsAre(id.kind, body);
    var sections := FirstSection(id.kind) + "\n\n" + body + "\n" + Appended(LaterSections(id.kind));
    assert NewSections(id.kind, body) == "\n" + sections;
    var name := IdText(id) + " \U{2014} " + title;
    assert Lifecycle.Heading(id, title) == "# " + name;
    Around(name, sections);
  }

  lemma Around(name: string, sections: string)
    ensures "\n" + ("# " + name) + "\n" + ("\n" + sections) == "\n# " + name + "\n\n" + sections
  {
    assert "\n" + "# " == "\n# ";
  }

  lemma NewRecordStarts(id: RecordId, title: string, ascii: string, body: string, tags: seq<string>,
                        derivedFrom: seq<RecordId>, today: string)
    requires id.number < 1000
    ensures StartsAs(id, NewSlug(ascii), title, body, tags, derivedFrom, today,
                     NewRecord(id, title, ascii, body, tags, derivedFrom, today))
  {
    hide NewBody, IdText, FirstSection, LaterSections, Appended, NewSlug, Kebab;
    NewBodyIs(id, title, body);
  }
}
