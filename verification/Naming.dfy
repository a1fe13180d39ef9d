/** Record identifiers, slugs and file names (`record.rs`, `edit.rs`). */
module Naming {
  import opened Basics

  datatype Kind = Question | Hypothesis | Theory | Research

  datatype RecordId = RecordId(kind: Kind, number: nat)

  // ---- Slugs ----------------------------------------------------------------

  predicate IsLower(c: char) { 'a' <= c <= 'z' }

  predicate IsUpper(c: char) { 'A' <= c <= 'Z' }

  predicate IsDigit(c: char) { '0' <= c <= '9' }

  predicate IsSlugChar(c: char) { IsLower(c) || IsDigit(c) || c == '-' }

  /** A lowercase slug of letters, digits and single inner hyphens. */
  predicate ValidSlug(slug: string) {
    && slug != ""
    && slug[0] != '-'
    && slug[|slug| - 1] != '-'
    && (forall i :: 0 <= i < |slug| ==> IsSlugChar(slug[i]))
    && (forall i :: 0 < i < |slug| ==> !(slug[i - 1] == '-' && slug[i] == '-'))
  }

  predicate EndsWithHyphen(s: string) { s != "" && s[|s| - 1] == '-' }

  /** One turn of the kebab loop. A non-ASCII character is several bytes, none of
      them a letter or digit, so it adds at most one hyphen, as one `char` does here. */
  function KebabStep(slug: string, c: char): string {
    if IsLower(c) || IsDigit(c) then slug + [c]
    else if IsUpper(c) then slug + [c - 'A' + 'a']
    else if EndsWithHyphen(slug) then slug
    else slug + ['-']
  }

  function KebabRaw(title: string): string {
    if title == "" then "" else KebabStep(KebabRaw(title[..|title| - 1]), title[|title| - 1])
  }

  function TrimStart(s: string): string {
    if s != "" && s[0] == '-' then TrimStart(s[1..]) else s
  }

  function TrimEnd(s: string): string {
    if EndsWithHyphen(s) then TrimEnd(s[..|s| - 1]) else s
  }

  function Kebab(title: string): string {
    TrimEnd(TrimStart(KebabRaw(title)))
  }

  method ComputeKebab(title: string) returns (slug: string)
    ensures slug == Kebab(title)
  {
    slug := "";
    for i := 0 to |title|
      invariant slug == KebabRaw(title[..i])
    {
      assert title[..i + 1][..i] == title[..i];
      var c := title[i];
      if IsLower(c) || IsDigit(c) {
        slug := slug + [c];
      } else if IsUpper(c) {
        slug := slug + [c - 'A' + 'a'];
      } else if !EndsWithHyphen(slug) {
        slug := slug + ['-'];
      }
    }
    assert title[..|title|] == title;
    slug := TrimEnd(TrimStart(slug));
  }

  /** Slug characters with no doubled hyphen: what the kebab loop keeps true. */
  predicate Hyphenated(s: string) {
    && (forall i :: 0 <= i < |s| ==> IsSlugChar(s[i]))
    && (forall i :: 0 < i < |s| ==> !(s[i - 1] == '-' && s[i] == '-'))
  }

  lemma {:induction false} KebabRawIsHyphenated(title: string)
    ensures Hyphenated(KebabRaw(title))
  {
    if title != "" {
      KebabRawIsHyphenated(title[..|title| - 1]);
    }
  }

  lemma {:induction false} TrimStartKeeps(s: string)
    requires Hyphenated(s)
    ensures Hyphenated(TrimStart(s))
    ensures TrimStart(s) != "" ==> TrimStart(s)[0] != '-'
  {
    if s != "" && s[0] == '-' {
      TrimStartKeeps(s[1..]);
    }
  }

  lemma {:induction false} TrimEndKeeps(s: string)
    ensures TrimEnd(s) <= s
    ensures !EndsWithHyphen(TrimEnd(s))
    ensures s != "" && s[0] != '-' ==> TrimEnd(s) != ""
  {
    if EndsWithHyphen(s) {
      TrimEndKeeps(s[..|s| - 1]);
    }
  }

  /** The kebab case of any title is empty or a valid slug. */
  lemma KebabIsValid(title: string)
    ensures Kebab(title) == "" || ValidSlug(Kebab(title))
  {
    KebabRawIsHyphenated(title);
    var front := TrimStart(KebabRaw(title));
    TrimStartKeeps(KebabRaw(title));
    TrimEndKeeps(front);
    assert forall i :: 0 <= i < |Kebab(title)| ==> Kebab(title)[i] == front[i];
  }

  lemma {:induction false} KebabRawOfSlug(s: string)
    requires Hyphenated(s)
    ensures KebabRaw(s) == s
  {
    if s != "" {
      var front := s[..|s| - 1];
      KebabRawOfSlug(front);
      assert s == front + [s[|s| - 1]];
      assert EndsWithHyphen(front) ==> front[|front| - 1] == s[|s| - 2];
    }
  }

  /** A valid slug is its own kebab case, so kebab case is a projection onto slugs. */
  lemma KebabOfSlug(s: string)
    requires ValidSlug(s)
    ensures Kebab(s) == s
  {
    KebabRawOfSlug(s);
  }

  /** A title's ASCII letters and digits, in lower case. */
  function Letters(title: string): string {
    if title == "" then ""
    else Letters(title[..|title| - 1]) + Letter(title[|title| - 1])
  }

  function Letter(c: char): string {
    if IsLower(c) || IsDigit(c) then [c] else if IsUpper(c) then [c - 'A' + 'a'] else ""
  }

  function NoHyphens(s: string): string {
    if s == "" then "" else NoHyphens(s[..|s| - 1]) + if s[|s| - 1] == '-' then "" else [s[|s| - 1]]
  }

  lemma NoHyphensOfStep(s: string, c: char)
    ensures NoHyphens(s + [c]) == NoHyphens(s) + if c == '-' then "" else [c]
  {
    assert (s + [c])[..|s|] == s;
  }

  lemma NoHyphensOfNothing()
    ensures NoHyphens("") == ""
  {
  }

  lemma StepKeepsLetter(slug: string, c: char)
    ensures NoHyphens(KebabStep(slug, c)) == NoHyphens(slug) + Letter(c)
  {
    hide NoHyphens;
    NoHyphensOfStep(slug, if IsUpper(c) then c - 'A' + 'a' else c);
    NoHyphensOfStep(slug, '-');
    assert NoHyphens(slug) + "" == NoHyphens(slug);
  }

  lemma {:induction false} KebabRawKeepsLetters(title: string)
    ensures NoHyphens(KebabRaw(title)) == Letters(title)
  {
    hide NoHyphens, KebabStep, Letter;
    if title == "" {
      NoHyphensOfNothing();
    } else {
      var front, c := title[..|title| - 1], title[|title| - 1];
      KebabRawKeepsLetters(front);
      StepKeepsLetter(KebabRaw(front), c);
    }
  }

  lemma {:induction false} NoHyphensOfTrimEnd(s: string)
    ensures NoHyphens(TrimEnd(s)) == NoHyphens(s)
  {
    if EndsWithHyphen(s) {
      NoHyphensOfTrimEnd(s[..|s| - 1]);
    }
  }

  lemma {:induction false} NoHyphensOfTail(s: string)
    requires s != "" && s[0] == '-'
    ensures NoHyphens(s[1..]) == NoHyphens(s)
  {
    if |s| > 1 {
      var front := s[..|s| - 1];
      NoHyphensOfTail(front);
      assert s[1..][..|s| - 2] == front[1..];
    }
  }

  lemma {:induction false} NoHyphensOfTrimStart(s: string)
    ensures NoHyphens(TrimStart(s)) == NoHyphens(s)
  {
    if s != "" && s[0] == '-' {
      NoHyphensOfTrimStart(s[1..]);
      NoHyphensOfTail(s);
    }
  }

  /** Apart from its hyphens, the kebab case is the title's letters and digits, in order. */
  lemma KebabKeepsLetters(title: string)
    ensures NoHyphens(Kebab(title)) == Letters(title)
  {
    hide NoHyphens;
    KebabRawKeepsLetters(title);
    NoHyphensOfTrimStart(KebabRaw(title));
    NoHyphensOfTrimEnd(TrimStart(KebabRaw(title)));
  }

  const UNTITLED := "untitled"

  /** The path slug of a new record; `ascii` is the transliterated title. */
  function SlugFor(ascii: string): string {
    if Kebab(ascii) == "" then UNTITLED else Kebab(ascii)
  }

  const MAX_SLUG: nat := 60

  /** The position after the last `c` in `s`, or 0. */
  function AfterLast(s: string, c: char): (i: nat)
    ensures i <= |s| && c !in s[i..] && (0 < i ==> s[i - 1] == c)
  {
    if s == "" then 0
    else if s[|s| - 1] == c then |s|
    else
      var i := AfterLast(s[..|s| - 1], c);
      assert s[i..] == s[..|s| - 1][i..] + [s[|s| - 1]];
      i
  }

  /** Everything before the last `c`, or all of `s` when it has none. */
  function BeforeLast(s: string, c: char): string {
    var i := AfterLast(s, c);
    if i == 0 then s else s[..i - 1]
  }

  /** Long slugs are cut at a word boundary. */
  function CappedSlug(slug: string): string {
    if |slug| <= MAX_SLUG then slug else TrimEnd(BeforeLast(slug[..MAX_SLUG], '-'))
  }

  lemma CappedSlugIsValid(slug: string)
    requires ValidSlug(slug)
    ensures ValidSlug(CappedSlug(slug))
    ensures |CappedSlug(slug)| <= MAX_SLUG
    ensures CappedSlug(slug) <= slug
  {
    if |slug| > MAX_SLUG {
      var head := slug[..MAX_SLUG];
      TrimEndKeeps(BeforeLast(head, '-'));
      assert CappedSlug(slug) <= BeforeLast(head, '-') <= head <= slug;
      assert forall i :: 0 <= i < |CappedSlug(slug)| ==> CappedSlug(slug)[i] == slug[i];
    }
  }

  /** The rule `decode_record` applies: a declared slug equals the path's slug;
      without one, the title's kebab case does. */
  predicate SlugAgrees(title: string, declared: Option<string>, slug: string) {
    match declared
    case Some(s) => s == slug
    case None => Kebab(title) == slug
  }

  function NewSlug(ascii: string): string {
    CappedSlug(SlugFor(ascii))
  }

  function DeclaredSlug(title: string, slug: string): Option<string> {
    if slug != Kebab(title) then Some(slug) else None
  }

  /** Whatever the title and its transliteration are, a new record's slug is a
      valid file-name slug of at most 60 characters and its frontmatter agrees with it. */
  lemma NewSlugIsAccepted(title: string, ascii: string)
    ensures ValidSlug(NewSlug(ascii))
    ensures |NewSlug(ascii)| <= MAX_SLUG
    ensures SlugAgrees(title, DeclaredSlug(title, NewSlug(ascii)), NewSlug(ascii))
  {
    KebabIsValid(ascii);
    CappedSlugIsValid(SlugFor(ascii));
  }

  /** Where a new slug ends: a short one is kept, and a long one is cut before the last hyphen
      of its first 60 characters, or at the 60th when they have none. */
  lemma NewSlugIs(ascii: string)
    ensures var slug, full := NewSlug(ascii), if Kebab(ascii) == "" then "untitled" else Kebab(ascii);
            && slug <= full
            && (|full| <= 60 ==> slug == full)
            && (|full| > 60 && '-' !in full[..60] ==> |slug| == 60)
            && (|full| > 60 && '-' in full[..60] ==>
                  |slug| < 60 && full[|slug|] == '-' && '-' !in full[|slug| + 1..60])
  {
    KebabIsValid(ascii);
    var full := SlugFor(ascii);
    CappedSlugIsValid(full);
    if |full| > MAX_SLUG {
      var head := full[..MAX_SLUG];
      var cut := BeforeLast(head, '-');
      assert cut != "" && cut[|cut| - 1] == full[|cut| - 1];
      if '-' in head {
        var i := AfterLast(head, '-');
        assert head[i..] == full[i..60] && full[i - 1] == '-' && |cut| == i - 1;
        assert !EndsWithHyphen(cut) && TrimEnd(cut) == cut;
      } else {
        assert AfterLast(head, '-') == 0 && !EndsWithHyphen(cut);
      }
    }
  }

  // ---- Identifiers and names ------------------------------------------------

  function KindLetter(kind: Kind): char {
    match kind
    case Question => 'Q'
    case Hypothesis => 'H'
    case Theory => 'T'
    case Research => 'R'
  }

  predicate IsDirectory(kind: Kind) { kind == Research }

  function DigitChar(d: nat): char
    requires d < 10
  {
    '0' + d as char
  }

  function DigitValue(c: char): nat
    requires IsDigit(c)
  {
    (c as int) - ('0' as int)
  }

  /** `Q007`: the kind letter and the number in three digits. */
  function IdText(id: RecordId): string
    requires id.number < 1000
  {
    [KindLetter(id.kind), DigitChar(id.number / 100), DigitChar(id.number / 10 % 10), DigitChar(id.number % 10)]
  }

  function ParseId(kind: Kind, text: string): Option<RecordId> {
    if |text| == 4 && text[0] == KindLetter(kind) && IsDigit(text[1]) && IsDigit(text[2]) && IsDigit(text[3]) then
      Some(RecordId(kind, 100 * DigitValue(text[1]) + 10 * DigitValue(text[2]) + DigitValue(text[3])))
    else
      None
  }

  /** The position of the first `c` in `s`, or `|s|`. */
  function FirstIndex(s: string, c: char): (i: nat)
    ensures i <= |s| && (i < |s| ==> s[i] == c) && c !in s[..i]
  {
    if s == "" || s[0] == c then 0 else
    assert forall j :: 0 <= j < FirstIndex(s[1..], c) ==> s[1..][j] == s[j + 1];
    1 + FirstIndex(s[1..], c)
  }

  const EXTENSION := ".md"

  function StripSuffix(s: string, suffix: string): Option<string> {
    if |suffix| <= |s| && s[|s| - |suffix|..] == suffix then Some(s[..|s| - |suffix|]) else None
  }

  /** Split `Q001-short-slug.md`, or the directory `R001-short-slug`. */
  function ParseRecordName(kind: Kind, name: string, directory: bool): Option<(RecordId, string)> {
    match if directory then Some(name) else StripSuffix(name, EXTENSION)
    case None => None
    case Some(stem) =>
      var hyphen := FirstIndex(stem, '-');
      if hyphen == |stem| then None else
      match ParseId(kind, stem[..hyphen])
      case None => None
      case Some(id) =>
        var slug := stem[hyphen + 1..];
        if ValidSlug(slug) then Some((id, slug)) else None
  }

  function RecordName(id: RecordId, slug: string, directory: bool): string
    requires id.number < 1000
  {
    if directory then IdText(id) + "-" + slug else IdText(id) + "-" + slug + EXTENSION
  }

  lemma IdTextRoundTrip(id: RecordId)
    requires id.number < 1000
    ensures ParseId(id.kind, IdText(id)) == Some(id)
    ensures '-' !in IdText(id)
  {
    var n := id.number;
    assert n == 100 * (n / 100) + 10 * (n / 10 % 10) + n % 10;
  }

  lemma ParsedIdIsText(kind: Kind, text: string)
    requires ParseId(kind, text).Some?
    ensures var id := ParseId(kind, text).value; id.kind == kind && id.number < 1000 && IdText(id) == text
  {
    DigitsOf(DigitValue(text[1]), DigitValue(text[2]), DigitValue(text[3]));
  }

  lemma DigitsOf(a: nat, b: nat, c: nat)
    requires a < 10 && b < 10 && c < 10
    ensures var n := 100 * a + 10 * b + c; n / 100 == a && n / 10 % 10 == b && n % 10 == c
  {
    assert (100 * a + 10 * b + c) / 10 == 10 * a + b;
  }

  /** A record's file is named by its kind's letter, its number in three digits and its slug;
      research records are directories. */
  lemma NamesOfKinds(id: RecordId, slug: string)
    requires id.number < 1000
    ensures var text := IdText(id);
            && |text| == 4
            && text[0] == (match id.kind
                           case Question => 'Q' case Hypothesis => 'H' case Theory => 'T' case Research => 'R')
            && '0' <= text[1] <= '9' && '0' <= text[2] <= '9' && '0' <= text[3] <= '9'
            && id.number == 100 * (text[1] as int - 48) + 10 * (text[2] as int - 48) + (text[3] as int - 48)
            && RecordName(id, slug, IsDirectory(id.kind))
               == text + "-" + slug + if id.kind == Research then "" else ".md"
  {
    var n := id.number;
    assert n == 100 * (n / 100) + 10 * (n / 10 % 10) + n % 10;
  }

  lemma FirstIndexOfHead(head: string, c: char, tail: string)
    requires c !in head
    ensures FirstIndex(head + [c] + tail, c) == |head|
  {
    var s := head + [c] + tail;
    assert forall j :: 0 <= j < |head| ==> s[j] == head[j];
    forall j | |head| < j <= |s| ensures c in s[..j] {
      assert s[..j][|head|] == c;
    }
  }

  /** Splitting the name a record is written under gives back its id and slug. */
  lemma RecordNameParses(id: RecordId, slug: string, directory: bool)
    requires id.number < 1000 && ValidSlug(slug)
    ensures ParseRecordName(id.kind, RecordName(id, slug, directory), directory) == Some((id, slug))
  {
    var stem := IdText(id) + "-" + slug;
    var name := RecordName(id, slug, directory);
    if !directory {
      assert name[|name| - 3..] == EXTENSION && name[..|name| - 3] == stem;
    } else {
      assert name == stem;
    }
    IdTextRoundTrip(id);
    StemHasSlug(id, slug);
    assert stem[..4] == IdText(id);
  }

  /** Nothing else splits: an accepted name is exactly the one written for its id and slug. */
  lemma ParsedNameIsRecordName(kind: Kind, name: string, directory: bool)
    requires ParseRecordName(kind, name, directory).Some?
    ensures var (id, slug) := ParseRecordName(kind, name, directory).value;
            && id.kind == kind && id.number < 1000 && ValidSlug(slug)
            && name == RecordName(id, slug, directory)
  {
    var (id, slug) := ParseRecordName(kind, name, directory).value;
    var stem := if directory then name else StripSuffix(name, EXTENSION).value;
    var hyphen := FirstIndex(stem, '-');
    var text := stem[..hyphen];
    assert stem == text + "-" + slug;
    ParsedIdIsText(kind, text);
    if !directory {
      Stripped(name, EXTENSION);
    }
  }

  lemma Stripped(s: string, suffix: string)
    requires StripSuffix(s, suffix).Some?
    ensures s == StripSuffix(s, suffix).value + suffix
  {
  }

  // ---- The slug frozen in a path --------------------------------------------

  function FileName(path: string): string { path[AfterLast(path, '/')..] }

  function Parent(path: string): string {
    if AfterLast(path, '/') == 0 then "" else BeforeLast(path, '/')
  }

  /** The file name without its last extension; a leading dot starts none. */
  function FileStem(name: string): string {
    if AfterLast(name, '.') <= 1 then name else BeforeLast(name, '.')
  }

  function FrozenSlug(path: string): Option<string> {
    var name := if FileName(path) == "README.md" then FileName(Parent(path)) else FileStem(FileName(path));
    var hyphen := FirstIndex(name, '-');
    if hyphen == |name| then None else Some(name[hyphen + 1..])
  }

  /** Where `scaffold` puts a new record below its owner directory. */
  function PathText(directory: string, id: RecordId, slug: string): string
    requires id.number < 1000
  {
    var file := directory + "/" + RecordName(id, slug, IsDirectory(id.kind));
    if IsDirectory(id.kind) then file + "/" + "README.md" else file
  }

  lemma {:induction false} AfterLastOfTail(head: string, c: char, tail: string)
    requires c !in tail
    ensures AfterLast(head + [c] + tail, c) == |head| + 1
  {
    var s := head + [c] + tail;
    if tail != "" {
      AfterLastOfTail(head, c, tail[..|tail| - 1]);
      assert s[..|s| - 1] == head + [c] + tail[..|tail| - 1];
    }
  }

  /** `edit.rs` reads back from a record's path the slug `scaffold` froze in it. */
  lemma FrozenSlugOfPath(directory: string, id: RecordId, slug: string)
    requires id.number < 1000 && ValidSlug(slug)
    ensures FrozenSlug(PathText(directory, id, slug)) == Some(slug)
  {
    var stem := IdText(id) + "-" + slug;
    StemIsPlain(id, slug);
    StemHasSlug(id, slug);
    FrozenSlugOfStem(directory, stem, slug);
  }

  lemma FrozenSlugOfStem(directory: string, stem: string, slug: string)
    requires '/' !in stem && '.' !in stem
    requires FirstIndex(stem, '-') == 4 && 4 < |stem| && stem[5..] == slug
    ensures FrozenSlug(directory + "/" + stem + "/" + "README.md") == Some(slug)
    ensures stem[0] != 'R' ==> FrozenSlug(directory + "/" + (stem + EXTENSION)) == Some(slug)
  {
    hide FirstIndex, FileStem, FileName, Parent;
    FileNameOf(directory, stem);
    FileNameOf(directory + "/" + stem, "README.md");
    FileNameOf(directory, stem + EXTENSION);
    FileStemOf(stem);
    assert (stem + EXTENSION)[0] == stem[0];
  }

  lemma StemIsPlain(id: RecordId, slug: string)
    requires id.number < 1000 && ValidSlug(slug)
    ensures var stem := IdText(id) + "-" + slug; '/' !in stem && '.' !in stem
  {
    var stem := IdText(id) + "-" + slug;
    forall i | 0 <= i < |stem| ensures stem[i] != '/' && stem[i] != '.' {
      if i > 4 { assert stem[i] == slug[i - 5]; }
    }
  }

  lemma FileStemOf(stem: string)
    requires '.' !in stem && stem != ""
    ensures FileStem(stem + EXTENSION) == stem
  {
    assert stem + EXTENSION == stem + "." + "md";
    AfterLastOfTail(stem, '.', "md");
  }

  lemma FileNameOf(parent: string, name: string)
    requires '/' !in name
    ensures FileName(parent + "/" + name) == name
    ensures Parent(parent + "/" + name) == parent
  {
    AfterLastOfTail(parent, '/', name);
  }

  lemma StemHasSlug(id: RecordId, slug: string)
    requires id.number < 1000
    ensures var stem := IdText(id) + "-" + slug;
            FirstIndex(stem, '-') == 4 && stem[5..] == slug
  {
    IdTextRoundTrip(id);
    FirstIndexOfHead(IdText(id), '-', slug);
  }
}
