/** The positive-acceptance cache (`acceptance_cache.rs`) over names and contents. */
module AcceptanceCache {
  import opened Basics
  import opened Naming
  import Text

  /** One delivered result: its id, the task it names, and its README's blob. */
  datatype Item = Item(research: string, task: string, blob: string)

  /** A file in the cache directory: an entry that reads, or anything else. */
  datatype Stored = Entry(item: Item) | Junk

  predicate IsHex(c: char) { IsDigit(c) || 'a' <= c <= 'f' || 'A' <= c <= 'F' }

  predicate KeepsChar(c: char) { IsLower(c) || IsUpper(c) || IsDigit(c) || c == '-' || c == '.' }

  function Sanitized(task: string): (s: string)
    ensures |s| == |task|
  {
    seq(|task|, i requires 0 <= i < |task| => if KeepsChar(task[i]) then task[i] else '_')
  }

  /** `file_name`: characters a file name should not have are replaced, so names are lossy. */
  function CacheName(item: Item): Option<string> {
    if |item.research| == 4 && item.research[0] == 'R'
       && (forall i :: 1 <= i < 4 ==> IsDigit(item.research[i]))
       && 40 <= |item.blob| <= 64 && (forall i :: 0 <= i < |item.blob| ==> IsHex(item.blob[i]))
       && 1 <= Text.Utf8Length(item.task) <= 100
    then Some(item.research + "-" + Sanitized(item.task) + "-" + item.blob + ".json")
    else None
  }

  const HEX := "0123456789abcdefABCDEF"
  const SMALL := "abcdefghijklmnopqrstuvwxyz"
  const CAPITAL := "ABCDEFGHIJKLMNOPQRSTUVWXYZ"
  const DIGITS := "0123456789"

  lemma HexAre(c: char)
    ensures IsHex(c) <==> c in HEX
  {
  }

  lemma SmallAre(c: char)
    ensures IsLower(c) <==> c in SMALL
  {
  }

  lemma CapitalAre(c: char)
    ensures IsUpper(c) <==> c in CAPITAL
  {
  }

  lemma DigitsAre(c: char)
    ensures IsDigit(c) <==> c in DIGITS
  {
  }

  /** The characters a name may have. */
  predicate Kept(c: char) {
    c in SMALL || c in CAPITAL || c in DIGITS || c == '-' || c == '.'
  }

  lemma CharsAre(c: char)
    ensures IsHex(c) <==> c in HEX
    ensures KeepsChar(c) <==> Kept(c)
  {
    HexAre(c);
    SmallAre(c);
    CapitalAre(c);
    DigitsAre(c);
    hide IsHex, IsLower, IsUpper, IsDigit;
  }

  /** Exactly the results with a research id, a hexadecimal blob and a task of 1 to 100 bytes
      have a name: the three joined, with other characters of the task replaced. */
  lemma CacheNameIs(item: Item)
    ensures CacheName(item).Some? <==>
            && (exists n: nat :: n < 1000 && item.research == IdText(RecordId(Research, n)))
            && 40 <= |item.blob| <= 64 && (forall c | c in item.blob :: c in HEX)
            && 1 <= Text.Utf8Length(item.task) <= 100
    ensures CacheName(item).Some? ==>
              var task := seq(|item.task|, i requires 0 <= i < |item.task| =>
                                             if Kept(item.task[i]) then item.task[i] else '_');
              CacheName(item).value == item.research + "-" + task + "-" + item.blob + ".json"
  {
    forall c ensures (IsHex(c) <==> c in HEX) && (KeepsChar(c) <==> Kept(c)) {
      CharsAre(c);
    }
    hide IsHex, KeepsChar, Kept, IdText, Text.Utf8Length;
    assert (forall i :: 0 <= i < |item.blob| ==> IsHex(item.blob[i])) <==> forall c | c in item.blob :: c in HEX;
    ResearchIdIs(item.research);
    var task := seq(|item.task|, i requires 0 <= i < |item.task| => if Kept(item.task[i]) then item.task[i] else '_');
    assert task == Sanitized(item.task);
  }

  lemma ResearchIdIs(text: string)
    ensures (exists n: nat :: n < 1000 && text == IdText(RecordId(Research, n))) <==>
            |text| == 4 && text[0] == 'R' && forall i :: 1 <= i < 4 ==> IsDigit(text[i])
  {
    if |text| == 4 && text[0] == 'R' && forall i :: 1 <= i < 4 ==> IsDigit(text[i]) {
      assert KindLetter(Research) == 'R' && ParseId(Research, text).Some?;
      ParsedIdIsText(Research, text);
    }
    if n: nat :| n < 1000 && text == IdText(RecordId(Research, n)) {
      NamesOfKinds(RecordId(Research, n), "");
    }
  }

  /** The tasks are the same but for characters a file name should not have. */
  predicate Alike(a: string, b: string) {
    |a| == |b| && forall i :: 0 <= i < |a| ==> a[i] == b[i] || (!KeepsChar(a[i]) && !KeepsChar(b[i]))
  }

  lemma NameParts(item: Item)
    requires CacheName(item).Some?
    ensures var name, n, m := CacheName(item).value, |item.task|, |item.blob|;
            && |name| == n + m + 11
            && name[..4] == item.research && name[5..5 + n] == Sanitized(item.task)
            && name[5 + n] == '-' && name[6 + n..6 + n + m] == item.blob
    ensures '-' !in item.blob
  {
    hide Text.Utf8Length, Sanitized;
  }

  /** Names tell records and blobs apart, and tasks up to their replaced characters. */
  lemma NamesAreLossy(a: Item, b: Item)
    requires CacheName(a).Some? && CacheName(b).Some?
    ensures CacheName(a) == CacheName(b) <==> a.research == b.research && a.blob == b.blob && Alike(a.task, b.task)
  {
    NameParts(a);
    NameParts(b);
    SanitizedAlike(a.task, b.task);
    if CacheName(a) == CacheName(b) {
      hide CacheName, Sanitized, Alike;
      HyphensMeet(a, b);
      HyphensMeet(b, a);
    }
  }

  lemma SanitizedAlike(a: string, b: string)
    ensures Sanitized(a) == Sanitized(b) <==> Alike(a, b)
  {
    if Sanitized(a) == Sanitized(b) {
      forall i | 0 <= i < |a| ensures a[i] == b[i] || (!KeepsChar(a[i]) && !KeepsChar(b[i])) {
        assert Sanitized(a)[i] == Sanitized(b)[i];
      }
    }
  }

  /** A blob holds no hyphen, so the last one in a name ends the task. */
  lemma HyphensMeet(a: Item, b: Item)
    requires CacheName(a).Some? && CacheName(a) == CacheName(b)
    ensures |a.task| <= |b.task|
  {
    NameParts(a);
    NameParts(b);
    hide CacheName, Sanitized;
    var name, n, m := CacheName(b).value, |b.task|, |b.blob|;
    forall i | 6 + n <= i < 6 + n + m ensures name[i] != '-' {
      assert name[i] == b.blob[i - 6 - n];
    }
  }

  /** What the cache says of an item: its name holds exactly that item. */
  predicate Hit(entries: map<string, Stored>, item: Item) {
    && CacheName(item).Some?
    && CacheName(item).value in entries
    && entries[CacheName(item).value] == Entry(item)
  }

  /** `usable` is false where the state directory is missing, unprepared or a link; `failing`
      says that a write may fail. */
  class Cache {
    const usable: bool
    const failing: bool
    var entries: map<string, Stored>

    constructor (usable: bool, failing: bool, entries: map<string, Stored>)
      ensures this.usable == usable && this.failing == failing && this.entries == entries
    {
      this.usable, this.failing, this.entries := usable, failing, entries;
    }

    /** `is_accepted` trusts a file's content, not its name. */
    method IsAccepted(item: Item) returns (hit: bool)
      ensures hit <==> usable && Hit(entries, item)
    {
      var name := CacheName(item);
      if !usable || name.None? || name.value !in entries {
        return false;
      }
      return entries[name.value] == Entry(item);
    }

    /** `record`: best effort and write-once. */
    method Record(item: Item)
      modifies this
      ensures entries == old(entries)
              || (usable && CacheName(item).Some? && CacheName(item).value !in old(entries)
                  && entries == old(entries)[CacheName(item).value := Entry(item)])
      ensures usable && !failing && CacheName(item).Some? ==> CacheName(item).value in entries
    {
      var name := CacheName(item);
      if !usable || name.None? || name.value in entries {
        return;
      }
      var failed := *;
      if failing && failed {
        return;
      }
      entries := entries[name.value := Entry(item)];
    }
  }
}
