/**
 * The agent's two-tier memory: MEMORY.md holds long-term facts and is
 * overwritten whole; HISTORY.md is an append-only log of entries, each
 * followed by a blank line. A file is `None` while it does not exist.
 */
module Memory {
  import opened Wrappers
  import opened Text

  const ContextHeader := "## Long-term Memory\n"

  /** The text `append_history` writes for one entry: the entry without trailing whitespace, then a blank line. */
  function HistoryRecord(entry: string): string
  {
    RStrip(entry) + "\n\n"
  }

  /** A record is a prefix of the entry that does not end in whitespace, followed by a blank line. */
  lemma RecordShape(entry: string)
    ensures var r := HistoryRecord(entry);
      |r| >= 2 && r[|r| - 2..] == "\n\n" && r[..|r| - 2] <= entry
      && (r[..|r| - 2] == [] || !IsSpace(r[|r| - 3]))
  {
    var r := HistoryRecord(entry);
    assert r[..|r| - 2] == RStrip(entry);
  }

  /** The log text produced by appending `entries` in order. */
  function HistoryOf(entries: seq<string>): (r: string)
    ensures entries == [] ==> r == ""
  {
    if entries == [] then "" else HistoryRecord(entries[0]) + HistoryOf(entries[1..])
  }

  /** The log of two batches is the first batch's log followed by the second's. */
  lemma {:induction false} HistoryOfConcat(a: seq<string>, b: seq<string>)
    ensures HistoryOf(a + b) == HistoryOf(a) + HistoryOf(b)
  {
    if a == [] {
      assert a + b == b;
    } else {
      assert (a + b)[0] == a[0] && (a + b)[1..] == a[1..] + b;
      HistoryOfConcat(a[1..], b);
      calc {
        HistoryOf(a + b);
        HistoryRecord(a[0]) + HistoryOf(a[1..] + b);
        HistoryRecord(a[0]) + (HistoryOf(a[1..]) + HistoryOf(b));
        (HistoryRecord(a[0]) + HistoryOf(a[1..])) + HistoryOf(b);
      }
    }
  }

  /** Appending one entry extends the log by exactly that entry's record. */
  lemma HistoryOfAppend(entries: seq<string>, entry: string)
    ensures HistoryOf(entries + [entry]) == HistoryOf(entries) + HistoryRecord(entry)
  {
    HistoryOfConcat(entries, [entry]);
    assert HistoryOf([entry]) == HistoryRecord(entry) + HistoryOf([]);
  }

  /**
   * Every appended entry stays in the log, in order: the `k`-th record starts
   * right after the records of the entries before it.
   */
  lemma RecordsInOrder(entries: seq<string>, k: int)
    requires 0 <= k < |entries|
    ensures OccursAt(HistoryOf(entries), HistoryRecord(entries[k]), |HistoryOf(entries[..k])|)
  {
    assert entries == entries[..k] + entries[k..];
    HistoryOfConcat(entries[..k], entries[k..]);
    var rest := HistoryOf(entries[k..]);
    assert rest == HistoryRecord(entries[k]) + HistoryOf(entries[k + 1..]) by {
      assert entries[k..][1..] == entries[k + 1..];
    }
  }

  /** `get_memory_context`'s text for a given long-term memory. */
  function MemoryContext(longTerm: string): (r: string)
    ensures r == "" <==> longTerm == ""
    ensures longTerm != "" ==> ContextHeader <= r && r[|ContextHeader|..] == longTerm
  {
    if longTerm != "" then ContextHeader + longTerm else ""
  }

  class MemoryStore {
    /** MEMORY.md. */
    var memoryFile: Option<string>
    /** HISTORY.md. */
    var historyFile: Option<string>
    /** HISTORY.md's content when the store was opened. */
    ghost const initialHistory: string
    /** The entries appended since. */
    ghost var entries: seq<string>

    /** The log is its initial content followed by the records of the appended entries. */
    ghost predicate Valid()
      reads this
    {
      historyFile.GetOr("") == initialHistory + HistoryOf(entries)
      && (historyFile.None? ==> entries == [])
    }

    /** Opens the store over whatever MEMORY.md and HISTORY.md already hold. */
    constructor(memory: Option<string>, history: Option<string>)
      ensures memoryFile == memory && historyFile == history
      ensures initialHistory == history.GetOr("") && entries == []
      ensures Valid()
    {
      memoryFile := memory;
      historyFile := history;
      initialHistory := history.GetOr("");
      entries := [];
    }

    /**
     * `read_long_term`: the content of MEMORY.md as text mode reads it, with
     * universal newlines, or "" when it is missing.
     */
    method ReadLongTerm() returns (r: string)
      ensures memoryFile.Some? ==> r == UniversalNewlines(memoryFile.value)
      ensures memoryFile.None? ==> r == ""
    {
      if memoryFile.Some? {
        r := UniversalNewlines(memoryFile.value);
      } else {
        r := "";
      }
    }

    /** `write_long_term`: MEMORY.md becomes exactly `content`; the log is untouched. */
    method WriteLongTerm(content: string)
      requires Valid()
      modifies this
      ensures Valid()
      ensures memoryFile == Some(content)
      ensures historyFile == old(historyFile) && entries == old(entries)
    {
      memoryFile := Some(content);
    }

    /**
     * `append_history`: the log (created if missing) gains the entry's record at
     * its end, so the old log is a prefix of the new one; MEMORY.md is untouched.
     */
    method AppendHistory(entry: string)
      requires Valid()
      modifies this
      ensures Valid()
      ensures historyFile == Some(old(historyFile).GetOr("") + HistoryRecord(entry))
      ensures old(historyFile).GetOr("") <= historyFile.value
      ensures memoryFile == old(memoryFile)
      ensures entries == old(entries) + [entry]
    {
      HistoryOfAppend(entries, entry);
      historyFile := Some(historyFile.GetOr("") + HistoryRecord(entry));
      entries := entries + [entry];
    }

    /** `get_memory_context`: "" without long-term memory, else the header followed by it as read. */
    method GetMemoryContext() returns (r: string)
      ensures r == MemoryContext(UniversalNewlines(memoryFile.GetOr("")))
    {
      var longTerm := ReadLongTerm();
      if longTerm != "" {
        r := ContextHeader + longTerm;
      } else {
        r := "";
      }
    }
  }

  /**
   * Writing long-term memory and reading it back returns what was written,
   * with its line endings read as "\n": exactly what was written when it
   * holds no carriage return.
   */
  method WriteThenRead(content: string) returns (r: string)
    ensures r == UniversalNewlines(content)
    ensures '\r' !in content ==> r == content
  {
    var store := new MemoryStore(None, None);
    store.WriteLongTerm(content);
    r := store.ReadLongTerm();
    UniversalNewlinesFixedIff(content);
  }

  /** Two appends to a fresh log leave both entries, in order, each followed by a blank line. */
  method AppendTwoEntries() returns (log: string)
    ensures log == "entry one\n\nentry two\n\n"
  {
    var store := new MemoryStore(None, None);
    store.AppendHistory("entry one");
    store.AppendHistory("entry two");
    log := store.historyFile.value;
  }

  /** A fresh store without MEMORY.md contributes no memory context. */
  method EmptyContext() returns (r: string)
    ensures r == ""
  {
    var store := new MemoryStore(None, None);
    r := store.GetMemoryContext();
  }
}
