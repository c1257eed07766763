/** A journal book of the trie pruning journal: the entries recorded for one block, under
    that block's hash, with the flags the pruning logic sets on it. */
module Journal {
  import opened Common

  /** `JournalBook`; `Entry` stands for `JournalEntry`. */
  class JournalBook<Entry> {
    /** `BookHash`: fixed when the book is created. */
    const bookHash: Hash
    /** `_entries`, in the order they were recorded. */
    var entries: seq<Entry>
    /** `IsSealed` */
    var isSealed: bool
    /** `IsUnwound` */
    var isUnwound: bool

    constructor (hash: Hash)
      ensures bookHash == hash
      ensures entries == []
      ensures !isSealed && !isUnwound
    {
      bookHash := hash;
      isSealed := false;
      entries := [];
      isUnwound := false;
    }

    /** `Entries`: the recorded entries, oldest first. */
    function Entries(): (r: seq<Entry>)
      reads this
      ensures |r| == |entries|
      ensures forall i :: 0 <= i < |r| ==> r[i] == entries[i]
    {
      entries
    }

    /** `RecordEntry`: appends one entry; nothing checks whether the book is sealed. */
    method RecordEntry(entry: Entry)
      modifies this
      ensures entries == old(entries) + [entry]
      ensures |entries| == |old(entries)| + 1 && entries[|entries| - 1] == entry
      ensures entries[..|old(entries)|] == old(entries)
      ensures isSealed == old(isSealed) && isUnwound == old(isUnwound)
    {
      entries := entries + [entry];
    }

    /** `RecordEntry` for each of `es` in turn: the book then lists them after the earlier
        entries, in the order they were recorded. */
    method RecordAll(es: seq<Entry>)
      modifies this
      ensures Entries() == old(Entries()) + es
      ensures isSealed == old(isSealed) && isUnwound == old(isUnwound)
    {
      for i := 0 to |es|
        invariant entries == old(entries) + es[..i]
        invariant isSealed == old(isSealed) && isUnwound == old(isUnwound)
      {
        RecordEntry(es[i]);
        assert es[..i + 1] == es[..i] + [es[i]];
      }
      assert es[..|es|] == es;
    }

    /** The `internal set` of `IsSealed`. */
    method SetSealed(value: bool)
      modifies this
      ensures isSealed == value
      ensures entries == old(entries) && isUnwound == old(isUnwound)
    {
      isSealed := value;
    }

    /** The `internal set` of `IsUnwound`. */
    method SetUnwound(value: bool)
      modifies this
      ensures isUnwound == value
      ensures entries == old(entries) && isSealed == old(isSealed)
    {
      isUnwound := value;
    }
  }

  /** Recording into a sealed book still succeeds, and the book stays sealed. */
  method RecordIntoSealedBook<Entry>(book: JournalBook<Entry>, entry: Entry)
    requires book.isSealed
    modifies book
    ensures book.isSealed && book.Entries() == old(book.Entries()) + [entry]
  {
    book.RecordEntry(entry);
  }

  /** A new book that records `es` lists exactly `es`, in recording order. */
  method NewBookRecording<Entry>(hash: Hash, es: seq<Entry>) returns (book: JournalBook<Entry>)
    ensures book.bookHash == hash && book.Entries() == es
    ensures !book.isSealed && !book.isUnwound
  {
    book := new JournalBook(hash);
    book.RecordAll(es);
  }
}
