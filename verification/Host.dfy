/** The durable state of a host: the instance journal and the quarantine record, each a small object
    over the disk. Whether an IO call succeeds is the caller's `io` argument. */
module HostState {
  import opened Lifecycle
  import opened Ordering
  import M = Machine

  /** The bytes of one entry file: unreadable, not JSON, or a JSON object with the version it carries
      (if any) and the entry it decodes to (if its shape is right). */
  datatype FileContent =
    | IoFailure
    | NotJson
    | Json(version: Option<nat>, shape: Option<JournalEntry>)

  datatype ReadResult =
    | Ok(entry: JournalEntry)
    | ReadError
    | Corrupt
    | UnknownVersion(version: nat)

  /** The version is checked before the shape is trusted. */
  function ReadEntry(content: FileContent): ReadResult {
    match content
    case IoFailure => ReadError
    case NotJson => Corrupt
    case Json(version, shape) =>
      if version.None? || version.value >= 0x1_0000_0000 then UnknownVersion(0)
      else if version.value != JOURNAL_VERSION then UnknownVersion(version.value)
      else if shape.Some? then Ok(shape.value)
      else Corrupt
  }

  function Encode(entry: JournalEntry): FileContent {
    Json(if entry.version >= 0 then Some(entry.version) else None, Some(entry))
  }

  /** An entry written by this version of the agent reads back as it was written. */
  lemma EntryRoundTrip(entry: JournalEntry)
    ensures ReadEntry(Encode(entry)) == Ok(entry) <==> entry.version == 1
  {
  }

  /** Nothing else is ever taken for an entry, or for a version that is known. */
  lemma ReadIff(content: FileContent, entry: JournalEntry)
    ensures ReadEntry(content) == Ok(entry) <==> content == Json(Some(1), Some(entry))
    ensures ReadEntry(content).UnknownVersion? <==>
              content.Json? && (content.version.None? || content.version.value != 1)
    ensures ReadEntry(content).ReadError? <==> content.IoFailure?
  {
  }

  class Journal {
    /** One file per instance id, the file stem. */
    var files: map<InstanceId, FileContent>

    /** A readable entry is stored under the id it names. */
    predicate Valid()
      reads this
    {
      forall id :: id in files && ReadEntry(files[id]).Ok? ==> ReadEntry(files[id]).entry.instanceId == id
    }

    constructor ()
      ensures Valid() && files == map[]
    {
      files := map[];
    }

    /** Atomic: the whole entry becomes visible, or nothing changes. */
    method Write(entry: JournalEntry, io: bool) returns (ok: bool)
      requires Valid()
      modifies this
      ensures Valid() && ok == io
      ensures files == if ok then old(files)[entry.instanceId := Encode(entry)] else old(files)
    {
      if io {
        files := files[entry.instanceId := Encode(entry)];
      }
      ok := io;
    }

    /** Idempotent: an absent entry is already removed. */
    method Remove(id: InstanceId, io: bool) returns (ok: bool)
      requires Valid()
      modifies this
      ensures Valid() && ok == (io || id !in old(files))
      ensures files == if ok then old(files) - {id} else old(files)
    {
      ok := io || id !in files;
      if ok {
        files := files - {id};
      }
    }

    /** Every entry exactly once, each readable or broken on its own, sorted. */
    method List(errorText: ErrorText) returns (entries: seq<Listed>)
      requires Valid()
      ensures IsListing(entries, files, files.Keys) && SortedBy(entries, KeyBy(errorText))
    {
      hide IsListing;
      entries := [];
      var left := files.Keys;
      NothingListed(files);
      while left != {}
        invariant left <= files.Keys && IsListing(entries, files, files.Keys - left)
        invariant SortedBy(entries, KeyBy(errorText))
        decreases left
      {
        var id :| id in left;
        var k, more := Insert(entries, (id, ReadEntry(files[id])), KeyBy(errorText));
        OneMoreListed(entries, files, files.Keys - left, id, k);
        assert (files.Keys - left) + {id} == files.Keys - (left - {id});
        entries, left := more, left - {id};
      }
      assert files.Keys - left == files.Keys;
    }
  }

  type Listed = (InstanceId, ReadResult)

  /** The message of an entry that cannot be read. */
  type ErrorText = (InstanceId, ReadResult) -> string

  /** Readable entries sort by their id, the others by their message. */
  function KeyBy(errorText: ErrorText): Listed -> string {
    (e: Listed) => if e.1.Ok? then e.1.entry.instanceId else errorText(e.0, e.1)
  }

  predicate EachOnce(entries: seq<Listed>) {
    forall j, k :: 0 <= j < k < |entries| ==> entries[j].0 != entries[k].0
  }

  /** The entries of the files `among`, each once. */
  predicate IsListing(entries: seq<Listed>, files: map<InstanceId, FileContent>, among: set<InstanceId>) {
    && EachOnce(entries)
    && (forall e :: e in entries ==> e.0 in among && e.0 in files && e.1 == ReadEntry(files[e.0]))
    && (forall id :: id in among && id in files ==> (id, ReadEntry(files[id])) in entries)
  }

  lemma NothingListed(files: map<InstanceId, FileContent>)
    ensures IsListing([], files, files.Keys - files.Keys)
  {
  }

  lemma StaysEachOnce(entries: seq<Listed>, e: Listed, k: nat)
    requires k <= |entries| && EachOnce(entries) && forall x :: x in entries ==> x.0 != e.0
    ensures EachOnce(entries[..k] + [e] + entries[k..])
  {
    var more := entries[..k] + [e] + entries[k..];
    Inserted(entries, e, k);
    forall i, j | 0 <= i < j < |more|
      ensures more[i].0 != more[j].0
    {
      var a, b := if i < k then i else i - 1, if j < k then j else j - 1;
      assert i != k ==> more[i] == entries[a];
      assert j != k ==> more[j] == entries[b];
    }
  }

  lemma OneMoreListed(entries: seq<Listed>, files: map<InstanceId, FileContent>, among: set<InstanceId>,
                      id: InstanceId, k: nat)
    requires k <= |entries| && IsListing(entries, files, among) && id in files && id !in among
    ensures IsListing(entries[..k] + [(id, ReadEntry(files[id]))] + entries[k..], files, among + {id})
  {
    hide ReadEntry, EachOnce;
    var one := (id, ReadEntry(files[id]));
    var more := entries[..k] + [one] + entries[k..];
    StaysEachOnce(entries, one, k);
    assert forall e :: e in more <==> e in entries || e == one by {
      Inserted(entries, one, k);
    }
    forall i | i in among + {id} && i in files
      ensures (i, ReadEntry(files[i])) in more
    {
      assert i in among ==> (i, ReadEntry(files[i])) in entries;
    }
  }

  // ----- Quarantine -----

  datatype TaintRecord = TaintRecord(reason: M.Reason, instanceId: string)

  datatype TaintFile = Absent | Written(record: TaintRecord) | Unreadable(error: string)

  /** A record that exists but cannot be read still counts as tainted. */
  function CurrentTaint(file: TaintFile): Option<TaintRecord> {
    match file
    case Absent => None
    case Written(record) => Some(record)
    case Unreadable(error) => Some(TaintRecord(M.Plain(error), ""))
  }

  class Taint {
    var file: TaintFile

    constructor ()
      ensures file.Absent?
    {
      file := Absent;
    }

    method Current() returns (record: Option<TaintRecord>)
      ensures match file
              case Absent => record.None?
              case Written(written) => record == Some(written)
              case Unreadable(error) => record.Some? && record.value.reason == M.Plain(error)
    {
      record := CurrentTaint(file);
    }

    /** The first record is kept: it is the root cause. */
    method Mark(record: TaintRecord, io: bool) returns (ok: bool)
      modifies this
      ensures ok == (io || !old(file).Absent?)
      ensures file == if old(file).Absent? && io then Written(record) else old(file)
      ensures ok ==> !file.Absent?
    {
      var current := Current();
      if current.Some? {
        return true;
      }
      if io {
        file := Written(record);
      }
      ok := io;
    }

    method Clear(io: bool) returns (ok: bool)
      modifies this
      ensures ok == (io || old(file).Absent?)
      ensures file == if ok then Absent else old(file)
    {
      ok := io || file.Absent?;
      if ok {
        file := Absent;
      }
    }
  }
}
